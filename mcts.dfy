/** The search-tree sampler of graph.py (`visualize_mcts_tree` up to the
    layout call): a breadth-first walk of the tree down to a depth cap that
    keeps, at each node, the children with the best mean value and a random
    few more, and emits a coloured, labelled directed graph.  A node is
    identified by its path of child indices from the root. */
module TreeSampler {
  import opened Values
  import opened Actions
  import opened Snapshots

  datatype MctsNode = MctsNode(value: real, visits: int, action: Action, children: seq<MctsNode>)

  type Path = seq<nat>

  /** The node a path leads to, if every step is a valid child index. */
  function NodeAt(root: MctsNode, p: Path): Option<MctsNode>
  {
    if p == [] then Some(root)
    else match NodeAt(root, p[..|p| - 1])
      case None => None
      case Some(m) => if p[|p| - 1] < |m.children| then Some(m.children[p[|p| - 1]]) else None
  }

  lemma ChildAt(root: MctsNode, p: Path, c: nat)
    requires NodeAt(root, p).Some? && c < |NodeAt(root, p).value.children|
    ensures NodeAt(root, p + [c]) == Some(NodeAt(root, p).value.children[c])
  {
    assert (p + [c])[..|p|] == p;
  }

  /** The exploitation value: total value over visits, 0 when unvisited. */
  function Mean(n: MctsNode): (r: real)
    ensures n.visits > 0 ==> r * (n.visits as real) == n.value
    ensures n.visits <= 0 ==> r == 0.0
  {
    if n.visits > 0 then n.value / (n.visits as real) else 0.0
  }

  /** The node colours used in the drawing. */
  datatype Shade = LightBlueFill | RedFill | SalmonFill | LightCoralFill | MistyRoseFill | WhiteFill

  function Clamp(x: real): (r: real)
    ensures 0.0 <= r <= 1.0
    ensures 0.0 <= x <= 1.0 ==> r == x
    ensures x < 0.0 ==> r == 0.0
    ensures x > 1.0 ==> r == 1.0
  {
    if x > 1.0 then 1.0 else if x < 0.0 then 0.0 else x
  }

  /** The colour bucket of a ratio: strict thresholds at 0.8, 0.6, 0.4 and 0.2,
      so a boundary value falls in the cooler bucket. */
  function Bucket(ratio: real): (s: Shade)
    ensures s == RedFill <==> ratio > 0.8
    ensures s == SalmonFill <==> 0.6 < ratio <= 0.8
    ensures s == LightCoralFill <==> 0.4 < ratio <= 0.6
    ensures s == MistyRoseFill <==> 0.2 < ratio <= 0.4
    ensures s == WhiteFill <==> ratio <= 0.2
  {
    if ratio > 0.8 then RedFill
    else if ratio > 0.6 then SalmonFill
    else if ratio > 0.4 then LightCoralFill
    else if ratio > 0.2 then MistyRoseFill
    else WhiteFill
  }

  /** Heat order of the buckets, coolest first. */
  function Heat(s: Shade): nat
  {
    match s
    case WhiteFill => 0
    case MistyRoseFill => 1
    case LightCoralFill => 2
    case SalmonFill => 3
    case RedFill => 4
    case LightBlueFill => 0
  }

  /** A higher ratio never gets a cooler colour. */
  lemma BucketMonotone(x: real, y: real)
    requires x <= y
    ensures Heat(Bucket(x)) <= Heat(Bucket(y))
  {
  }

  function Max1(v: int): int
  {
    if v > 1 then v else 1
  }

  /** A child's colour: white when unvisited, else the bucket of its clamped
      value-per-visit ratio. */
  function ShadeOf(n: MctsNode): (s: Shade)
    ensures s != LightBlueFill
    ensures n.visits <= 0 ==> s == WhiteFill
  {
    if n.visits > 0 then Bucket(Clamp(n.value / (Max1(n.visits) as real))) else WhiteFill
  }

  /** The colour is the bucket of the clamped mean, the same mean that orders
      the children and labels the node. */
  lemma ShadeFollowsMean(n: MctsNode)
    ensures n.visits <= 0 ==> ShadeOf(n) == WhiteFill
    ensures n.visits > 0 ==> ShadeOf(n) == Bucket(Clamp(Mean(n)))
    ensures n.visits > 0 && Mean(n) > 0.8 ==> ShadeOf(n) == RedFill
    ensures n.visits > 0 && Mean(n) <= 0.2 ==> ShadeOf(n) == WhiteFill
  {
  }

  /** The label on the edge into a child. */
  datatype Label =
    | NoActionLabel            // "No action"
    | ClaimLabel(from: Item, to: Item)
    | DrawCardsLabel
    | DrawDestLabel(count: int)

  /** The total of the numbers in `items`, counted from the front. */
  function NumTotal(items: seq<Item>): int
    requires forall i :: 0 <= i < |items| ==> items[i].Num?
  {
    if items == [] then 0 else items[0].n + NumTotal(items[1..])
  }

  /** Adding the numbers from the back gives the same total. */
  lemma {:induction false} NumTotalSnoc(items: seq<Item>)
    requires items != [] && forall i :: 0 <= i < |items| ==> items[i].Num?
    ensures NumTotal(items) == NumTotal(items[..|items| - 1]) + items[|items| - 1].n
  {
    if |items| > 1 {
      NumTotalSnoc(items[1..]);
      assert items[1..][..|items| - 2] == items[..|items| - 1][1..];
    }
  }

  /** The total of at most two numbers, written out. */
  lemma NumTotalShort(items: seq<Item>)
    requires |items| <= 2 && forall i :: 0 <= i < |items| ==> items[i].Num?
    ensures NumTotal(items) == if |items| == 0 then 0 else if |items| == 1 then items[0].n else items[0].n + items[1].n
  {
    if |items| > 0 {
      assert |items[1..]| == 0 ==> NumTotal(items[1..]) == 0;
      if |items| == 2 {
        assert items[1..][1..] == [];
      }
    }
  }

  /** Python's `sum` over a slice of an action, a left fold from 0: numbers
      only, their total; a string or a card raises (None). */
  function SumItems(items: seq<Item>): (r: Option<int>)
    ensures r.Some? <==> forall i :: 0 <= i < |items| ==> items[i].Num?
    ensures r.Some? ==> r.value == NumTotal(items)
  {
    if items == [] then Some(0)
    else match SumItems(items[..|items| - 1])
      case None => None
      case Some(t) =>
        if items[|items| - 1].Num? then
          NumTotalSnoc(items);
          Some(t + items[|items| - 1].n)
        else None
  }

  /** The edge label for an action, None where computing it raises (a
      claim with fewer than three elements, or a destination draw whose
      counts are not numbers). */
  function EdgeLabel(action: Action): (l: Option<Label>)
    ensures action == [] <==> l == Some(NoActionLabel)
    ensures action != [] && action[0] == ClaimRoute ==>
      (l.Some? <==> |action| >= 3) && (l.Some? ==> l.value == ClaimLabel(action[1], action[2]))
    ensures action != [] && action[0] == DrawTwoTrainCards ==> l == Some(DrawCardsLabel)
    ensures action != [] && action[0] != ClaimRoute && action[0] != DrawTwoTrainCards ==>
      (l.Some? <==> forall i :: 1 <= i < |action| && i < 3 ==> action[i].Num?) &&
      (l.Some? ==> l.value == DrawDestLabel(
        if |action| == 1 then 0
        else if |action| == 2 then action[1].n
        else action[1].n + action[2].n))
  {
    if action == [] then Some(NoActionLabel)
    else if action[0] == ClaimRoute then
      (if |action| >= 3 then Some(ClaimLabel(action[1], action[2])) else None)
    else if action[0] == DrawTwoTrainCards then Some(DrawCardsLabel)
    else
      var counts := if |action| >= 3 then action[1..3] else action[1..];
      assert forall i :: 0 <= i < |counts| ==> counts[i] == action[i + 1];
      match SumItems(counts)
      case None => None
      case Some(n) =>
        NumTotalShort(counts);
        Some(DrawDestLabel(n))
  }

  /** The destination label adds two counts where the action panel of the
      viewer adds three: the same well-formed action is reported with
      different totals. */
  lemma DestinationCountsDiffer(action: Action, a: int, b: int, c: int)
    requires |action| >= 4 && action[0] == DrawDestinationTickets
    requires action[1] == Num(a) && action[2] == Num(b) && action[3] == Num(c)
    ensures EdgeLabel(action) == Some(DrawDestLabel(a + b))
    ensures FormatAction(action) == KeptTickets(action[|action| - 1], Num(a + b + c))
  {
    assert action[1..3] == [Num(a), Num(b)];
    assert [Num(a), Num(b)][..1] == [Num(a)];
    assert [Num(a)][..0] == [];
    assert SumItems([Num(a)]) == Some(a);
    assert KeptCount(action) == Some(Num(a + b + c));
  }

  /** Child `i` comes before child `j` in `sorted(..., reverse=True)` by
      mean: a higher mean first, and equal means keep their original order
      (the sort is stable). */
  predicate Before(children: seq<MctsNode>, i: nat, j: nat)
  {
    i < |children| && j < |children| &&
    (Mean(children[i]) > Mean(children[j]) || (Mean(children[i]) == Mean(children[j]) && i < j))
  }

  lemma BeforeTransitive(children: seq<MctsNode>, i: nat, j: nat, l: nat)
    requires Before(children, i, j) && Before(children, j, l)
    ensures Before(children, i, l)
  {
  }

  predicate Ordered(children: seq<MctsNode>, s: seq<nat>)
  {
    forall a, b :: 0 <= a < b < |s| ==> Before(children, s[a], s[b])
  }

  function Insert(children: seq<MctsNode>, x: nat, s: seq<nat>): (r: seq<nat>)
    ensures multiset(r) == multiset(s) + multiset{x}
    ensures |r| == |s| + 1
  {
    if s == [] then [x]
    else if Before(children, x, s[0]) then [x] + s
    else
      assert s == [s[0]] + s[1..];
      [s[0]] + Insert(children, x, s[1..])
  }

  lemma {:induction false} InsertOrdered(children: seq<MctsNode>, x: nat, s: seq<nat>)
    requires x < |children| && x !in s && Ordered(children, s)
    requires forall a :: 0 <= a < |s| ==> s[a] < |children|
    ensures Ordered(children, Insert(children, x, s))
  {
    if s != [] {
      if Before(children, x, s[0]) {
        var r := [x] + s;
        forall a, b | 0 <= a < b < |r| ensures Before(children, r[a], r[b]) {
          if a == 0 && b > 1 {
            BeforeTransitive(children, x, s[0], s[b - 1]);
          } else if a > 0 {
            assert r[a] == s[a - 1] && r[b] == s[b - 1];
          }
        }
      } else {
        OrderedTail(children, s);
        InsertOrdered(children, x, s[1..]);
        var rest := Insert(children, x, s[1..]);
        assert s[0] in s && s[0] < |children|;
        InsertFollows(children, x, s, rest);
        var r := [s[0]] + rest;
        forall a, b | 0 <= a < b < |r| ensures Before(children, r[a], r[b]) {
          if a > 0 {
            assert r[a] == rest[a - 1] && r[b] == rest[b - 1];
          }
        }
      }
    }
  }

  lemma OrderedTail(children: seq<MctsNode>, s: seq<nat>)
    requires s != [] && Ordered(children, s)
    ensures Ordered(children, s[1..])
    ensures forall a :: 0 <= a < |s| - 1 ==> s[1..][a] == s[a + 1]
  {
  }

  /** When `x` goes after `s[0]`, everything inserted after `s[0]` comes
      after it. */
  lemma InsertFollows(children: seq<MctsNode>, x: nat, s: seq<nat>, rest: seq<nat>)
    requires s != [] && x < |children| && !Before(children, x, s[0]) && x != s[0]
    requires Ordered(children, s) && s[0] < |children|
    requires multiset(rest) == multiset(s[1..]) + multiset{x}
    ensures forall b :: 0 <= b < |rest| ==> Before(children, s[0], rest[b])
  {
    forall b | 0 <= b < |rest| ensures Before(children, s[0], rest[b]) {
      assert rest[b] in multiset(rest);
      if rest[b] != x {
        assert rest[b] in s[1..];
      }
    }
  }

  /** The child indices `0..n-1` in the order `sorted` puts the first `n`
      children in. */
  function SortByMeanUpTo(children: seq<MctsNode>, n: nat): (r: seq<nat>)
    requires n <= |children|
    ensures |r| == n
  {
    if n == 0 then [] else Insert(children, n - 1, SortByMeanUpTo(children, n - 1))
  }

  function SortByMean(children: seq<MctsNode>): (r: seq<nat>)
    ensures |r| == |children|
  {
    SortByMeanUpTo(children, |children|)
  }

  /** The indices `0..n-1` in increasing order. */
  function Range(n: nat): (r: seq<nat>)
    ensures |r| == n
    ensures forall i :: 0 <= i < n ==> r[i] == i
  {
    if n == 0 then [] else Range(n - 1) + [n - 1]
  }

  /** The first `n` sorted indices are a permutation of `0..n-1`. */
  lemma {:induction false} SortByMeanUpToPermutes(children: seq<MctsNode>, n: nat)
    requires n <= |children|
    ensures multiset(SortByMeanUpTo(children, n)) == multiset(Range(n))
  {
    if n > 0 {
      var last: nat := n - 1;
      var s := SortByMeanUpTo(children, last);
      SortByMeanUpToPermutes(children, last);
      calc {
        multiset(SortByMeanUpTo(children, n));
        multiset(Insert(children, last, s));
        multiset(s) + multiset{last};
        multiset(Range(last)) + multiset{last};
        multiset(Range(last) + [last]);
      }
    }
  }

  /** The sort lists every child exactly once, in order of mean (descending,
      ties in original order). */
  lemma {:induction false} SortByMeanUpToCorrect(children: seq<MctsNode>, n: nat)
    requires n <= |children|
    ensures multiset(SortByMeanUpTo(children, n)) == multiset(Range(n))
    ensures Ordered(children, SortByMeanUpTo(children, n))
  {
    SortByMeanUpToPermutes(children, n);
    if n > 0 {
      var last: nat := n - 1;
      var s := SortByMeanUpTo(children, last);
      SortByMeanUpToCorrect(children, last);
      RangeMembers(s, last);
      forall a | 0 <= a < |s| ensures s[a] < |children| {
        assert s[a] in s;
      }
      InsertOrdered(children, last, s);
    }
  }

  lemma RangeMembers(s: seq<nat>, n: nat)
    requires multiset(s) == multiset(Range(n))
    ensures forall i: nat :: i in s <==> i < n
  {
    forall i: nat ensures i in s <==> i < n {
      assert i in s <==> i in multiset(s);
      if i < n {
        assert Range(n)[i] == i;
      }
      assert i in Range(n) <==> i in multiset(Range(n));
    }
  }

  /** Each index of a sequence whose multiset is `0..n-1` occurs once. */
  lemma RangeDistinct(s: seq<nat>, n: nat)
    requires multiset(s) == multiset(Range(n))
    ensures NoRepeats(s)
  {
    forall i, j | 0 <= i < j < |s| ensures s[i] != s[j] {
      if s[i] == s[j] {
        assert s == s[..i] + [s[i]] + s[i + 1..j] + [s[j]] + s[j + 1..];
        assert multiset(s)[s[i]] >= 2;
        RangeCount(n, s[i]);
      }
    }
  }

  lemma {:induction false} RangeCount(n: nat, x: nat)
    ensures multiset(Range(n))[x] == if x < n then 1 else 0
  {
    if n > 0 {
      var last: nat := n - 1;
      RangeCount(last, x);
      SnocCount(Range(last), last, x);
    }
  }

  lemma SnocCount(s: seq<nat>, y: nat, x: nat)
    ensures multiset(s + [y])[x] == multiset(s)[x] + (if x == y then 1 else 0)
  {
    assert multiset(s + [y]) == multiset(s) + multiset{y};
  }

  /** The sorted order is a permutation of the child indices, best mean
      first. */
  lemma SortByMeanCorrect(children: seq<MctsNode>)
    ensures |SortByMean(children)| == |children|
    ensures NoRepeats(SortByMean(children))
    ensures forall i: nat :: i in SortByMean(children) <==> i < |children|
    ensures Ordered(children, SortByMean(children))
  {
    SortByMeanUpToCorrect(children, |children|);
    RangeDistinct(SortByMean(children), |children|);
    RangeMembers(SortByMean(children), |children|);
  }

  /** The children drawn under one node, as indices, in the order drawn:
      all of them in sorted order when there are at most `k`; otherwise the
      three best followed by `k - 3` distinct others chosen at random. */
  method SelectChildren(children: seq<MctsNode>, k: int) returns (selected: seq<nat>)
    requires k >= 3
    ensures |children| <= k ==> selected == SortByMean(children)
    ensures |children| > k ==>
      && |selected| == k
      && selected[..3] == SortByMean(children)[..3]
      && (forall j :: 3 <= j < k ==> selected[j] in SortByMean(children)[3..])
    ensures NoRepeats(selected)
    ensures forall j :: 0 <= j < |selected| ==> selected[j] < |children|
  {
    var sorted := SortByMean(children);
    SortByMeanCorrect(children);
    if |sorted| > k {
      var top := sorted[..3];
      var others := sorted[3..];
      assert NoRepeats(others[..k - 3]) && |others[..k - 3]| == k - 3;
      var rest :| NoRepeats(rest) && |rest| == k - 3 && forall x :: x in rest ==> x in others;
      selected := top + rest;
      forall j | 3 <= j < k ensures selected[j] in others {
        assert selected[j] == rest[j - 3];
      }
      assert NoRepeats(top);
      forall x | x in rest ensures x !in top {
        var m :| 0 <= m < |others| && others[m] == x;
        assert others[m] == sorted[3 + m];
      }
      NoRepeatsAppend(top, rest);
      forall j | 0 <= j < |selected| ensures selected[j] < |children| {
        if j >= 3 {
          assert selected[j] == rest[j - 3] && rest[j - 3] in others;
        }
        assert selected[j] in sorted;
      }
    } else {
      selected := sorted;
      forall j | 0 <= j < |selected| ensures selected[j] < |children| {
        assert selected[j] in sorted;
      }
    }
  }

  /** Every edge below the root can be labelled without raising. */
  ghost predicate AllLabelled(n: MctsNode)
  {
    forall i :: 0 <= i < |n.children| ==> EdgeLabel(n.children[i].action).Some? && AllLabelled(n.children[i])
  }

  lemma {:induction false} LabelledBelow(root: MctsNode, q: Path)
    requires AllLabelled(root) && NodeAt(root, q).Some?
    ensures AllLabelled(NodeAt(root, q).value)
    ensures q != [] ==> EdgeLabel(NodeAt(root, q).value.action).Some?
  {
    if q != [] {
      LabelledBelow(root, q[..|q| - 1]);
    }
  }

  /** A label that raises means some node of the tree is malformed. */
  lemma UnlabelledChild(root: MctsNode, q: Path)
    requires NodeAt(root, q).Some? && q != [] && EdgeLabel(NodeAt(root, q).value.action).None?
    ensures !AllLabelled(root)
  {
    if AllLabelled(root) {
      LabelledBelow(root, q);
    }
  }

  /** A drawn node (its path identifies it) with its visit count, mean value
      and colour. */
  datatype Vertex = Vertex(path: Path, visits: int, mean: real, colour: Shade)

  /** A drawn edge from parent to child with its label. */
  datatype Edge = Edge(from: Path, to: Path, caption: Label)

  /** The graph, nodes and edges in insertion order, or the exception that
      an unlabelable action raises part-way. */
  datatype Outcome = Drawn(vertices: seq<Vertex>, edges: seq<Edge>) | Raised

  /** The attributes a tree node is drawn with: the root is light blue,
      every other node takes its bucket colour. */
  function Describe(n: MctsNode, p: Path): Vertex
  {
    Vertex(p, n.visits, Mean(n), if p == [] then LightBlueFill else ShadeOf(n))
  }

  function Power(k: nat, e: nat): nat
  {
    if e == 0 then 1 else k * Power(k, e - 1)
  }

  /** `n` children that may still be drawn, each bringing up to `room`
      nodes: `n * room`, unfolded one child at a time. */
  function Reserve(n: nat, room: int): int
  {
    if n == 0 then 0 else room + Reserve(n - 1, room)
  }

  lemma {:induction false} ReserveIsProduct(n: nat, room: int)
    ensures Reserve(n, room) == n * room
  {
    if n > 0 {
      ReserveIsProduct(n - 1, room);
    }
  }

  lemma {:induction false} ReserveNonNegative(n: nat, room: int)
    requires room >= 0
    ensures Reserve(n, room) >= 0
  {
    if n > 0 {
      ReserveNonNegative(n - 1, room);
    }
  }

  /** The most nodes a tree of branching `k` has down to depth `h`: a root
      and `k` subtrees one level shallower. */
  function Capacity(k: nat, h: int): int
    decreases h
  {
    if h <= 0 then 1 else 1 + Reserve(k, Capacity(k, h - 1))
  }

  lemma {:induction false} CapacityPositive(k: nat, h: int)
    ensures Capacity(k, h) >= 1
    decreases h
  {
    if h > 0 {
      CapacityPositive(k, h - 1);
      ReserveNonNegative(k, Capacity(k, h - 1));
    }
  }

  /** The bound satisfies C(h) = 1 + k C(h-1) and is at least 1. */
  lemma CapacityStep(k: nat, h: int)
    ensures Capacity(k, h) >= 1
    ensures h >= 1 ==> Capacity(k, h) == 1 + k * Capacity(k, h - 1)
  {
    CapacityPositive(k, h);
    ReserveIsProduct(k, Capacity(k, h - 1));
  }

  /** ... so it is the geometric sum 1 + k + k^2 + ... + k^h. */
  lemma {:induction false} CapacityIsGeometric(k: nat, h: int)
    ensures h <= 0 ==> Capacity(k, h) == 1
    ensures h >= 1 ==> Capacity(k, h) == Capacity(k, h - 1) + Power(k, h)
    decreases h
  {
    if h >= 1 {
      CapacityStep(k, h);
      if h > 1 {
        CapacityIsGeometric(k, h - 1);
        CapacityStep(k, h - 1);
        calc {
          Capacity(k, h);
          1 + k * Capacity(k, h - 1);
          1 + k * (Capacity(k, h - 2) + Power(k, h - 1));
          1 + k * Capacity(k, h - 2) + k * Power(k, h - 1);
          Capacity(k, h - 1) + Power(k, h);
        }
      }
    }
  }

  /** Nodes that a queued vertex at its depth may still bring in. */
  function Room(k: nat, maxDepth: int, v: Vertex): int
  {
    Capacity(k, maxDepth - |v.path|) - 1
  }

  function SumRoom(k: nat, maxDepth: int, vs: seq<Vertex>): int
  {
    if vs == [] then 0 else Room(k, maxDepth, vs[0]) + SumRoom(k, maxDepth, vs[1..])
  }

  lemma {:induction false} SumRoomAppend(k: nat, maxDepth: int, vs: seq<Vertex>, v: Vertex)
    ensures SumRoom(k, maxDepth, vs + [v]) == SumRoom(k, maxDepth, vs) + Room(k, maxDepth, v)
    ensures SumRoom(k, maxDepth, vs) >= 0
  {
    CapacityPositive(k, maxDepth - |v.path|);
    if vs != [] {
      assert (vs + [v])[1..] == vs[1..] + [v];
      SumRoomAppend(k, maxDepth, vs[1..], v);
      CapacityPositive(k, maxDepth - |vs[0].path|);
    }
  }

  /** A vertex stands for a real node of the tree, with that node's
      attributes, no deeper than the cap (the root always). */
  ghost predicate Placed(root: MctsNode, maxDepth: int, v: Vertex)
  {
    NodeAt(root, v.path).Some? && v == Describe(NodeAt(root, v.path).value, v.path) &&
    (v.path == [] || |v.path| <= maxDepth)
  }

  /** The edge comes from the parent of the vertex it leads to, labelled by
      that vertex's action. */
  ghost predicate EdgeInto(root: MctsNode, e: Edge, v: Vertex)
  {
    v.path != [] && NodeAt(root, v.path).Some? &&
    e == Edge(v.path[..|v.path| - 1], v.path, e.caption) &&
    EdgeLabel(NodeAt(root, v.path).value.action) == Some(e.caption)
  }

  /** The shape of the graph: the root comes first, every node is placed
      once, nodes were added in nondecreasing depth (breadth-first), and
      each non-root node has exactly one incoming edge, from its parent. */
  ghost predicate Drawing(root: MctsNode, maxDepth: int, vs: seq<Vertex>, es: seq<Edge>)
  {
    && |vs| >= 1 && vs[0] == Describe(root, [])
    && (forall i :: 0 <= i < |vs| ==> Placed(root, maxDepth, vs[i]))
    && (forall i, j :: 0 <= i < j < |vs| ==> vs[i].path != vs[j].path)
    && (forall i, j :: 0 <= i < j < |vs| ==> |vs[i].path| <= |vs[j].path|)
    && |es| == |vs| - 1
    && (forall i :: 0 <= i < |es| ==> EdgeInto(root, es[i], vs[i + 1]))
  }

  predicate IsChildPath(x: Path, q: Path)
  {
    |x| == |q| + 1 && x[..|q|] == q
  }

  /** The child indices of `q` that have been drawn. */
  function ChildIndices(vs: seq<Vertex>, q: Path): set<nat>
  {
    set i | 0 <= i < |vs| && IsChildPath(vs[i].path, q) :: vs[i].path[|q|]
  }

  function Members(s: seq<nat>): set<nat>
  {
    set x | x in s
  }

  /** What the selection keeps, as a set: all children when there are at
      most `k`, otherwise exactly `k` of them including the three best. */
  ghost predicate SelectionKept(n: MctsNode, k: nat, kept: set<nat>)
  {
    if |n.children| <= k then kept == Members(SortByMean(n.children))
    else
      && |kept| == k
      && (forall c :: c in kept ==> c < |n.children|)
      && (forall a :: 0 <= a < 3 && a < |n.children| ==> SortByMean(n.children)[a] in kept)
  }

  /** The children drawn under a vertex: the selection when it lies above
      the cap, none at the cap. */
  ghost predicate ChildrenDrawn(root: MctsNode, maxDepth: int, k: nat, vs: seq<Vertex>, v: Vertex)
  {
    NodeAt(root, v.path).Some? &&
    if |v.path| < maxDepth then SelectionKept(NodeAt(root, v.path).value, k, ChildIndices(vs, v.path))
    else ChildIndices(vs, v.path) == {}
  }

  /** The worklist holds exactly the vertices from `head` on, with their
      nodes. */
  ghost predicate Mirrors(root: MctsNode, queue: seq<(MctsNode, Path)>, vs: seq<Vertex>, head: nat)
  {
    head <= |vs| && |queue| == |vs| - head &&
    forall i :: 0 <= i < |queue| ==> queue[i].1 == vs[head + i].path && NodeAt(root, queue[i].1) == Some(queue[i].0)
  }

  /** The graph is well formed, the worklist holds the vertices from
      `head` on, and none of those has drawn children yet. */
  ghost predicate Settled(root: MctsNode, maxDepth: int, vs: seq<Vertex>, es: seq<Edge>,
                          queue: seq<(MctsNode, Path)>, head: nat)
  {
    && Drawing(root, maxDepth, vs, es) && Mirrors(root, queue, vs, head)
    && (forall i :: head <= i < |vs| ==> ChildIndices(vs, vs[i].path) == {})
  }

  /** The state between two iterations of the worklist loop. */
  ghost predicate Progress(root: MctsNode, maxDepth: int, k: nat, vs: seq<Vertex>, es: seq<Edge>,
                           queue: seq<(MctsNode, Path)>, head: nat)
  {
    && Settled(root, maxDepth, vs, es, queue, head)
    && (forall i :: 0 <= i < head ==> ChildrenDrawn(root, maxDepth, k, vs, vs[i]))
    && (head < |vs| ==> forall j :: 0 <= j < |vs| ==> |vs[j].path| <= |vs[head].path| + 1)
    && |vs| + SumRoom(k, maxDepth, vs[head..]) <= Capacity(k, maxDepth)
  }

  /** The state while the children of vertex `head - 1` are added. */
  ghost predicate Expanding(root: MctsNode, maxDepth: int, k: nat, vs: seq<Vertex>, es: seq<Edge>,
                            queue: seq<(MctsNode, Path)>, head: nat, n: MctsNode, sel: seq<nat>, j: nat)
  {
    && 1 <= head <= |vs| && j <= |sel| <= k
    && NodeAt(root, vs[head - 1].path) == Some(n) && |vs[head - 1].path| < maxDepth
    && NoRepeats(sel) && (forall a :: 0 <= a < |sel| ==> sel[a] < |n.children|)
    && Settled(root, maxDepth, vs, es, queue, head)
    && (forall i :: 0 <= i < head - 1 ==> ChildrenDrawn(root, maxDepth, k, vs, vs[i]))
    && ChildIndices(vs, vs[head - 1].path) == Members(sel[..j])
    && (forall i :: 0 <= i < |vs| ==> |vs[i].path| <= |vs[head - 1].path| + 1)
    && |vs| + SumRoom(k, maxDepth, vs[head..]) + Reserve(k - j, Capacity(k, maxDepth - |vs[head - 1].path| - 1)) <= Capacity(k, maxDepth)
  }

  lemma ChildIndicesAppend(vs: seq<Vertex>, v: Vertex, q: Path)
    ensures ChildIndices(vs + [v], q) == ChildIndices(vs, q) + (if IsChildPath(v.path, q) then {v.path[|q|]} else {})
  {
    var w := vs + [v];
    forall x | x in ChildIndices(w, q) ensures x in ChildIndices(vs, q) + (if IsChildPath(v.path, q) then {v.path[|q|]} else {}) {
      var i :| 0 <= i < |w| && IsChildPath(w[i].path, q) && w[i].path[|q|] == x;
      if i < |vs| {
        assert vs[i] == w[i];
      }
    }
    forall x | x in ChildIndices(vs, q) ensures x in ChildIndices(w, q) {
      var i :| 0 <= i < |vs| && IsChildPath(vs[i].path, q) && vs[i].path[|q|] == x;
      assert w[i] == vs[i];
    }
    if IsChildPath(v.path, q) {
      assert w[|vs|] == v;
    }
  }

  /** Drawing the child `c` of `p` adds `c` to the drawn children of `p`
      and to no other vertex's. */
  lemma ChildIndicesGrow(vs: seq<Vertex>, v: Vertex, p: Path, c: nat)
    requires v.path == p + [c]
    ensures ChildIndices(vs + [v], p) == ChildIndices(vs, p) + {c}
    ensures forall q :: q != p ==> ChildIndices(vs + [v], q) == ChildIndices(vs, q)
  {
    assert (p + [c])[..|p|] == p;
    ChildIndicesAppend(vs, v, p);
    forall q | q != p ensures ChildIndices(vs + [v], q) == ChildIndices(vs, q) {
      ChildIndicesAppend(vs, v, q);
    }
  }

  lemma NoChildrenYet(vs: seq<Vertex>, q: Path)
    requires forall i :: 0 <= i < |vs| ==> |vs[i].path| <= |q|
    ensures ChildIndices(vs, q) == {}
  {
  }

  lemma NotDrawnYet(vs: seq<Vertex>, q: Path, c: nat)
    requires c !in ChildIndices(vs, q)
    ensures forall i :: 0 <= i < |vs| ==> vs[i].path != q + [c]
  {
    forall i | 0 <= i < |vs| ensures vs[i].path != q + [c] {
      if vs[i].path == q + [c] {
        assert IsChildPath(vs[i].path, q);
      }
    }
  }

  /** Adding an undrawn child of a placed vertex, no shallower than any
      vertex drawn so far, keeps the drawing well formed. */
  lemma DrawingGrows(root: MctsNode, maxDepth: int, vs: seq<Vertex>, es: seq<Edge>, p: Path, n: MctsNode, c: nat, l: Label)
    requires Drawing(root, maxDepth, vs, es)
    requires NodeAt(root, p) == Some(n) && c < |n.children| && |p| < maxDepth
    requires forall i :: 0 <= i < |vs| ==> vs[i].path != p + [c]
    requires forall i :: 0 <= i < |vs| ==> |vs[i].path| <= |p| + 1
    requires EdgeLabel(n.children[c].action) == Some(l)
    ensures Drawing(root, maxDepth, vs + [Describe(n.children[c], p + [c])], es + [Edge(p, p + [c], l)])
  {
    ChildAt(root, p, c);
    assert (p + [c])[..|p|] == p;
    var v := Describe(n.children[c], p + [c]);
    var vs', es' := vs + [v], es + [Edge(p, p + [c], l)];
    assert Placed(root, maxDepth, v);
    assert EdgeInto(root, es'[|es|], vs'[|vs|]);
    assert forall i :: 0 <= i < |vs| ==> vs'[i] == vs[i];
    assert forall i :: 0 <= i < |es| ==> es'[i] == es[i];
  }

  /** The room count: a child at depth d + 1 brings one node and its own
      room, which is what the parent reserved for it. */
  lemma RoomStep(k: nat, maxDepth: int, rest: seq<Vertex>, v: Vertex, j: nat, d: int)
    requires 0 <= j < k && |v.path| == d + 1 && d < maxDepth
    ensures (|rest| + 1) + SumRoom(k, maxDepth, rest + [v]) + Reserve(k - (j + 1), Capacity(k, maxDepth - d - 1))
         == |rest| + SumRoom(k, maxDepth, rest) + Reserve(k - j, Capacity(k, maxDepth - d - 1))
  {
    SumRoomAppend(k, maxDepth, rest, v);
  }

  lemma Start(root: MctsNode, maxDepth: int, k: nat)
    ensures Progress(root, maxDepth, k, [Describe(root, [])], [], [(root, [])], 0)
  {
    var vs := [Describe(root, [])];
    assert vs[0..] == vs && vs[1..] == [];
    CapacityPositive(k, maxDepth);
  }

  /** Taking a vertex at the cap off the worklist draws nothing below it. */
  lemma SkipAtCap(root: MctsNode, maxDepth: int, k: nat, vs: seq<Vertex>, es: seq<Edge>,
                  queue: seq<(MctsNode, Path)>, head: nat)
    requires Progress(root, maxDepth, k, vs, es, queue, head) && queue != []
    requires |queue[0].1| >= maxDepth
    ensures Progress(root, maxDepth, k, vs, es, queue[1..], head + 1)
  {
    assert vs[head..] == [vs[head]] + vs[head + 1..];
    assert vs[head..][1..] == vs[head + 1..];
    CapacityPositive(k, maxDepth - |vs[head].path|);
    assert ChildrenDrawn(root, maxDepth, k, vs, vs[head]);
    if head + 1 < |vs| {
      assert |vs[head].path| <= |vs[head + 1].path|;
    }
  }

  /** Taking a vertex shallower than the depth cap off the worklist starts drawing its
      selected children. */
  lemma BeginExpansion(root: MctsNode, maxDepth: int, k: nat, vs: seq<Vertex>, es: seq<Edge>,
                       queue: seq<(MctsNode, Path)>, head: nat, sel: seq<nat>)
    requires Progress(root, maxDepth, k, vs, es, queue, head) && queue != []
    requires |queue[0].1| < maxDepth
    requires |sel| <= k && NoRepeats(sel) && forall a :: 0 <= a < |sel| ==> sel[a] < |queue[0].0.children|
    ensures Expanding(root, maxDepth, k, vs, es, queue[1..], head + 1, queue[0].0, sel, 0)
  {
    assert vs[head..] == [vs[head]] + vs[head + 1..];
    assert vs[head..][1..] == vs[head + 1..];
    CapacityPositive(k, maxDepth - |vs[head].path|);
    assert Members(sel[..0]) == {};
  }

  /** Drawing a child of the vertex being expanded leaves the children of
      the vertices finished before it as they were. */
  lemma EarlierStillDrawn(root: MctsNode, maxDepth: int, k: nat, vs: seq<Vertex>, head: nat, v: Vertex, p: Path, c: nat)
    requires 1 <= head <= |vs| && p == vs[head - 1].path && v.path == p + [c]
    requires forall i, j :: 0 <= i < j < |vs| ==> vs[i].path != vs[j].path
    requires forall i :: 0 <= i < head - 1 ==> ChildrenDrawn(root, maxDepth, k, vs, vs[i])
    ensures forall i :: 0 <= i < head - 1 ==> ChildrenDrawn(root, maxDepth, k, vs + [v], (vs + [v])[i])
  {
    ChildIndicesGrow(vs, v, p, c);
    forall i | 0 <= i < head - 1 ensures ChildrenDrawn(root, maxDepth, k, vs + [v], (vs + [v])[i]) {
      assert (vs + [v])[i] == vs[i] && vs[i].path != p;
    }
  }

  /** ... and a vertex still on the worklist, or the new one, has no drawn
      children. */
  lemma LaterStillFresh(vs: seq<Vertex>, v: Vertex, from: nat, p: Path, c: nat)
    requires v.path == p + [c] && from <= |vs|
    requires forall i :: from <= i < |vs| ==> vs[i].path != p && ChildIndices(vs, vs[i].path) == {}
    requires forall i :: 0 <= i < |vs| ==> |vs[i].path| <= |p| + 1
    ensures forall i :: from <= i < |vs| + 1 ==> ChildIndices(vs + [v], (vs + [v])[i].path) == {}
  {
    ChildIndicesGrow(vs, v, p, c);
    NoChildrenYet(vs + [v], p + [c]);
    forall i | from <= i < |vs| ensures ChildIndices(vs + [v], (vs + [v])[i].path) == {} {
      assert (vs + [v])[i] == vs[i];
    }
  }

  /** Enqueueing a node together with drawing its vertex keeps the
      worklist in step with the vertices. */
  lemma MirrorsGrow(root: MctsNode, queue: seq<(MctsNode, Path)>, vs: seq<Vertex>, head: nat, node: MctsNode, v: Vertex)
    requires Mirrors(root, queue, vs, head)
    requires NodeAt(root, v.path) == Some(node)
    ensures Mirrors(root, queue + [(node, v.path)], vs + [v], head)
  {
  }

  /** Drawing an undrawn child of the vertex being expanded keeps the graph
      well formed and the worklist in step. */
  lemma SettledGrows(root: MctsNode, maxDepth: int, vs: seq<Vertex>, es: seq<Edge>,
                     queue: seq<(MctsNode, Path)>, head: nat, n: MctsNode, p: Path, c: nat, l: Label)
    requires Settled(root, maxDepth, vs, es, queue, head)
    requires 1 <= head <= |vs| && p == vs[head - 1].path && |p| < maxDepth
    requires NodeAt(root, p) == Some(n) && c < |n.children| && c !in ChildIndices(vs, p)
    requires forall i :: 0 <= i < |vs| ==> |vs[i].path| <= |p| + 1
    requires EdgeLabel(n.children[c].action) == Some(l)
    ensures Settled(root, maxDepth, vs + [Describe(n.children[c], p + [c])], es + [Edge(p, p + [c], l)],
                    queue + [(n.children[c], p + [c])], head)
  {
    var v := Describe(n.children[c], p + [c]);
    NotDrawnYet(vs, p, c);
    DrawingGrows(root, maxDepth, vs, es, p, n, c, l);
    ChildAt(root, p, c);
    MirrorsGrow(root, queue, vs, head, n.children[c], v);
    assert forall i :: head <= i < |vs| ==> vs[i].path != p;
    LaterStillFresh(vs, v, head, p, c);
  }

  /** Drawing one selected child keeps the expansion state. */
  lemma AddChild(root: MctsNode, maxDepth: int, k: nat, vs: seq<Vertex>, es: seq<Edge>,
                 queue: seq<(MctsNode, Path)>, head: nat, n: MctsNode, sel: seq<nat>, j: nat, p: Path, l: Label)
    requires Expanding(root, maxDepth, k, vs, es, queue, head, n, sel, j) && j < |sel|
    requires p == vs[head - 1].path
    requires EdgeLabel(n.children[sel[j]].action) == Some(l)
    ensures Expanding(root, maxDepth, k, vs + [Describe(n.children[sel[j]], p + [sel[j]])],
                      es + [Edge(p, p + [sel[j]], l)],
                      queue + [(n.children[sel[j]], p + [sel[j]])], head, n, sel, j + 1)
  {
    var c := sel[j];
    var v := Describe(n.children[c], p + [c]);
    FreshSelection(sel, j);
    SettledGrows(root, maxDepth, vs, es, queue, head, n, p, c, l);
    EarlierStillDrawn(root, maxDepth, k, vs, head, v, p, c);
    SelectedChildDrawn(vs, v, p, sel, j);
    DepthsGrow(vs, v, |p| + 1);
    BudgetGrows(k, maxDepth, vs, head, v, j, |p|);
  }

  lemma FreshSelection(sel: seq<nat>, j: nat)
    requires NoRepeats(sel) && j < |sel|
    ensures sel[j] !in Members(sel[..j])
  {
  }

  /** Drawing the selected child `sel[j]` of `p` extends the drawn children
      of `p` by it. */
  lemma SelectedChildDrawn(vs: seq<Vertex>, v: Vertex, p: Path, sel: seq<nat>, j: nat)
    requires j < |sel| && v.path == p + [sel[j]]
    requires ChildIndices(vs, p) == Members(sel[..j])
    ensures ChildIndices(vs + [v], p) == Members(sel[..j + 1])
  {
    ChildIndicesGrow(vs, v, p, sel[j]);
    MembersSnoc(sel, j);
  }

  lemma DepthsGrow(vs: seq<Vertex>, v: Vertex, d: int)
    requires forall i :: 0 <= i < |vs| ==> |vs[i].path| <= d
    requires |v.path| <= d
    ensures forall i :: 0 <= i < |vs + [v]| ==> |(vs + [v])[i].path| <= d
  {
  }

  /** The child drawn uses up exactly the room its parent reserved for it. */
  lemma BudgetGrows(k: nat, maxDepth: int, vs: seq<Vertex>, head: nat, v: Vertex, j: nat, d: int)
    requires head <= |vs| && j < k && |v.path| == d + 1 && d < maxDepth
    requires |vs| + SumRoom(k, maxDepth, vs[head..]) + Reserve(k - j, Capacity(k, maxDepth - d - 1)) <= Capacity(k, maxDepth)
    ensures |vs + [v]| + SumRoom(k, maxDepth, (vs + [v])[head..]) + Reserve(k - (j + 1), Capacity(k, maxDepth - d - 1))
         <= Capacity(k, maxDepth)
  {
    assert (vs + [v])[head..] == vs[head..] + [v];
    RoomStep(k, maxDepth, vs[head..], v, j, d);
  }

  lemma MembersSnoc(s: seq<nat>, j: nat)
    requires j < |s|
    ensures Members(s[..j + 1]) == Members(s[..j]) + {s[j]}
  {
    assert s[..j + 1] == s[..j] + [s[j]];
  }

  /** The vertex whose selection is complete joins the finished ones. */
  lemma FinishedVertexDrawn(root: MctsNode, maxDepth: int, k: nat, vs: seq<Vertex>, head: nat, n: MctsNode, sel: seq<nat>)
    requires 1 <= head <= |vs|
    requires NodeAt(root, vs[head - 1].path) == Some(n) && |vs[head - 1].path| < maxDepth
    requires ChildIndices(vs, vs[head - 1].path) == Members(sel)
    requires SelectionKept(n, k, Members(sel))
    requires forall i :: 0 <= i < head - 1 ==> ChildrenDrawn(root, maxDepth, k, vs, vs[i])
    ensures forall i :: 0 <= i < head ==> ChildrenDrawn(root, maxDepth, k, vs, vs[i])
  {
  }

  /** Once all selected children are drawn, the vertex is done. */
  lemma EndExpansion(root: MctsNode, maxDepth: int, k: nat, vs: seq<Vertex>, es: seq<Edge>,
                     queue: seq<(MctsNode, Path)>, head: nat, n: MctsNode, sel: seq<nat>)
    requires Expanding(root, maxDepth, k, vs, es, queue, head, n, sel, |sel|)
    requires SelectionKept(n, k, Members(sel))
    ensures Progress(root, maxDepth, k, vs, es, queue, head)
  {
    EndDrawn(root, maxDepth, k, vs, es, queue, head, n, sel);
    EndBounds(maxDepth, k, vs, head, sel);
  }

  /** ... every vertex before the worklist now shows its selection ... */
  lemma EndDrawn(root: MctsNode, maxDepth: int, k: nat, vs: seq<Vertex>, es: seq<Edge>,
                 queue: seq<(MctsNode, Path)>, head: nat, n: MctsNode, sel: seq<nat>)
    requires Expanding(root, maxDepth, k, vs, es, queue, head, n, sel, |sel|)
    requires SelectionKept(n, k, Members(sel))
    ensures forall i :: 0 <= i < head ==> ChildrenDrawn(root, maxDepth, k, vs, vs[i])
  {
    assert sel[..|sel|] == sel;
    FinishedVertexDrawn(root, maxDepth, k, vs, head, n, sel);
  }

  /** ... the next vertex bounds every depth, and the children not drawn
      release their reserved room. */
  lemma EndBounds(maxDepth: int, k: nat, vs: seq<Vertex>, head: nat, sel: seq<nat>)
    requires 1 <= head <= |vs| && |sel| <= k
    requires forall i, j :: 0 <= i < j < |vs| ==> |vs[i].path| <= |vs[j].path|
    requires forall i :: 0 <= i < |vs| ==> |vs[i].path| <= |vs[head - 1].path| + 1
    requires |vs| + SumRoom(k, maxDepth, vs[head..]) + Reserve(k - |sel|, Capacity(k, maxDepth - |vs[head - 1].path| - 1)) <= Capacity(k, maxDepth)
    ensures head < |vs| ==> forall j :: 0 <= j < |vs| ==> |vs[j].path| <= |vs[head].path| + 1
    ensures |vs| + SumRoom(k, maxDepth, vs[head..]) <= Capacity(k, maxDepth)
  {
    var p := vs[head - 1].path;
    var room := Capacity(k, maxDepth - |p| - 1);
    CapacityPositive(k, maxDepth - |p| - 1);
    ReserveNonNegative(k - |sel|, room);
    if head < |vs| {
      assert |p| <= |vs[head].path|;
      DepthsWithin(vs, |p|, |vs[head].path|);
    }
  }

  /** No vertex is more than one level below depth `a`, nor below any
      depth `b >= a`. */
  lemma DepthsWithin(vs: seq<Vertex>, a: int, b: int)
    requires forall i :: 0 <= i < |vs| ==> |vs[i].path| <= a + 1
    requires a <= b
    ensures forall i :: 0 <= i < |vs| ==> |vs[i].path| <= b + 1
  {
  }

  lemma {:induction false} SetOfDistinct(s: seq<nat>)
    requires NoRepeats(s)
    ensures |Members(s)| == |s|
  {
    if s != [] {
      var init, last := s[..|s| - 1], s[|s| - 1];
      assert s == init + [last];
      assert NoRepeats(init);
      SetOfDistinct(init);
      assert last !in init;
      assert Members(s) == Members(init) + {last};
    }
  }

  /** The selection, read as a set, keeps what the sampler promises. */
  lemma SelectionIsKept(n: MctsNode, k: nat, sel: seq<nat>)
    requires k >= 3
    requires |n.children| <= k ==> sel == SortByMean(n.children)
    requires |n.children| > k ==> |sel| == k && sel[..3] == SortByMean(n.children)[..3]
    requires NoRepeats(sel) && forall j :: 0 <= j < |sel| ==> sel[j] < |n.children|
    ensures SelectionKept(n, k, Members(sel))
    ensures |sel| <= k
  {
    SortByMeanCorrect(n.children);
    SetOfDistinct(sel);
    if |n.children| > k {
      forall a | 0 <= a < 3 ensures SortByMean(n.children)[a] in Members(sel) {
        assert sel[a] == sel[..3][a];
      }
    }
  }

  /** `visualize_mcts_tree` up to the layout: the root, then a breadth-first
      walk of the worklist that expands every node shallower than the depth cap.  It
      draws a well-formed tree of at most 1 + k + ... + k^maxDepth nodes
      whose every node shallower than the cap shows the kept selection of its
      children; it raises only on a tree with an unlabelable action. */
  method Sample(root: MctsNode, maxDepth: int, k: int) returns (r: Outcome)
    requires k >= 3
    ensures r.Raised? ==> !AllLabelled(root)
    ensures r.Drawn? ==> Drawing(root, maxDepth, r.vertices, r.edges)
    ensures r.Drawn? ==> forall i :: 0 <= i < |r.vertices| ==> ChildrenDrawn(root, maxDepth, k, r.vertices, r.vertices[i])
    ensures r.Drawn? ==> |r.vertices| <= Capacity(k, maxDepth)
  {
    var vertices := [Describe(root, [])];
    var edges: seq<Edge> := [];
    var queue := [(root, [])];
    ghost var head: nat := 0;
    Start(root, maxDepth, k);
    while queue != []
      invariant Progress(root, maxDepth, k, vertices, edges, queue, head)
      decreases Capacity(k, maxDepth) - head
    {
      Bounded(root, maxDepth, k, vertices, edges, queue, head);
      var labelled;
      labelled, vertices, edges, queue, head := Visit(root, maxDepth, k, vertices, edges, queue, head);
      if !labelled {
        return Raised;
      }
    }
    Finished(root, maxDepth, k, vertices, edges, queue, head);
    return Drawn(vertices, edges);
  }

  /** One turn of the walk: takes the front of the worklist and, above the
      cap, draws its selected children. */
  method Visit(ghost root: MctsNode, maxDepth: int, k: int,
               vertices0: seq<Vertex>, edges0: seq<Edge>, queue0: seq<(MctsNode, Path)>, ghost head0: nat)
    returns (labelled: bool, vertices: seq<Vertex>, edges: seq<Edge>, queue: seq<(MctsNode, Path)>, ghost head: nat)
    requires k >= 3
    requires Progress(root, maxDepth, k, vertices0, edges0, queue0, head0) && queue0 != []
    ensures labelled ==> head == head0 + 1 && Progress(root, maxDepth, k, vertices, edges, queue, head)
    ensures !labelled ==> !AllLabelled(root)
  {
    Bounded(root, maxDepth, k, vertices0, edges0, queue0, head0);
    var (node, path) := queue0[0];
    if |path| >= maxDepth {
      SkipAtCap(root, maxDepth, k, vertices0, edges0, queue0, head0);
      return true, vertices0, edges0, queue0[1..], head0 + 1;
    }
    var selected := SelectChildren(node.children, k);
    SelectionIsKept(node, k, selected);
    BeginExpansion(root, maxDepth, k, vertices0, edges0, queue0, head0, selected);
    labelled, vertices, edges, queue := DrawChildren(root, maxDepth, k, vertices0, edges0, queue0[1..], head0 + 1, node, selected, path);
    head := head0 + 1;
    if labelled {
      EndExpansion(root, maxDepth, k, vertices, edges, queue, head, node, selected);
    }
  }

  /** The inner loop of the walk: draws the selected children of the
      vertex just taken off the worklist, in selection order, each with its
      edge from `path`, and enqueues them; it stops at the first child whose
      action has no label. */
  method DrawChildren(ghost root: MctsNode, ghost maxDepth: int, ghost k: nat,
                      vertices0: seq<Vertex>, edges0: seq<Edge>, queue0: seq<(MctsNode, Path)>, ghost head: nat,
                      node: MctsNode, selected: seq<nat>, path: Path)
    returns (labelled: bool, vertices: seq<Vertex>, edges: seq<Edge>, queue: seq<(MctsNode, Path)>)
    requires Expanding(root, maxDepth, k, vertices0, edges0, queue0, head, node, selected, 0)
    requires path == vertices0[head - 1].path
    ensures labelled ==> Expanding(root, maxDepth, k, vertices, edges, queue, head, node, selected, |selected|)
    ensures !labelled ==> !AllLabelled(root)
  {
    vertices, edges, queue := vertices0, edges0, queue0;
    for j := 0 to |selected|
      invariant 1 <= head <= |vertices| && path == vertices[head - 1].path
      invariant Expanding(root, maxDepth, k, vertices, edges, queue, head, node, selected, j)
    {
      var c := selected[j];
      var child := node.children[c];
      var tag := EdgeLabel(child.action);
      if tag.None? {
        Unlabelled(root, maxDepth, k, vertices, edges, queue, head, node, selected, j, path);
        return false, vertices, edges, queue;
      }
      AddChild(root, maxDepth, k, vertices, edges, queue, head, node, selected, j, path, tag.value);
      vertices := vertices + [Describe(child, path + [c])];
      edges := edges + [Edge(path, path + [c], tag.value)];
      queue := queue + [(child, path + [c])];
    }
    return true, vertices, edges, queue;
  }

  lemma Bounded(root: MctsNode, maxDepth: int, k: nat, vs: seq<Vertex>, es: seq<Edge>,
                queue: seq<(MctsNode, Path)>, head: nat)
    requires Progress(root, maxDepth, k, vs, es, queue, head) && queue != []
    ensures head < |vs| <= Capacity(k, maxDepth)
    ensures NodeAt(root, queue[0].1) == Some(queue[0].0) && queue[0].1 == vs[head].path
  {
    SumRoomAppend(k, maxDepth, vs[head..], vs[0]);
  }

  lemma Unlabelled(root: MctsNode, maxDepth: int, k: nat, vs: seq<Vertex>, es: seq<Edge>,
                   queue: seq<(MctsNode, Path)>, head: nat, n: MctsNode, sel: seq<nat>, j: nat, p: Path)
    requires Expanding(root, maxDepth, k, vs, es, queue, head, n, sel, j) && j < |sel|
    requires p == vs[head - 1].path
    requires EdgeLabel(n.children[sel[j]].action).None?
    ensures !AllLabelled(root)
  {
    ChildAt(root, p, sel[j]);
    UnlabelledChild(root, p + [sel[j]]);
  }

  lemma Finished(root: MctsNode, maxDepth: int, k: nat, vs: seq<Vertex>, es: seq<Edge>,
                 queue: seq<(MctsNode, Path)>, head: nat)
    requires Progress(root, maxDepth, k, vs, es, queue, head) && queue == []
    ensures Drawing(root, maxDepth, vs, es)
    ensures forall i :: 0 <= i < |vs| ==> ChildrenDrawn(root, maxDepth, k, vs, vs[i])
    ensures |vs| <= Capacity(k, maxDepth)
  {
    assert vs[head..] == [];
  }
}
