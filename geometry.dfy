/** The arithmetic of the viewer's route drawing (gui.py): how many dashes a
    route gets and how they are scaled (`_draw_dashed_line`), the sideways
    offset of parallel tracks, the canonical key of a city pair, the grouping
    of claims by city pair (`_draw_map`, `_draw_player_routes`).  Positions
    along a line are measured from its start; pixel rounding is not
    modelled. */
module Geometry {
  import opened Values
  import opened Snapshots

  const DashLength: real := 6.0
  const SpaceLength: real := 4.0
  const SegmentLength: real := DashLength + SpaceLength
  const OffsetMagnitude: int := 5
  const PlayerColourCount: nat := 4

  // ---------------------------------------------------------------------
  // Dashed lines

  /** `max(1, sqrt(dx**2 + dy**2))`: the Euclidean length is an input. */
  function LineDistance(euclidean: real): (d: real)
    requires euclidean >= 0.0
    ensures d >= 1.0 && d >= euclidean
    ensures euclidean >= 1.0 ==> d == euclidean
    ensures euclidean < 1.0 ==> d == 1.0
  {
    if euclidean < 1.0 then 1.0 else euclidean
  }

  /** `max(1, min(num_segments, int(distance / 10)))`: the requested number
      of dashes when they fit, else as many as fit, and at least one. */
  function SegmentCount(distance: real, requested: int): (n: int)
    requires distance >= 1.0
    ensures n >= 1
    ensures n > 1 ==> n <= requested && Fits(n, distance)
    ensures forall m: int :: 1 <= m <= requested && Fits(m, distance) ==> m <= n
  {
    var fits := (distance / SegmentLength).Floor;
    var m := if requested < fits then requested else fits;
    assert Fits(fits, distance);
    forall k: int | Fits(k, distance) ensures k <= fits {
      assert (k as real) <= distance / SegmentLength;
    }
    if m < 1 then 1 else m
  }

  /** `m` dash-plus-gap units fit in the distance. */
  predicate Fits(m: int, distance: real)
  {
    (m as real) * SegmentLength <= distance
  }

  /** Dash count and the scaled dash and gap lengths. */
  datatype Layout = Layout(count: int, dash: real, space: real)

  /** The dash and gap keep their 6:4 proportion and are scaled by one factor
      so that `count` dashes and `count - 1` gaps cover the line exactly. */
  function DashLayout(distance: real, requested: int): (l: Layout)
    requires distance >= 1.0
    ensures l.count == SegmentCount(distance, requested)
    ensures l.dash > 0.0 && l.space > 0.0 && l.dash * SpaceLength == l.space * DashLength
    ensures (l.count as real) * l.dash + ((l.count - 1) as real) * l.space == distance
  {
    var n := SegmentCount(distance, requested);
    var total := (n as real) * DashLength + ((n - 1) as real) * SpaceLength;
    assert total >= DashLength;
    var scale := distance / total;
    ScaledCover(n as real, total, distance);
    Layout(n, DashLength * scale, SpaceLength * scale)
  }

  lemma ScaledCover(n: real, total: real, distance: real)
    requires total == n * DashLength + (n - 1.0) * SpaceLength && total > 0.0
    ensures n * (DashLength * (distance / total)) + (n - 1.0) * (SpaceLength * (distance / total)) == distance
  {
    var s := distance / total;
    calc {
      n * (DashLength * s) + (n - 1.0) * (SpaceLength * s);
      (n * DashLength + (n - 1.0) * SpaceLength) * s;
      total * s;
      distance;
    }
  }

  /** The dashes `_draw_dashed_line` draws, as (start, end) positions along
      the line: every dash but the last advances by a dash then skips a gap;
      the last dash is drawn to the end point.  All dashes come out the same
      length, separated by equal gaps, and the last ends exactly at the end. */
  method DashSegments(distance: real, requested: int) returns (dashes: seq<(real, real)>)
    requires distance >= 1.0
    ensures var l := DashLayout(distance, requested);
      && |dashes| == l.count
      && dashes[0].0 == 0.0
      && dashes[|dashes| - 1].1 == distance
      && (forall i :: 0 <= i < |dashes| ==> dashes[i].1 - dashes[i].0 == l.dash)
      && (forall i :: 0 < i < |dashes| ==> dashes[i].0 - dashes[i - 1].1 == l.space)
  {
    var l := DashLayout(distance, requested);
    dashes := LayDashes(l.count, l.dash, l.space, distance);
  }

  /** `count` dashes and `count - 1` gaps of these lengths make up the line. */
  predicate Covers(count: int, dash: real, space: real, distance: real)
  {
    (count as real) * dash + ((count - 1) as real) * space == distance
  }

  /** The loop of `_draw_dashed_line` for a given layout. */
  method LayDashes(count: int, dash: real, space: real, distance: real) returns (dashes: seq<(real, real)>)
    requires count >= 1 && Covers(count, dash, space, distance)
    ensures |dashes| == count
    ensures dashes[0].0 == 0.0 && dashes[|dashes| - 1].1 == distance
    ensures forall i :: 0 <= i < |dashes| ==> dashes[i].1 - dashes[i].0 == dash
    ensures forall i :: 0 < i < |dashes| ==> dashes[i].0 - dashes[i - 1].1 == space
  {
    var unit := dash + space;
    var x := 0.0;
    dashes := [];
    var i := 0;
    while i < count - 1
      invariant 0 <= i <= count - 1
      invariant |dashes| == i
      invariant x == UnitStart(i, unit)
      invariant forall k :: 0 <= k < i ==> dashes[k] == (UnitStart(k, unit), UnitStart(k, unit) + dash)
    {
      var start := x;
      x := x + dash;
      dashes := dashes + [(start, x)];
      x := x + space;
      NextUnit(i, unit);
      i := i + 1;
    }
    LastDash(count, dash, space, distance);
    dashes := dashes + [(x, distance)];
    forall k | 0 < k < |dashes|
      ensures dashes[k].0 - dashes[k - 1].1 == space
    {
      NextUnit(k - 1, unit);
    }
  }

  /** Where the `k`-th dash starts when every unit is a dash and a gap. */
  function UnitStart(k: nat, unit: real): real
  {
    (k as real) * unit
  }

  /** One more dash-plus-gap unit along the line. */
  lemma NextUnit(i: nat, unit: real)
    ensures UnitStart(i + 1, unit) == UnitStart(i, unit) + unit
  {
  }

  /** What is left after `count - 1` full units is exactly one dash. */
  lemma LastDash(count: int, dash: real, space: real, distance: real)
    requires count >= 1 && Covers(count, dash, space, distance)
    ensures distance - UnitStart(count - 1, dash + space) == dash
  {
  }

  // ---------------------------------------------------------------------
  // Parallel tracks

  /** `_draw_map`: with more than one track on a connection, track 0 moves
      +5 and every later track -5; a lone track stays on the centre line. */
  function TrackOffset(tracks: nat, index: nat): (r: int)
    ensures r == 0 <==> tracks <= 1
    ensures r > 0 <==> tracks > 1 && index == 0
    ensures r != 0 ==> r == OffsetMagnitude || r == -OffsetMagnitude
  {
    if tracks > 1 then (if index == 0 then OffsetMagnitude else -OffsetMagnitude) else 0
  }

  /** `_draw_player_routes`: a single claim is not moved, otherwise claim 0
      moves +5 and every later claim -5. */
  function ClaimOffset(claims: nat, index: nat): (r: int)
    ensures r == 0 <==> claims == 1
    ensures r > 0 <==> claims != 1 && index == 0
    ensures r != 0 ==> r == OffsetMagnitude || r == -OffsetMagnitude
  {
    if claims == 1 then 0 else if index == 0 then OffsetMagnitude else -OffsetMagnitude
  }

  /** The two rules agree as functions of the group size and the index on
      every non-empty group, and the first two of a double group sit
      symmetrically on both sides of the centre line.  They are applied to
      different groups, though: a track's offset counts all tracks of the
      connection, a claim's offset counts only the claims on the pair (see
      PartlyClaimedDoubleRoute). */
  lemma OffsetsAgree(n: nat, i: nat)
    requires n >= 1
    ensures TrackOffset(n, i) == ClaimOffset(n, i)
    ensures n >= 2 ==> TrackOffset(n, 0) + TrackOffset(n, 1) == 0 && TrackOffset(n, 0) - TrackOffset(n, 1) == 2 * OffsetMagnitude
    ensures TrackOffset(n, i) in {0, OffsetMagnitude, -OffsetMagnitude}
    ensures TrackOffset(n, i) == 0 <==> n == 1
  {
  }

  // ---------------------------------------------------------------------
  // Keys and grouping

  /** `f"{c1}-{c2}" if c1 < c2 else f"{c2}-{c1}"`. */
  function CanonicalKey(a: string, b: string): (r: string)
    ensures r == a + "-" + b || r == b + "-" + a
    ensures |r| == |a| + |b| + 1
  {
    if StrLess(a, b) then a + "-" + b else b + "-" + a
  }

  /** The canonical key does not depend on the direction of the pair, and for
      a snapshot connection it is the connection's `route_info` key. */
  lemma {:induction false} CanonicalKeySymmetric(a: string, b: string)
    ensures CanonicalKey(a, b) == CanonicalKey(b, a)
    ensures StrLess(a, b) ==> CanonicalKey(a, b) == RouteInfoKey((a, b))
  {
    StrLessAsymmetric(a, b);
    StrLessTotal(a, b);
  }

  /** `tuple(sorted([c1, c2]))`. */
  function SortedPair(a: string, b: string): (p: (string, string))
    ensures p.0 == p.1 || StrLess(p.0, p.1)
    ensures {p.0, p.1} == {a, b}
  {
    StrLessTotal(a, b);
    StrLessAsymmetric(a, b);
    if StrLess(b, a) then (b, a) else (a, b)
  }

  lemma {:induction false} SortedPairSymmetric(a: string, b: string)
    ensures SortedPair(a, b) == SortedPair(b, a)
  {
    StrLessTotal(a, b);
    StrLessAsymmetric(a, b);
  }

  /** One claim on a city pair: which player (by position) and the colour
      used. */
  datatype Claimant = Claimant(player: nat, colour: Item)

  /** Each claim of each player, in player order, tagged with its pair. */
  function PlayerClaims(player: nat, conns: seq<Claim>): seq<((string, string), Claimant)>
  {
    if conns == [] then []
    else
      var c := conns[|conns| - 1];
      PlayerClaims(player, conns[..|conns| - 1]) + [(SortedPair(c.city1, c.city2), Claimant(player, c.colour))]
  }

  function AllClaims(players: seq<PlayerRecord>): seq<((string, string), Claimant)>
  {
    if players == [] then []
    else
      AllClaims(players[..|players| - 1]) + PlayerClaims(|players| - 1, players[|players| - 1].claimedConnections)
  }

  /** The claims on one pair, in the order they were collected. */
  function ClaimsOn(tagged: seq<((string, string), Claimant)>, key: (string, string)): seq<Claimant>
  {
    if tagged == [] then []
    else
      var t := tagged[|tagged| - 1];
      ClaimsOn(tagged[..|tagged| - 1], key) + (if t.0 == key then [t.1] else [])
  }

  /** The pairs in order of their first claim, each once (dictionary order). */
  function PairsInOrder(tagged: seq<((string, string), Claimant)>): seq<(string, string)>
  {
    if tagged == [] then []
    else
      var before := PairsInOrder(tagged[..|tagged| - 1]);
      var k := tagged[|tagged| - 1].0;
      if k in before then before else before + [k]
  }

  lemma {:induction false} PairsInOrderFacts(tagged: seq<((string, string), Claimant)>)
    ensures NoRepeats(PairsInOrder(tagged))
    ensures forall k :: k in PairsInOrder(tagged) <==> ClaimsOn(tagged, k) != []
  {
    if tagged != [] {
      var init := tagged[..|tagged| - 1];
      PairsInOrderFacts(init);
      var before := PairsInOrder(init);
      var k := tagged[|tagged| - 1].0;
      if k !in before {
        NoRepeatsAppend(before, [k]);
      }
    }
  }

  lemma ClaimsStep(done: seq<((string, string), Claimant)>, t: ((string, string), Claimant))
    ensures PairsInOrder(done + [t]) == if t.0 in PairsInOrder(done) then PairsInOrder(done) else PairsInOrder(done) + [t.0]
    ensures forall k :: ClaimsOn(done + [t], k) == ClaimsOn(done, k) + (if t.0 == k then [t.1] else [])
  {
    assert (done + [t])[..|done|] == done;
  }

  /** `order` and `groups` are the dictionary built from the claims `done`. */
  ghost predicate Grouped(order: seq<(string, string)>, groups: map<(string, string), seq<Claimant>>,
                          done: seq<((string, string), Claimant)>)
  {
    && order == PairsInOrder(done)
    && (forall k :: k in groups <==> k in order)
    && (forall k | k in groups :: groups[k] == ClaimsOn(done, k))
  }

  /** Adding one claim to the dictionary: a new pair is appended to the key
      order with a one-claim list, a known pair gets the claim appended. */
  function AddClaim(order: seq<(string, string)>, groups: map<(string, string), seq<Claimant>>,
                    key: (string, string), c: Claimant): (seq<(string, string)>, map<(string, string), seq<Claimant>>)
  {
    if key !in groups then (order + [key], groups[key := [c]])
    else (order, groups[key := groups[key] + [c]])
  }

  lemma GroupedStep(order: seq<(string, string)>, groups: map<(string, string), seq<Claimant>>,
                    done: seq<((string, string), Claimant)>, key: (string, string), c: Claimant)
    requires Grouped(order, groups, done)
    ensures var (o, g) := AddClaim(order, groups, key, c); Grouped(o, g, done + [(key, c)])
  {
    ClaimsStep(done, (key, c));
    PairsInOrderFacts(done);
  }

  /** The loops of `_draw_player_routes` that build `claimed_routes`: for
      each pair, every claim on it in player order, then claim order; the
      pairs in order of first claim. */
  method GroupClaims(players: seq<PlayerRecord>) returns (order: seq<(string, string)>, groups: map<(string, string), seq<Claimant>>)
    ensures order == PairsInOrder(AllClaims(players))
    ensures forall k :: k in groups <==> k in order
    ensures forall k | k in groups :: groups[k] == ClaimsOn(AllClaims(players), k) && groups[k] != []
  {
    order := [];
    groups := map[];
    var i := 0;
    while i < |players|
      invariant 0 <= i <= |players|
      invariant Grouped(order, groups, AllClaims(players[..i]))
    {
      assert players[..i + 1][..i] == players[..i];
      order, groups := GroupPlayerClaims(order, groups, AllClaims(players[..i]), i, players[i].claimedConnections);
      i := i + 1;
    }
    assert players[..i] == players;
    PairsInOrderFacts(AllClaims(players));
  }

  /** The inner loop: one player's claims added to the dictionary. */
  method GroupPlayerClaims(order0: seq<(string, string)>, groups0: map<(string, string), seq<Claimant>>,
                           ghost done0: seq<((string, string), Claimant)>, player: nat, conns: seq<Claim>)
    returns (order: seq<(string, string)>, groups: map<(string, string), seq<Claimant>>)
    requires Grouped(order0, groups0, done0)
    ensures Grouped(order, groups, done0 + PlayerClaims(player, conns))
  {
    order, groups := order0, groups0;
    var j := 0;
    assert done0 + PlayerClaims(player, conns[..0]) == done0;
    while j < |conns|
      invariant 0 <= j <= |conns|
      invariant Grouped(order, groups, done0 + PlayerClaims(player, conns[..j]))
    {
      var key := SortedPair(conns[j].city1, conns[j].city2);
      var claimant := Claimant(player, conns[j].colour);
      ghost var done := done0 + PlayerClaims(player, conns[..j]);
      GroupedStep(order, groups, done, key, claimant);
      if key !in groups {
        order := order + [key];
        groups := groups[key := [claimant]];
      } else {
        groups := groups[key := groups[key] + [claimant]];
      }
      assert conns[..j + 1][..j] == conns[..j];
      assert done + [(key, claimant)] == done0 + PlayerClaims(player, conns[..j + 1]);
      j := j + 1;
    }
    assert conns[..j] == conns;
  }

  /** `route_length` in `_draw_player_routes`: the first track's length when
      it is at least 1, and 1 otherwise (no entry, no track, or 0). */
  function ClaimRouteLength(routeInfo: map<string, seq<Route>>, key: string): (n: int)
    ensures n >= 1
    ensures key in routeInfo && routeInfo[key] != [] && routeInfo[key][0].length >= 1 ==> n == routeInfo[key][0].length
    ensures !(key in routeInfo && routeInfo[key] != []) ==> n == 1
    ensures key in routeInfo && routeInfo[key] != [] && routeInfo[key][0].length < 1 ==> n == 1
  {
    if key in routeInfo && routeInfo[key] != [] && routeInfo[key][0].length >= 1 then routeInfo[key][0].length else 1
  }

  /** `player_idx % len(PLAYER_colours)`: players four apart share a colour
      and the first four players all differ. */
  function PlayerColourSlot(player: nat): (slot: nat)
    ensures slot < PlayerColourCount
    ensures player < PlayerColourCount ==> slot == player
  {
    player % PlayerColourCount
  }

  lemma PlayerColourPeriodic(player: nat)
    ensures PlayerColourSlot(player + PlayerColourCount) == PlayerColourSlot(player)
  {
  }

  // ---------------------------------------------------------------------
  // What gets drawn

  type Point = (int, int)

  /** One `_draw_dashed_line` call of `_draw_map`: the two city positions,
      the sideways offset, the requested dash count and the route colour. */
  datatype Stroke = Stroke(from: Point, to: Point, offset: int, segments: int, colour: Colour)

  /** The strokes of a connection's tracks: claimed tracks are skipped (they
      are drawn with their claimant), and the offset counts every track. */
  function TrackStrokes(infos: seq<Route>, p1: Point, p2: Point, n: nat): (r: seq<Stroke>)
    requires n <= |infos|
    ensures |r| <= n
    ensures forall st | st in r :: st.from == p1 && st.to == p2
  {
    if n == 0 then []
    else
      var info := infos[n - 1];
      TrackStrokes(infos, p1, p2, n - 1) +
        (if info.claimedBy.Some? then [] else [Stroke(p1, p2, TrackOffset(|infos|, n - 1), info.length, info.colour)])
  }

  /** The positions among the first `n` tracks that nobody has claimed, in
      increasing order. */
  function UnclaimedIndices(infos: seq<Route>, n: nat): (r: seq<nat>)
    requires n <= |infos|
    ensures forall j :: 0 <= j < |r| ==> r[j] < n && infos[r[j]].claimedBy.None?
    ensures forall j, j' :: 0 <= j < j' < |r| ==> r[j] < r[j']
    ensures forall k :: 0 <= k < n && infos[k].claimedBy.None? ==> k in r
  {
    if n == 0 then []
    else UnclaimedIndices(infos, n - 1) + (if infos[n - 1].claimedBy.None? then [n - 1] else [])
  }

  /** Stroke `st` draws track `k` of the connection between `p1` and `p2`:
      its offset among all the tracks, its length as the dash count, and its
      colour. */
  predicate DrawsTrack(st: Stroke, infos: seq<Route>, k: nat, p1: Point, p2: Point)
    requires k < |infos|
  {
    st == Stroke(p1, p2, TrackOffset(|infos|, k), infos[k].length, infos[k].colour)
  }

  /** `_draw_map` for one connection: nothing when a city has no position; a
      grey stroke of length 1 when there is no route information; else one
      stroke per unclaimed track. */
  function ConnectionStrokes(s: Snapshot, positions: map<string, Point>, c: (string, string)): (r: seq<Stroke>)
    ensures c.0 !in positions || c.1 !in positions ==> r == []
    ensures forall st | st in r :: st.from == positions[c.0] && st.to == positions[c.1]
  {
    if c.0 !in positions || c.1 !in positions then []
    else
      var key := CanonicalKey(c.0, c.1);
      var infos := if key in s.routeInfo then s.routeInfo[key] else [];
      if infos == [] then [Stroke(positions[c.0], positions[c.1], 0, 1, Gray)]
      else TrackStrokes(infos, positions[c.0], positions[c.1], |infos|)
  }

  /** The `j`-th stroke draws the `j`-th unclaimed track, so every unclaimed
      track is drawn exactly once, in track order, and no claimed one is. */
  lemma {:induction false} TrackStrokesFacts(infos: seq<Route>, p1: Point, p2: Point, n: nat)
    requires n <= |infos|
    ensures var strokes, idx := TrackStrokes(infos, p1, p2, n), UnclaimedIndices(infos, n);
      && |strokes| == |idx|
      && forall j :: 0 <= j < |strokes| ==> DrawsTrack(strokes[j], infos, idx[j], p1, p2)
  {
    if n > 0 {
      TrackStrokesFacts(infos, p1, p2, n - 1);
      var before, idx := TrackStrokes(infos, p1, p2, n - 1), UnclaimedIndices(infos, n - 1);
      if infos[n - 1].claimedBy.None? {
        var st := Stroke(p1, p2, TrackOffset(|infos|, n - 1), infos[n - 1].length, infos[n - 1].colour);
        assert TrackStrokes(infos, p1, p2, n) == before + [st];
        assert UnclaimedIndices(infos, n) == idx + [n - 1];
      } else {
        assert TrackStrokes(infos, p1, p2, n) == before;
        assert UnclaimedIndices(infos, n) == idx;
      }
    }
  }

  /** A connection with known positions: when it has route information,
      the `j`-th stroke draws its `j`-th unclaimed track (at that track's
      length and colour, offset +5 for track 0 and -5 for later tracks when
      there are several, none for a lone track); otherwise one grey stroke
      of one dash. */
  lemma ConnectionStrokesFacts(s: Snapshot, positions: map<string, Point>, c: (string, string))
    requires c.0 in positions && c.1 in positions
    requires StrLess(c.0, c.1)
    ensures var strokes := ConnectionStrokes(s, positions, c);
      var key := RouteInfoKey(c);
      if key in s.routeInfo && s.routeInfo[key] != [] then
        var infos := s.routeInfo[key];
        var idx := UnclaimedIndices(infos, |infos|);
        && |strokes| == |idx|
        && forall j :: 0 <= j < |strokes| ==> DrawsTrack(strokes[j], infos, idx[j], positions[c.0], positions[c.1])
      else
        strokes == [Stroke(positions[c.0], positions[c.1], 0, 1, Gray)]
  {
    CanonicalKeySymmetric(c.0, c.1);
    var key := RouteInfoKey(c);
    if key in s.routeInfo && s.routeInfo[key] != [] {
      var infos := s.routeInfo[key];
      TrackStrokesFacts(infos, positions[c.0], positions[c.1], |infos|);
    }
  }

  /** One claimed route as `_draw_player_routes` draws it: the dashed line in
      the route colour, then the player's colour on top. */
  datatype ClaimStroke = ClaimStroke(from: Point, to: Point, offset: int, segments: int, routeColour: Item, playerSlot: nat)

  function ClaimStrokesOf(claims: seq<Claimant>, p1: Point, p2: Point, length: int, n: nat): seq<ClaimStroke>
    requires n <= |claims|
  {
    if n == 0 then []
    else
      ClaimStrokesOf(claims, p1, p2, length, n - 1) +
        [ClaimStroke(p1, p2, ClaimOffset(|claims|, n - 1), length, claims[n - 1].colour, PlayerColourSlot(claims[n - 1].player))]
  }

  /** The strokes for one claimed pair: none when a city has no position. */
  function PairStrokes(s: Snapshot, positions: map<string, Point>, key: (string, string), claims: seq<Claimant>): (r: seq<ClaimStroke>)
    ensures key.0 !in positions || key.1 !in positions ==> r == []
  {
    if key.0 !in positions || key.1 !in positions then []
    else
      var length := ClaimRouteLength(s.routeInfo, CanonicalKey(key.0, key.1));
      ClaimStrokesOf(claims, positions[key.0], positions[key.1], length, |claims|)
  }

  /** Each claim on a pair is drawn once, in claim order, between the two
      city positions, at the route's length, in its player's colour slot,
      offset by the claim rule. */
  lemma {:induction false} ClaimStrokesFacts(claims: seq<Claimant>, p1: Point, p2: Point, length: int, n: nat)
    requires n <= |claims|
    ensures |ClaimStrokesOf(claims, p1, p2, length, n)| == n
    ensures forall k :: 0 <= k < n ==> DrawsClaim(ClaimStrokesOf(claims, p1, p2, length, n)[k], claims, k, length, p1, p2)
  {
    if n > 0 {
      ClaimStrokesFacts(claims, p1, p2, length, n - 1);
    }
  }

  /** Stroke `st` draws claim `k` of `claims` between `p1` and `p2`. */
  predicate DrawsClaim(st: ClaimStroke, claims: seq<Claimant>, k: nat, length: int, p1: Point, p2: Point)
    requires k < |claims|
  {
    st.from == p1 && st.to == p2 &&
    st.offset == ClaimOffset(|claims|, k) && st.segments == length &&
    st.routeColour == claims[k].colour && st.playerSlot == claims[k].player % PlayerColourCount
  }

  /** A claimed pair with both positions known draws one stroke per claim,
      in claim order, all at the length of the pair's first track in
      `route_info` (at least 1); a pair missing a position draws nothing. */
  lemma PairStrokesFacts(s: Snapshot, positions: map<string, Point>, key: (string, string), claims: seq<Claimant>)
    ensures key.0 !in positions || key.1 !in positions ==> PairStrokes(s, positions, key, claims) == []
    ensures key.0 in positions && key.1 in positions ==>
      var r := PairStrokes(s, positions, key, claims);
      var length := ClaimRouteLength(s.routeInfo, CanonicalKey(key.0, key.1));
      && |r| == |claims| && length >= 1
      && forall k :: 0 <= k < |claims| ==> DrawsClaim(r[k], claims, k, length, positions[key.0], positions[key.1])
  {
    if key.0 in positions && key.1 in positions {
      var length := ClaimRouteLength(s.routeInfo, CanonicalKey(key.0, key.1));
      ClaimStrokesFacts(claims, positions[key.0], positions[key.1], length, |claims|);
    }
  }

  /** A double route with one track claimed: the free track keeps its place
      among both tracks and is drawn at -5, while the lone claim is drawn on
      the centre line, not at the +5 its track would take. */
  lemma PartlyClaimedDoubleRoute(taken: Route, free: Route, c: Claimant, p1: Point, p2: Point, length: int)
    requires taken.claimedBy.Some? && free.claimedBy.None?
    ensures TrackStrokes([taken, free], p1, p2, 2) == [Stroke(p1, p2, -OffsetMagnitude, free.length, free.colour)]
    ensures |ClaimStrokesOf([c], p1, p2, length, 1)| == 1 && ClaimStrokesOf([c], p1, p2, length, 1)[0].offset == 0
  {
    assert TrackStrokes([taken, free], p1, p2, 1) == [];
  }
}
