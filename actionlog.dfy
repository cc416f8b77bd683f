/** The viewer's bounded action log (`_draw_action` in gui.py): every
    snapshot that carries an action appends its message, the oldest entry is
    dropped once there are more than ten, and the panel shows at most the
    five newest, newest first. */
module ActionLog {
  import opened Values
  import opened Actions

  const Capacity: nat := 10
  const Shown: nat := 5

  /** The last `n` entries of `s` (all of them when there are fewer). */
  function Newest<T>(s: seq<T>, n: nat): seq<T>
  {
    if |s| > n then s[|s| - n..] else s
  }

  /** `action_log.append(m)` followed by `pop(0)` when the log is longer
      than ten: a log within its capacity becomes the ten newest entries. */
  function Append(log: seq<Message>, m: Message): (r: seq<Message>)
    ensures |log| <= Capacity ==> r == Newest(log + [m], Capacity) && |r| <= Capacity
    ensures r != [] && r[|r| - 1] == m
  {
    var l := log + [m];
    if |l| > Capacity then l[1..] else l
  }

  /** What one redraw does to the log: snapshots without an action leave it. */
  function Record(log: seq<Message>, action: Option<Message>): seq<Message>
  {
    if action.Some? then Append(log, action.value) else log
  }

  /** The log after redrawing a series of snapshots with these actions. */
  function RecordAll(log: seq<Message>, actions: seq<Option<Message>>): (r: seq<Message>)
    ensures |log| <= Capacity ==> |r| <= Capacity
    ensures (forall i :: 0 <= i < |actions| ==> actions[i].None?) ==> r == log
  {
    if actions == [] then log
    else Record(RecordAll(log, actions[..|actions| - 1]), actions[|actions| - 1])
  }

  /** The messages actually present, in order. */
  function Present(actions: seq<Option<Message>>): seq<Message>
  {
    if actions == [] then []
    else Present(actions[..|actions| - 1]) + (if actions[|actions| - 1].Some? then [actions[|actions| - 1].value] else [])
  }

  lemma NewestOfNewest<T>(x: seq<T>, m: T, n: nat)
    ensures Newest(Newest(x, n) + [m], n) == Newest(x + [m], n)
  {
    if |x| > n {
      assert Newest(x, n) + [m] == (x + [m])[|x| - n..];
    }
  }

  /** The log keeps exactly the ten most recent messages, oldest first, and
      so never holds more than ten. */
  lemma {:induction false} RecordAllKeepsNewest(log: seq<Message>, actions: seq<Option<Message>>)
    requires |log| <= Capacity
    ensures RecordAll(log, actions) == Newest(log + Present(actions), Capacity)
    ensures |RecordAll(log, actions)| <= Capacity
  {
    if actions != [] {
      var init, last := actions[..|actions| - 1], actions[|actions| - 1];
      RecordAllKeepsNewest(log, init);
      assert log + Present(actions) == (log + Present(init)) + (if last.Some? then [last.value] else []);
      if last.Some? {
        NewestOfNewest(log + Present(init), last.value, Capacity);
      }
    }
  }

  /** The entries the action panel draws: walking the log newest first and
      stopping after `n`. */
  function NewestFirst(log: seq<Message>, n: nat): (r: seq<Message>)
    ensures |r| == if |log| < n then |log| else n
    ensures forall i :: 0 <= i < |r| ==> r[i] == log[|log| - 1 - i]
  {
    if n == 0 || log == [] then []
    else [log[|log| - 1]] + NewestFirst(log[..|log| - 1], n - 1)
  }

  /** The panel's five lines. */
  function Visible(log: seq<Message>): seq<Message>
  {
    NewestFirst(log, Shown)
  }
}
