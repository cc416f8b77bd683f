/** The viewer object of gui.py (`TicketToRideGUI` with its render thread),
    run sequentially: the thread becomes `threadAlive`, the two queues are
    sequences, and one pass of the render loop is `Tick`.  `frames` records
    every redraw, with the action lines shown in it. */
module Viewer {
  import opened Values
  import opened Actions
  import opened Snapshots
  import opened ActionLog
  import opened Geometry

  /** One redraw: the snapshot drawn and the action lines shown with it. */
  datatype Frame = Frame(state: Snapshot, shown: seq<Message>)

  /** How starting the render thread in `initialise` ends: it signals ready
      in time; it fails to open the drawing surface (and exits); it does not
      signal within the five-second wait; or starting the thread raises. */
  datatype StartOutcome = Ready | SurfaceFailed | TimedOut | StartRaised

  /** What `shutdown` reports. */
  datatype ShutdownReport = NothingToStop | Terminated | StillAlive

  const QuitCommand: string := "quit"

  /** The command queue after one drain: everything up to and including the
      first quit is taken off (other commands are discarded); without a quit
      the queue is emptied. */
  function CommandsAfterDrain(q: seq<string>): (rest: seq<string>)
    ensures QuitCommand !in q ==> rest == []
    ensures q != [] ==> |rest| < |q|
  {
    if q == [] then []
    else if q[0] == QuitCommand then q[1..]
    else CommandsAfterDrain(q[1..])
  }

  lemma {:induction false} DrainStopsAtFirstQuit(q: seq<string>)
    ensures QuitCommand !in q ==> CommandsAfterDrain(q) == []
    ensures QuitCommand in q ==> exists i :: 0 <= i < |q| && q[i] == QuitCommand && QuitCommand !in q[..i] && CommandsAfterDrain(q) == q[i + 1..]
  {
    if q != [] && q[0] != QuitCommand {
      DrainStopsAtFirstQuit(q[1..]);
      if QuitCommand in q {
        assert QuitCommand in q[1..];
        var i :| 0 <= i < |q[1..]| && q[1..][i] == QuitCommand && QuitCommand !in q[1..][..i] && CommandsAfterDrain(q[1..]) == q[1..][i + 1..];
        assert q[..i + 1] == [q[0]] + q[1..][..i];
        assert q[i + 1 + 1..] == q[1..][i + 1..];
      }
    } else if q != [] {
      assert q[..0] == [];
    }
  }

  /** Redrawing a series of snapshots one after another: each appends its
      action to the log and produces a frame showing the log's newest lines. */
  function Replay(log: seq<Message>, states: seq<Snapshot>): (r: (seq<Message>, seq<Frame>))
    ensures |r.1| == |states|
  {
    if states == [] then (log, [])
    else
      var (before, frames) := Replay(log, states[..|states| - 1]);
      var s := states[|states| - 1];
      var after := Record(before, s.action);
      (after, frames + [Frame(s, Visible(after))])
  }

  lemma ReplaySnoc(log: seq<Message>, states: seq<Snapshot>, n: nat)
    requires n < |states|
    ensures var (before, frames) := Replay(log, states[..n]);
      var after := Record(before, states[n].action);
      Replay(log, states[..n + 1]) == (after, frames + [Frame(states[n], Visible(after))])
  {
    assert states[..n + 1][..n] == states[..n];
  }

  function ActionsOf(states: seq<Snapshot>): seq<Option<Message>>
  {
    seq(|states|, i requires 0 <= i < |states| => states[i].action)
  }

  /** The log a replay leaves is the log after recording each snapshot's
      action in queue order. */
  lemma {:induction false} ReplayLog(log: seq<Message>, states: seq<Snapshot>)
    ensures Replay(log, states).0 == RecordAll(log, ActionsOf(states))
  {
    if states != [] {
      var init := states[..|states| - 1];
      ReplayLog(log, init);
      assert ActionsOf(states)[..|states| - 1] == ActionsOf(init);
    }
  }

  /** A replay makes one frame per snapshot, in queue order, each showing
      at most five lines. */
  lemma {:induction false} ReplayFrames(log: seq<Message>, states: seq<Snapshot>)
    ensures var frames := Replay(log, states).1;
      && |frames| == |states|
      && forall i :: 0 <= i < |frames| ==> frames[i].state == states[i] && |frames[i].shown| <= Shown
  {
    if states != [] {
      ReplayFrames(log, states[..|states| - 1]);
    }
  }

  /** Replaying redraws once per snapshot, in queue order; the log ends as
      the ten newest messages, and no frame shows more than five. */
  lemma ReplayFacts(log: seq<Message>, states: seq<Snapshot>)
    requires |log| <= Capacity
    ensures var (after, frames) := Replay(log, states);
      && |frames| == |states|
      && (forall i :: 0 <= i < |frames| ==> frames[i].state == states[i] && |frames[i].shown| <= Shown)
      && after == RecordAll(log, ActionsOf(states))
      && after == Newest(log + Present(ActionsOf(states)), Capacity)
  {
    ReplayLog(log, states);
    ReplayFrames(log, states);
    RecordAllKeepsNewest(log, ActionsOf(states));
  }

  class Gui {
    /** The two static city tables (their contents are layout data). */
    const usaPositions: map<string, Point>
    const europePositions: map<string, Point>

    var cityPositions: map<string, Point>
    var actionLog: seq<Message>
    var running: bool
    /** The render thread exists and is alive. */
    var threadAlive: bool
    var updateQueue: seq<Snapshot>
    var commandQueue: seq<string>
    /** The render thread's last dequeued snapshot. */
    var gameState: Option<Snapshot>
    /** Every redraw so far. */
    var frames: seq<Frame>

    /** The log is within its capacity, and the loop only runs on a live
        thread. */
    ghost predicate Valid()
      reads this
    {
      |actionLog| <= Capacity && (running ==> threadAlive)
    }

    constructor (usa: map<string, Point>, europe: map<string, Point>)
      ensures Valid()
      ensures usaPositions == usa && europePositions == europe
      ensures cityPositions == map[] && actionLog == [] && !running && !threadAlive
      ensures updateQueue == [] && commandQueue == [] && gameState == None && frames == []
    {
      usaPositions, europePositions := usa, europe;
      cityPositions := map[];
      actionLog := [];
      running, threadAlive := false, false;
      updateQueue, commandQueue := [], [];
      gameState := None;
      frames := [];
    }

    /** `initialise`: a no-op reporting success while the thread is alive;
        otherwise the city table is cleared and a new thread (with no game
        state) is started, and the outcome decides the result. */
    method Initialise(outcome: StartOutcome) returns (ok: bool)
      requires Valid()
      modifies this
      ensures Valid()
      ensures old(threadAlive) ==> ok && unchanged(this)
      ensures !old(threadAlive) ==>
        && ok == (outcome == Ready)
        && cityPositions == map[] && gameState == None
        && threadAlive == (outcome == Ready || outcome == TimedOut)
        && running == (if outcome == Ready then true else if outcome == SurfaceFailed then false else old(running))
        && actionLog == old(actionLog) && updateQueue == old(updateQueue)
        && commandQueue == old(commandQueue) && frames == old(frames)
    {
      if threadAlive {
        return true;
      }
      cityPositions := map[];
      gameState := None;
      match outcome
      case Ready =>
        running, threadAlive := true, true;
        ok := true;
      case SurfaceFailed =>
        running, threadAlive := false, false;
        ok := false;
      case TimedOut =>
        threadAlive := true;
        ok := false;
      case StartRaised =>
        ok := false;
    }

    /** `set_map_type`: the European table exactly when the decision says
        Europe. */
    method SetMapType(game: Game) returns (kind: MapKind)
      modifies this`cityPositions
      ensures kind == MapTypeFor(game.cityToIdx)
      ensures cityPositions == if kind == Europe then europePositions else usaPositions
    {
      if game.cityToIdx.Some? {
        var europeCount := CountPresent(EuropeProbes, game.cityToIdx.value);
        var usaCount := CountPresent(UsaProbes, game.cityToIdx.value);
        if europeCount > usaCount {
          cityPositions := europePositions;
          return Europe;
        } else {
          cityPositions := usaPositions;
          return Usa;
        }
      }
      cityPositions := usaPositions;
      kind := Usa;
    }

    /** `update_game_state`: nothing unless the viewer is running on a live
        thread; then the city table is chosen if still empty and at most one
        snapshot is queued (none when building it raises). */
    method UpdateGameState(game: Game, action: Action)
      requires Valid()
      modifies this
      ensures Valid()
      ensures !(old(running) && old(threadAlive)) ==> unchanged(this)
      ensures old(running) && old(threadAlive) ==>
        && cityPositions == (if old(cityPositions) == map[] then
                               (if MapTypeFor(game.cityToIdx) == Europe then europePositions else usaPositions)
                             else old(cityPositions))
        && updateQueue == old(updateQueue) + (match SnapshotOf(game, action) case Some(s) => [s] case None => [])
        && running && threadAlive
        && actionLog == old(actionLog) && commandQueue == old(commandQueue)
        && gameState == old(gameState) && frames == old(frames)
    {
      if !running || !threadAlive {
        return;
      }
      if cityPositions == map[] {
        var _ := SetMapType(game);
      }
      var snapshot := BuildSnapshot(game, action);
      if snapshot.Some? {
        updateQueue := updateQueue + [snapshot.value];
      }
    }

    /** `shutdown`: when running on a live thread, queue a quit and wait for
        the thread; a thread that ends in time has run one more pass of its
        loop, which finds the quit.  `running` is false afterwards in every
        case. */
    method Shutdown(joinsInTime: bool) returns (report: ShutdownReport)
      requires Valid()
      modifies this
      ensures Valid()
      ensures !running
      ensures report == NothingToStop <==> !(old(running) && old(threadAlive))
      ensures report == Terminated <==> old(running) && old(threadAlive) && joinsInTime
      ensures report == Terminated ==>
        (!threadAlive && updateQueue == [] && commandQueue == CommandsAfterDrain(old(commandQueue) + [QuitCommand]))
      ensures report == StillAlive ==> threadAlive && commandQueue == old(commandQueue) + [QuitCommand]
      ensures report == NothingToStop ==> commandQueue == old(commandQueue) && threadAlive == old(threadAlive)
      ensures cityPositions == old(cityPositions)
      ensures report != Terminated ==>
        && updateQueue == old(updateQueue) && gameState == old(gameState)
        && actionLog == old(actionLog) && frames == old(frames)
      ensures report == Terminated ==>
        && gameState == (if old(updateQueue) == [] then old(gameState) else Some(old(updateQueue)[|old(updateQueue)| - 1]))
        && actionLog == Replay(old(actionLog), old(updateQueue)).0
        && frames == old(frames) + Replay(old(actionLog), old(updateQueue)).1
    {
      if running && threadAlive {
        commandQueue := commandQueue + [QuitCommand];
        if joinsInTime {
          Tick(false);
          report := Terminated;
        } else {
          report := StillAlive;
        }
      } else {
        report := NothingToStop;
      }
      running := false;
    }

    /** `_update_display` for the current snapshot: the action panel records
        the snapshot's action, then the frame is drawn. */
    method UpdateDisplay()
      requires Valid()
      modifies this`actionLog, this`frames
      ensures Valid()
      ensures gameState.None? ==> actionLog == old(actionLog) && frames == old(frames)
      ensures gameState.Some? ==>
        && actionLog == Record(old(actionLog), gameState.value.action)
        && frames == old(frames) + [Frame(gameState.value, Visible(actionLog))]
    {
      if gameState.None? {
        return;
      }
      actionLog := Record(actionLog, gameState.value.action);
      frames := frames + [Frame(gameState.value, Visible(actionLog))];
    }

    /** The command drain of one loop pass: commands are taken off the queue
        up to and including the first quit, which stops the loop. */
    method DrainCommands()
      modifies this`commandQueue, this`running
      ensures running == (old(running) && QuitCommand !in old(commandQueue))
      ensures commandQueue == CommandsAfterDrain(old(commandQueue))
    {
      ghost var commands := commandQueue;
      while commandQueue != []
        invariant running == (old(running) && QuitCommand !in commands[..|commands| - |commandQueue|])
        invariant |commandQueue| <= |commands| && commandQueue == commands[|commands| - |commandQueue|..]
        invariant CommandsAfterDrain(commandQueue) == CommandsAfterDrain(commands)
        decreases |commandQueue|
      {
        var cmd := commandQueue[0];
        ghost var taken := |commands| - |commandQueue|;
        assert commands[..taken + 1] == commands[..taken] + [cmd];
        commandQueue := commandQueue[1..];
        if cmd == QuitCommand {
          running := false;
          break;
        }
      }
      DrainStopsAtFirstQuit(commands);
    }

    /** Takes the oldest queued snapshot as the game state and redraws. */
    method ApplyUpdate()
      requires Valid() && updateQueue != []
      modifies this`updateQueue, this`gameState, this`actionLog, this`frames
      ensures Valid()
      ensures updateQueue == old(updateQueue)[1..] && gameState == Some(old(updateQueue)[0])
      ensures actionLog == Record(old(actionLog), old(updateQueue)[0].action)
      ensures frames == old(frames) + [Frame(old(updateQueue)[0], Visible(actionLog))]
    {
      gameState := Some(updateQueue[0]);
      updateQueue := updateQueue[1..];
      UpdateDisplay();
    }

    /** The update drain of one loop pass: every queued snapshot, in order,
        becomes the game state and is redrawn. */
    method DrainUpdates()
      requires Valid()
      modifies this`updateQueue, this`gameState, this`actionLog, this`frames
      ensures Valid()
      ensures updateQueue == []
      ensures gameState == if old(updateQueue) == [] then old(gameState) else Some(old(updateQueue)[|old(updateQueue)| - 1])
      ensures actionLog == Replay(old(actionLog), old(updateQueue)).0
      ensures frames == old(frames) + Replay(old(actionLog), old(updateQueue)).1
    {
      ghost var pending := updateQueue;
      ghost var n := 0;
      assert pending[..0] == [];
      while updateQueue != []
        invariant Valid()
        invariant 0 <= n <= |pending| && updateQueue == pending[n..]
        invariant gameState == if n == 0 then old(gameState) else Some(pending[n - 1])
        invariant actionLog == Replay(old(actionLog), pending[..n]).0
        invariant frames == old(frames) + Replay(old(actionLog), pending[..n]).1
        decreases |updateQueue|
      {
        ApplyUpdate();
        ReplaySnoc(old(actionLog), pending, n);
        n := n + 1;
      }
      assert pending[..n] == pending;
    }

    /** One pass of the render loop followed by its loop test: a window-close
        event or the first queued quit stops the loop; the update queue is
        still drained completely in that pass, in order, with one redraw per
        snapshot; a stopped loop ends the thread. */
    method Tick(windowClosed: bool)
      requires Valid() && running
      modifies this
      ensures Valid()
      ensures running == (!windowClosed && QuitCommand !in old(commandQueue))
      ensures threadAlive == running
      ensures commandQueue == CommandsAfterDrain(old(commandQueue))
      ensures updateQueue == []
      ensures gameState == if old(updateQueue) == [] then old(gameState) else Some(old(updateQueue)[|old(updateQueue)| - 1])
      ensures actionLog == Replay(old(actionLog), old(updateQueue)).0
      ensures frames == old(frames) + Replay(old(actionLog), old(updateQueue)).1
      ensures cityPositions == old(cityPositions)
    {
      ghost var commands, updates, log, shown, state := commandQueue, updateQueue, actionLog, frames, gameState;
      ghost var places := cityPositions;
      if windowClosed {
        running := false;
      }
      DrainCommands();
      ghost var stillRunning := running;
      assert stillRunning == (!windowClosed && QuitCommand !in commands);
      DrainUpdates();
      assert running == stillRunning && commandQueue == CommandsAfterDrain(commands);
      assert gameState == if updates == [] then state else Some(updates[|updates| - 1]);
      assert actionLog == Replay(log, updates).0 && frames == shown + Replay(log, updates).1;
      assert cityPositions == places;
      if !running {
        threadAlive := false;
      }
    }
  }
}
