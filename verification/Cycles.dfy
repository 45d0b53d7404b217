/** A cycle of the state machine that nothing interrupts is one round: the two
    descriptions of a synchronization agree. */
module Cycles {
  import opened Json
  import opened Protocol
  import opened ServerSpec
  import opened EngineSpec
  import opened Rounds
  import opened World
  import Queue
  import Strategies

  /** n durable writes in a row, all at one time. */
  function Writes(w: World, n: nat, settings: Settings, now: Stamp): World
    decreases n
  {
    if n == 0 then w else Writes(Advance(w, Work(now), settings), n - 1, settings, now)
  }

  lemma {:induction false} WritesCompose(w: World, a: nat, b: nat, settings: Settings, now: Stamp)
    ensures Writes(w, a + b, settings, now) == Writes(Writes(w, a, settings, now), b, settings, now)
    decreases a
  {
    if a > 0 {
      WritesCompose(Advance(w, Work(now), settings), a - 1, b, settings, now);
    }
  }

  /** The phase a list of tasks ends in. */
  function Afterwards(completed: bool, thenSnapshot: bool): Phase {
    if completed && thenSnapshot then AskingSnapshot([]) else Idle
  }

  /** One task is one write, or two for a resolved conflict. */
  lemma OneTask(w: World, tasks: seq<Task>, thenSnapshot: bool, settings: Settings, now: Stamp) returns (n: nat)
    requires w.phase == Working(tasks, thenSnapshot) && tasks != []
    ensures var o := Step(w.disk, tasks[0], settings.resolver, now);
            var next := Writes(w, n, settings, now);
            && next.disk == o.disk && next.server == w.server
            && next.phase == if o.completed then Working(tasks[1..], thenSnapshot) else Idle
  {
    var task, rest := tasks[0], tasks[1..];
    if task.Settle? && Resolve(w.disk.entities, task.conflict, task.local, settings.resolver).Resolved? {
      n := 2;
      TwoWrites(w, task, rest, thenSnapshot, settings, now);
    } else {
      n := 1;
      assert Writes(w, 1, settings, now) == Writes(Advance(w, Work(now), settings), 0, settings, now);
    }
  }

  lemma TwoWrites(w: World, task: Task, rest: seq<Task>, thenSnapshot: bool, settings: Settings, now: Stamp)
    requires w.phase.Working? && w.phase.tasks != [] && w.phase.tasks[0] == task && w.phase.tasks[1..] == rest
    requires w.phase.thenSnapshot == thenSnapshot
    requires task.Settle? && Resolve(w.disk.entities, task.conflict, task.local, settings.resolver).Resolved?
    ensures var o := Step(w.disk, task, settings.resolver, now);
            var next := Writes(w, 2, settings, now);
            && next.disk == o.disk && next.server == w.server
            && next.phase == if o.completed then Working(rest, thenSnapshot) else Idle
  {
    var data := Resolve(w.disk.entities, task.conflict, task.local, settings.resolver).data;
    var reissue := Reissue(task.conflict.mutationId, data);
    var first := Advance(w, Work(now), settings);
    assert first.phase == Working([reissue] + rest, thenSnapshot);
    assert ([reissue] + rest)[1..] == rest;
    assert Writes(w, 2, settings, now) == Writes(first, 1, settings, now);
    assert Writes(first, 1, settings, now) == Writes(Advance(first, Work(now), settings), 0, settings, now);
  }

  /** The tasks of a cycle, written one by one, leave the disk that carrying them
      all out leaves. */
  lemma {:induction false} WorkIsPerform(w: World, tasks: seq<Task>, thenSnapshot: bool, settings: Settings, now: Stamp) returns (n: nat)
    requires w.phase == Working(tasks, thenSnapshot)
    ensures var o := Perform(w.disk, tasks, settings.resolver, now);
            var end := Writes(w, n, settings, now);
            end.disk == o.disk && end.server == w.server && end.phase == Afterwards(o.completed, thenSnapshot)
    decreases |tasks|
  {
    if tasks == [] {
      n := 1;
      assert Writes(w, 1, settings, now) == Writes(Advance(w, Work(now), settings), 0, settings, now);
    } else {
      var first := OneTask(w, tasks, thenSnapshot, settings, now);
      var mid := Writes(w, first, settings, now);
      n := first;
      if Step(w.disk, tasks[0], settings.resolver, now).completed {
        var rest := WorkIsPerform(mid, tasks[1..], thenSnapshot, settings, now);
        WritesCompose(w, first, rest, settings, now);
        n := first + rest;
      }
    }
  }

  /** Request, answer and delivery without anything in between. */
  function Exchange(w: World, settings: Settings, now: Stamp): World {
    Advance(Advance(w, Serve(now), settings), Deliver, settings)
  }

  /** Left to itself, a cycle that starts with a cursor does what the round does:
      to the server, to the disk, and with the same result. */
  lemma UninterruptedCycleIsRound(w: World, settings: Settings, now: Stamp) returns (n: nat, m: nat)
    requires w.phase.Idle? && !w.disk.cursor.NoCursor?
    ensures var round := IncrementalRound(w.server, w.disk, settings, now);
            var first := Writes(Exchange(Advance(w, Begin, settings), settings, now), n, settings, now);
            var end := if first.phase.Idle? then first else Writes(Exchange(first, settings, now), m, settings, now);
            end.phase.Idle? && end.server == round.server && end.disk == round.disk
  {
    n, m := 0, 0;
    var batch := Queue.DequeuePending(w.disk.queue, settings.batchSize);
    var delivered := Exchange(Advance(w, Begin, settings), settings, now);
    BeginExchange(w, settings, now);
    var handled := HandleSync(w.server, BuildRequest(w.disk, batch, settings.clientId), now);
    match handled.reply
    case Response(r) =>
      if IsSyncResponse(r) {
        n := WorkIsPerform(delivered, Completion(batch, r), false, settings, now);
      }
    case CursorTooOld(_) =>
      n := WorkIsPerform(delivered, Reenqueued(batch), true, settings, now);
      var first := Writes(delivered, n, settings, now);
      if !first.phase.Idle? {
        m := SnapshotCycle(first, [], settings, now);
      }
  }

  lemma BeginExchange(w: World, settings: Settings, now: Stamp)
    requires w.phase.Idle? && !w.disk.cursor.NoCursor?
    ensures var batch := Queue.DequeuePending(w.disk.queue, settings.batchSize);
            var handled := HandleSync(w.server, BuildRequest(w.disk, batch, settings.clientId), now);
            Exchange(Advance(w, Begin, settings), settings, now) ==
            w.(server := handled.server, phase := Delivered(Holding(handled.reply, batch)))
  {
    var batch := Queue.DequeuePending(w.disk.queue, settings.batchSize);
    var request := BuildRequest(w.disk, batch, settings.clientId);
    BeginAsks(w, settings);
    ServeHolds(w.(phase := Asking(request, batch)), request, batch, settings, now);
  }

  lemma BeginAsks(w: World, settings: Settings)
    requires w.phase.Idle? && !w.disk.cursor.NoCursor?
    ensures var batch := Queue.DequeuePending(w.disk.queue, settings.batchSize);
            Advance(w, Begin, settings) == w.(phase := Asking(BuildRequest(w.disk, batch, settings.clientId), batch))
  {
  }

  lemma ServeHolds(w: World, request: SyncRequest, batch: Batch, settings: Settings, now: Stamp)
    requires w.phase == Asking(request, batch)
    ensures var handled := HandleSync(w.server, request, now);
            Exchange(w, settings, now) == w.(server := handled.server, phase := Delivered(Holding(handled.reply, batch)))
  {
    var handled := HandleSync(w.server, request, now);
    assert Advance(w, Serve(now), settings) == w.(server := handled.server, phase := Holding(handled.reply, batch));
  }

  lemma SnapshotCycle(w: World, collections: seq<string>, settings: Settings, now: Stamp) returns (m: nat)
    requires w.phase == AskingSnapshot(collections)
    ensures var round := SnapshotRound(w.server, w.disk, collections, settings, now);
            var end := Writes(Exchange(w, settings, now), m, settings, now);
            end.phase.Idle? && end.server == round.server && end.disk == round.disk
  {
    m := 0;
    var response := Snapshot(w.server, collections);
    if IsSnapshotResponse(response) {
      m := WorkIsPerform(Exchange(w, settings, now), SnapshotCompletion(response), false, settings, now);
    }
  }
}
