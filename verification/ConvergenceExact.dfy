/** Exactly when a completed snapshot brings a key up to date, and exactly when a
    cycle that breaks off leaves it off the value at the stored cursor. */
module ConvergenceExact {
  import opened Json
  import opened Protocol
  import opened ServerSpec
  import opened ServerLaws
  import opened EngineSpec
  import opened EngineLaws
  import opened Rounds
  import opened World
  import opened Convergence
  import opened Cycles
  import Queue
  import Draining
  import ServerRequests

  // ----- The server's value at two positions

  /** Somebody's mutation of the key was accepted between the two positions. */
  predicate TouchedBetween(h: seq<Applied>, from: int, to: int, k: Key)
    requires 0 <= from <= to <= |h|
  {
    TouchedSince(h[..to], from, k)
  }

  /** Revisions grow, so a key never returns to a value it had. */
  lemma {:induction false} ValueMovesIff(h: seq<Applied>, from: int, to: int, k: Key)
    requires Replayable(h) && 0 <= from <= to <= |h|
    ensures Latest(h[..from], k) == Latest(h[..to], k) <==> !TouchedBetween(h, from, to, k)
  {
    var g := h[..to];
    assert g[..from] == h[..from];
    if TouchedSince(g, from, k) {
      ReplayablePrefix(h, from);
      ReplayablePrefix(h, to);
      var i :| from <= i < |g| && g[i].mutation.key == k;
      Draining.RevisionAdvances(h[..from], g, i, k);
    } else {
      OverlayChanges(map[], g, from, k);
    }
  }

  lemma {:induction false} ExactMovesIff(h: seq<Applied>, entities: map<Key, Entity>, from: int, to: int, k: Key)
    requires Replayable(h) && 0 <= from <= to <= |h| && ServerValueAt(h, entities, k, from)
    ensures ServerValueAt(h, entities, k, to) <==> !TouchedBetween(h, from, to, k)
  {
    ValueMovesIff(h, from, to, k);
  }

  predicate AtCursor(w: World, k: Key) {
    ServerValueAt(w.server.history, w.disk.entities, k, Base(w.disk.cursor))
  }

  // ----- Snapshots

  /** The snapshot of some collections brings a key from its value at p to the value
      at the head exactly if its collection is among them or nobody touched it since. */
  lemma {:induction false} SnapshotExactIff(s: Server, entities: map<Key, Entity>, collections: seq<string>, k: Key, p: int)
    requires Consistent(s) && ServerValueAt(s.history, entities, k, p)
    ensures ServerValueAt(s.history, entities + Snapshot(s, collections).entities, k, |s.history|) <==>
            Included(collections, k) || !TouchedSince(s.history, p, k)
  {
    var h, snapshot := s.history, Snapshot(s, collections).entities;
    assert h[..|h|] == h;
    if Included(collections, k) {
      if k in StoreOf(h[..p]) {
        StoredStays(h, p, k);
      }
    } else {
      ExactMovesIff(h, entities, p, |h|, k);
      SameValue(h, entities, entities + snapshot, k);
      SameValue(h, entities + snapshot, entities, k);
    }
  }

  /** For the round: the cursor is at the head, the key perhaps not. */
  lemma {:induction false} SnapshotRoundExactIff(s: Server, d: Disk, collections: seq<string>, settings: Settings, now: Stamp, k: Key, p: int)
    requires Consistent(s) && ServerValueAt(s.history, d.entities, k, p)
    requires SnapshotRound(s, d, collections, settings, now).completed
    ensures var after := SnapshotRound(s, d, collections, settings, now).disk;
            && after.cursor == Position(|s.history|)
            && (ServerValueAt(s.history, after.entities, k, Base(after.cursor)) <==>
                  Included(collections, k) || !TouchedSince(s.history, p, k))
  {
    SnapshotExactIff(s, d.entities, collections, k, p);
    SnapshotPerformed(d, Snapshot(s, collections), settings, now);
  }

  lemma {:induction false} ForcedSnapshotIsRound(w: World, collections: seq<string>, settings: Settings, now: Stamp) returns (n: nat)
    requires w.phase.Idle?
    ensures var round := SnapshotRound(w.server, w.disk, collections, settings, now);
            var end := Writes(Exchange(Advance(w, ForceSnapshot(collections), settings), settings, now), n, settings, now);
            end.phase.Idle? && end.server == w.server && end.disk == round.disk
  {
    var asking := w.(phase := AskingSnapshot(collections));
    assert Advance(w, ForceSnapshot(collections), settings) == asking;
    n := SnapshotCycle(asking, collections, settings, now);
  }

  /** And for the state machine: a forced snapshot that nothing interrupts. */
  lemma {:induction false} ForcedSnapshotExactIff(w: World, collections: seq<string>, settings: Settings, now: Stamp, k: Key, p: int)
    returns (n: nat)
    requires w.phase.Idle? && Consistent(w.server) && ServerValueAt(w.server.history, w.disk.entities, k, p)
    requires SnapshotRound(w.server, w.disk, collections, settings, now).completed
    ensures var end := Writes(Exchange(Advance(w, ForceSnapshot(collections), settings), settings, now), n, settings, now);
            && end.phase.Idle? && end.server == w.server && end.disk.cursor == Position(|w.server.history|)
            && (AtCursor(end, k) <==> Included(collections, k) || !TouchedSince(w.server.history, p, k))
  {
    n := ForcedSnapshotIsRound(w, collections, settings, now);
    SnapshotRoundExactIff(w.server, w.disk, collections, settings, now, k, p);
  }

  // ----- Changes from a log that has lost its beginning

  /** Where the changes for a position really begin: behind what pruning has taken. */
  function From(s: Server, n: int): (from: int)
    requires LogConsistent(s) && 0 <= n <= |s.history|
    ensures n <= from <= |s.history|
  {
    if n <= Lost(s) then Lost(s) else n
  }

  /** The changes the log still has bring a key from its value at n to the value at the
      head exactly if nobody touched it since n, or somebody did in what is left. */
  lemma {:induction false} ChangesExactIff(s: Server, entities: map<Key, Entity>, n: int, k: Key)
    requires Consistent(s) && 0 <= n <= |s.history| && ServerValueAt(s.history, entities, k, n)
    ensures ServerValueAt(s.history, Overlay(entities, After(s.log, n)), k, |s.history|) <==>
            !TouchedSince(s.history, n, k) || TouchedSince(s.history, From(s, n), k)
  {
    var h := s.history;
    assert h[..|h|] == h;
    ServerRequests.AfterIsSuffix(h, Lost(s), n);
    OverlayChanges(entities, h, From(s, n), k);
    ValueMovesIff(h, n, |h|, k);
  }

  // ----- Cycles that break off

  /** The cycle is about to write its data, which reaches up to position `to`; the key
      holds the value at the stored cursor. */
  predicate AboutToWrite(w: World, k: Key, to: int) {
    && w.phase.Working? && DataThenCursor(w, k, w.phase.tasks, to)
    && Invariant(w, k) && !w.torn && !LocalKey(w.disk.queue, k)
  }

  lemma StepKeepsKeys(disk: Disk, task: Task, resolver: Option<Resolver>, now: Stamp)
    ensures var q, p := disk.queue, Step(disk, task, resolver, now).disk.queue;
            |p| == |q| && forall i | 0 <= i < |q| :: p[i].key == q[i].key
  {
  }

  lemma {:induction false} WorkKeepsLocal(w: World, settings: Settings, now: Stamp, k: Key)
    ensures LocalKey(Advance(w, Work(now), settings).disk.queue, k) <==> LocalKey(w.disk.queue, k)
    ensures Advance(w, Work(now), settings).server == w.server
  {
    var q, p := w.disk.queue, Advance(w, Work(now), settings).disk.queue;
    if w.phase.Working? && w.phase.tasks != [] {
      StepKeepsKeys(w.disk, w.phase.tasks[0], settings.resolver, now);
    }
    LocalKeySurvives(q, p);
    LocalKeySurvives(p, q);
  }

  /** The data and the cursor are written; only quiet tasks are left, if any. */
  predicate Settling(w: World, k: Key) {
    && Invariant(w, k) && !w.torn && !LocalKey(w.disk.queue, k)
    && (w.phase.Working? ==> Quiet(w.disk.queue, w.phase.tasks))
  }

  lemma {:induction false} QuietWorkSettles(w: World, settings: Settings, now: Stamp, k: Key)
    requires Settling(w, k)
    ensures Settling(Advance(w, Work(now), settings), k)
  {
    WorkKeepsLocal(w, settings, now, k);
    StepKeeps(w, Work(now), settings, k);
    if w.phase.Working? && w.phase.tasks != [] {
      QuietTail(w, settings, now);
    }
  }

  lemma {:induction false} QuietTail(w: World, settings: Settings, now: Stamp)
    requires w.phase.Working? && w.phase.tasks != [] && Quiet(w.disk.queue, w.phase.tasks) && !w.torn
    ensures var next := Advance(w, Work(now), settings);
            !next.torn && (next.phase.Working? ==> Quiet(next.disk.queue, next.phase.tasks))
  {
    var tasks := w.phase.tasks;
    assert tasks[0] in tasks && QuietTask(w.disk.queue, tasks[0]);
    QuietCeiling(w.disk.queue, tasks);
    StepKeepsKeys(w.disk, tasks[0], settings.resolver, now);
    LocalKeySurvives(w.disk.queue, Advance(w, Work(now), settings).disk.queue);
  }

  lemma {:induction false} SettlingWrites(w: World, n: nat, settings: Settings, now: Stamp, k: Key)
    requires Settling(w, k)
    ensures AtCursor(Writes(w, n, settings, now), k)
    decreases n
  {
    if n > 0 {
      QuietWorkSettles(w, settings, now, k);
      SettlingWrites(Advance(w, Work(now), settings), n - 1, settings, now, k);
    }
  }

  /** After the data: the key holds the value at `to`, the cursor is next. */
  predicate DataDone(w: World, k: Key, to: int) {
    && Invariant(w, k) && !LocalKey(w.disk.queue, k)
    && w.phase.Working? && w.phase.tasks != [] && w.phase.tasks[0] == SaveCursor(Position(to))
    && Quiet(w.disk.queue, w.phase.tasks[1..])
    && ServerValueAt(w.server.history, w.disk.entities, k, to)
  }

  lemma {:induction false} DataValue(w: World, k: Key, to: int, settings: Settings, now: Stamp)
    requires AboutToWrite(w, k, to)
    ensures var next := Advance(w, Work(now), settings);
            ServerValueAt(w.server.history, next.disk.entities, k, to) && next.server == w.server
  {
    WorkWritesData(w, settings, now);
    DataArrives(w.server.history, w.disk.entities, k, Base(w.disk.cursor), to, w.phase.tasks[0]);
  }

  lemma {:induction false} WorkWritesData(w: World, settings: Settings, now: Stamp)
    requires w.phase.Working? && w.phase.tasks != []
    requires w.phase.tasks[0].ApplyChanges? || w.phase.tasks[0].ApplySnapshot?
    ensures Advance(w, Work(now), settings).disk == w.disk.(entities := WithData(w.disk.entities, w.phase.tasks[0]))
    ensures Advance(w, Work(now), settings).phase == Working(w.phase.tasks[1..], w.phase.thenSnapshot)
    ensures Advance(w, Work(now), settings).server == w.server
  {
  }

  lemma {:induction false} DataWritten(w: World, k: Key, to: int, settings: Settings, now: Stamp)
    requires AboutToWrite(w, k, to)
    ensures var next := Advance(w, Work(now), settings);
            DataDone(next, k, to) && next.server == w.server && next.disk.cursor == w.disk.cursor
  {
    var next := Advance(w, Work(now), settings);
    StepKeeps(w, Work(now), settings, k);
    DataValue(w, k, to, settings, now);
    WorkWritesData(w, settings, now);
    DataNext(w, next, k, to);
  }

  lemma {:induction false} DataNext(w: World, next: World, k: Key, to: int)
    requires w.phase.Working? && DataThenCursor(w, k, w.phase.tasks, to) && !LocalKey(w.disk.queue, k)
    requires Invariant(next, k) && ServerValueAt(next.server.history, next.disk.entities, k, to)
    requires next.disk.queue == w.disk.queue && next.phase == Working(w.phase.tasks[1..], w.phase.thenSnapshot)
    ensures DataDone(next, k, to)
  {
    assert w.phase.tasks[1..][1..] == w.phase.tasks[2..];
  }

  lemma {:induction false} CursorWritten(w: World, k: Key, to: int, settings: Settings, now: Stamp)
    requires DataDone(w, k, to)
    ensures Settling(Advance(w, Work(now), settings), k)
  {
    WorkKeepsLocal(w, settings, now, k);
    StepKeeps(w, Work(now), settings, k);
  }

  lemma {:induction false} SettlingAfterTwo(w: World, k: Key, to: int, settings: Settings, now: Stamp) returns (two: World)
    requires AboutToWrite(w, k, to)
    ensures Settling(two, k) && forall n: nat | n >= 2 :: Writes(w, n, settings, now) == Writes(two, n - 2, settings, now)
  {
    var one := Advance(w, Work(now), settings);
    two := Advance(one, Work(now), settings);
    DataWritten(w, k, to, settings, now);
    CursorWritten(one, k, to, settings, now);
    forall n: nat | n >= 2 ensures Writes(w, n, settings, now) == Writes(two, n - 2, settings, now) {
      assert Writes(w, n, settings, now) == Writes(one, n - 1, settings, now);
    }
  }

  lemma {:induction false} CrashLater(w: World, k: Key, to: int, n: nat, settings: Settings, now: Stamp)
    requires AboutToWrite(w, k, to) && n >= 2
    ensures AtCursor(Writes(w, n, settings, now), k)
  {
    var two := SettlingAfterTwo(w, k, to, settings, now);
    SettlingWrites(two, n - 2, settings, now, k);
  }

  lemma {:induction false} CrashAfterData(w: World, k: Key, to: int, settings: Settings, now: Stamp)
    requires AboutToWrite(w, k, to)
    ensures AtCursor(Writes(w, 1, settings, now), k) <==> !TouchedBetween(w.server.history, Base(w.disk.cursor), to, k)
  {
    var one := Advance(w, Work(now), settings);
    DataWritten(w, k, to, settings, now);
    assert Writes(w, 1, settings, now) == Writes(one, 0, settings, now) == one;
    OffCursorIff(w.server, one.disk.entities, k, Base(w.disk.cursor), to);
  }

  /** A cycle that crashes after n durable writes leaves the key at the value of the
      stored cursor, unless n is one, the data without the cursor, and somebody touched
      the key between the two positions. */
  lemma {:induction false} CrashExactIff(w: World, k: Key, to: int, n: nat, settings: Settings, now: Stamp)
    requires AboutToWrite(w, k, to)
    ensures AtCursor(Advance(Writes(w, n, settings, now), Crash, settings), k) <==>
            n != 1 || !TouchedBetween(w.server.history, Base(w.disk.cursor), to, k)
  {
    CrashKeepsDisk(Writes(w, n, settings, now), settings, k);
    if n == 1 {
      CrashAfterData(w, k, to, settings, now);
    } else if n >= 2 {
      CrashLater(w, k, to, n, settings, now);
    }
  }

  lemma CrashKeepsDisk(w: World, settings: Settings, k: Key)
    ensures AtCursor(Advance(w, Crash, settings), k) <==> AtCursor(w, k)
  {
  }

  /** In every run: whenever the data of a response is about to be written. */
  lemma {:induction false} CrashInRunIff(events: seq<Event>, k: Key, n: nat, settings: Settings, now: Stamp)
    requires AllowedRun(START, events, settings, k)
    requires var w := Reach(START, events, settings);
             && w.phase.Working? && w.phase.tasks != [] && (w.phase.tasks[0].ApplyChanges? || w.phase.tasks[0].ApplySnapshot?)
             && !w.torn && !LocalKey(w.disk.queue, k)
    ensures var w := Reach(START, events, settings);
            && AboutToWrite(w, k, Ceiling(w))
            && (AtCursor(Advance(Writes(w, n, settings, now), Crash, settings), k) <==>
                  n != 1 || !TouchedBetween(w.server.history, Base(w.disk.cursor), Ceiling(w), k))
  {
    var w := Reach(START, events, settings);
    InvariantHolds(events, settings, k);
    assert w.phase.tasks[0] in w.phase.tasks;
    CrashExactIff(w, k, Ceiling(w), n, settings, now);
  }

  lemma {:induction false} OffCursorIff(s: Server, entities: map<Key, Entity>, k: Key, from: int, to: int)
    requires Consistent(s) && 0 <= from <= to <= |s.history| && ServerValueAt(s.history, entities, k, to)
    ensures ServerValueAt(s.history, entities, k, from) <==> !TouchedBetween(s.history, from, to, k)
  {
    ValueMovesIff(s.history, from, to, k);
  }
}
