/** Every entity the client has not written itself is, in every reachable state,
    the server's value at some log position from the stored cursor on, and exactly
    the one at the cursor unless a cycle broke off between its changes and its
    cursor. */
module Convergence {
  import opened Json
  import opened Protocol
  import opened ServerSpec
  import opened ServerLaws
  import opened ServerRequests
  import opened EngineSpec
  import opened EngineLaws
  import opened Rounds
  import opened World
  import Queue

  // ----- What is claimed of a key

  predicate LocalKey(q: Queue.Mutations, k: Key) {
    exists i :: 0 <= i < |q| && q[i].key == k
  }

  /** The log position a cursor stands for. */
  function Base(c: Cursor): int {
    if c.Position? then c.n else 0
  }

  predicate ServerValueAt(h: seq<Applied>, entities: map<Key, Entity>, k: Key, p: int) {
    0 <= p <= |h| && Get(entities, k) == Latest(h[..p], k)
  }

  /** The key holds the server's value at some position in the range. */
  predicate Between(h: seq<Applied>, entities: map<Key, Entity>, k: Key, low: int, high: int) {
    exists p :: low <= p <= high && ServerValueAt(h, entities, k, p)
  }

  predicate CursorOk(w: World) {
    (w.disk.cursor.NoCursor? || w.disk.cursor.Position?) && 0 <= Base(w.disk.cursor) <= |w.server.history|
  }

  predicate ServerOk(s: Server) {
    Consistent(s) && MinimumHonest(s)
  }

  // ----- What is claimed of the cycle under way

  predicate Included(collections: seq<string>, k: Key) {
    collections == [] || k.collection in collections
  }

  predicate LocalConflicts(q: Queue.Mutations, cs: seq<ConflictInfo>) {
    forall c | c in cs :: LocalKey(q, c.key)
  }

  predicate QuietTask(q: Queue.Mutations, t: Task) {
    match t
    case Acknowledge(_) => true
    case Reissue(_, _) => true
    case Retry(_) => true
    case Settle(c, _) => LocalKey(q, c.key)
    case _ => false
  }

  /** None of the tasks writes an entity that is not local, or the cursor. */
  predicate Quiet(q: Queue.Mutations, tasks: seq<Task>) {
    forall t | t in tasks :: QuietTask(q, t)
  }

  predicate ChangesUpTo(h: seq<Applied>, from: int, to: int, changes: seq<Change>) {
    0 <= from <= to <= |h| && changes == Logged(h[..to])[from..]
  }

  predicate SnapshotUpTo(h: seq<Applied>, k: Key, to: int, entities: map<Key, Entity>) {
    0 <= to <= |h| && Get(entities, k) == Latest(h[..to], k)
  }

  predicate BringsUpTo(h: seq<Applied>, k: Key, from: int, to: int, task: Task) {
    match task
    case ApplyChanges(changes) => ChangesUpTo(h, from, to, changes)
    case ApplySnapshot(entities) => SnapshotUpTo(h, k, to, entities)
    case _ => false
  }

  function WithData(entities: map<Key, Entity>, task: Task): map<Key, Entity> {
    match task
    case ApplyChanges(changes) => Overlay(entities, changes)
    case ApplySnapshot(snapshot) => entities + snapshot
    case _ => entities
  }

  /** The tasks begin with remote data that reaches up to position `to`, followed
      by the cursor for it. */
  predicate DataThenCursor(w: World, k: Key, tasks: seq<Task>, to: int) {
    && |tasks| >= 2 && tasks[1] == SaveCursor(Position(to)) && Quiet(w.disk.queue, tasks[2..])
    && Base(w.disk.cursor) <= to
    && BringsUpTo(w.server.history, k, Base(w.disk.cursor), to, tasks[0])
  }

  predicate CursorNext(w: World, k: Key, tasks: seq<Task>) {
    && tasks != [] && tasks[0].SaveCursor? && tasks[0].cursor.Position? && Quiet(w.disk.queue, tasks[1..])
    && Base(w.disk.cursor) <= tasks[0].cursor.n <= |w.server.history|
    && (LocalKey(w.disk.queue, k) || ServerValueAt(w.server.history, w.disk.entities, k, tasks[0].cursor.n))
  }

  predicate PhaseOk(w: World, k: Key) {
    match w.phase
    case Idle => true
    case Asking(request, _) =>
      && request.cursor == w.disk.cursor && w.disk.cursor.Position?
      && forall m | m in request.mutations :: LocalKey(w.disk.queue, m.key)
    case Holding(Response(r), _) =>
      && r.newCursor.Position? && LocalConflicts(w.disk.queue, r.conflicts)
      && ChangesUpTo(w.server.history, Base(w.disk.cursor), r.newCursor.n, r.changes)
    case Holding(CursorTooOld(_), _) => true
    case AskingSnapshot(collections) => Included(collections, k)
    case HoldingSnapshot(response) =>
      && response.cursor.Position? && Base(w.disk.cursor) <= response.cursor.n
      && SnapshotUpTo(w.server.history, k, response.cursor.n, response.entities)
    case Working(tasks, thenSnapshot) =>
      || (Quiet(w.disk.queue, tasks) && (thenSnapshot || !w.torn))
      || CursorNext(w, k, tasks)
      || (|tasks| >= 2 && tasks[1].SaveCursor? && tasks[1].cursor.Position?
          && DataThenCursor(w, k, tasks, tasks[1].cursor.n))
  }

  /** The highest position that what the client holds can stem from. */
  function Ceiling(w: World): int {
    match w.phase
    case Holding(Response(r), _) => Base(r.newCursor)
    case HoldingSnapshot(response) => Base(response.cursor)
    case Working(tasks, _) =>
      if |tasks| >= 2 && tasks[1].SaveCursor? then Base(tasks[1].cursor) else |w.server.history|
    case _ => |w.server.history|
  }

  predicate KeyOk(w: World, k: Key) {
    || LocalKey(w.disk.queue, k)
    || (Between(w.server.history, w.disk.entities, k, Base(w.disk.cursor), Ceiling(w))
        && (!w.torn ==> ServerValueAt(w.server.history, w.disk.entities, k, Base(w.disk.cursor))))
  }

  predicate Invariant(w: World, k: Key) {
    ServerOk(w.server) && CursorOk(w) && PhaseOk(w, k) && KeyOk(w, k)
  }

  // ----- The server moves on

  predicate ServerMoves(s: Server, t: Server) {
    s.history <= t.history && ServerOk(t)
  }

  lemma RequestMovesServer(s: Server, request: SyncRequest, now: Stamp)
    requires ServerOk(s)
    ensures ServerMoves(s, HandleSync(s, request, now).server)
  {
    ProcessConsistent(s, request.mutations, now);
  }

  lemma PruneMovesServer(s: Server, c: Cursor)
    requires ServerOk(s) && SafeMinimum(s, c)
    ensures ServerMoves(s, Prune(s, c))
  {
    PruneConsistent(s, c);
    PruneCoverage(s, c);
    CoveredIff(Prune(s, c));
  }

  lemma ValueSurvives(h: seq<Applied>, later: seq<Applied>, entities: map<Key, Entity>, k: Key)
    requires h <= later
    ensures forall p :: ServerValueAt(h, entities, k, p) ==> ServerValueAt(later, entities, k, p)
  {
    forall p | ServerValueAt(h, entities, k, p) ensures ServerValueAt(later, entities, k, p) {
      assert later[..p] == h[..p];
    }
  }

  lemma PrefixSurvives(h: seq<Applied>, later: seq<Applied>)
    requires h <= later
    ensures forall p | 0 <= p <= |h| :: later[..p] == h[..p]
  {
  }

  lemma PhaseUnderServer(w: World, t: Server, k: Key)
    requires PhaseOk(w, k) && w.server.history <= t.history
    ensures PhaseOk(w.(server := t), k)
  {
    ValueSurvives(w.server.history, t.history, w.disk.entities, k);
    PrefixSurvives(w.server.history, t.history);
  }

  lemma InvariantUnderServer(w: World, t: Server, k: Key)
    requires Invariant(w, k) && ServerMoves(w.server, t)
    ensures Invariant(w.(server := t), k)
  {
    PhaseUnderServer(w, t, k);
    ValueSurvives(w.server.history, t.history, w.disk.entities, k);
    assert Ceiling(w) <= Ceiling(w.(server := t));
  }

  // ----- The client writes

  lemma LocalKeySurvives(q: Queue.Mutations, p: Queue.Mutations)
    requires |q| <= |p| && forall i | 0 <= i < |q| :: p[i].key == q[i].key
    ensures forall k :: LocalKey(q, k) ==> LocalKey(p, k)
    ensures forall tasks :: Quiet(q, tasks) ==> Quiet(p, tasks)
  {
    forall k | LocalKey(q, k) ensures LocalKey(p, k) {
      var i :| 0 <= i < |q| && q[i].key == k;
      assert p[i].key == k;
    }
  }

  /** A step that keeps every stored mutation, the cursor, and the entity of the
      key unless the key is local, keeps the invariant. */
  lemma InvariantUnderDisk(w: World, d: Disk, k: Key)
    requires Invariant(w, k)
    requires |w.disk.queue| <= |d.queue| && forall i | 0 <= i < |w.disk.queue| :: d.queue[i].key == w.disk.queue[i].key
    requires d.cursor == w.disk.cursor
    requires LocalKey(d.queue, k) || Get(d.entities, k) == Get(w.disk.entities, k)
    ensures Invariant(w.(disk := d), k)
  {
    LocalKeySurvives(w.disk.queue, d.queue);
    if !LocalKey(d.queue, k) {
      SameValue(w.server.history, w.disk.entities, d.entities, k);
    }
  }

  lemma SameValue(h: seq<Applied>, entities: map<Key, Entity>, others: map<Key, Entity>, k: Key)
    requires Get(entities, k) == Get(others, k)
    ensures forall p :: ServerValueAt(h, entities, k, p) ==> ServerValueAt(h, others, k, p)
    ensures forall low, high :: Between(h, entities, k, low, high) ==> Between(h, others, k, low, high)
  {
    forall low, high | Between(h, entities, k, low, high) ensures Between(h, others, k, low, high) {
      var p :| low <= p <= high && ServerValueAt(h, entities, k, p);
      assert ServerValueAt(h, others, k, p);
    }
  }

  // ----- The steps of a cycle

  lemma {:induction false} ConflictKeys(s: Server, ms: seq<ProtocolMutation>, now: Stamp, c: ConflictInfo)
    requires c in Process(s, ms, now).conflicts
    ensures exists m :: m in ms && m.key == c.key
  {
    var init, m := ms[..|ms| - 1], ms[|ms| - 1];
    assert m in ms;
    if c in Process(s, init, now).conflicts {
      ConflictKeys(s, init, now, c);
      var x :| x in init && x.key == c.key;
      assert x in ms;
    }
  }

  /** What a consistent server with an honest minimum answers to an accepted cursor. */
  lemma AnswerUpTo(s: Server, request: SyncRequest, now: Stamp)
    requires ServerOk(s) && request.cursor.Position? && 0 <= request.cursor.n <= |s.history|
    requires HandleSync(s, request, now).reply.Response?
    ensures var r, t := HandleSync(s, request, now).reply.response, HandleSync(s, request, now).server;
            && r.newCursor == Position(|t.history|)
            && ChangesUpTo(t.history, request.cursor.n, |t.history|, r.changes)
  {
    ProcessConsistent(s, request.mutations, now);
    var t := HandleSync(s, request, now).server;
    CompleteIff(t, request.cursor.n);
    assert t.history[..|t.history|] == t.history;
  }

  lemma ServeKeeps(w: World, now: Stamp, k: Key)
    requires Invariant(w, k) && w.phase.Asking?
    ensures Invariant(Served(w, now), k)
  {
    var request := w.phase.request;
    var handled := HandleSync(w.server, request, now);
    RequestMovesServer(w.server, request, now);
    InvariantUnderServer(w, handled.server, k);
    if handled.reply.Response? {
      AnswerUpTo(w.server, request, now);
      forall c | c in handled.reply.response.conflicts ensures LocalKey(w.disk.queue, c.key) {
        ConflictKeys(w.server, request.mutations, now, c);
      }
    }
  }

  lemma ServeSnapshotKeeps(w: World, now: Stamp, k: Key)
    requires Invariant(w, k) && w.phase.AskingSnapshot?
    ensures Invariant(Served(w, now), k)
  {
    var h := w.server.history;
    assert h[..|h|] == h;
  }

  lemma BeginKeeps(w: World, settings: Settings, k: Key)
    requires Invariant(w, k) && w.phase.Idle?
    ensures Invariant(w.(phase := Opening(w.disk, settings)), k)
  {
    if !w.disk.cursor.NoCursor? {
      var batch := Queue.DequeuePending(w.disk.queue, settings.batchSize);
      var ms := Outgoing(w.disk.entities, batch);
      forall m | m in ms ensures LocalKey(w.disk.queue, m.key) {
        var i :| 0 <= i < |ms| && ms[i] == m;
        BatchFromQueue(w.disk.queue, settings.batchSize, batch[i]);
      }
    }
  }

  lemma BatchFromQueue(q: Queue.Mutations, limit: nat, m: Mutation)
    requires m in Queue.DequeuePending(q, limit)
    ensures LocalKey(q, m.key)
  {
    Queue.PendingLaw(q);
    assert m in Queue.Pending(q);
    var i :| 0 <= i < |q| && q[i] == m;
  }

  lemma QuietCompletion(q: Queue.Mutations, batch: Batch, r: SyncResponse)
    requires LocalConflicts(q, r.conflicts)
    ensures Completion(batch, r)[..2] == [ApplyChanges(r.changes), SaveCursor(r.newCursor)]
    ensures Quiet(q, Completion(batch, r)[2..])
  {
    var rest := Acknowledgements(r.acknowledgedMutationIds) + Settlements(r.conflicts, batch) + Retries(batch, r);
    assert Completion(batch, r) == [ApplyChanges(r.changes), SaveCursor(r.newCursor)] + rest;
    RetriesAre(batch, r);
    forall t | t in Settlements(r.conflicts, batch) ensures QuietTask(q, t) {
      var i :| 0 <= i < |r.conflicts| && t == Settlements(r.conflicts, batch)[i];
      assert r.conflicts[i] in r.conflicts;
    }
  }

  lemma {:induction false} RetriesAre(batch: Batch, r: SyncResponse)
    ensures forall t | t in Retries(batch, r) :: t.Retry?
    decreases |batch|
  {
    if batch != [] {
      RetriesAre(batch[1..], r);
    }
  }

  lemma DeliverKeeps(w: World, k: Key)
    requires Invariant(w, k)
    ensures Invariant(w.(phase := Delivered(w.phase)), k)
  {
    match w.phase
    case Holding(Response(r), batch) => DeliverResponseKeeps(w, r, batch, k);
    case Holding(CursorTooOld(_), batch) => QuietReenqueued(w.disk.queue, batch);
    case _ =>
  }

  lemma DeliverResponseKeeps(w: World, r: SyncResponse, batch: Batch, k: Key)
    requires Invariant(w, k) && w.phase == Holding(Response(r), batch)
    ensures Invariant(w.(phase := Delivered(w.phase)), k)
  {
    QuietCompletion(w.disk.queue, batch, r);
    var tasks := Completion(batch, r);
    assert tasks[0] == tasks[..2][0] && tasks[1] == tasks[..2][1];
    CeilingIsBounded(w, k);
  }

  lemma QuietReenqueued(q: Queue.Mutations, batch: Batch)
    ensures Quiet(q, Reenqueued(batch))
    ensures forall i | 0 <= i < |Reenqueued(batch)| :: !Reenqueued(batch)[i].SaveCursor?
  {
    var tasks := Reenqueued(batch);
    forall t | t in tasks ensures QuietTask(q, t) {
      var i :| 0 <= i < |tasks| && tasks[i] == t;
    }
  }

  // ----- The durable writes

  lemma {:induction false} StoredStays(h: seq<Applied>, p: nat, k: Key)
    requires p <= |h| && k in StoreOf(h[..p])
    ensures k in StoreOf(h)
  {
    if p == |h| {
      assert h[..p] == h;
    } else {
      assert h[..|h| - 1][..p] == h[..p];
      StoredStays(h[..|h| - 1], p, k);
    }
  }

  /** Remote data that reaches up to a position brings any key that held an older
      value exactly to that position. */
  lemma DataArrives(h: seq<Applied>, entities: map<Key, Entity>, k: Key, from: int, to: int, task: Task)
    requires 0 <= from <= to <= |h| && Between(h, entities, k, from, to)
    requires BringsUpTo(h, k, from, to, task)
    ensures ServerValueAt(h, WithData(entities, task), k, to)
  {
    var p :| from <= p <= to && ServerValueAt(h, entities, k, p);
    var g := h[..to];
    assert g[..p] == h[..p];
    match task
    case ApplyChanges(changes) =>
      OverlayChanges(entities, g, from, k);
      OverlayChanges(entities, g, p, k);
    case ApplySnapshot(snapshot) =>
      if k in StoreOf(g[..p]) {
        StoredStays(g, p, k);
      }
  }

  lemma DataStepKeeps(w: World, resolver: Option<Resolver>, now: Stamp, k: Key)
    requires Invariant(w, k) && w.phase.Working? && w.phase.tasks != []
    requires w.phase.tasks[0].ApplyChanges? || w.phase.tasks[0].ApplySnapshot?
    ensures Invariant(Worked(w, w.phase.tasks, w.phase.thenSnapshot, resolver, now), k)
  {
    var tasks := w.phase.tasks;
    assert tasks[0] in tasks;
    var to := tasks[1].cursor.n;
    if !LocalKey(w.disk.queue, k) {
      DataArrives(w.server.history, w.disk.entities, k, Base(w.disk.cursor), to, tasks[0]);
    }
    assert tasks[1..][1..] == tasks[2..];
    QuietCeiling(w.disk.queue, tasks[2..]);
  }

  lemma QuietCeiling(q: Queue.Mutations, tasks: seq<Task>)
    requires Quiet(q, tasks)
    ensures forall i | 0 <= i < |tasks| :: !tasks[i].SaveCursor?
    ensures tasks != [] ==> Quiet(q, tasks[1..])
  {
    forall i | 0 <= i < |tasks| ensures !tasks[i].SaveCursor? {
      assert tasks[i] in tasks;
    }
  }

  lemma CursorStepKeeps(w: World, resolver: Option<Resolver>, now: Stamp, k: Key)
    requires Invariant(w, k) && w.phase.Working? && w.phase.tasks != [] && w.phase.tasks[0].SaveCursor?
    ensures Invariant(Worked(w, w.phase.tasks, w.phase.thenSnapshot, resolver, now), k)
  {
    var tasks := w.phase.tasks;
    assert tasks[0] in tasks;
    QuietCeiling(w.disk.queue, tasks[1..]);
  }

  lemma QuietStepKeeps(w: World, resolver: Option<Resolver>, now: Stamp, k: Key)
    requires Invariant(w, k) && w.phase.Working? && w.phase.tasks != []
    requires Quiet(w.disk.queue, w.phase.tasks) && (w.phase.thenSnapshot || !w.torn)
    ensures Invariant(Worked(w, w.phase.tasks, w.phase.thenSnapshot, resolver, now), k)
  {
    var tasks := w.phase.tasks;
    var next := Worked(w, tasks, w.phase.thenSnapshot, resolver, now);
    assert tasks[0] in tasks;
    QuietCeiling(w.disk.queue, tasks);
    QuietDisk(w, next.disk, k, tasks[0], resolver, now);
    InvariantUnderDisk(w, next.disk, k);
    QuietPhase(w, next, k);
  }

  /** From one quiet list of tasks to another, or to the end of the cycle. */
  lemma QuietPhase(w: World, next: World, k: Key)
    requires w.phase.Working? && Quiet(w.disk.queue, w.phase.tasks)
    requires Invariant(w.(disk := next.disk), k)
    requires next == w.(disk := next.disk, phase := next.phase) && next.disk.cursor == w.disk.cursor
    requires next.phase.Idle? ||
             (next.phase.Working? && Quiet(next.disk.queue, next.phase.tasks) && (next.phase.thenSnapshot || !w.torn))
    ensures Invariant(next, k)
  {
    QuietCeiling(w.disk.queue, w.phase.tasks);
    if next.phase.Working? {
      QuietCeiling(next.disk.queue, next.phase.tasks);
    }
  }

  lemma QuietDisk(w: World, d: Disk, k: Key, task: Task, resolver: Option<Resolver>, now: Stamp)
    requires QuietTask(w.disk.queue, task)
    requires d == Step(w.disk, task, resolver, now).disk
             || (task.Settle? && exists data :: d == PutResolved(w.disk, task.conflict, data, now))
    ensures d.cursor == w.disk.cursor && |d.queue| == |w.disk.queue|
    ensures forall i | 0 <= i < |d.queue| :: d.queue[i].key == w.disk.queue[i].key
    ensures LocalKey(w.disk.queue, k) || Get(d.entities, k) == Get(w.disk.entities, k)
  {
  }

  lemma WorkKeeps(w: World, resolver: Option<Resolver>, now: Stamp, k: Key)
    requires Invariant(w, k) && w.phase.Working?
    ensures Invariant(Worked(w, w.phase.tasks, w.phase.thenSnapshot, resolver, now), k)
  {
    var tasks := w.phase.tasks;
    if tasks != [] {
      if tasks[0].ApplyChanges? || tasks[0].ApplySnapshot? {
        DataStepKeeps(w, resolver, now, k);
      } else if tasks[0].SaveCursor? {
        CursorStepKeeps(w, resolver, now, k);
      } else {
        QuietStepKeeps(w, resolver, now, k);
      }
    }
  }

  // ----- Runs

  /** What may happen: fresh local writes, prunings that do not lower the minimum
      below what is gone, and snapshots that include the key's collection. */
  predicate Allowed(w: World, e: Event, k: Key) {
    match e
    case PruneTo(cursor) => SafeMinimum(w.server, cursor)
    case ForceSnapshot(collections) => Included(collections, k)
    case _ => Fresh(w, e)
  }

  predicate AllowedRun(w: World, events: seq<Event>, settings: Settings, k: Key)
    decreases |events|
  {
    events == [] ||
    var before := events[..|events| - 1];
    AllowedRun(w, before, settings, k) && Allowed(Reach(w, before, settings), events[|events| - 1], k)
  }

  lemma LocalWriteKeeps(w: World, m: Mutation, entity: Entity, settings: Settings, k: Key)
    requires Invariant(w, k) && Fresh(w, LocalWrite(m, entity))
    ensures Invariant(Advance(w, LocalWrite(m, entity), settings), k)
  {
    var q := Queue.Enqueue(w.disk.queue, m);
    assert q[|q| - 1] == m;
    InvariantUnderDisk(w, w.disk.(entities := w.disk.entities[m.key := entity], queue := q), k);
  }

  lemma StepKeeps(w: World, e: Event, settings: Settings, k: Key)
    requires Invariant(w, k) && Allowed(w, e, k)
    ensures Invariant(Advance(w, e, settings), k)
  {
    match e
    case LocalWrite(m, entity) => LocalWriteKeeps(w, m, entity, settings, k);
    case Foreign(request, now) =>
      RequestMovesServer(w.server, request, now);
      InvariantUnderServer(w, HandleSync(w.server, request, now).server, k);
    case PruneTo(cursor) =>
      PruneMovesServer(w.server, cursor);
      InvariantUnderServer(w, Prune(w.server, cursor), k);
    case Begin => if w.phase.Idle? { BeginKeeps(w, settings, k); }
    case ForceSnapshot(_) =>
    case Serve(now) =>
      if w.phase.Asking? { ServeKeeps(w, now, k); }
      if w.phase.AskingSnapshot? { ServeSnapshotKeeps(w, now, k); }
    case Lose => CeilingIsBounded(w, k);
    case Deliver => DeliverKeeps(w, k);
    case Work(now) => if w.phase.Working? { WorkKeeps(w, settings.resolver, now, k); }
    case Crash => CeilingIsBounded(w, k);
    case Recover =>
      if w.phase.Idle? { InvariantUnderDisk(w, w.disk.(queue := Queue.ResetInFlight(w.disk.queue)), k); }
  }

  lemma CeilingIsBounded(w: World, k: Key)
    requires Invariant(w, k)
    ensures Ceiling(w) <= |w.server.history|
    ensures Invariant(w.(phase := Idle), k)
  {
    if w.phase.Working? && Quiet(w.disk.queue, w.phase.tasks) {
      QuietCeiling(w.disk.queue, w.phase.tasks);
    }
    if w.phase.Working? && CursorNext(w, k, w.phase.tasks) {
      QuietCeiling(w.disk.queue, w.phase.tasks[1..]);
    }
  }

  lemma {:induction false} InvariantHolds(events: seq<Event>, settings: Settings, k: Key)
    requires AllowedRun(START, events, settings, k)
    ensures Invariant(Reach(START, events, settings), k)
  {
    if events == [] {
      assert ServerValueAt(INITIAL.history, map[], k, 0);
    } else {
      var before := events[..|events| - 1];
      InvariantHolds(before, settings, k);
      StepKeeps(Reach(START, before, settings), events[|events| - 1], settings, k);
    }
  }

  /** In every reachable state a key without local mutations holds the server's
      value at some position from the stored cursor on, and the one at the cursor
      unless a cycle broke off before it could save the cursor. */
  lemma ReplicaConverges(events: seq<Event>, settings: Settings, k: Key)
    requires AllowedRun(START, events, settings, k)
    requires !LocalKey(Reach(START, events, settings).disk.queue, k)
    ensures var w := Reach(START, events, settings);
            && Between(w.server.history, w.disk.entities, k, Base(w.disk.cursor), |w.server.history|)
            && (!w.torn ==> ServerValueAt(w.server.history, w.disk.entities, k, Base(w.disk.cursor)))
  {
    InvariantHolds(events, settings, k);
    CeilingIsBounded(Reach(START, events, settings), k);
  }

  /** At the end of a cycle that ran through, it is exactly the server's value at
      the new cursor. */
  lemma CompletedCycleIsExact(events: seq<Event>, settings: Settings, k: Key)
    requires AllowedRun(START, events, settings, k)
    requires Reach(START, events, settings).phase == Working([], false)
    requires !LocalKey(Reach(START, events, settings).disk.queue, k)
    ensures var w := Reach(START, events, settings);
            !w.torn && ServerValueAt(w.server.history, w.disk.entities, k, Base(w.disk.cursor))
  {
    InvariantHolds(events, settings, k);
  }
}
