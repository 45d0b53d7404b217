/** No run of writes, cycles, crashes and recoveries loses a mutation or changes
    what it is; what is acknowledged was applied; and only a pending mutation ever
    moves, save for what recovery brings back. */
module Conservation {
  import opened Json
  import opened Protocol
  import opened ServerSpec
  import opened ServerLaws
  import opened ServerRequests
  import opened EngineSpec
  import opened EngineLaws
  import opened Rounds
  import opened World
  import opened Convergence
  import Queue

  // ----- Nothing is lost

  predicate KeepsIdentities(q: Queue.Mutations, p: Queue.Mutations) {
    Queue.Evolves(q, p) && |p| == |q|
  }

  lemma StepIdentities(disk: Disk, task: Task, resolver: Option<Resolver>, now: Stamp)
    ensures KeepsIdentities(disk.queue, Step(disk, task, resolver, now).disk.queue)
  {
  }

  function Written(e: Event): nat {
    if e.LocalWrite? then 1 else 0
  }

  lemma EventKeeps(w: World, e: Event, settings: Settings)
    requires Fresh(w, e) && Queue.DistinctIds(w.disk.queue)
    ensures var q, p := w.disk.queue, Advance(w, e, settings).disk.queue;
            Queue.Evolves(q, p) && |p| == |q| + Written(e) && Queue.DistinctIds(p)
  {
    match e
    case LocalWrite(m, _) =>
      assert forall i | 0 <= i < |w.disk.queue| :: w.disk.queue[i].id != m.id;
    case Work(now) =>
      if w.phase.Working? && w.phase.tasks != [] {
        StepIdentities(w.disk, w.phase.tasks[0], settings.resolver, now);
      }
    case _ =>
  }

  function LocalWrites(events: seq<Event>): nat {
    if events == [] then 0 else LocalWrites(events[..|events| - 1]) + Written(events[|events| - 1])
  }

  /** Every mutation ever stored is still there, in its place and with its id,
      entity, collection, sequence and field; the queue has grown by exactly the
      local writes; and the five status counts add up to it. */
  lemma {:induction false} NothingIsLost(w: World, events: seq<Event>, settings: Settings)
    requires FreshRun(w, events, settings) && Queue.DistinctIds(w.disk.queue)
    ensures var q, p := w.disk.queue, Reach(w, events, settings).disk.queue;
            && Queue.Evolves(q, p) && Queue.DistinctIds(p) && |p| == |q| + LocalWrites(events)
            && Queue.CountStatus(p, Queue.PENDING) + Queue.CountStatus(p, Queue.IN_FLIGHT)
               + Queue.CountStatus(p, Queue.ACKNOWLEDGED) + Queue.CountStatus(p, Queue.FAILED)
               + Queue.CountStatus(p, Queue.CONFLICT) == |q| + LocalWrites(events)
  {
    if events != [] {
      var before := events[..|events| - 1];
      NothingIsLost(w, before, settings);
      var mid := Reach(w, before, settings);
      EventKeeps(mid, events[|events| - 1], settings);
      Queue.EvolvesTransitive(w.disk.queue, mid.disk.queue, Reach(w, events, settings).disk.queue);
    }
    Queue.StatusesSum(Reach(w, events, settings).disk.queue);
  }

  // ----- What is acknowledged was applied

  predicate AcknowledgedApplied(h: seq<Applied>, q: Queue.Mutations) {
    forall i | 0 <= i < |q| && q[i].status.ACKNOWLEDGED? :: InHistory(h, q[i].id)
  }

  predicate TaskApplied(h: seq<Applied>, t: Task) {
    t.Acknowledge? ==> InHistory(h, t.id)
  }

  predicate PhaseApplied(h: seq<Applied>, phase: Phase) {
    match phase
    case Holding(Response(r), _) => forall id | id in r.acknowledgedMutationIds :: InHistory(h, id)
    case Working(tasks, _) => forall t | t in tasks :: TaskApplied(h, t)
    case _ => true
  }

  /** What is marked, or about to be marked, was applied. */
  predicate MarksApplied(w: World) {
    PhaseApplied(w.server.history, w.phase) && AcknowledgedApplied(w.server.history, w.disk.queue)
  }

  lemma InHistoryStays(h: seq<Applied>, later: seq<Applied>)
    requires h <= later
    ensures forall id :: InHistory(h, id) ==> InHistory(later, id)
  {
    forall id | InHistory(h, id) ensures InHistory(later, id) {
      var i :| 0 <= i < |h| && h[i].mutation.id == id;
      assert later[i].mutation.id == id;
    }
  }

  lemma MarksUnderServer(w: World, t: Server)
    requires MarksApplied(w) && w.server.history <= t.history
    ensures MarksApplied(w.(server := t))
  {
    InHistoryStays(w.server.history, t.history);
  }

  lemma {:induction false} ServeApplied(w: World, now: Stamp)
    requires Consistent(w.server) && MarksApplied(w) && w.phase.Asking?
    ensures MarksApplied(Served(w, now))
  {
    var request := w.phase.request;
    var handled := HandleSync(w.server, request, now);
    ProcessConsistent(w.server, request.mutations, now);
    MarksUnderServer(w, handled.server);
    if handled.reply.Response? {
      forall id | id in handled.reply.response.acknowledgedMutationIds ensures InHistory(handled.server.history, id) {
        AcknowledgedIsApplied(w.server, request, now, id);
      }
    }
  }

  lemma CompletionAcknowledges(batch: Batch, r: SyncResponse, t: Task)
    requires t in Completion(batch, r) && t.Acknowledge?
    ensures t.id in r.acknowledgedMutationIds
  {
    RetriesAre(batch, r);
    assert t in Acknowledgements(r.acknowledgedMutationIds);
    var i :| 0 <= i < |r.acknowledgedMutationIds| && t == Acknowledgements(r.acknowledgedMutationIds)[i];
  }

  lemma DeliverApplied(h: seq<Applied>, phase: Phase)
    requires PhaseApplied(h, phase)
    ensures PhaseApplied(h, Delivered(phase))
  {
    match phase
    case Holding(Response(r), batch) =>
      forall t | t in Completion(batch, r) ensures TaskApplied(h, t) {
        if t.Acknowledge? { CompletionAcknowledges(batch, r, t); }
      }
    case Holding(CursorTooOld(_), batch) =>
      assert forall t | t in Reenqueued(batch) :: t.Retry?;
    case _ =>
  }

  lemma {:induction false} WorkApplied(w: World, resolver: Option<Resolver>, now: Stamp)
    requires MarksApplied(w) && w.phase.Working?
    ensures MarksApplied(Worked(w, w.phase.tasks, w.phase.thenSnapshot, resolver, now))
  {
    var tasks := w.phase.tasks;
    if tasks != [] {
      StepApplied(w.server.history, w.disk, tasks[0], resolver, now);
      WorkPhaseApplied(w, resolver, now);
    }
  }

  lemma WorkPhaseApplied(w: World, resolver: Option<Resolver>, now: Stamp)
    requires w.phase.Working? && w.phase.tasks != [] && PhaseApplied(w.server.history, w.phase)
    ensures PhaseApplied(w.server.history, Worked(w, w.phase.tasks, w.phase.thenSnapshot, resolver, now).phase)
  {
    assert forall t | t in w.phase.tasks[1..] :: t in w.phase.tasks;
  }

  lemma StepApplied(h: seq<Applied>, disk: Disk, task: Task, resolver: Option<Resolver>, now: Stamp)
    requires AcknowledgedApplied(h, disk.queue) && TaskApplied(h, task)
    ensures AcknowledgedApplied(h, Step(disk, task, resolver, now).disk.queue)
  {
  }

  /** What an event makes of the server. */
  function ServerNext(w: World, e: Event): Server {
    match e
    case Foreign(request, now) => HandleSync(w.server, request, now).server
    case PruneTo(cursor) => Prune(w.server, cursor)
    case Serve(now) => if w.phase.Asking? then HandleSync(w.server, w.phase.request, now).server else w.server
    case _ => w.server
  }

  lemma {:induction false} ServerAdvances(w: World, e: Event, settings: Settings)
    ensures Advance(w, e, settings).server == ServerNext(w, e)
  {
  }

  lemma {:induction false} RequestKeepsConsistent(s: Server, request: SyncRequest, now: Stamp)
    requires Consistent(s)
    ensures Consistent(HandleSync(s, request, now).server) && s.history <= HandleSync(s, request, now).server.history
  {
    ProcessConsistent(s, request.mutations, now);
  }

  lemma {:induction false} ServerStaysConsistent(w: World, e: Event)
    requires Consistent(w.server)
    ensures Consistent(ServerNext(w, e)) && w.server.history <= ServerNext(w, e).history
  {
    match e
    case Foreign(request, now) => RequestKeepsConsistent(w.server, request, now);
    case PruneTo(cursor) => PruneConsistent(w.server, cursor);
    case Serve(now) => if w.phase.Asking? { RequestKeepsConsistent(w.server, w.phase.request, now); }
    case _ =>
  }

  lemma {:induction false} MarksKept(w: World, e: Event, settings: Settings)
    requires Consistent(w.server) && MarksApplied(w) && Fresh(w, e)
    ensures MarksApplied(Advance(w, e, settings))
  {
    ServerStaysConsistent(w, e);
    match e
    case Foreign(_, _) => MarksUnderServer(w, ServerNext(w, e));
    case PruneTo(_) => MarksUnderServer(w, ServerNext(w, e));
    case Serve(now) => if w.phase.Asking? { ServeApplied(w, now); }
    case Deliver => DeliverApplied(w.server.history, w.phase);
    case Work(now) => if w.phase.Working? { WorkApplied(w, settings.resolver, now); }
    case _ =>
  }

  /** Whatever is lost, repeated or pruned: a mutation the client has marked
      ACKNOWLEDGED is in the server's history. */
  lemma {:induction false} AcknowledgedMeansApplied(events: seq<Event>, settings: Settings)
    requires FreshRun(START, events, settings)
    ensures Consistent(Reach(START, events, settings).server) && MarksApplied(Reach(START, events, settings))
    ensures var w := Reach(START, events, settings);
            forall i | 0 <= i < |w.disk.queue| && w.disk.queue[i].status.ACKNOWLEDGED? ::
              InHistory(w.server.history, w.disk.queue[i].id)
  {
    if events != [] {
      var before := events[..|events| - 1];
      AcknowledgedMeansApplied(before, settings);
      MarksStep(Reach(START, before, settings), events[|events| - 1], settings);
    }
  }

  lemma {:induction false} MarksStep(w: World, e: Event, settings: Settings)
    requires Consistent(w.server) && MarksApplied(w) && Fresh(w, e)
    ensures Consistent(Advance(w, e, settings).server) && MarksApplied(Advance(w, e, settings))
  {
    ServerStaysConsistent(w, e);
    ServerAdvances(w, e, settings);
    MarksKept(w, e, settings);
  }

  // ----- Only what is pending moves

  predicate Touches(t: Task, id: string) {
    match t
    case Acknowledge(x) => x == id
    case Settle(c, _) => c.mutationId == id
    case Reissue(x, _) => x == id
    case Retry(x) => x == id
    case _ => false
  }

  /** Nothing in the cycle under way concerns the mutation. */
  predicate Unmentioned(phase: Phase, id: string) {
    match phase
    case Asking(request, batch) => id !in Ids(request.mutations) && !InBatch(batch, id)
    case Holding(Response(r), batch) => !Answered(r, id) && !InBatch(batch, id)
    case Holding(CursorTooOld(_), batch) => !InBatch(batch, id)
    case Working(tasks, _) => forall t | t in tasks :: !Touches(t, id)
    case _ => true
  }

  predicate AtRest(w: World, i: nat) {
    && i < |w.disk.queue| && !w.disk.queue[i].status.PENDING?
    && Queue.DistinctIds(w.disk.queue) && Unmentioned(w.phase, w.disk.queue[i].id)
  }

  lemma BatchLeavesOut(q: Queue.Mutations, limit: nat, i: nat)
    requires Queue.DistinctIds(q) && i < |q| && !q[i].status.PENDING?
    ensures !InBatch(Queue.DequeuePending(q, limit), q[i].id)
  {
    var batch := Queue.DequeuePending(q, limit);
    Queue.DequeueIsBatch(q, limit);
    forall j | 0 <= j < |batch| ensures batch[j].id != q[i].id {
      assert batch[j] in batch;
      var l :| 0 <= l < |q| && q[l] == batch[j];
    }
  }

  lemma OpeningLeavesOut(w: World, settings: Settings, i: nat)
    requires AtRest(w, i)
    ensures Unmentioned(Opening(w.disk, settings), w.disk.queue[i].id)
  {
    BatchLeavesOut(w.disk.queue, settings.batchSize, i);
    OutgoingIds(w.disk.entities, Queue.DequeuePending(w.disk.queue, settings.batchSize));
  }

  lemma ServeAnswersItsIds(s: Server, ms: seq<ProtocolMutation>, now: Stamp, r: SyncResponse, id: string)
    requires id !in Ids(ms)
    requires r.acknowledgedMutationIds == Process(s, ms, now).acknowledged && r.conflicts == Process(s, ms, now).conflicts
    ensures !Answered(r, id)
  {
    var b := Process(s, ms, now);
    RequestPartition(s, ms, now);
    ConflictIdMember(b.conflicts, id);
    assert id !in multiset(Ids(ms));
    assert multiset(b.acknowledged) <= multiset(Ids(ms)) && multiset(ConflictIds(b.conflicts)) <= multiset(Ids(ms));
    assert id !in multiset(b.acknowledged) && id !in multiset(ConflictIds(b.conflicts));
  }

  lemma {:induction false} RetriesTouch(batch: Batch, r: SyncResponse, id: string)
    requires !InBatch(batch, id)
    ensures forall t | t in Retries(batch, r) :: !Touches(t, id)
    decreases |batch|
  {
    if batch != [] {
      InBatchSplit(batch, id);
      RetriesTouch(batch[1..], r, id);
    }
  }

  lemma CompletionTouches(batch: Batch, r: SyncResponse, id: string)
    requires !Answered(r, id) && !InBatch(batch, id)
    ensures forall t | t in Completion(batch, r) :: !Touches(t, id)
  {
    RetriesTouch(batch, r, id);
    forall t | t in Acknowledgements(r.acknowledgedMutationIds) ensures !Touches(t, id) {
      var i :| 0 <= i < |r.acknowledgedMutationIds| && t == Acknowledgements(r.acknowledgedMutationIds)[i];
      assert r.acknowledgedMutationIds[i] in r.acknowledgedMutationIds;
    }
    forall t | t in Settlements(r.conflicts, batch) ensures !Touches(t, id) {
      var i :| 0 <= i < |r.conflicts| && t == Settlements(r.conflicts, batch)[i];
      assert r.conflicts[i].mutationId != id;
    }
  }

  lemma DeliverTouches(phase: Phase, id: string)
    requires Unmentioned(phase, id)
    ensures Unmentioned(Delivered(phase), id)
  {
    match phase
    case Holding(Response(r), batch) => CompletionTouches(batch, r, id);
    case Holding(CursorTooOld(_), batch) =>
      forall t | t in Reenqueued(batch) ensures !Touches(t, id) {
        var i :| 0 <= i < |batch| && t == Reenqueued(batch)[i];
        assert batch[i].id != id;
      }
    case _ =>
  }

  lemma WorkRests(w: World, resolver: Option<Resolver>, now: Stamp, i: nat)
    requires AtRest(w, i) && w.phase.Working?
    ensures var next := Worked(w, w.phase.tasks, w.phase.thenSnapshot, resolver, now);
            AtRest(next, i) && next.disk.queue[i] == w.disk.queue[i]
  {
    var tasks := w.phase.tasks;
    if tasks != [] {
      assert !Touches(tasks[0], w.disk.queue[i].id);
      assert forall t | t in tasks[1..] :: t in tasks;
      StepIdentities(w.disk, tasks[0], resolver, now);
    }
  }

  lemma RestsThrough(w: World, e: Event, settings: Settings, i: nat)
    requires AtRest(w, i) && Fresh(w, e)
    requires e.Recover? ==> !w.disk.queue[i].status.IN_FLIGHT?
    ensures AtRest(Advance(w, e, settings), i)
    ensures Advance(w, e, settings).disk.queue[i] == w.disk.queue[i]
  {
    EventKeeps(w, e, settings);
    match e
    case Begin => OpeningLeavesOut(w, settings, i);
    case Serve(now) =>
      if w.phase.Asking? {
        var handled := HandleSync(w.server, w.phase.request, now);
        if handled.reply.Response? {
          ServeAnswersItsIds(w.server, w.phase.request.mutations, now, handled.reply.response, w.disk.queue[i].id);
        }
      }
    case Deliver => DeliverTouches(w.phase, w.disk.queue[i].id);
    case Work(now) => if w.phase.Working? { WorkRests(w, settings.resolver, now, i); }
    case _ =>
  }

  predicate Recovers(events: seq<Event>) {
    exists i :: 0 <= i < |events| && events[i].Recover?
  }

  /** Between cycles, a mutation that is not PENDING stays exactly as it is through
      every run; only recovery can bring one back, and only one that is IN_FLIGHT.
      So what `retry` has marked is never sent again before a recovery. */
  lemma {:induction false} OnlyPendingMoves(w: World, events: seq<Event>, settings: Settings, i: nat)
    requires AtRest(w, i) && FreshRun(w, events, settings)
    requires w.disk.queue[i].status.IN_FLIGHT? ==> !Recovers(events)
    ensures AtRest(Reach(w, events, settings), i)
    ensures Reach(w, events, settings).disk.queue[i] == w.disk.queue[i]
  {
    if events != [] {
      var before, last := events[..|events| - 1], events[|events| - 1];
      if Recovers(before) {
        var j :| 0 <= j < |before| && before[j].Recover?;
        assert events[j].Recover?;
      }
      OnlyPendingMoves(w, before, settings, i);
      assert last == events[|events| - 1];
      RestsThrough(Reach(w, before, settings), last, settings, i);
    }
  }

  /** A cursor that is too old puts the whole batch IN_FLIGHT, one retry further, and
      leaves the rest of the queue as it was. */
  lemma TooOldStrandsBatch(s: Server, d: Disk, settings: Settings, now: Stamp, i: nat)
    requires Queue.DistinctIds(d.queue) && Refused(s, d.cursor) && i < |d.queue|
    ensures var after := IncrementalRound(s, d, settings, now).disk.queue;
            |after| == |d.queue| &&
            after[i] == if d.queue[i] in Queue.DequeuePending(d.queue, settings.batchSize)
                        then d.queue[i].(status := Queue.IN_FLIGHT, retries := d.queue[i].retries + 1, lastError := None)
                        else d.queue[i]
  {
    var batch := Queue.DequeuePending(d.queue, settings.batchSize);
    var stranded := TooOldRound(s, d, settings, now);
    Queue.DequeueIsBatch(d.queue, settings.batchSize);
    RetriedAt(d.queue, batch, i);
    SnapshotKeepsQueue(s, stranded, settings, now);
    assert IncrementalRound(s, d, settings, now).disk.queue == stranded.queue;
  }

  lemma RetriedAt(q: Queue.Mutations, batch: Batch, i: nat)
    requires Queue.DistinctIds(q) && Queue.IsBatchOf(batch, q) && i < |q|
    ensures var after := Retried(q, batch, SyncResponse([], [], [], NoCursor));
            |after| == |q| &&
            after[i] == if q[i] in batch then q[i].(status := Queue.IN_FLIGHT, retries := q[i].retries + 1, lastError := None) else q[i]
  {
    BatchMember(q, batch, i);
  }

  /** The round takes a snapshot with the batch IN_FLIGHT. */
  lemma {:induction false} TooOldRound(s: Server, d: Disk, settings: Settings, now: Stamp) returns (stranded: Disk)
    requires Queue.DistinctIds(d.queue) && Refused(s, d.cursor)
    ensures stranded == d.(queue := Retried(d.queue, Queue.DequeuePending(d.queue, settings.batchSize), SyncResponse([], [], [], NoCursor)))
    ensures IncrementalRound(s, d, settings, now) == SnapshotRound(s, stranded, [], settings, now)
  {
    var batch := Queue.DequeuePending(d.queue, settings.batchSize);
    Queue.DequeueIsBatch(d.queue, settings.batchSize);
    var nothing := BatchStranded(d, batch, settings, now);
    stranded := d.(queue := Retried(d.queue, batch, nothing));
  }

  lemma {:induction false} BatchStranded(d: Disk, batch: Batch, settings: Settings, now: Stamp) returns (nothing: SyncResponse)
    requires Queue.IsBatchOf(batch, d.queue)
    ensures nothing == SyncResponse([], [], [], NoCursor)
    ensures Perform(d, Reenqueued(batch), settings.resolver, now) == Outcome(d.(queue := Retried(d.queue, batch, nothing)), true)
  {
    nothing := SyncResponse([], [], [], NoCursor);
    ReenqueuedAsRetries(batch, nothing);
    forall m | m in batch ensures Queue.Has(d.queue, m.id) {
      var j :| 0 <= j < |d.queue| && d.queue[j] == m;
    }
    PerformRetries(d, batch, nothing, settings.resolver, now);
  }

  /** The round then falls back to a snapshot of everything: it completes exactly if all
      entities of the server are valid, and then they are over the replica and the
      cursor is at the server's head; otherwise replica and cursor stay. */
  lemma TooOldFallsBack(s: Server, d: Disk, settings: Settings, now: Stamp)
    requires Queue.DistinctIds(d.queue) && Refused(s, d.cursor)
    ensures var round := IncrementalRound(s, d, settings, now);
            && round.server == s
            && (round.completed <==> forall k | k in s.entities :: IsProtocolEntity(k, s.entities[k]))
            && (round.completed ==> round.disk.cursor == CurrentCursor(s))
            && (round.completed ==>
                  forall k :: Get(round.disk.entities, k) == if k in s.entities then Some(s.entities[k]) else Get(d.entities, k))
            && (!round.completed ==> round.disk.entities == d.entities && round.disk.cursor == d.cursor)
  {
    var stranded := TooOldRound(s, d, settings, now);
    SnapshotPerformed(stranded, Snapshot(s, []), settings, now);
  }

  lemma {:induction false} ReenqueuedAsRetries(batch: Batch, r: SyncResponse)
    requires r.acknowledgedMutationIds == [] && r.conflicts == []
    ensures Reenqueued(batch) == Retries(batch, r)
    decreases |batch|
  {
    if batch != [] {
      ReenqueuedAsRetries(batch[1..], r);
      assert Reenqueued(batch) == [Retry(batch[0].id)] + Reenqueued(batch[1..]);
    }
  }

  lemma SnapshotKeepsQueue(s: Server, d: Disk, settings: Settings, now: Stamp)
    ensures SnapshotRound(s, d, [], settings, now).disk.queue == d.queue
  {
    SnapshotPerformed(d, Snapshot(s, []), settings, now);
  }
}
