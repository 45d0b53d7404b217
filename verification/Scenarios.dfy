/** A local update and a local create, from the write on the collection to the
    rounds that follow: one reaches the server, the other never does. */
module Scenarios {
  import opened Json
  import opened Protocol
  import opened ServerSpec
  import opened ServerLaws
  import opened EngineSpec
  import opened EngineLaws
  import opened Rounds
  import opened Draining
  import opened RoundTrips
  import ConvergenceLimits
  import LocalWrites
  import ServerEffects
  import Queue

  // ----- An update of an entity the server has

  /** The server has the entity, created by somebody else. */
  function Server(k: Key): ServerSpec.Server {
    ConvergenceLimits.Created(k)
  }

  /** The client has synchronized, then updates the entity. */
  function Updated(k: Key, partial: Json, id: string): Disk {
    var l := LocalWrites.Attempted(LocalWrites.Local(Server(k).entities, [], map[]),
                                   LocalWrites.Attempt(k, LocalWrites.Update(partial), id, Stamp(2), false));
    Disk(l.entities, l.queue, Position(1))
  }

  predicate Named(k: Key, id: string) {
    k.id != "" && k.collection != "" && id != "" && id != "m"
  }

  lemma ServerShape(k: Key)
    requires k.id != "" && k.collection != ""
    ensures var s := Server(k);
            && s.entities.Keys == {k} && RevisionOf(s.entities, k) == 1 && |s.history| == 1 && |s.log| == 1
            && s.tracked.Keys == {"m"} && s.minimum == Position(0) && IsChange(ChangeOf(1, s.history[0]))
  {
  }

  lemma ServerHasIt(k: Key)
    requires k.id != "" && k.collection != ""
    ensures Intact(Server(k))
  {
    ConvergenceLimits.CreatedConsistent(k);
    ServerShape(k);
  }

  /** Nothing has been pruned, and everything the server says is valid. */
  predicate Intact(s: ServerSpec.Server) {
    Consistent(s) && ValidHistory(s.history) && s.minimum == Position(0) && Lost(s) <= 0
  }

  lemma UpdateQueued(k: Key, partial: Json, id: string)
    requires Named(k, id)
    ensures var d := Updated(k, partial, id);
            && OnePending(d, k, id) && d.entities.Keys == {k} && RevisionOf(d.entities, k) == 2 && d.cursor == Position(1)
  {
    ServerShape(k);
  }

  /** The queue holds one pending mutation of the key, fit to be sent. */
  predicate OnePending(d: Disk, k: Key, id: string) {
    |d.queue| == 1 && d.queue[0].id == id && d.queue[0].key == k && d.queue[0].status.PENDING? && Sendable(d.queue[0])
  }

  lemma OneIsReady(s: ServerSpec.Server, d: Disk, k: Key, id: string)
    requires Intact(s) && OnePending(d, k, id) && RevisionOf(d.entities, k) >= 0
    requires d.cursor == Position(|s.history|)
    ensures Connected(s, d) && (k in s.entities ==> Ready(s, d)) && (id !in s.tracked ==> Untracked(s, d))
  {
  }

  lemma UpdateIsReady(k: Key, partial: Json, id: string)
    requires Named(k, id)
    ensures Ready(Server(k), Updated(k, partial, id)) && Untracked(Server(k), Updated(k, partial, id))
  {
    ServerHasIt(k);
    ServerShape(k);
    UpdateQueued(k, partial, id);
    OneIsReady(Server(k), Updated(k, partial, id), k, id);
  }

  lemma OneTakesTwo(s: ServerSpec.Server, d: Disk, k: Key, id: string)
    requires OnePending(d, k, id)
    ensures Measure(s, d) <= 2 && k in PendingKeys(d.queue)
  {
    Queue.StatusesSum(d.queue);
    assert d.queue[0] in d.queue;
    SetSizes(Stale(s, d), {k});
  }

  /** Two rounds later a single pending mutation is acknowledged and both sides hold
      the same. */
  lemma OneDrains(s: ServerSpec.Server, d: Disk, k: Key, id: string, settings: Settings, first: int, second: int)
    requires Ready(s, d) && Untracked(s, d) && OnePending(d, k, id)
    requires AlwaysResolves(settings.resolver) && settings.batchSize > 0
    ensures var end := Drain(s, d, settings, [Stamp(first), Stamp(second)]);
            && end.completed && |end.disk.queue| == 1 && end.disk.queue[0].status.ACKNOWLEDGED?
            && Get(end.disk.entities, k) == Get(end.server.entities, k)
  {
    OneTakesTwo(s, d, k, id);
    QueueDrains(s, d, settings, [Stamp(first), Stamp(second)]);
    DrainedKeysMatch(s, d, settings, [Stamp(first), Stamp(second)], k);
  }

  /** So it is for an update of an entity that both sides had. */
  lemma UpdateReachesServer(k: Key, partial: Json, id: string, settings: Settings, first: int, second: int)
    requires Named(k, id) && AlwaysResolves(settings.resolver) && settings.batchSize > 0
    ensures var end := Drain(Server(k), Updated(k, partial, id), settings, [Stamp(first), Stamp(second)]);
            && end.completed && |end.disk.queue| == 1 && end.disk.queue[0].status.ACKNOWLEDGED?
            && Get(end.disk.entities, k) == Get(end.server.entities, k)
    ensures var ms := Sent(Updated(k, partial, id), settings);
            && |ms| == 1 && ms[0].id == id && ms[0].key == k && ms[0].operation.Set? && ms[0].baseRevision == 2
            && k in Server(k).entities && LocalWrites.Overwritten(Server(k).entities[k].data, partial, ms[0].value)
  {
    UpdateIsReady(k, partial, id);
    UpdateQueued(k, partial, id);
    OneDrains(Server(k), Updated(k, partial, id), k, id, settings, first, second);
    OneIsCarried(Updated(k, partial, id), k, id, settings);
    LocalWrites.CommittedEffect(LocalWrites.Local(Server(k).entities, [], map[]),
                                LocalWrites.Attempt(k, LocalWrites.Update(partial), id, Stamp(2), false));
  }

  /** The request carries the one pending mutation. */
  lemma OneIsCarried(d: Disk, k: Key, id: string, settings: Settings)
    requires OnePending(d, k, id) && settings.batchSize > 0
    ensures var ms := Sent(d, settings);
            && |ms| == 1 && ms[0].id == id && ms[0].key == k && ms[0].operation == d.queue[0].operation
            && ms[0].value == d.queue[0].value && ms[0].baseRevision == RevisionOf(d.entities, k)
  {
    OneBatch(d, k, id, settings);
    var batch := BatchOf(d, settings);
    assert FirstNaming(batch, k.id, 0);
    RequestCarries(d, batch, settings.clientId);
  }

  lemma OneBatch(d: Disk, k: Key, id: string, settings: Settings)
    requires OnePending(d, k, id) && settings.batchSize > 0
    ensures BatchOf(d, settings) == [d.queue[0]]
  {
    OneIsSent(d, k, id, settings);
    Queue.DequeueIsBatch(d.queue, settings.batchSize);
    OneInBatch(d.queue, BatchOf(d, settings));
  }

  lemma OneInBatch(q: Queue.Mutations, batch: Queue.Mutations)
    requires |q| == 1 && Queue.IsBatchOf(batch, q) && q[0] in batch
    ensures batch == [q[0]]
  {
    assert forall i | 0 <= i < |batch| :: batch[i] in batch && batch[i] == q[0];
    assert |batch| < 2 || batch[0].id == batch[1].id;
  }

  // ----- A write on a client that has seen all the server has

  /** The client holds what the server holds, and writes. */
  function Wrote(s: ServerSpec.Server, a: LocalWrites.Attempt): Disk {
    var l := LocalWrites.Attempted(LocalWrites.Local(s.entities, [], map[]), a);
    Disk(l.entities, l.queue, CurrentCursor(s))
  }

  predicate UpToDate(s: ServerSpec.Server) {
    Consistent(s) && ValidHistory(s.history) && !Refused(s, CurrentCursor(s))
  }

  /** An update or a deletion of an entity the server has, under a new id. */
  predicate Fit(s: ServerSpec.Server, a: LocalWrites.Attempt) {
    && (a.write.Update? || a.write.Delete?) && !a.fails && a.now.Stamp?
    && a.key in s.entities && a.key.id != "" && a.key.collection != "" && a.id != "" && a.id !in s.tracked
  }

  lemma {:induction false} WroteOne(s: ServerSpec.Server, a: LocalWrites.Attempt)
    requires Consistent(s) && Fit(s, a)
    ensures OnePending(Wrote(s, a), a.key, a.id) && RevisionOf(Wrote(s, a).entities, a.key) == RevisionOf(s.entities, a.key) + 1
    ensures RevisionOf(s.entities, a.key) > 0 && a.key in Wrote(s, a).entities
    ensures Wrote(s, a).entities[a.key].data == Wrote(s, a).queue[0].value
  {
    LocalWrites.CommittedEffect(LocalWrites.Local(s.entities, [], map[]), a);
    RevisionCounts(s.history, a.key);
  }

  lemma {:induction false} WroteIsReady(s: ServerSpec.Server, a: LocalWrites.Attempt)
    requires UpToDate(s) && Fit(s, a)
    ensures Ready(s, Wrote(s, a)) && Untracked(s, Wrote(s, a))
  {
    WroteOne(s, a);
  }

  lemma Alone(d: Disk, k: Key, id: string)
    requires OnePending(d, k, id)
    ensures OnlyPendingOnItsKey(d.queue, d.queue[0])
  {
  }

  /** The first round answers the write with a conflict and leaves one pending `set`. */
  lemma {:induction false} FirstRound(s: ServerSpec.Server, a: LocalWrites.Attempt, settings: Settings, now: Stamp)
    requires UpToDate(s) && Fit(s, a) && now.Stamp? && AlwaysResolves(settings.resolver) && settings.batchSize > 0
    ensures var d := Wrote(s, a);
            var t1, d1 := ServerAfter(s, d, settings, now), DiskAfter(s, d, settings, now);
            && Ready(t1, d1) && OnePending(d1, a.key, a.id) && d1.queue[0] in BatchOf(d1, settings)
            && ConflictInRound(s, d, settings, now, a.key)
  {
    var d := Wrote(s, a);
    WroteIsReady(s, a);
    WroteOne(s, a);
    Alone(d, a.key, a.id);
    OneIsSent(d, a.key, a.id, settings);
    FirstRoundResolves(s, d, settings, now, 0);
    RoundKeepsReady(s, d, settings, now);
    RoundQueue(s, d, settings, now);
    OneIsSent(DiskAfter(s, d, settings, now), a.key, a.id, settings);
    var c := StaleWriteConflicts(s, d, settings, now, d.queue[0]);
  }

  /** Two rounds are these two. */
  lemma {:induction false} TwoRounds(s: ServerSpec.Server, d: Disk, k: Key, id: string, settings: Settings, first: Stamp, second: Stamp)
    requires Ready(s, d) && OnePending(d, k, id) && AlwaysResolves(settings.resolver) && settings.batchSize > 0
    requires first.Stamp? && second.Stamp?
    ensures var t1, d1 := ServerAfter(s, d, settings, first), DiskAfter(s, d, settings, first);
            Drain(s, d, settings, [first, second]) ==
            Round(ServerAfter(t1, d1, settings, second), DiskAfter(t1, d1, settings, second), true)
  {
    OneTakesTwo(s, d, k, id);
    DrainStep(s, d, settings, [first, second]);
    assert [first, second][1..] == [second];
    DrainStep(ServerAfter(s, d, settings, first), DiskAfter(s, d, settings, first), settings, [second]);
  }

  /** What the second round brings to the server is what the first one resolved to. */
  lemma {:induction false} SecondRound(s: ServerSpec.Server, a: LocalWrites.Attempt, settings: Settings, first: Stamp, second: Stamp)
    requires UpToDate(s) && Fit(s, a) && AlwaysResolves(settings.resolver) && settings.batchSize > 0
    requires first.Stamp? && second.Stamp?
    ensures var d := Wrote(s, a);
            var d1, end := DiskAfter(s, d, settings, first), Drain(s, d, settings, [first, second]);
            && end.completed && |d1.queue| == 1 && |end.disk.queue| == 1 && end.disk.queue[0].status.ACKNOWLEDGED?
            && a.key in end.server.entities && Get(end.disk.entities, a.key) == Get(end.server.entities, a.key)
            && end.server.entities[a.key].revision == RevisionOf(s.entities, a.key) + 1
            && end.server.entities[a.key].data == (if d1.queue[0].value.Null? then EMPTY else d1.queue[0].value)
            && Consistent(end.server)
  {
    var d := Wrote(s, a);
    WroteIsReady(s, a);
    WroteOne(s, a);
    Alone(d, a.key, a.id);
    OneIsSent(d, a.key, a.id, settings);
    FirstRound(s, a, settings, first);
    TwoRounds(s, d, a.key, a.id, settings, first, second);
    WriteTakesTwoRounds(s, d, settings, first, second, 0);
    RoundKeepsReady(ServerAfter(s, d, settings, first), DiskAfter(s, d, settings, first), settings, second);
  }

  // ----- An update arrives

  /** The server has seen nothing since, so client-wins answers with the local data. */
  lemma {:induction false} FirstAnswer(s: ServerSpec.Server, a: LocalWrites.Attempt, settings: Settings, now: Stamp)
    requires UpToDate(s) && Fit(s, a) && now.Stamp? && settings.batchSize > 0
    requires settings.resolver == Some(ClientWinsResolver()) && !IsNull(Wrote(s, a))
    ensures LeavesData(DiskAfter(s, Wrote(s, a), settings, now), Wrote(s, a))
  {
    var d := Wrote(s, a);
    WroteIsReady(s, a);
    WroteOne(s, a);
    Alone(d, a.key, a.id);
    OneBatch(d, a.key, a.id, settings);
    var j := SoleStaleConflict(s, d, settings, now, d.queue[0]);
    NothingNew(s, d, settings, now, j);
    ClientWinsVerdict(s, d, settings, now, ResponseOf(s, d, settings, now).conflicts[j], d.queue[0]);
    ResolutionLands(s, d, settings, now, 0, j);
  }

  predicate IsNull(d: Disk) {
    d.queue != [] && d.queue[0].value.Null?
  }

  /** The first mutation still carries the same value. */
  predicate LeavesData(after: Disk, d: Disk) {
    after.queue != [] && d.queue != [] && after.queue[0].value == d.queue[0].value
  }

  /** A round whose only mutation conflicts adds nothing to the server's history. */
  lemma {:induction false} NothingNew(s: ServerSpec.Server, d: Disk, settings: Settings, now: Stamp, j: nat)
    requires Connected(s, d) && d.cursor == CurrentCursor(s) && |BatchOf(d, settings)| == 1
    requires j < |ResponseOf(s, d, settings, now).conflicts|
    ensures d.cursor.n == |ServerAfter(s, d, settings, now).history|
  {
    var ms := Sent(d, settings);
    assert ms == [ms[0]] && ms[..0] == [] && Process(s, [], now) == Answers(s, [], []);
  }

  /** Under client-wins an update of an entity that both sides had arrives: two rounds
      later both sides hold, one revision further, the value of the update in every
      field that it named and the old value in every other. */
  lemma UpdateArrives(s: ServerSpec.Server, k: Key, partial: Json, id: string, at: Stamp, settings: Settings, first: Stamp, second: Stamp)
    requires UpToDate(s) && Fit(s, LocalWrites.Attempt(k, LocalWrites.Update(partial), id, at, false))
    requires settings.resolver == Some(ClientWinsResolver()) && settings.batchSize > 0 && first.Stamp? && second.Stamp?
    ensures var d := Wrote(s, LocalWrites.Attempt(k, LocalWrites.Update(partial), id, at, false));
            var end := Drain(s, d, settings, [first, second]);
            && end.completed && k in end.server.entities && Get(end.disk.entities, k) == Get(end.server.entities, k)
            && LocalWrites.Overwritten(s.entities[k].data, partial, end.server.entities[k].data)
            && end.server.entities[k].revision == s.entities[k].revision + 1
  {
    var a := LocalWrites.Attempt(k, LocalWrites.Update(partial), id, at, false);
    LocalWrites.CommittedEffect(LocalWrites.Local(s.entities, [], map[]), a);
    SecondRound(s, a, settings, first, second);
    FirstAnswer(s, a, settings, first);
  }

  // ----- A deletion does not

  /** A conflict undoes a deletion, whatever the resolver says: no entity of the server
      is ever deleted, and a resolution takes the server's flag. */
  lemma {:induction false} ConflictUndeletes(s: ServerSpec.Server, d: Disk, settings: Settings, now: Stamp, k: Key)
    requires Ready(s, d) && now.Stamp? && AlwaysResolves(settings.resolver) && ConflictInRound(s, d, settings, now, k)
    ensures k in DiskAfter(s, d, settings, now).entities && !DiskAfter(s, d, settings, now).entities[k].isDeleted
  {
    ConflictedEntity(s, d, settings, now, k);
    ServerFacts(s, d, settings, now);
    ServerEffects.OriginLaw(ServerAfter(s, d, settings, now).history, k);
  }

  /** So a local deletion is undone by the first round and reaches no server: after the
      second both sides hold the same entity, not deleted. */
  lemma DeletionIsUndone(s: ServerSpec.Server, k: Key, id: string, at: Stamp, settings: Settings, first: Stamp, second: Stamp)
    requires UpToDate(s) && Fit(s, LocalWrites.Attempt(k, LocalWrites.Delete, id, at, false))
    requires AlwaysResolves(settings.resolver) && settings.batchSize > 0 && first.Stamp? && second.Stamp?
    ensures var d := Wrote(s, LocalWrites.Attempt(k, LocalWrites.Delete, id, at, false));
            var end := Drain(s, d, settings, [first, second]);
            && k in d.entities && d.entities[k].isDeleted
            && k in DiskAfter(s, d, settings, first).entities && !DiskAfter(s, d, settings, first).entities[k].isDeleted
            && end.completed && end.disk.queue != [] && end.disk.queue[0].status.ACKNOWLEDGED?
            && k in end.server.entities && Get(end.disk.entities, k) == Get(end.server.entities, k)
            && !end.server.entities[k].isDeleted
  {
    var a := LocalWrites.Attempt(k, LocalWrites.Delete, id, at, false);
    LocalWrites.CommittedEffect(LocalWrites.Local(s.entities, [], map[]), a);
    WroteIsReady(s, a);
    FirstRound(s, a, settings, first);
    ConflictUndeletes(s, Wrote(s, a), settings, first, k);
    SecondRound(s, a, settings, first, second);
    ServerEffects.OriginLaw(Drain(s, Wrote(s, a), settings, [first, second]).server.history, k);
  }

  // ----- A create

  function Created(k: Key, data: Json, id: string): Disk {
    var l := LocalWrites.Attempted(LocalWrites.NOTHING,
                                   LocalWrites.Attempt(k, LocalWrites.Create(data), id, Stamp(1), false));
    Disk(l.entities, l.queue, Position(0))
  }

  lemma CreateQueued(k: Key, data: Json, id: string)
    requires Named(k, id)
    ensures OnePending(Created(k, data, id), k, id) && RevisionOf(Created(k, data, id).entities, k) == 1
  {
  }

  lemma OneIsSent(d: Disk, k: Key, id: string, settings: Settings)
    requires OnePending(d, k, id) && settings.batchSize > 0
    ensures d.queue[0] in BatchOf(d, settings)
  {
    PendingCounts(d.queue);
    Queue.BatchSize(d.queue, settings.batchSize);
    Queue.DequeueIsBatch(d.queue, settings.batchSize);
    assert BatchOf(d, settings)[0] in BatchOf(d, settings);
  }

  lemma CreateIsBlocked(k: Key, data: Json, id: string, settings: Settings)
    requires Named(k, id) && settings.batchSize > 0
    ensures |Created(k, data, id).queue| == 1
    ensures Blocked(INITIAL, Created(k, data, id), settings, Created(k, data, id).queue[0])
  {
    var d := Created(k, data, id);
    CreateQueued(k, data, id);
    HistoryLaw([]);
    OneIsReady(INITIAL, d, k, id);
    OneIsSent(d, k, id, settings);
  }

  /** An entity created on a client that has synchronized with an empty server never
      reaches it: no round completes, however many there are. */
  lemma CreateNeverSyncs(k: Key, data: Json, id: string, settings: Settings, clock: seq<Stamp>)
    requires Named(k, id) && settings.batchSize > 0 && forall now | now in clock :: now.Stamp?
    ensures var end := Attempts(INITIAL, Created(k, data, id), settings, clock);
            !end.completed && end.disk == Created(k, data, id)
  {
    CreateIsBlocked(k, data, id, settings);
    CreateBlocksForever(INITIAL, Created(k, data, id), settings, clock, Created(k, data, id).queue[0]);
  }
}
