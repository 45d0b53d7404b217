/** With one writer, a resolver that always resolves and entities the server
    knows, synchronization rounds empty the queue. */
module Draining {
  import opened Json
  import opened Protocol
  import opened ServerSpec
  import opened ServerLaws
  import opened ServerRequests
  import opened EngineSpec
  import opened EngineLaws
  import opened Rounds
  import Queue

  predicate Sendable(m: Mutation) {
    && m.id != "" && m.key.id != "" && m.key.collection != ""
    && m.operation != Other("") && m.createdAt.Stamp?
  }

  predicate PendingSendable(d: Disk) {
    forall m | m in d.queue && m.status.PENDING? :: Sendable(m) && RevisionOf(d.entities, m.key) >= 0
  }

  predicate PendingKnown(s: Server, d: Disk) {
    forall m | m in d.queue && m.status.PENDING? :: m.key in s.entities
  }

  /** At most one key per entity id among what is pending: revisions are looked up
      by id alone. */
  predicate OnePendingKeyPerId(q: Queue.Mutations) {
    forall a, b | a in q && b in q && a.status.PENDING? && b.status.PENDING? && a.key.id == b.key.id ::
      a.key == b.key
  }

  /** The client has a cursor the server accepts and can serve, and a well-formed
      queue. */
  predicate Connected(s: Server, d: Disk) {
    && Consistent(s) && ValidHistory(s.history)
    && d.cursor.Position? && 0 <= d.cursor.n <= |s.history|
    && !Refused(s, d.cursor) && Lost(s) <= d.cursor.n
    && Queue.DistinctIds(d.queue) && OnePendingKeyPerId(d.queue) && PendingSendable(d)
  }

  /** Connected, and every pending mutation is addressed to an entity the server has. */
  predicate Ready(s: Server, d: Disk) {
    Connected(s, d) && PendingKnown(s, d)
  }

  // ----- The parts of a round

  function BatchOf(d: Disk, settings: Settings): Queue.Mutations {
    Queue.DequeuePending(d.queue, settings.batchSize)
  }

  function Sent(d: Disk, settings: Settings): seq<ProtocolMutation> {
    Outgoing(d.entities, BatchOf(d, settings))
  }

  function ServerAfter(s: Server, d: Disk, settings: Settings, now: Stamp): Server {
    Process(s, Sent(d, settings), now).server
  }

  function ResponseOf(s: Server, d: Disk, settings: Settings, now: Stamp): SyncResponse {
    var b := Process(s, Sent(d, settings), now);
    SyncResponse(ChangesSince(b.server.log, d.cursor), b.acknowledged, b.conflicts, CurrentCursor(b.server))
  }

  function DiskAfter(s: Server, d: Disk, settings: Settings, now: Stamp): Disk {
    Perform(d, Completion(BatchOf(d, settings), ResponseOf(s, d, settings, now)), settings.resolver, now).disk
  }

  lemma BatchIsSendable(d: Disk, batch: Queue.Mutations)
    requires OnePendingKeyPerId(d.queue) && PendingSendable(d) && Queue.IsBatchOf(batch, d.queue)
    ensures BatchKnown(d.queue, batch) && OneKeyPerId(batch)
    ensures forall i | 0 <= i < |batch| :: Sendable(batch[i]) && RevisionOf(d.entities, batch[i].key) >= 0
  {
    forall m | m in batch ensures Queue.Has(d.queue, m.id) {
      var i :| 0 <= i < |d.queue| && d.queue[i] == m;
    }
    forall i | 0 <= i < |batch| ensures Sendable(batch[i]) && RevisionOf(d.entities, batch[i].key) >= 0 {
      assert batch[i] in batch && batch[i] in d.queue;
    }
  }

  lemma BatchFacts(s: Server, d: Disk, settings: Settings)
    requires Connected(s, d)
    ensures Queue.IsBatchOf(BatchOf(d, settings), d.queue) && BatchKnown(d.queue, BatchOf(d, settings))
    ensures BasedOn(Sent(d, settings), d.entities)
    ensures AllValid(Sent(d, settings))
  {
    Queue.DequeueIsBatch(d.queue, settings.batchSize);
    BatchIsSendable(d, BatchOf(d, settings));
    OutgoingValid(d, BatchOf(d, settings));
  }

  lemma OutgoingValid(d: Disk, batch: Queue.Mutations)
    requires OneKeyPerId(batch)
    requires forall i | 0 <= i < |batch| :: Sendable(batch[i]) && RevisionOf(d.entities, batch[i].key) >= 0
    ensures BasedOn(Outgoing(d.entities, batch), d.entities) && AllValid(Outgoing(d.entities, batch))
  {
    var ms := Outgoing(d.entities, batch);
    OutgoingBased(d.entities, batch);
    forall m | m in ms ensures IsProtocolMutation(m) {
      var i :| 0 <= i < |ms| && ms[i] == m;
      assert m.baseRevision == RevisionOf(d.entities, batch[i].key);
    }
  }

  lemma ServerFacts(s: Server, d: Disk, settings: Settings, now: Stamp)
    requires Connected(s, d) && now.Stamp?
    ensures var t := ServerAfter(s, d, settings, now);
            && Consistent(t) && ValidHistory(t.history) && s.history <= t.history
            && Lost(t) == Lost(s) && t.minimum == s.minimum
            && ResponseOf(s, d, settings, now).changes == Logged(t.history)[d.cursor.n..]
  {
    BatchFacts(s, d, settings);
    var ms := Sent(d, settings);
    ProcessConsistent(s, ms, now);
    HistoryStaysValid(s, ms, now);
    CompleteIff(ServerAfter(s, d, settings, now), d.cursor.n);
  }

  lemma SentMember(local: map<Key, Entity>, batch: Queue.Mutations, x: ProtocolMutation) returns (m: Mutation)
    requires x in Outgoing(local, batch)
    ensures m in batch && m.id == x.id && m.key == x.key
  {
    var i :| 0 <= i < |batch| && Outgoing(local, batch)[i] == x;
    m := batch[i];
  }

  lemma SentIds(d: Disk, settings: Settings)
    requires Queue.DistinctIds(BatchOf(d, settings))
    ensures DistinctIds(Sent(d, settings))
  {
  }

  lemma {:induction false} ConflictUntracked(s: Server, ms: seq<ProtocolMutation>, now: Stamp, c: ConflictInfo)
    requires DistinctIds(ms) && c in Process(s, ms, now).conflicts
    ensures c.mutationId !in s.tracked && c.mutationId !in Process(s, ms, now).server.tracked
  {
    ConflictsStayUntracked(s, ms, now);
    AcknowledgedIsTracked(s, ms, now);
  }

  /** The queued mutation a conflict of the round is about; the server did not
      know it. */
  lemma ConflictOrigin(s: Server, d: Disk, settings: Settings, now: Stamp, c: ConflictInfo) returns (i: nat)
    requires Connected(s, d) && c in ResponseOf(s, d, settings, now).conflicts
    ensures i < |d.queue| && d.queue[i].id == c.mutationId && d.queue[i].key == c.key
    ensures d.queue[i].status.PENDING? && d.queue[i] in BatchOf(d, settings)
    ensures Conflicted(ResponseOf(s, d, settings, now).conflicts, d.queue[i].id)
    ensures c.mutationId !in s.tracked && c.mutationId !in ServerAfter(s, d, settings, now).tracked
  {
    BatchFacts(s, d, settings);
    SentIds(d, settings);
    ConflictUntracked(s, Sent(d, settings), now, c);
    VerdictConflict(s, Sent(d, settings), now, d.entities, c);
    i := ReportedMutation(d, settings, ResponseOf(s, d, settings, now).conflicts, c);
  }

  /** Every conflict is about a pending mutation of the batch and about its entity. */
  predicate Originating(q: Queue.Mutations, batch: Batch, cs: seq<ConflictInfo>) {
    forall j | 0 <= j < |cs| :: exists o :: 0 <= o < |q| && IsOrigin(batch, q[o], cs[j])
  }

  predicate IsOrigin(batch: Batch, m: Mutation, c: ConflictInfo) {
    m.id == c.mutationId && m.key == c.key && m.status.PENDING? && m in batch
  }

  lemma ConflictsOriginate(s: Server, d: Disk, settings: Settings, now: Stamp)
    requires Connected(s, d)
    ensures Originating(d.queue, BatchOf(d, settings), ResponseOf(s, d, settings, now).conflicts)
  {
    var cs := ResponseOf(s, d, settings, now).conflicts;
    forall j | 0 <= j < |cs| ensures exists o :: 0 <= o < |d.queue| && IsOrigin(BatchOf(d, settings), d.queue[o], cs[j]) {
      var o := ConflictOrigin(s, d, settings, now, cs[j]);
      assert IsOrigin(BatchOf(d, settings), d.queue[o], cs[j]);
    }
  }

  lemma ReportedMutation(d: Disk, settings: Settings, cs: seq<ConflictInfo>, c: ConflictInfo) returns (i: nat)
    requires Queue.IsBatchOf(BatchOf(d, settings), d.queue) && c in cs
    requires exists x :: x in Sent(d, settings) && x.id == c.mutationId && x.key == c.key
    ensures i < |d.queue| && d.queue[i].id == c.mutationId && d.queue[i].key == c.key
    ensures d.queue[i].status.PENDING? && d.queue[i] in BatchOf(d, settings)
    ensures Conflicted(cs, d.queue[i].id)
  {
    var x :| x in Sent(d, settings) && x.id == c.mutationId && x.key == c.key;
    var m := SentMember(d.entities, BatchOf(d, settings), x);
    assert m in d.queue;
    i :| 0 <= i < |d.queue| && d.queue[i] == m;
    var j :| 0 <= j < |cs| && cs[j] == c;
    assert cs[j].mutationId == d.queue[i].id;
  }

  /** A conflict is valid exactly if the server has the entity it is about. */
  lemma {:induction false} ConflictValidIff(s: Server, d: Disk, settings: Settings, now: Stamp, c: ConflictInfo)
    requires Connected(s, d) && now.Stamp? && c in ResponseOf(s, d, settings, now).conflicts
    ensures IsConflictInfo(c) <==> c.key in ServerAfter(s, d, settings, now).entities
  {
    BatchFacts(s, d, settings);
    ServerFacts(s, d, settings, now);
    var ms, t := Sent(d, settings), ServerAfter(s, d, settings, now);
    VerdictConflict(s, ms, now, d.entities, c);
    var m :| m in ms && m.id == c.mutationId && m.key == c.key;
    if c.key in t.entities {
      StoredEntity(t.history, c.key);
    }
  }

  lemma ResponseFits(s: Server, d: Disk, settings: Settings, now: Stamp)
    requires Connected(s, d)
    ensures FitsBatch(d.queue, BatchOf(d, settings), ResponseOf(s, d, settings, now))
  {
    BatchFacts(s, d, settings);
    var r := ResponseOf(s, d, settings, now);
    ServerFitsBatch(s, d.queue, d.entities, BatchOf(d, settings), r.changes, r.newCursor, now);
  }

  lemma SameMember(batch: Queue.Mutations, a: Mutation, b: Mutation)
    requires Queue.DistinctIds(batch) && a in batch && b in batch && a.id == b.id
    ensures a == b
  {
    var i :| 0 <= i < |batch| && batch[i] == a;
    var j :| 0 <= j < |batch| && batch[j] == b;
    assert i == j;
  }

  /** An unknown mutation that is acknowledged was applied in this round. */
  lemma {:induction false} AppliedInRound(s: Server, d: Disk, settings: Settings, now: Stamp, m: Mutation) returns (i: nat)
    requires Connected(s, d) && m in BatchOf(d, settings) && m.id !in s.tracked
    requires m.id in ResponseOf(s, d, settings, now).acknowledgedMutationIds
    ensures |s.history| <= i < |ServerAfter(s, d, settings, now).history|
    ensures ServerAfter(s, d, settings, now).history[i].mutation.key == m.key
  {
    var ms, t := Sent(d, settings), ServerAfter(s, d, settings, now);
    BatchFacts(s, d, settings);
    Acknowledgement(s, ms, now, m.id);
    i :| |s.history| <= i < |t.history| && t.history[i].mutation.id == m.id && t.history[i].mutation in ms;
    var x := SentMember(d.entities, BatchOf(d, settings), t.history[i].mutation);
    SameMember(BatchOf(d, settings), m, x);
  }

  lemma RevisionAdvances(h: seq<Applied>, later: seq<Applied>, i: nat, k: Key)
    requires Replayable(h) && Replayable(later) && h <= later
    requires |h| <= i < |later| && later[i].mutation.key == k
    ensures RevisionOf(StoreOf(later), k) > RevisionOf(StoreOf(h), k)
  {
    RevisionCounts(h, k);
    RevisionCounts(later, k);
    CountGrows(later, |h|, i, k);
    CountGrows(later, i, |later|, k);
    assert later[..|h|] == h && later[..|later|] == later;
  }

  /** A mutation whose entity stands locally at another revision than the server's
      is not accepted by this round, and neither is any other of that entity. */
  lemma StaleWriteConflicts(s: Server, d: Disk, settings: Settings, now: Stamp, m: Mutation) returns (c: ConflictInfo)
    requires Connected(s, d) && now.Stamp? && m in BatchOf(d, settings) && m.id !in s.tracked
    requires RevisionOf(d.entities, m.key) != RevisionOf(s.entities, m.key)
    ensures c in ResponseOf(s, d, settings, now).conflicts && c.mutationId == m.id && c.key == m.key
    ensures RevisionOf(ServerAfter(s, d, settings, now).entities, m.key) == RevisionOf(s.entities, m.key)
  {
    var t, r := ServerAfter(s, d, settings, now), ResponseOf(s, d, settings, now);
    BatchFacts(s, d, settings);
    ServerFacts(s, d, settings, now);
    VerdictRevisions(s, Sent(d, settings), now, d.entities, m.key);
    var b :| 0 <= b < |BatchOf(d, settings)| && BatchOf(d, settings)[b] == m;
    assert InBatch(BatchOf(d, settings), m.id);
    ResponseFits(s, d, settings, now);
    if m.id in r.acknowledgedMutationIds {
      var i := AppliedInRound(s, d, settings, now, m);
      RevisionAdvances(s.history, t.history, i, m.key);
    }
    var j :| 0 <= j < |r.conflicts| && r.conflicts[j].mutationId == m.id;
    c := r.conflicts[j];
    var i := ConflictOrigin(s, d, settings, now, c);
    SameMember(BatchOf(d, settings), d.queue[i], m);
  }

  /** The server can answer the mutation with something the client accepts: it has
      the entity, or knows the mutation, or the client has no revision for it. */
  predicate Deliverable(s: Server, d: Disk, m: Mutation) {
    m.key in s.entities || m.id in s.tracked || RevisionOf(d.entities, m.key) == 0
  }

  /** The client accepts the response exactly if every mutation of the batch is
      deliverable; one that is not makes it reject the whole response. */
  lemma ResponseValidIff(s: Server, d: Disk, settings: Settings, now: Stamp)
    requires Connected(s, d) && now.Stamp?
    ensures IsSyncResponse(ResponseOf(s, d, settings, now)) <==>
            forall m | m in BatchOf(d, settings) :: Deliverable(s, d, m)
  {
    if forall m | m in BatchOf(d, settings) :: Deliverable(s, d, m) {
      DeliverableIsValid(s, d, settings, now);
    } else {
      var m :| m in BatchOf(d, settings) && !Deliverable(s, d, m);
      var c := UndeliverableConflict(s, d, settings, now, m);
    }
  }

  lemma {:induction false} DeliverableIsValid(s: Server, d: Disk, settings: Settings, now: Stamp)
    requires Connected(s, d) && now.Stamp? && forall m | m in BatchOf(d, settings) :: Deliverable(s, d, m)
    ensures IsSyncResponse(ResponseOf(s, d, settings, now))
  {
    ServerFacts(s, d, settings, now);
    LoggedValid(ServerAfter(s, d, settings, now).history, d.cursor.n);
    forall c | c in ResponseOf(s, d, settings, now).conflicts ensures IsConflictInfo(c) {
      DeliverableConflict(s, d, settings, now, c);
    }
  }

  lemma UndeliverableConflict(s: Server, d: Disk, settings: Settings, now: Stamp, m: Mutation) returns (c: ConflictInfo)
    requires Connected(s, d) && now.Stamp? && m in BatchOf(d, settings) && !Deliverable(s, d, m)
    ensures c in ResponseOf(s, d, settings, now).conflicts && !IsConflictInfo(c)
  {
    var t := ServerAfter(s, d, settings, now);
    c := StaleWriteConflicts(s, d, settings, now, m);
    ConflictValidIff(s, d, settings, now, c);
    ServerFacts(s, d, settings, now);
    if m.key in t.entities {
      StoredEntity(t.history, m.key);
    }
  }

  lemma DeliverableConflict(s: Server, d: Disk, settings: Settings, now: Stamp, c: ConflictInfo)
    requires Connected(s, d) && now.Stamp? && c in ResponseOf(s, d, settings, now).conflicts
    requires forall m | m in BatchOf(d, settings) :: Deliverable(s, d, m)
    ensures IsConflictInfo(c)
  {
    var i := ConflictOrigin(s, d, settings, now, c);
    BatchFacts(s, d, settings);
    VerdictConflict(s, Sent(d, settings), now, d.entities, c);
    VerdictRevisions(s, Sent(d, settings), now, d.entities, c.key);
    ConflictValidIff(s, d, settings, now, c);
  }

  /** From a ready state the round is valid and runs to its end. */
  lemma {:induction false} RoundCompletes(s: Server, d: Disk, settings: Settings, now: Stamp)
    requires Ready(s, d) && now.Stamp?
    ensures IncrementalRound(s, d, settings, now) ==
            Round(ServerAfter(s, d, settings, now), DiskAfter(s, d, settings, now), true)
    ensures SameIds(d.queue, DiskAfter(s, d, settings, now).queue)
    ensures DiskAfter(s, d, settings, now).cursor == CurrentCursor(ServerAfter(s, d, settings, now))
  {
    BatchFacts(s, d, settings);
    forall m | m in BatchOf(d, settings) ensures Deliverable(s, d, m) {
      assert m in d.queue;
    }
    ResponseValidIff(s, d, settings, now);
    ResponseFits(s, d, settings, now);
    BatchOutcome(d, BatchOf(d, settings), ResponseOf(s, d, settings, now), settings.resolver, now);
  }

  // ----- What a round does to one mutation

  /** A mutation of the batch is acknowledged or pending again, and the server's
      answer says which; any other mutation is untouched. */
  predicate MutationStep(batch: Queue.Mutations, r: SyncResponse, before: Mutation, after: Mutation) {
    && after.key == before.key && (Sendable(before) ==> Sendable(after))
    && if before !in batch then after == before
       else if before.id in r.acknowledgedMutationIds then after == before.(status := Queue.ACKNOWLEDGED)
       else Conflicted(r.conflicts, before.id)
            && after == before.(status := Queue.PENDING, retries := before.retries + 1, lastError := None,
                                value := after.value, operation := Set)
  }

  lemma {:induction false} RoundMutation(s: Server, d: Disk, settings: Settings, now: Stamp, i: nat)
    requires Ready(s, d) && now.Stamp? && AlwaysResolves(settings.resolver)
    requires i < |d.queue|
    ensures var after := DiskAfter(s, d, settings, now).queue;
            |after| == |d.queue| &&
            MutationStep(BatchOf(d, settings), ResponseOf(s, d, settings, now), d.queue[i], after[i])
  {
    BatchFacts(s, d, settings);
    ResponseFits(s, d, settings, now);
    MutationOutcome(d, BatchOf(d, settings), ResponseOf(s, d, settings, now), settings.resolver, now, i);
  }

  lemma MutationOutcome(d: Disk, batch: Queue.Mutations, r: SyncResponse, resolver: Option<Resolver>, now: Stamp, i: nat)
    requires FitsBatch(d.queue, batch, r) && Queue.IsBatchOf(batch, d.queue) && Queue.DistinctIds(d.queue)
    requires AlwaysResolves(resolver) && i < |d.queue|
    ensures var after := Perform(d, Completion(batch, r), resolver, now).disk.queue;
            |after| == |d.queue| && MutationStep(batch, r, d.queue[i], after[i])
  {
    var m := d.queue[i];
    BatchOutcome(d, batch, r, resolver, now);
    BatchMember(d.queue, batch, i);
    assert OutcomeOf(batch, r, m, Perform(d, Completion(batch, r), resolver, now).disk.queue[i]);
    assert InBatch(batch, m.id) <==> Answered(r, m.id);
    assert !(m.id in r.acknowledgedMutationIds && Conflicted(r.conflicts, m.id));
    if Conflicted(r.conflicts, m.id) {
      ConflictOutcome(d, batch, r, resolver, now, i);
    }
  }

  // ----- What a round does to one key

  predicate ConflictInRound(s: Server, d: Disk, settings: Settings, now: Stamp, k: Key) {
    ConflictOn(ResponseOf(s, d, settings, now).conflicts, k)
  }

  /** An entity with a conflict ends the round at the server's revision. It is deleted if
      the server's is and was created when that was; the round's time is its last
      change. */
  lemma {:induction false} ConflictedEntity(s: Server, d: Disk, settings: Settings, now: Stamp, k: Key)
    requires Ready(s, d) && AlwaysResolves(settings.resolver)
    requires ConflictInRound(s, d, settings, now, k)
    ensures var t, after := ServerAfter(s, d, settings, now), DiskAfter(s, d, settings, now);
            && k in t.entities && k in after.entities
            && after.entities[k].revision == t.entities[k].revision
            && after.entities[k].isDeleted == t.entities[k].isDeleted
            && after.entities[k].createdAt == t.entities[k].createdAt
            && after.entities[k].updatedAt == now
  {
    BatchFacts(s, d, settings);
    ResponseFits(s, d, settings, now);
    var c, _ := ResolvedRevision(d, BatchOf(d, settings), ResponseOf(s, d, settings, now), settings.resolver, now, k);
    VerdictConflict(s, Sent(d, settings), now, d.entities, c);
    VerdictRevisions(s, Sent(d, settings), now, d.entities, k);
    var i := ConflictOrigin(s, d, settings, now, c);
    assert d.queue[i] in d.queue;
  }

  /** An entity without a conflict ends the round equal to the server's if it was
      changed since the cursor; otherwise neither side has moved. */
  lemma {:induction false} UnconflictedKey(s: Server, d: Disk, settings: Settings, now: Stamp, k: Key)
    requires Ready(s, d) && now.Stamp? && !ConflictInRound(s, d, settings, now, k)
    ensures var t, after := ServerAfter(s, d, settings, now), DiskAfter(s, d, settings, now);
            if TouchedSince(t.history, d.cursor.n, k) then Get(after.entities, k) == Get(t.entities, k)
            else Get(after.entities, k) == Get(d.entities, k) && Get(t.entities, k) == Get(s.entities, k)
  {
    ServerFacts(s, d, settings, now);
    ResponseFits(s, d, settings, now);
    BatchOutcome(d, BatchOf(d, settings), ResponseOf(s, d, settings, now), settings.resolver, now);
    ChangesForKey(d.entities, s.history, ServerAfter(s, d, settings, now).history, d.cursor.n, k);
  }

  lemma ChangesForKey(local: map<Key, Entity>, h: seq<Applied>, later: seq<Applied>, n: nat, k: Key)
    requires h <= later && n <= |h|
    ensures Get(Overlay(local, Logged(later)[n..]), k) == if TouchedSince(later, n, k) then Latest(later, k) else Get(local, k)
    ensures !TouchedSince(later, n, k) ==> Latest(later, k) == Latest(h, k)
  {
    OverlayChanges(local, later, n, k);
    if !TouchedSince(later, n, k) {
      TouchedLater(h, later, n, k);
      OverlayChanges(local, h, n, k);
      assert h[..n] == later[..n];
    }
  }

  lemma TouchedLater(h: seq<Applied>, later: seq<Applied>, n: nat, k: Key)
    requires h <= later
    ensures TouchedSince(h, n, k) ==> TouchedSince(later, n, k)
  {
    if TouchedSince(h, n, k) {
      var i :| n <= i < |h| && h[i].mutation.key == k;
      assert later[i].mutation.key == k;
    }
  }

  /** The server keeps what it has, at revisions that are not negative. */
  lemma {:induction false} RoundKeepsKey(s: Server, d: Disk, settings: Settings, now: Stamp, k: Key)
    requires Connected(s, d) && now.Stamp?
    ensures k in s.entities ==> k in ServerAfter(s, d, settings, now).entities
    ensures RevisionOf(ServerAfter(s, d, settings, now).entities, k) >= 0
  {
    BatchFacts(s, d, settings);
    ServerFacts(s, d, settings, now);
    VerdictRevisions(s, Sent(d, settings), now, d.entities, k);
    var t := ServerAfter(s, d, settings, now);
    if k in t.entities {
      StoredEntity(t.history, k);
    }
  }

  /** The client stands at the server's revision, or neither side has moved. */
  predicate Caught(s: Server, d: Disk, t: Server, after: Disk, k: Key) {
    || RevisionOf(after.entities, k) == RevisionOf(t.entities, k)
    || (RevisionOf(after.entities, k) == RevisionOf(d.entities, k) && RevisionOf(t.entities, k) == RevisionOf(s.entities, k))
  }

  /** A key ends the round at the server's revision, or neither side moved. */
  lemma {:induction false} RoundKey(s: Server, d: Disk, settings: Settings, now: Stamp, k: Key)
    requires Ready(s, d) && now.Stamp? && AlwaysResolves(settings.resolver)
    ensures Caught(s, d, ServerAfter(s, d, settings, now), DiskAfter(s, d, settings, now), k)
  {
    if ConflictInRound(s, d, settings, now, k) {
      ConflictedEntity(s, d, settings, now, k);
    } else {
      UnconflictedKey(s, d, settings, now, k);
    }
  }

  // ----- The measure

  function PendingKeys(q: Queue.Mutations): set<Key> {
    set m | m in q && m.status.PENDING? :: m.key
  }

  function Stale(s: Server, d: Disk): set<Key> {
    set k | k in PendingKeys(d.queue) && RevisionOf(d.entities, k) != RevisionOf(s.entities, k)
  }

  function Measure(s: Server, d: Disk): nat {
    Queue.CountStatus(d.queue, Queue.PENDING) + |Stale(s, d)|
  }

  lemma {:induction false} CountDrops(q: Queue.Mutations, p: Queue.Mutations, status: Queue.Status)
    requires |q| == |p| && forall i | 0 <= i < |q| :: p[i].status == status ==> q[i].status == status
    ensures Queue.CountStatus(p, status) <= Queue.CountStatus(q, status)
    ensures (exists i :: 0 <= i < |q| && q[i].status == status && p[i].status != status) ==>
              Queue.CountStatus(p, status) < Queue.CountStatus(q, status)
  {
    if q != [] {
      CountDrops(q[..|q| - 1], p[..|p| - 1], status);
      if exists i :: 0 <= i < |q| && q[i].status == status && p[i].status != status {
        var i :| 0 <= i < |q| && q[i].status == status && p[i].status != status;
        if i < |q| - 1 {
          assert q[..|q| - 1][i].status == status && p[..|p| - 1][i].status != status;
        }
      }
    }
  }

  lemma PendingShrinks(q: Queue.Mutations, p: Queue.Mutations)
    requires |q| == |p|
    requires forall i | 0 <= i < |q| :: p[i].key == q[i].key && (p[i].status.PENDING? ==> q[i].status.PENDING?)
    ensures PendingKeys(p) <= PendingKeys(q)
  {
    forall k | k in PendingKeys(p) ensures k in PendingKeys(q) {
      var m :| m in p && m.status.PENDING? && m.key == k;
      var i :| 0 <= i < |p| && p[i] == m;
      assert q[i] in q;
    }
  }

  predicate QueueStep(q: Queue.Mutations, p: Queue.Mutations) {
    && SameIds(q, p)
    && forall i | 0 <= i < |q| ::
         && p[i].key == q[i].key && (Sendable(q[i]) ==> Sendable(p[i]))
         && (if q[i].status.PENDING? then p[i].status.PENDING? || p[i] == q[i].(status := Queue.ACKNOWLEDGED) else p[i] == q[i])
  }

  lemma RoundQueue(s: Server, d: Disk, settings: Settings, now: Stamp)
    requires Ready(s, d) && now.Stamp? && AlwaysResolves(settings.resolver)
    ensures QueueStep(d.queue, DiskAfter(s, d, settings, now).queue)
  {
    RoundCompletes(s, d, settings, now);
    BatchFacts(s, d, settings);
    forall i | 0 <= i < |d.queue|
      ensures MutationStep(BatchOf(d, settings), ResponseOf(s, d, settings, now), d.queue[i], DiskAfter(s, d, settings, now).queue[i])
    {
      RoundMutation(s, d, settings, now, i);
    }
  }

  lemma ReadyQueue(q: Queue.Mutations, p: Queue.Mutations)
    requires QueueStep(q, p) && Queue.DistinctIds(q) && OnePendingKeyPerId(q)
    ensures Queue.DistinctIds(p) && OnePendingKeyPerId(p)
  {
    forall a, b | a in p && b in p && a.status.PENDING? && b.status.PENDING? && a.key.id == b.key.id
      ensures a.key == b.key
    {
      var i :| 0 <= i < |p| && p[i] == a;
      var j :| 0 <= j < |p| && p[j] == b;
      assert q[i] in q && q[j] in q;
    }
  }

  lemma RoundKeepsReady(s: Server, d: Disk, settings: Settings, now: Stamp)
    requires Ready(s, d) && now.Stamp? && AlwaysResolves(settings.resolver)
    ensures Ready(ServerAfter(s, d, settings, now), DiskAfter(s, d, settings, now))
  {
    RoundCompletes(s, d, settings, now);
    ServerFacts(s, d, settings, now);
    RoundQueue(s, d, settings, now);
    var t, after := ServerAfter(s, d, settings, now), DiskAfter(s, d, settings, now);
    ReadyQueue(d.queue, after.queue);
    forall m | m in after.queue && m.status.PENDING?
      ensures Sendable(m) && m.key in t.entities && RevisionOf(after.entities, m.key) >= 0
    {
      var i :| 0 <= i < |after.queue| && after.queue[i] == m;
      assert d.queue[i] in d.queue;
      RoundKeepsKey(s, d, settings, now, m.key);
      RoundKey(s, d, settings, now, m.key);
    }
  }

  lemma {:induction false} StaleShrinks(s: Server, d: Disk, settings: Settings, now: Stamp)
    requires Ready(s, d) && now.Stamp? && AlwaysResolves(settings.resolver)
    ensures Stale(ServerAfter(s, d, settings, now), DiskAfter(s, d, settings, now)) <= Stale(s, d)
  {
    var t, after := ServerAfter(s, d, settings, now), DiskAfter(s, d, settings, now);
    RoundQueue(s, d, settings, now);
    PendingShrinks(d.queue, after.queue);
    forall k | k in Stale(t, after) ensures k in Stale(s, d) {
      RoundKey(s, d, settings, now, k);
    }
  }

  predicate HasPending(q: Queue.Mutations) {
    exists i :: 0 <= i < |q| && q[i].status.PENDING?
  }

  /** The first mutation of the batch is acknowledged, or it conflicts because its
      entity was stale. */
  lemma FirstOfBatch(s: Server, d: Disk, settings: Settings, now: Stamp) returns (i: nat)
    requires Ready(s, d) && now.Stamp? && settings.batchSize > 0 && HasPending(d.queue)
    ensures i < |d.queue| && d.queue[i].status.PENDING? && d.queue[i] in BatchOf(d, settings)
    ensures d.queue[i].id in ResponseOf(s, d, settings, now).acknowledgedMutationIds ||
            (d.queue[i].key in Stale(s, d) && ConflictInRound(s, d, settings, now, d.queue[i].key))
  {
    i := FirstPending(d, settings);
    FirstAnswered(s, Sent(d, settings), now);
    BatchFacts(s, d, settings);
    var first := Sent(d, settings)[0];
    assert first in Sent(d, settings) && first.key == d.queue[i].key && first.id == d.queue[i].id;
  }

  lemma {:induction false} FirstPending(d: Disk, settings: Settings) returns (i: nat)
    requires Queue.DistinctIds(d.queue) && settings.batchSize > 0 && HasPending(d.queue)
    ensures BatchOf(d, settings) != [] && i < |d.queue| && d.queue[i] == BatchOf(d, settings)[0]
    ensures d.queue[i].status.PENDING? && d.queue[i] in BatchOf(d, settings)
  {
    Queue.DequeueIsBatch(d.queue, settings.batchSize);
    PendingCounts(d.queue);
    Queue.BatchSize(d.queue, settings.batchSize);
    i := PlaceOfFirst(d.queue, BatchOf(d, settings));
  }

  lemma PlaceOfFirst(q: Queue.Mutations, batch: Queue.Mutations) returns (i: nat)
    requires Queue.IsBatchOf(batch, q) && batch != []
    ensures i < |q| && q[i] == batch[0] && q[i].status.PENDING? && q[i] in batch
  {
    assert batch[0] in batch;
    i :| 0 <= i < |q| && q[i] == batch[0];
  }

  /** The first mutation of the request is acknowledged, or its base is stale. */
  lemma {:induction false} FirstAnswered(s: Server, ms: seq<ProtocolMutation>, now: Stamp)
    requires ms != []
    ensures var b := Process(s, ms, now);
            ms[0].id in b.acknowledged ||
            (ms[0].baseRevision != RevisionOf(s.entities, ms[0].key) && ConflictOn(b.conflicts, ms[0].key))
  {
    FirstVerdict(s, ms, now);
    if ms[0].id !in Process(s, ms, now).acknowledged {
      var info := Judge(s, ms[0], now).info;
      assert info in Process(s, ms, now).conflicts && info.key == ms[0].key;
    }
  }

  /** Every round with something to send comes closer to the end. */
  lemma {:induction false} RoundProgress(s: Server, d: Disk, settings: Settings, now: Stamp)
    requires Ready(s, d) && now.Stamp? && AlwaysResolves(settings.resolver) && settings.batchSize > 0
    ensures var t, after := ServerAfter(s, d, settings, now), DiskAfter(s, d, settings, now);
            && Measure(t, after) <= Measure(s, d)
            && (HasPending(d.queue) ==> Measure(t, after) < Measure(s, d))
  {
    var t, after := ServerAfter(s, d, settings, now), DiskAfter(s, d, settings, now);
    RoundQueue(s, d, settings, now);
    StaleShrinks(s, d, settings, now);
    CountDrops(d.queue, after.queue, Queue.PENDING);
    SetSizes(Stale(t, after), Stale(s, d));
    if HasPending(d.queue) {
      var i := FirstOfBatch(s, d, settings, now);
      RoundMutation(s, d, settings, now, i);
      if ConflictInRound(s, d, settings, now, d.queue[i].key) {
        ConflictedEntity(s, d, settings, now, d.queue[i].key);
      }
    }
  }

  lemma SetSizes<T>(a: set<T>, b: set<T>)
    requires a <= b
    ensures |a| <= |b|
    ensures a != b ==> |a| < |b|
  {
    assert b == a + (b - a);
  }

  // ----- Rounds until the queue is empty

  function Drain(s: Server, d: Disk, settings: Settings, clock: seq<Stamp>): Round
    decreases |clock|
  {
    if clock == [] then Round(s, d, true)
    else
      var next := IncrementalRound(s, d, settings, clock[0]);
      if next.completed then Drain(next.server, next.disk, settings, clock[1..]) else next
  }

  predicate AllAcknowledged(q: Queue.Mutations, p: Queue.Mutations) {
    && SameIds(q, p)
    && forall i | 0 <= i < |q| ::
         p[i].key == q[i].key && if q[i].status.PENDING? then p[i].status.ACKNOWLEDGED? else p[i] == q[i]
  }

  lemma AcknowledgedCompose(q: Queue.Mutations, mid: Queue.Mutations, p: Queue.Mutations)
    requires QueueStep(q, mid) && AllAcknowledged(mid, p)
    ensures AllAcknowledged(q, p)
  {
  }

  predicate EnoughRounds(s: Server, d: Disk, clock: seq<Stamp>) {
    |clock| >= Measure(s, d) && forall now | now in clock :: now.Stamp?
  }

  lemma {:induction false} DrainStep(s: Server, d: Disk, settings: Settings, clock: seq<Stamp>)
    requires Ready(s, d) && AlwaysResolves(settings.resolver) && settings.batchSize > 0
    requires clock != [] && EnoughRounds(s, d, clock)
    ensures var t, after := ServerAfter(s, d, settings, clock[0]), DiskAfter(s, d, settings, clock[0]);
            && clock[0].Stamp? && Ready(t, after) && EnoughRounds(t, after, clock[1..])
            && Drain(s, d, settings, clock) == Drain(t, after, settings, clock[1..])
  {
    var now := clock[0];
    assert now in clock && forall x | x in clock[1..] :: x in clock;
    RoundCompletes(s, d, settings, now);
    RoundKeepsReady(s, d, settings, now);
    RoundProgress(s, d, settings, now);
    if !HasPending(d.queue) {
      RoundQueue(s, d, settings, now);
      NothingPending(ServerAfter(s, d, settings, now), DiskAfter(s, d, settings, now));
    }
  }

  /** As many rounds as there are pending mutations and stale entities leave every
      pending mutation acknowledged and every other mutation as it was. */
  lemma {:induction false} QueueDrains(s: Server, d: Disk, settings: Settings, clock: seq<Stamp>)
    requires Ready(s, d) && AlwaysResolves(settings.resolver) && settings.batchSize > 0
    requires EnoughRounds(s, d, clock)
    ensures var end := Drain(s, d, settings, clock);
            end.completed && Ready(end.server, end.disk) && AllAcknowledged(d.queue, end.disk.queue)
    decreases |clock|
  {
    if clock == [] {
      PendingCounts(d.queue);
    } else {
      DrainStep(s, d, settings, clock);
      RoundQueue(s, d, settings, clock[0]);
      var t, after := ServerAfter(s, d, settings, clock[0]), DiskAfter(s, d, settings, clock[0]);
      QueueDrains(t, after, settings, clock[1..]);
      AcknowledgedCompose(d.queue, after.queue, Drain(s, d, settings, clock).disk.queue);
    }
  }

  lemma PendingCounts(q: Queue.Mutations)
    ensures HasPending(q) ==> Queue.CountStatus(q, Queue.PENDING) > 0
  {
    if HasPending(q) {
      var i :| 0 <= i < |q| && q[i].status.PENDING?;
      Queue.WithStatusMembers(q, Queue.PENDING);
      assert q[i] in Queue.WithStatus(q, Queue.PENDING);
    }
  }

  lemma NothingPending(s: Server, d: Disk)
    requires !HasPending(d.queue)
    ensures Measure(s, d) == 0
  {
    Queue.NoneWithStatus(d.queue, Queue.PENDING);
    assert PendingKeys(d.queue) == {};
    assert Stale(s, d) == {};
  }
}
