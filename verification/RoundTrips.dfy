/** What becomes of one local write over the rounds that follow it: it reaches
    the server, it is silently replaced, or it blocks the client for good. */
module RoundTrips {
  import opened Json
  import opened Protocol
  import opened ServerSpec
  import opened ServerLaws
  import opened ServerRequests
  import opened EngineSpec
  import opened EngineLaws
  import opened Rounds
  import opened Draining
  import Queue
  import Strategies

  // ----- Drained entities equal the server's

  predicate Untracked(s: Server, d: Disk) {
    forall m | m in d.queue && m.status.PENDING? :: m.id !in s.tracked
  }

  lemma {:induction false} StillUntracked(s: Server, d: Disk, settings: Settings, now: Stamp, id: string)
    requires Ready(s, d) && id !in s.tracked
    requires Conflicted(ResponseOf(s, d, settings, now).conflicts, id) || !InBatch(BatchOf(d, settings), id)
    ensures id !in ServerAfter(s, d, settings, now).tracked
  {
    BatchFacts(s, d, settings);
    SentIds(d, settings);
    ConflictsStayUntracked(s, Sent(d, settings), now);
    OutgoingIds(d.entities, BatchOf(d, settings));
  }

  lemma {:induction false} RoundKeepsUntracked(s: Server, d: Disk, settings: Settings, now: Stamp)
    requires Ready(s, d) && now.Stamp? && AlwaysResolves(settings.resolver) && Untracked(s, d)
    ensures Untracked(ServerAfter(s, d, settings, now), DiskAfter(s, d, settings, now))
  {
    var after := DiskAfter(s, d, settings, now);
    RoundQueue(s, d, settings, now);
    BatchFacts(s, d, settings);
    forall m | m in after.queue && m.status.PENDING? ensures m.id !in ServerAfter(s, d, settings, now).tracked {
      var i :| 0 <= i < |after.queue| && after.queue[i] == m;
      assert d.queue[i] in d.queue;
      RoundMutation(s, d, settings, now, i);
      BatchMember(d.queue, BatchOf(d, settings), i);
      StillUntracked(s, d, settings, now, m.id);
    }
  }

  /** A conflict of the round leaves its entity with something pending. */
  lemma {:induction false} ConflictStaysPending(s: Server, d: Disk, settings: Settings, now: Stamp, k: Key)
    requires Ready(s, d) && now.Stamp? && AlwaysResolves(settings.resolver)
    requires ConflictInRound(s, d, settings, now, k)
    ensures k in PendingKeys(DiskAfter(s, d, settings, now).queue)
  {
    var c :| c in ResponseOf(s, d, settings, now).conflicts && c.key == k;
    var i := ConflictOrigin(s, d, settings, now, c);
    ResponseFits(s, d, settings, now);
    RoundMutation(s, d, settings, now, i);
    assert DiskAfter(s, d, settings, now).queue[i] in DiskAfter(s, d, settings, now).queue;
  }

  /** An entity that has nothing pending after the round, and had before or was
      equal to the server's, is equal to the server's. */
  lemma {:induction false} SettledKeyMatches(s: Server, d: Disk, settings: Settings, now: Stamp, k: Key)
    requires Ready(s, d) && now.Stamp? && AlwaysResolves(settings.resolver) && Untracked(s, d)
    requires k !in PendingKeys(DiskAfter(s, d, settings, now).queue)
    requires k in PendingKeys(d.queue) || Get(d.entities, k) == Get(s.entities, k)
    ensures Get(DiskAfter(s, d, settings, now).entities, k) == Get(ServerAfter(s, d, settings, now).entities, k)
  {
    if ConflictInRound(s, d, settings, now, k) {
      ConflictStaysPending(s, d, settings, now, k);
    }
    UnconflictedKey(s, d, settings, now, k);
    if k in PendingKeys(d.queue) {
      var m :| m in d.queue && m.status.PENDING? && m.key == k;
      var i :| 0 <= i < |d.queue| && d.queue[i] == m;
      RoundMutation(s, d, settings, now, i);
      assert DiskAfter(s, d, settings, now).queue[i] in DiskAfter(s, d, settings, now).queue;
      var _ := AppliedInRound(s, d, settings, now, m);
    }
  }

  /** When the queue has drained, every entity that had something pending is on
      both sides the same. */
  lemma {:induction false} DrainedKeysMatch(s: Server, d: Disk, settings: Settings, clock: seq<Stamp>, k: Key)
    requires Ready(s, d) && AlwaysResolves(settings.resolver) && settings.batchSize > 0 && Untracked(s, d)
    requires EnoughRounds(s, d, clock)
    requires k in PendingKeys(d.queue) || Get(d.entities, k) == Get(s.entities, k)
    ensures var end := Drain(s, d, settings, clock);
            Get(end.disk.entities, k) == Get(end.server.entities, k)
    decreases |clock|
  {
    if clock == [] {
      PendingKeyCounts(d.queue, k);
    } else {
      DrainStep(s, d, settings, clock);
      RoundKeepsUntracked(s, d, settings, clock[0]);
      var t, after := ServerAfter(s, d, settings, clock[0]), DiskAfter(s, d, settings, clock[0]);
      if k !in PendingKeys(after.queue) {
        SettledKeyMatches(s, d, settings, clock[0], k);
      }
      DrainedKeysMatch(t, after, settings, clock[1..], k);
    }
  }

  lemma PendingKeyCounts(q: Queue.Mutations, k: Key)
    ensures k in PendingKeys(q) ==> Queue.CountStatus(q, Queue.PENDING) > 0
  {
    if k in PendingKeys(q) {
      var m :| m in q && m.status.PENDING? && m.key == k;
      Queue.WithStatusMembers(q, Queue.PENDING);
      assert m in Queue.WithStatus(q, Queue.PENDING);
    }
  }

  // ----- A resolved conflict is accepted the next time

  /** In a request where it is the only mutation of its entity, an unknown
      mutation based on the current revision is accepted. */
  lemma {:induction false} SoleMutationAccepted(s: Server, ms: seq<ProtocolMutation>, now: Stamp, i: nat)
    requires i < |ms| && DistinctIds(ms)
    requires forall j | 0 <= j < |ms| && j != i :: ms[j].key != ms[i].key
    requires ms[i].id !in s.tracked && ms[i].baseRevision == RevisionOf(s.entities, ms[i].key)
    ensures var b := Process(s, ms, now);
            && ms[i].id in b.acknowledged
            && Get(b.server.entities, ms[i].key) == Some(Result(Get(s.entities, ms[i].key), ms[i], now))
  {
    var init := ms[..|ms| - 1];
    if i == |ms| - 1 {
      KeyUntouched(s, init, now, ms[i].key);
      ConflictsStayUntracked(s, init, now);
      assert ms[i].id !in Ids(init);
    } else {
      SoleMutationAccepted(s, init, now, i);
      assert ms[|ms| - 1].key != ms[i].key;
    }
  }

  lemma {:induction false} KeyUntouched(s: Server, ms: seq<ProtocolMutation>, now: Stamp, k: Key)
    requires forall m | m in ms :: m.key != k
    ensures Get(Process(s, ms, now).server.entities, k) == Get(s.entities, k)
  {
    if ms != [] {
      KeyUntouched(s, ms[..|ms| - 1], now, k);
      assert ms[|ms| - 1] in ms;
    }
  }

  predicate OnlyPendingOnItsKey(q: Queue.Mutations, m: Mutation) {
    m in q && m.status.PENDING? && forall x | x in q && x.status.PENDING? && x.key == m.key :: x == m
  }

  lemma NoConflictOnKey(q: Queue.Mutations, batch: Batch, cs: seq<ConflictInfo>, m: Mutation)
    requires Originating(q, batch, cs) && OnlyPendingOnItsKey(q, m) && !Conflicted(cs, m.id)
    ensures !ConflictOn(cs, m.key)
  {
    forall c | c in cs ensures c.key != m.key {
      var j :| 0 <= j < |cs| && cs[j] == c;
      var o :| 0 <= o < |q| && IsOrigin(batch, q[o], cs[j]);
      assert q[o] in q;
    }
  }

  /** A `set` that is the only thing pending on its entity, at the server's
      revision and in the next batch, is acknowledged by the next round; its value
      is then the data on both sides, one revision further. */
  lemma ResolvedRoundTrip(s: Server, d: Disk, settings: Settings, now: Stamp, i: nat)
    requires Ready(s, d) && now.Stamp? && i < |d.queue|
    requires OnlyPendingOnItsKey(d.queue, d.queue[i]) && d.queue[i] in BatchOf(d, settings)
    requires d.queue[i].operation.Set? && d.queue[i].id !in s.tracked
    requires RevisionOf(d.entities, d.queue[i].key) == RevisionOf(s.entities, d.queue[i].key)
    ensures var m := d.queue[i];
            var t, after := ServerAfter(s, d, settings, now), DiskAfter(s, d, settings, now);
            && |after.queue| == |d.queue| && after.queue[i] == m.(status := Queue.ACKNOWLEDGED)
            && m.key in t.entities && Get(after.entities, m.key) == Get(t.entities, m.key)
            && t.entities[m.key].data == (if m.value.Null? then EMPTY else m.value)
            && t.entities[m.key].revision == RevisionOf(s.entities, m.key) + 1
  {
    var m, batch, ms := d.queue[i], BatchOf(d, settings), Sent(d, settings);
    var r := ResponseOf(s, d, settings, now);
    BatchFacts(s, d, settings);
    SentIds(d, settings);
    ResponseFits(s, d, settings, now);
    var j :| 0 <= j < |batch| && batch[j] == m;
    assert ms[j] in ms;
    forall l | 0 <= l < |ms| && l != j ensures ms[l].key != ms[j].key {
      assert batch[l] in batch && batch[l] in d.queue;
    }
    SoleMutationAccepted(s, ms, now, j);
    assert m.id in r.acknowledgedMutationIds;
    ConflictsOriginate(s, d, settings, now);
    NoConflictOnKey(d.queue, batch, r.conflicts, m);
    UnconflictedKey(s, d, settings, now, m.key);
    var _ := AppliedInRound(s, d, settings, now, m);
    BatchOutcome(d, batch, r, settings.resolver, now);
    assert OutcomeOf(batch, r, m, DiskAfter(s, d, settings, now).queue[i]);
  }

  // ----- What the resolver sees

  /** A conflict that is the only one on its entity is resolved against the entity
      as the changes of this very round have left it. */
  lemma {:induction false} SettlementsData(disk: Disk, cs: seq<ConflictInfo>, batch: Queue.Mutations, resolver: Option<Resolver>,
                                           now: Stamp, j: nat)
    requires ConflictsKnown(disk.queue, cs) && DistinctConflicts(cs)
    requires j < |cs| && forall l | 0 <= l < |cs| && l != j :: cs[l].key != cs[j].key
    requires Resolve(disk.entities, cs[j], Find(batch, cs[j].mutationId), resolver).Resolved?
    ensures var data := Resolve(disk.entities, cs[j], Find(batch, cs[j].mutationId), resolver).data;
            Resolution(disk.queue, Perform(disk, Settlements(cs, batch), resolver, now).disk, cs[j], data, now)
    decreases |cs|
  {
    assert cs[0] in cs;
    DistinctConflictsTail(cs);
    if j == 0 {
      forall c | c in cs[1..] ensures c.key != cs[0].key {
        var l :| 0 <= l < |cs[1..]| && cs[1..][l] == c;
        assert c == cs[l + 1];
      }
      LastResolution(disk, cs, batch, resolver, now);
    } else {
      assert cs[1..][j - 1] == cs[j] && cs[0].key != cs[j].key && cs[0].mutationId != cs[j].mutationId;
      var after := SettleAnother(disk, cs, batch, resolver, now, cs[j]);
      SettlementsData(after, cs[1..], batch, resolver, now, j - 1);
      var end := Perform(after, Settlements(cs[1..], batch), resolver, now).disk;
      ResolutionOf(disk.queue, after.queue, end, cs[j], Resolve(after.entities, cs[j], Find(batch, cs[j].mutationId), resolver).data, now);
    }
  }

  lemma ResolutionOf(q: Queue.Mutations, p: Queue.Mutations, end: Disk, c: ConflictInfo, data: Json, now: Stamp)
    requires Resolution(p, end, c, data, now) && SameIds(q, p)
    requires forall i | 0 <= i < |q| && q[i].id == c.mutationId :: p[i] == q[i]
    ensures Resolution(q, end, c, data, now)
  {
  }

  /** The first conflict of a list does nothing to another's mutation and entity. */
  lemma {:induction false} SettleAnother(disk: Disk, cs: seq<ConflictInfo>, batch: Queue.Mutations, resolver: Option<Resolver>,
                                         now: Stamp, c: ConflictInfo) returns (after: Disk)
    requires cs != [] && ConflictsKnown(disk.queue, cs) && c.key != cs[0].key && c.mutationId != cs[0].mutationId
    ensures Perform(disk, Settlements(cs, batch), resolver, now) == Perform(after, Settlements(cs[1..], batch), resolver, now)
    ensures ConflictsKnown(after.queue, cs[1..]) && SameIds(disk.queue, after.queue)
    ensures Get(after.entities, c.key) == Get(disk.entities, c.key)
    ensures forall i | 0 <= i < |disk.queue| && disk.queue[i].id == c.mutationId :: after.queue[i] == disk.queue[i]
  {
    assert cs[0] in cs;
    after := SettlementsHead(disk, cs, batch, resolver, now);
    SettleOne(disk, cs[0], Resolve(disk.entities, cs[0], Find(batch, cs[0].mutationId), resolver), now);
  }

  lemma {:induction false} StoredDataNotNull(h: seq<Applied>, k: Key)
    requires Replayable(h) && k in StoreOf(h)
    ensures !StoreOf(h)[k].data.Null?
  {
    if h[|h| - 1].mutation.key != k {
      StoredDataNotNull(h[..|h| - 1], k);
    }
  }

  function ClientWinsResolver(): Resolver {
    c => Strategies.Resolve(Strategies.ClientWins, c)
  }

  /** What the resolver finds in the replica when it looks at a conflict. */
  lemma {:induction false} LocalAtResolution(s: Server, d: Disk, settings: Settings, now: Stamp, c: ConflictInfo)
    requires Ready(s, d) && now.Stamp? && c in ResponseOf(s, d, settings, now).conflicts
    ensures var local := Overlay(d.entities, ResponseOf(s, d, settings, now).changes);
            if TouchedSince(ServerAfter(s, d, settings, now).history, d.cursor.n, c.key)
            then Get(local, c.key) == Some(c.serverEntity) && !c.serverEntity.data.Null?
            else Get(local, c.key) == Get(d.entities, c.key)
  {
    var t := ServerAfter(s, d, settings, now);
    BatchFacts(s, d, settings);
    ServerFacts(s, d, settings, now);
    VerdictConflict(s, Sent(d, settings), now, d.entities, c);
    OverlayChanges(d.entities, t.history, d.cursor.n, c.key);
    if TouchedSince(t.history, d.cursor.n, c.key) {
      TouchedIsStored(t.history, d.cursor.n, c.key);
      StoredDataNotNull(t.history, c.key);
    }
  }

  lemma {:induction false} TouchedIsStored(h: seq<Applied>, n: nat, k: Key)
    requires TouchedSince(h, n, k)
    ensures k in StoreOf(h)
  {
    TouchedSplit(h, n, k);
    if h[|h| - 1].mutation.key != k {
      TouchedIsStored(h[..|h| - 1], n, k);
    }
  }

  /** Under client-wins, the verdict on a conflicting `set`: the server's own data
      if the round brings a change of the entity, the local data otherwise. Either
      way it is not the mutation's value that decides. */
  lemma ClientWinsVerdict(s: Server, d: Disk, settings: Settings, now: Stamp, c: ConflictInfo, m: Mutation)
    requires Ready(s, d) && now.Stamp?
    requires c in ResponseOf(s, d, settings, now).conflicts && m.operation.Set?
    ensures var local := Overlay(d.entities, ResponseOf(s, d, settings, now).changes);
            Resolve(local, c, Some(m), Some(ClientWinsResolver())) ==
            Strategies.Resolved(Strategies.CLIENT_WINS,
              if TouchedSince(ServerAfter(s, d, settings, now).history, d.cursor.n, c.key) then c.serverEntity.data
              else if c.key in d.entities && !d.entities[c.key].data.Null? then d.entities[c.key].data
              else m.value)
  {
    LocalAtResolution(s, d, settings, now, c);
    ClientWinsOn(Overlay(d.entities, ResponseOf(s, d, settings, now).changes), c, m);
  }

  lemma ClientWinsOn(local: map<Key, Entity>, c: ConflictInfo, m: Mutation)
    requires m.operation.Set?
    ensures var found := Get(local, c.key);
            Resolve(local, c, Some(m), Some(ClientWinsResolver())) ==
            Strategies.Resolved(Strategies.CLIENT_WINS, if found.Some? && !found.value.data.Null? then found.value.data else m.value)
  {
  }

  /** So a write that conflicts with a change the client has not seen is lost under
      client-wins: the round leaves the server's data in the replica and in the
      mutation that will be sent next. */
  lemma ClientWinsLosesWrite(s: Server, d: Disk, settings: Settings, now: Stamp, i: nat, j: nat)
    requires Ready(s, d) && now.Stamp? && settings.resolver == Some(ClientWinsResolver())
    requires i < |d.queue| && d.queue[i].operation.Set?
    requires var cs := ResponseOf(s, d, settings, now).conflicts;
             && j < |cs| && cs[j].mutationId == d.queue[i].id
             && (forall l | 0 <= l < |cs| && l != j :: cs[l].key != cs[j].key)
             && TouchedSince(ServerAfter(s, d, settings, now).history, d.cursor.n, cs[j].key)
    ensures var c := ResponseOf(s, d, settings, now).conflicts[j];
            Landed(d, DiskAfter(s, d, settings, now), i, c, c.serverEntity.data, now)
  {
    ClientWinsVerdict(s, d, settings, now, ResponseOf(s, d, settings, now).conflicts[j], d.queue[i]);
    ResolutionLands(s, d, settings, now, i, j);
  }

  lemma FoundInBatch(batch: Queue.Mutations, m: Mutation)
    requires Queue.DistinctIds(batch) && m in batch
    ensures Find(batch, m.id) == Some(m)
  {
    FindMember(batch, m.id);
    var b :| 0 <= b < |batch| && batch[b] == m;
    assert InBatch(batch, m.id);
    SameMember(batch, Find(batch, m.id).value, m);
  }

  /** The conflict's mutation is in the batch. */
  lemma ConflictInBatch(q: Queue.Mutations, batch: Batch, cs: seq<ConflictInfo>, i: nat, j: nat)
    requires Queue.DistinctIds(q) && Originating(q, batch, cs)
    requires i < |q| && j < |cs| && q[i].id == cs[j].mutationId
    ensures q[i] in batch
  {
    var o :| 0 <= o < |q| && IsOrigin(batch, q[o], cs[j]);
    assert o == i;
  }

  /** The data of a resolution is in the replica and, as a pending `set`, in the
      mutation that conflicted. */
  predicate Landed(d: Disk, after: Disk, i: nat, c: ConflictInfo, data: Json, now: Stamp)
    requires i < |d.queue|
  {
    && Get(after.entities, c.key) == Some(Entity(data, c.serverRevision, c.serverEntity.createdAt, now, c.serverEntity.isDeleted))
    && |after.queue| == |d.queue|
    && after.queue[i] == d.queue[i].(status := Queue.PENDING, retries := d.queue[i].retries + 1, lastError := None,
                                     value := data, operation := Set)
  }

  lemma ResolutionLands(s: Server, d: Disk, settings: Settings, now: Stamp, i: nat, j: nat)
    requires Ready(s, d) && i < |d.queue|
    requires var r := ResponseOf(s, d, settings, now);
             && j < |r.conflicts| && r.conflicts[j].mutationId == d.queue[i].id
             && (forall l | 0 <= l < |r.conflicts| && l != j :: r.conflicts[l].key != r.conflicts[j].key)
             && Resolve(Overlay(d.entities, r.changes), r.conflicts[j], Some(d.queue[i]), settings.resolver).Resolved?
    ensures var r := ResponseOf(s, d, settings, now);
            var data := Resolve(Overlay(d.entities, r.changes), r.conflicts[j], Some(d.queue[i]), settings.resolver).data;
            Landed(d, DiskAfter(s, d, settings, now), i, r.conflicts[j], data, now)
  {
    var batch, r := BatchOf(d, settings), ResponseOf(s, d, settings, now);
    ConflictNotAcknowledged(s, d, settings, now, i, j);
    ConflictsOriginate(s, d, settings, now);
    ConflictInBatch(d.queue, batch, r.conflicts, i, j);
    BatchFacts(s, d, settings);
    FoundInBatch(batch, d.queue[i]);
    CycleResolves(d, batch, r, settings.resolver, now, i, j);
  }

  lemma ConflictNotAcknowledged(s: Server, d: Disk, settings: Settings, now: Stamp, i: nat, j: nat)
    requires Ready(s, d) && i < |d.queue|
    requires var r := ResponseOf(s, d, settings, now);
             j < |r.conflicts| && r.conflicts[j].mutationId == d.queue[i].id
    ensures d.queue[i].id !in ResponseOf(s, d, settings, now).acknowledgedMutationIds
    ensures WellNamed(d.queue, BatchOf(d, settings), ResponseOf(s, d, settings, now))
  {
    ResponseFits(s, d, settings, now);
    assert Conflicted(ResponseOf(s, d, settings, now).conflicts, d.queue[i].id);
  }

  lemma CycleResolves(d: Disk, batch: Queue.Mutations, r: SyncResponse, resolver: Option<Resolver>, now: Stamp, i: nat, j: nat)
    requires WellNamed(d.queue, batch, r) && i < |d.queue| && d.queue[i].id !in r.acknowledgedMutationIds
    requires j < |r.conflicts| && r.conflicts[j].mutationId == d.queue[i].id
    requires forall l | 0 <= l < |r.conflicts| && l != j :: r.conflicts[l].key != r.conflicts[j].key
    requires Find(batch, r.conflicts[j].mutationId) == Some(d.queue[i])
    requires Resolve(Overlay(d.entities, r.changes), r.conflicts[j], Some(d.queue[i]), resolver).Resolved?
    ensures var data := Resolve(Overlay(d.entities, r.changes), r.conflicts[j], Some(d.queue[i]), resolver).data;
            Landed(d, Perform(d, Completion(batch, r), resolver, now).disk, i, r.conflicts[j], data, now)
  {
    var settled := CycleShape(d, batch, r, resolver, now);
    SettlementsData(Prepared(d, r), r.conflicts, batch, resolver, now, j);
    assert Conflicted(r.conflicts, d.queue[i].id);
  }

  // ----- A local write and the two rounds it takes

  lemma SoleConflict(q: Queue.Mutations, batch: Batch, cs: seq<ConflictInfo>, m: Mutation, j: nat)
    requires Originating(q, batch, cs) && DistinctConflicts(cs) && OnlyPendingOnItsKey(q, m)
    requires j < |cs| && cs[j].mutationId == m.id && cs[j].key == m.key
    ensures forall l | 0 <= l < |cs| && l != j :: cs[l].key != cs[j].key
  {
    forall l | 0 <= l < |cs| && l != j ensures cs[l].key != cs[j].key {
      var o :| 0 <= o < |q| && IsOrigin(batch, q[o], cs[l]);
      assert q[o] in q;
    }
  }

  /** A stale write that is alone on its entity makes the only conflict there. */
  lemma {:induction false} SoleStaleConflict(s: Server, d: Disk, settings: Settings, now: Stamp, m: Mutation) returns (j: nat)
    requires Connected(s, d) && now.Stamp? && m in BatchOf(d, settings) && m.id !in s.tracked
    requires RevisionOf(d.entities, m.key) != RevisionOf(s.entities, m.key) && OnlyPendingOnItsKey(d.queue, m)
    ensures var cs := ResponseOf(s, d, settings, now).conflicts;
            && j < |cs| && cs[j].mutationId == m.id && cs[j].key == m.key
            && forall l | 0 <= l < |cs| && l != j :: cs[l].key != cs[j].key
  {
    var cs := ResponseOf(s, d, settings, now).conflicts;
    var c := StaleWriteConflicts(s, d, settings, now, m);
    j :| 0 <= j < |cs| && cs[j] == c;
    ConflictsOriginate(s, d, settings, now);
    ResponseFits(s, d, settings, now);
    SoleConflict(d.queue, BatchOf(d, settings), cs, m, j);
  }

  lemma LandedShape(d: Disk, after: Disk, i: nat, c: ConflictInfo, data: Json, now: Stamp)
    requires i < |d.queue| && Landed(d, after, i, c, data, now) && c.key == d.queue[i].key
    ensures var k := d.queue[i].key;
            && i < |after.queue| && after.queue[i].key == k && after.queue[i].id == d.queue[i].id
            && after.queue[i].operation.Set? && after.queue[i].status.PENDING?
            && k in after.entities && after.entities[k].data == after.queue[i].value
  {
  }

  /** A stale write moves neither the server's entity nor, beyond it, the client's. */
  lemma {:induction false} RevisionsStand(s: Server, d: Disk, settings: Settings, now: Stamp, m: Mutation)
    requires Ready(s, d) && now.Stamp? && AlwaysResolves(settings.resolver)
    requires m in BatchOf(d, settings) && m.id !in s.tracked && RevisionOf(d.entities, m.key) != RevisionOf(s.entities, m.key)
    ensures var t1, d1 := ServerAfter(s, d, settings, now), DiskAfter(s, d, settings, now);
            RevisionOf(d1.entities, m.key) == RevisionOf(t1.entities, m.key) == RevisionOf(s.entities, m.key)
  {
    var c := StaleWriteConflicts(s, d, settings, now, m);
    assert ConflictInRound(s, d, settings, now, m.key);
    ConflictedEntity(s, d, settings, now, m.key);
  }

  /** The first of the two rounds: the write is reported as a conflict and resolved,
      and the server's entity stays as it is. */
  lemma {:induction false} FirstRoundResolves(s: Server, d: Disk, settings: Settings, now: Stamp, i: nat)
    requires Ready(s, d) && now.Stamp? && AlwaysResolves(settings.resolver) && Untracked(s, d)
    requires i < |d.queue| && OnlyPendingOnItsKey(d.queue, d.queue[i]) && d.queue[i] in BatchOf(d, settings)
    requires RevisionOf(d.entities, d.queue[i].key) != RevisionOf(s.entities, d.queue[i].key)
    ensures var k := d.queue[i].key;
            var t1, d1 := ServerAfter(s, d, settings, now), DiskAfter(s, d, settings, now);
            && RevisionOf(d1.entities, k) == RevisionOf(t1.entities, k) == RevisionOf(s.entities, k)
            && i < |d1.queue| && d1.queue[i].key == k && d1.queue[i].id == d.queue[i].id
            && d1.queue[i].operation.Set? && d1.queue[i].status.PENDING?
            && k in d1.entities && d1.entities[k].data == d1.queue[i].value
  {
    var m, r := d.queue[i], ResponseOf(s, d, settings, now);
    var j := SoleStaleConflict(s, d, settings, now, m);
    ResolutionLands(s, d, settings, now, i, j);
    var data := Resolve(Overlay(d.entities, r.changes), r.conflicts[j], Some(m), settings.resolver).data;
    LandedShape(d, DiskAfter(s, d, settings, now), i, r.conflicts[j], data, now);
    RevisionsStand(s, d, settings, now, m);
  }

  /** A write whose entity the client has moved ahead of the server (as every local
      write does), alone on its entity: the first round turns it into a conflict,
      resolves it and leaves the server's entity alone; the second round, if the
      batch reaches it, is accepted. Both sides then hold the resolved data, one
      revision after the server's. */
  lemma {:induction false} WriteTakesTwoRounds(s: Server, d: Disk, settings: Settings, now: Stamp, later: Stamp, i: nat)
    requires Ready(s, d) && now.Stamp? && later.Stamp? && AlwaysResolves(settings.resolver) && Untracked(s, d)
    requires i < |d.queue| && OnlyPendingOnItsKey(d.queue, d.queue[i]) && d.queue[i] in BatchOf(d, settings)
    requires RevisionOf(d.entities, d.queue[i].key) != RevisionOf(s.entities, d.queue[i].key)
    requires var mid := DiskAfter(s, d, settings, now);
             i < |mid.queue| && mid.queue[i] in BatchOf(mid, settings)
    ensures var k := d.queue[i].key;
            var t1, d1 := ServerAfter(s, d, settings, now), DiskAfter(s, d, settings, now);
            var t2, d2 := ServerAfter(t1, d1, settings, later), DiskAfter(t1, d1, settings, later);
            && RevisionOf(t1.entities, k) == RevisionOf(s.entities, k)
            && d1.queue[i].status.PENDING? && k in d1.entities && d1.entities[k].data == d1.queue[i].value
            && |d2.queue| == |d1.queue| && d2.queue[i].status.ACKNOWLEDGED?
            && k in t2.entities && Get(d2.entities, k) == Get(t2.entities, k)
            && t2.entities[k].revision == RevisionOf(s.entities, k) + 1
            && t2.entities[k].data == (if d1.queue[i].value.Null? then EMPTY else d1.queue[i].value)
  {
    var t1, d1 := ServerAfter(s, d, settings, now), DiskAfter(s, d, settings, now);
    FirstRoundResolves(s, d, settings, now, i);
    RoundKeepsReady(s, d, settings, now);
    RoundKeepsUntracked(s, d, settings, now);
    RoundQueue(s, d, settings, now);
    StillAlone(d.queue, d1.queue, i);
    assert d1.queue[i] in d1.queue;
    ResolvedRoundTrip(t1, d1, settings, later, i);
  }

  lemma StillAlone(q: Queue.Mutations, p: Queue.Mutations, i: nat)
    requires QueueStep(q, p) && Queue.DistinctIds(q) && i < |q| && OnlyPendingOnItsKey(q, q[i]) && p[i].status.PENDING?
    ensures OnlyPendingOnItsKey(p, p[i])
  {
    forall x | x in p && x.status.PENDING? && x.key == p[i].key ensures x == p[i] {
      var l :| 0 <= l < |p| && p[l] == x;
      assert q[l] in q && q[l] == q[i];
    }
  }

  // ----- A local create never gets through

  /** A pending mutation of the next batch creates an entity the server does not
      have: the local create has already given it revision 1. */
  predicate Blocked(s: Server, d: Disk, settings: Settings, m: Mutation) {
    && Connected(s, d) && m in BatchOf(d, settings)
    && m.key !in s.entities && m.id !in s.tracked && RevisionOf(d.entities, m.key) >= 1
  }

  lemma {:induction false} BlockedRound(s: Server, d: Disk, settings: Settings, now: Stamp, m: Mutation)
    requires Blocked(s, d, settings, m) && now.Stamp?
    ensures IncrementalRound(s, d, settings, now) == Round(ServerAfter(s, d, settings, now), d, false)
    ensures Blocked(ServerAfter(s, d, settings, now), d, settings, m)
  {
    ResponseValidIff(s, d, settings, now);
    assert !Deliverable(s, d, m);
    ServerFacts(s, d, settings, now);
    var c := StaleWriteConflicts(s, d, settings, now, m);
    var i := ConflictOrigin(s, d, settings, now, c);
    var t := ServerAfter(s, d, settings, now);
    if m.key in t.entities {
      StoredEntity(t.history, m.key);
    }
  }

  /** One attempt after the other, whether or not they complete. */
  function Attempts(s: Server, d: Disk, settings: Settings, clock: seq<Stamp>): Round
    decreases |clock|
  {
    if clock == [] then Round(s, d, false)
    else
      var next := IncrementalRound(s, d, settings, clock[0]);
      var rest := Attempts(next.server, next.disk, settings, clock[1..]);
      Round(rest.server, rest.disk, next.completed || rest.completed)
  }

  /** However often it is tried, no round completes while such a mutation is in the
      batch, and nothing of the client's state ever changes. */
  lemma {:induction false} CreateBlocksForever(s: Server, d: Disk, settings: Settings, clock: seq<Stamp>, m: Mutation)
    requires Blocked(s, d, settings, m) && forall now | now in clock :: now.Stamp?
    ensures var end := Attempts(s, d, settings, clock);
            !end.completed && end.disk == d && Blocked(end.server, d, settings, m)
    decreases |clock|
  {
    if clock != [] {
      assert clock[0] in clock && forall x | x in clock[1..] :: x in clock;
      BlockedRound(s, d, settings, clock[0], m);
      CreateBlocksForever(ServerAfter(s, d, settings, clock[0]), d, settings, clock[1..], m);
    }
  }
}
