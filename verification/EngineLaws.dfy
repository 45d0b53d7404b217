/** What carrying out a response does to the queue and the replica, for any server. */
module EngineLaws {
  import opened Json
  import opened Protocol
  import opened EngineSpec
  import Queue
  import Strategies

  // ----- Running tasks one after the other

  lemma PerformHead(disk: Disk, task: Task, rest: seq<Task>, resolver: Option<Resolver>, now: Stamp)
    ensures Perform(disk, [task] + rest, resolver, now) ==
            var first := Step(disk, task, resolver, now);
            if first.completed then Perform(first.disk, rest, resolver, now) else first
  {
    assert ([task] + rest)[1..] == rest;
  }

  lemma {:induction false} PerformSplit(disk: Disk, a: seq<Task>, b: seq<Task>, resolver: Option<Resolver>, now: Stamp)
    requires Perform(disk, a, resolver, now).completed
    ensures Perform(disk, a + b, resolver, now) == Perform(Perform(disk, a, resolver, now).disk, b, resolver, now)
    decreases |a|
  {
    if a == [] {
      assert a + b == b;
    } else {
      var first := Step(disk, a[0], resolver, now);
      assert a == [a[0]] + a[1..] && a + b == [a[0]] + (a[1..] + b);
      PerformHead(disk, a[0], a[1..], resolver, now);
      PerformHead(disk, a[0], a[1..] + b, resolver, now);
      PerformSplit(first.disk, a[1..], b, resolver, now);
    }
  }

  // ----- Acknowledgements

  function Acked(q: Queue.Mutations, ids: seq<string>): Queue.Mutations {
    seq(|q|, i requires 0 <= i < |q| => if q[i].id in ids then q[i].(status := Queue.ACKNOWLEDGED) else q[i])
  }

  predicate AllKnown(q: Queue.Mutations, ids: seq<string>) {
    forall id | id in ids :: Queue.Has(q, id)
  }

  predicate SameIds(q: Queue.Mutations, p: Queue.Mutations) {
    |q| == |p| && forall i | 0 <= i < |q| :: q[i].id == p[i].id
  }

  lemma SameIdsKnown(q: Queue.Mutations, p: Queue.Mutations, id: string)
    requires SameIds(q, p)
    ensures Queue.Has(q, id) <==> Queue.Has(p, id)
  {
    if Queue.Has(q, id) {
      var i :| 0 <= i < |q| && q[i].id == id;
      assert p[i].id == id;
    }
    if Queue.Has(p, id) {
      var i :| 0 <= i < |p| && p[i].id == id;
      assert q[i].id == id;
    }
  }

  lemma {:induction false} PerformAcknowledgements(disk: Disk, ids: seq<string>, resolver: Option<Resolver>, now: Stamp)
    requires AllKnown(disk.queue, ids)
    ensures Perform(disk, Acknowledgements(ids), resolver, now) == Outcome(disk.(queue := Acked(disk.queue, ids)), true)
    decreases |ids|
  {
    if ids == [] {
      assert Acked(disk.queue, ids) == disk.queue;
    } else {
      var id, rest := ids[0], ids[1..];
      var q := Queue.Update(disk.queue, id, Queue.Acknowledge);
      assert Acknowledgements(ids) == [Acknowledge(id)] + Acknowledgements(rest);
      PerformHead(disk, Acknowledge(id), Acknowledgements(rest), resolver, now);
      forall other | other in rest ensures Queue.Has(q, other) {
        SameIdsKnown(disk.queue, q, other);
      }
      PerformAcknowledgements(disk.(queue := q), rest, resolver, now);
      assert Acked(q, rest) == Acked(disk.queue, ids);
    }
  }

  // ----- Settlements

  /** What a conflict may do to the mutation it names. */
  predicate Settled(before: Mutation, after: Mutation) {
    || (after.status.CONFLICT? && after == before.(status := Queue.CONFLICT, lastError := after.lastError))
    || (after.status.PENDING? &&
        after == before.(status := Queue.PENDING, retries := before.retries + 1, lastError := None,
                         value := after.value, operation := Set))
  }

  predicate DistinctConflicts(cs: seq<ConflictInfo>) {
    forall i, j | 0 <= i < j < |cs| :: cs[i].mutationId != cs[j].mutationId
  }

  predicate ConflictsKnown(q: Queue.Mutations, cs: seq<ConflictInfo>) {
    forall c | c in cs :: Queue.Has(q, c.mutationId)
  }

  /** Every conflict of the list will find a resolution. */
  ghost predicate AlwaysResolves(resolver: Option<Resolver>) {
    resolver.Some? && forall c: Strategies.Context :: resolver.value(c).Resolved?
  }

  predicate AllLocal(batch: Batch, cs: seq<ConflictInfo>) {
    forall c | c in cs :: Find(batch, c.mutationId).Some?
  }

  predicate ConflictOn(cs: seq<ConflictInfo>, k: Key) {
    exists c :: c in cs && c.key == k
  }

  predicate SettledQueue(q: Queue.Mutations, after: Queue.Mutations, cs: seq<ConflictInfo>) {
    && SameIds(q, after)
    && forall i | 0 <= i < |q| ::
         if Conflicted(cs, q[i].id) then Settled(q[i], after[i]) else after[i] == q[i]
  }

  /** A resolution is written back at the server's revision, with the server's creation
      time and deletion flag. */
  predicate WrittenBack(c: ConflictInfo, e: Entity, data: Json, now: Stamp) {
    && e.data == data && e.revision == c.serverRevision && e.updatedAt == now
    && e.createdAt == c.serverEntity.createdAt && e.isDeleted == c.serverEntity.isDeleted
  }

  function Mismatch(c: ConflictInfo): Option<Queue.Failure> {
    Some(Queue.RevisionMismatch(c.clientRevision, c.serverRevision))
  }

  lemma SettleOne(disk: Disk, c: ConflictInfo, verdict: Strategies.Resolution, now: Stamp)
    requires Queue.Has(disk.queue, c.mutationId)
    ensures var o := SettleConflict(disk, c, verdict, now);
            && o.completed && o.disk.cursor == disk.cursor && SameIds(disk.queue, o.disk.queue)
            && (forall i | 0 <= i < |disk.queue| ::
                  if disk.queue[i].id == c.mutationId then Settled(disk.queue[i], o.disk.queue[i])
                  else o.disk.queue[i] == disk.queue[i])
            && (forall i | 0 <= i < |disk.queue| && disk.queue[i].id == c.mutationId ::
                  if verdict.Resolved? then o.disk.queue[i].status.PENDING? && o.disk.queue[i].value == verdict.data
                  else o.disk.queue[i].status.CONFLICT? && o.disk.queue[i].lastError == Mismatch(c))
            && (verdict.Resolved? ==> o.disk.entities == disk.entities[c.key := o.disk.entities[c.key]]
                                      && WrittenBack(c, o.disk.entities[c.key], verdict.data, now))
            && (verdict.Unresolved? ==> o.disk.entities == disk.entities)
  {
  }

  lemma ConflictedSplit(cs: seq<ConflictInfo>, id: string)
    requires cs != []
    ensures Conflicted(cs, id) <==> cs[0].mutationId == id || Conflicted(cs[1..], id)
  {
    if Conflicted(cs, id) {
      var i :| 0 <= i < |cs| && cs[i].mutationId == id;
      if i > 0 { assert cs[1..][i - 1].mutationId == id; }
    }
    if Conflicted(cs[1..], id) {
      var i :| 0 <= i < |cs[1..]| && cs[1..][i].mutationId == id;
      assert cs[i + 1].mutationId == id;
    }
  }

  lemma DistinctConflictsTail(cs: seq<ConflictInfo>)
    requires cs != [] && DistinctConflicts(cs)
    ensures DistinctConflicts(cs[1..]) && !Conflicted(cs[1..], cs[0].mutationId)
  {
    forall i | 0 <= i < |cs[1..]| ensures cs[1..][i].mutationId != cs[0].mutationId {
      assert cs[1..][i] == cs[i + 1];
    }
  }

  lemma {:induction false} SettlementsHead(disk: Disk, cs: seq<ConflictInfo>, batch: Batch, resolver: Option<Resolver>, now: Stamp)
    returns (after: Disk)
    requires cs != [] && ConflictsKnown(disk.queue, cs)
    ensures var verdict := Resolve(disk.entities, cs[0], Find(batch, cs[0].mutationId), resolver);
            after == SettleConflict(disk, cs[0], verdict, now).disk
    ensures Perform(disk, Settlements(cs, batch), resolver, now) == Perform(after, Settlements(cs[1..], batch), resolver, now)
    ensures ConflictsKnown(after.queue, cs[1..])
  {
    var c, rest := cs[0], cs[1..];
    var local := Find(batch, c.mutationId);
    assert c in cs;
    var verdict := Resolve(disk.entities, c, local, resolver);
    SettleOne(disk, c, verdict, now);
    after := SettleConflict(disk, c, verdict, now).disk;
    assert Settlements(cs, batch) == [Settle(c, local)] + Settlements(rest, batch);
    PerformHead(disk, Settle(c, local), Settlements(rest, batch), resolver, now);
    forall d | d in rest ensures Queue.Has(after.queue, d.mutationId) {
      assert d in cs;
      SameIdsKnown(disk.queue, after.queue, d.mutationId);
    }
  }

  lemma {:induction false} PerformSettlements(disk: Disk, cs: seq<ConflictInfo>, batch: Batch, resolver: Option<Resolver>, now: Stamp)
    requires ConflictsKnown(disk.queue, cs) && DistinctConflicts(cs)
    ensures var o := Perform(disk, Settlements(cs, batch), resolver, now);
            o.completed && o.disk.cursor == disk.cursor && SettledQueue(disk.queue, o.disk.queue, cs)
    decreases |cs|
  {
    if cs == [] {
      assert Settlements(cs, batch) == [];
    } else {
      var after := SettlementsHead(disk, cs, batch, resolver, now);
      DistinctConflictsTail(cs);
      PerformSettlements(after, cs[1..], batch, resolver, now);
      SettleOne(disk, cs[0], Resolve(disk.entities, cs[0], Find(batch, cs[0].mutationId), resolver), now);
      forall id ensures Conflicted(cs, id) <==> cs[0].mutationId == id || Conflicted(cs[1..], id) {
        ConflictedSplit(cs, id);
      }
    }
  }

  lemma {:induction false} SettlementsKeepOthers(disk: Disk, cs: seq<ConflictInfo>, batch: Batch, resolver: Option<Resolver>, now: Stamp, k: Key)
    requires ConflictsKnown(disk.queue, cs) && !ConflictOn(cs, k)
    ensures Get(Perform(disk, Settlements(cs, batch), resolver, now).disk.entities, k) == Get(disk.entities, k)
    decreases |cs|
  {
    if cs == [] {
      assert Settlements(cs, batch) == [];
    } else {
      var after := SettlementsHead(disk, cs, batch, resolver, now);
      ConflictOnSplit(cs);
      SettlementsKeepOthers(after, cs[1..], batch, resolver, now, k);
    }
  }

  lemma {:induction false} SettlementsStatus(disk: Disk, cs: seq<ConflictInfo>, batch: Batch, resolver: Option<Resolver>, now: Stamp, i: nat)
    requires ConflictsKnown(disk.queue, cs) && DistinctConflicts(cs)
    requires i < |disk.queue| && Conflicted(cs, disk.queue[i].id)
    ensures var after := Perform(disk, Settlements(cs, batch), resolver, now).disk;
            && i < |after.queue|
            && (AlwaysResolves(resolver) && AllLocal(batch, cs) ==> after.queue[i].status.PENDING?)
            && (resolver.None? ==> after.queue[i].status.CONFLICT?)
            && (resolver.None? ==> forall j | 0 <= j < |cs| && cs[j].mutationId == disk.queue[i].id ::
                                     after.queue[i].lastError == Mismatch(cs[j]))
    decreases |cs|
  {
    var c := cs[0];
    assert c in cs && forall d | d in cs[1..] :: d in cs;
    var after := SettlementsHead(disk, cs, batch, resolver, now);
    SettleOne(disk, c, Resolve(disk.entities, c, Find(batch, c.mutationId), resolver), now);
    DistinctConflictsTail(cs);
    ConflictedSplit(cs, disk.queue[i].id);
    PerformSettlements(after, cs[1..], batch, resolver, now);
    if Conflicted(cs[1..], disk.queue[i].id) {
      SettlementsStatus(after, cs[1..], batch, resolver, now, i);
    }
  }

  /** What the resolution of a conflict leaves: the entity written back and, for any
      mutation with the conflict's id, a pending `set` of the same data. */
  predicate Resolution(q: Queue.Mutations, after: Disk, c: ConflictInfo, data: Json, now: Stamp) {
    && c.key in after.entities && WrittenBack(c, after.entities[c.key], data, now)
    && |after.queue| == |q|
    && forall i | 0 <= i < |q| && q[i].id == c.mutationId ::
         after.queue[i] == q[i].(status := Queue.PENDING, retries := q[i].retries + 1, lastError := None,
                                 value := data, operation := Set)
  }

  /** A resolution stands if no later conflict is on its entity. */
  lemma {:induction false} LastResolution(disk: Disk, cs: seq<ConflictInfo>, batch: Batch, resolver: Option<Resolver>, now: Stamp)
    requires cs != [] && ConflictsKnown(disk.queue, cs) && DistinctConflicts(cs) && !ConflictOn(cs[1..], cs[0].key)
    requires Resolve(disk.entities, cs[0], Find(batch, cs[0].mutationId), resolver).Resolved?
    ensures Resolution(disk.queue, Perform(disk, Settlements(cs, batch), resolver, now).disk, cs[0],
                       Resolve(disk.entities, cs[0], Find(batch, cs[0].mutationId), resolver).data, now)
  {
    var c, rest := cs[0], cs[1..];
    var verdict := Resolve(disk.entities, c, Find(batch, c.mutationId), resolver);
    var after := SettlementsHead(disk, cs, batch, resolver, now);
    assert c in cs;
    SettleOne(disk, c, verdict, now);
    DistinctConflictsTail(cs);
    PerformSettlements(after, rest, batch, resolver, now);
    SettlementsKeepOthers(after, rest, batch, resolver, now, c.key);
    var end := Perform(after, Settlements(rest, batch), resolver, now).disk;
    assert Get(end.entities, c.key) == Get(after.entities, c.key);
  }

  /** After resolution an entity stands at a revision the server reported for it, with
      the reported entity's creation time and flag and the data that the mutation of
      that conflict now carries. */
  lemma {:induction false} SettlementsRevision(disk: Disk, cs: seq<ConflictInfo>, batch: Batch, resolver: Option<Resolver>, now: Stamp, k: Key)
    returns (c: ConflictInfo, data: Json)
    requires ConflictsKnown(disk.queue, cs) && DistinctConflicts(cs) && ConflictOn(cs, k)
    requires AlwaysResolves(resolver) && AllLocal(batch, cs)
    ensures c in cs && c.key == k
    ensures LandedAs(Perform(disk, Settlements(cs, batch), resolver, now).disk, c, data, now)
    decreases |cs|
  {
    assert cs[0] in cs && forall d | d in cs[1..] :: d in cs;
    ConflictOnSplit(cs);
    if ConflictOn(cs[1..], k) {
      var after := SettlementsHead(disk, cs, batch, resolver, now);
      DistinctConflictsTail(cs);
      c, data := SettlementsRevision(after, cs[1..], batch, resolver, now, k);
    } else {
      c, data := cs[0], Resolve(disk.entities, cs[0], Find(batch, cs[0].mutationId), resolver).data;
      LastResolution(disk, cs, batch, resolver, now);
      PerformSettlements(disk, cs, batch, resolver, now);
    }
  }

  /** The entity and the conflict's mutation both hold the data. */
  predicate LandedAs(after: Disk, c: ConflictInfo, data: Json, now: Stamp) {
    && c.key in after.entities && WrittenBack(c, after.entities[c.key], data, now)
    && forall i | 0 <= i < |after.queue| && after.queue[i].id == c.mutationId :: after.queue[i].value == data
  }

  lemma ConflictOnSplit(cs: seq<ConflictInfo>)
    requires cs != []
    ensures forall k :: ConflictOn(cs, k) <==> cs[0].key == k || ConflictOn(cs[1..], k)
  {
    assert cs == [cs[0]] + cs[1..];
    forall k ensures ConflictOn(cs, k) <==> cs[0].key == k || ConflictOn(cs[1..], k) {
      if cs[0].key == k { assert cs[0] in cs; }
      if ConflictOn(cs[1..], k) {
        var c :| c in cs[1..] && c.key == k;
        assert c in cs;
      }
    }
  }

  // ----- Retries

  predicate InBatch(batch: Batch, id: string) {
    exists i :: 0 <= i < |batch| && batch[i].id == id
  }

  function Retried(q: Queue.Mutations, batch: Batch, r: SyncResponse): Queue.Mutations {
    seq(|q|, i requires 0 <= i < |q| =>
      if InBatch(batch, q[i].id) && !Answered(r, q[i].id) then Queue.Transit(q[i], Queue.Retry) else q[i])
  }

  predicate BatchKnown(q: Queue.Mutations, batch: Batch) {
    forall m | m in batch :: Queue.Has(q, m.id)
  }

  lemma {:induction false} PerformRetries(disk: Disk, batch: Batch, r: SyncResponse, resolver: Option<Resolver>, now: Stamp)
    requires BatchKnown(disk.queue, batch) && Queue.DistinctIds(batch)
    ensures Perform(disk, Retries(batch, r), resolver, now) == Outcome(disk.(queue := Retried(disk.queue, batch, r)), true)
    decreases |batch|
  {
    if batch == [] {
      assert Retried(disk.queue, batch, r) == disk.queue;
    } else {
      var m, rest := batch[0], batch[1..];
      assert m in batch;
      var q := if Answered(r, m.id) then disk.queue else Queue.Update(disk.queue, m.id, Queue.Retry);
      if Answered(r, m.id) {
        assert Retries(batch, r) == Retries(rest, r);
      } else {
        PerformHead(disk, Retry(m.id), Retries(rest, r), resolver, now);
      }
      RestKnown(disk.queue, q, batch);
      PerformRetries(disk.(queue := q), rest, r, resolver, now);
      RetriedHead(disk.queue, batch, r);
    }
  }

  lemma RestKnown(q: Queue.Mutations, p: Queue.Mutations, batch: Batch)
    requires batch != [] && BatchKnown(q, batch) && Queue.DistinctIds(batch) && SameIds(q, p)
    ensures BatchKnown(p, batch[1..]) && Queue.DistinctIds(batch[1..])
  {
    forall x | x in batch[1..] ensures Queue.Has(p, x.id) {
      assert x in batch;
      SameIdsKnown(q, p, x.id);
    }
    assert forall i | 0 <= i < |batch[1..]| :: batch[1..][i] == batch[i + 1];
  }

  lemma RetriedHead(q: Queue.Mutations, batch: Batch, r: SyncResponse)
    requires batch != [] && Queue.DistinctIds(batch)
    ensures var once := if Answered(r, batch[0].id) then q else Queue.Update(q, batch[0].id, Queue.Retry);
            Retried(once, batch[1..], r) == Retried(q, batch, r)
  {
    var once := if Answered(r, batch[0].id) then q else Queue.Update(q, batch[0].id, Queue.Retry);
    assert !InBatch(batch[1..], batch[0].id) by {
      assert forall i | 0 <= i < |batch[1..]| :: batch[1..][i] == batch[i + 1];
    }
    forall i | 0 <= i < |q| ensures Retried(once, batch[1..], r)[i] == Retried(q, batch, r)[i] {
      InBatchSplit(batch, q[i].id);
    }
  }

  lemma InBatchSplit(batch: Batch, id: string)
    requires batch != []
    ensures InBatch(batch, id) <==> batch[0].id == id || InBatch(batch[1..], id)
  {
    if InBatch(batch, id) {
      var i :| 0 <= i < |batch| && batch[i].id == id;
      if i > 0 { assert batch[1..][i - 1].id == id; }
    }
    if InBatch(batch[1..], id) {
      var i :| 0 <= i < |batch[1..]| && batch[1..][i].id == id;
      assert batch[i + 1].id == id;
    }
  }

  lemma BatchMember(q: Queue.Mutations, batch: Batch, i: nat)
    requires Queue.DistinctIds(q) && Queue.IsBatchOf(batch, q) && i < |q|
    ensures InBatch(batch, q[i].id) <==> q[i] in batch
  {
    if InBatch(batch, q[i].id) {
      var j :| 0 <= j < |batch| && batch[j].id == q[i].id;
      assert batch[j] in batch;
      var l :| 0 <= l < |q| && q[l] == batch[j];
      assert l == i;
    }
  }

  // ----- The whole cycle

  /** What one cycle leaves of a mutation, for any response that names known ids. */
  predicate OutcomeOf(batch: Batch, r: SyncResponse, before: Mutation, after: Mutation) {
    if Conflicted(r.conflicts, before.id) then Settled(before, after)
    else if before.id in r.acknowledgedMutationIds then after == before.(status := Queue.ACKNOWLEDGED)
    else if InBatch(batch, before.id)
         then after == before.(status := Queue.IN_FLIGHT, retries := before.retries + 1, lastError := None)
    else after == before
  }

  predicate WellNamed(q: Queue.Mutations, batch: Batch, r: SyncResponse) {
    && AllKnown(q, r.acknowledgedMutationIds)
    && ConflictsKnown(q, r.conflicts) && DistinctConflicts(r.conflicts)
    && BatchKnown(q, batch) && Queue.DistinctIds(batch)
  }

  /** The disk before the conflicts of a cycle are settled. */
  function Prepared(disk: Disk, r: SyncResponse): Disk {
    Disk(Overlay(disk.entities, r.changes), Acked(disk.queue, r.acknowledgedMutationIds), r.newCursor)
  }

  lemma PerformOpening(disk: Disk, r: SyncResponse, rest: seq<Task>, resolver: Option<Resolver>, now: Stamp)
    requires AllKnown(disk.queue, r.acknowledgedMutationIds)
    ensures Perform(disk, [ApplyChanges(r.changes), SaveCursor(r.newCursor)]
                          + Acknowledgements(r.acknowledgedMutationIds) + rest, resolver, now)
            == Perform(Prepared(disk, r), rest, resolver, now)
  {
    var first, second, acks := ApplyChanges(r.changes), SaveCursor(r.newCursor), Acknowledgements(r.acknowledgedMutationIds);
    var d1 := disk.(entities := Overlay(disk.entities, r.changes));
    var d2 := d1.(cursor := r.newCursor);
    assert [first, second] + acks + rest == [first] + ([second] + (acks + rest));
    PerformHead(disk, first, [second] + (acks + rest), resolver, now);
    PerformHead(d1, second, acks + rest, resolver, now);
    PerformAcknowledgements(d2, r.acknowledgedMutationIds, resolver, now);
    PerformSplit(d2, acks, rest, resolver, now);
  }

  /** A cycle is its preparation, its settlements and its retries. */
  lemma CycleShape(disk: Disk, batch: Batch, r: SyncResponse, resolver: Option<Resolver>, now: Stamp)
    returns (settled: Disk)
    requires WellNamed(disk.queue, batch, r)
    ensures ConflictsKnown(Prepared(disk, r).queue, r.conflicts)
    ensures settled == Perform(Prepared(disk, r), Settlements(r.conflicts, batch), resolver, now).disk
    ensures SettledQueue(Prepared(disk, r).queue, settled.queue, r.conflicts) && settled.cursor == r.newCursor
    ensures Perform(disk, Completion(batch, r), resolver, now) ==
            Outcome(settled.(queue := Retried(settled.queue, batch, r)), true)
  {
    var d := Prepared(disk, r);
    var settles, retries := Settlements(r.conflicts, batch), Retries(batch, r);
    PerformOpening(disk, r, settles + retries, resolver, now);
    assert Completion(batch, r) == [ApplyChanges(r.changes), SaveCursor(r.newCursor)]
                                   + Acknowledgements(r.acknowledgedMutationIds) + (settles + retries);
    forall c | c in r.conflicts ensures Queue.Has(d.queue, c.mutationId) {
      SameIdsKnown(disk.queue, d.queue, c.mutationId);
    }
    PerformSettlements(d, r.conflicts, batch, resolver, now);
    PerformSplit(d, settles, retries, resolver, now);
    settled := Perform(d, settles, resolver, now).disk;
    forall m | m in batch ensures Queue.Has(settled.queue, m.id) {
      SameIdsKnown(disk.queue, d.queue, m.id);
      SameIdsKnown(d.queue, settled.queue, m.id);
    }
    PerformRetries(settled, batch, r, resolver, now);
  }

  /** A cycle acknowledges, settles or retries every mutation of its batch and
      touches no other; the cursor becomes the response's. Entities without a
      conflict hold what the changes say. */
  lemma BatchOutcome(disk: Disk, batch: Batch, r: SyncResponse, resolver: Option<Resolver>, now: Stamp)
    requires WellNamed(disk.queue, batch, r)
    ensures var o := Perform(disk, Completion(batch, r), resolver, now);
            && o.completed && o.disk.cursor == r.newCursor
            && SameIds(disk.queue, o.disk.queue)
            && (forall i | 0 <= i < |disk.queue| :: OutcomeOf(batch, r, disk.queue[i], o.disk.queue[i]))
            && (forall k | !ConflictOn(r.conflicts, k) ::
                  Get(o.disk.entities, k) == Get(Overlay(disk.entities, r.changes), k))
  {
    var settled := CycleShape(disk, batch, r, resolver, now);
    QueueOutcome(disk.queue, settled.queue, batch, r);
    forall k | !ConflictOn(r.conflicts, k)
      ensures Get(settled.entities, k) == Get(Overlay(disk.entities, r.changes), k)
    {
      SettlementsKeepOthers(Prepared(disk, r), r.conflicts, batch, resolver, now, k);
    }
  }

  lemma QueueOutcome(q: Queue.Mutations, settled: Queue.Mutations, batch: Batch, r: SyncResponse)
    requires SettledQueue(Acked(q, r.acknowledgedMutationIds), settled, r.conflicts)
    ensures SameIds(q, Retried(settled, batch, r))
    ensures forall i | 0 <= i < |q| :: OutcomeOf(batch, r, q[i], Retried(settled, batch, r)[i])
  {
    var acked := Acked(q, r.acknowledgedMutationIds);
    forall i | 0 <= i < |q|
      ensures OutcomeOf(batch, r, q[i], Retried(settled, batch, r)[i])
    {
      assert if Conflicted(r.conflicts, q[i].id) then Settled(acked[i], settled[i]) else settled[i] == acked[i];
    }
  }

  /** Conflicts of a cycle end PENDING if the resolver always resolves, and
      CONFLICT if there is none. */
  lemma ConflictOutcome(disk: Disk, batch: Batch, r: SyncResponse, resolver: Option<Resolver>, now: Stamp, i: nat)
    requires WellNamed(disk.queue, batch, r)
    requires i < |disk.queue| && Conflicted(r.conflicts, disk.queue[i].id)
    ensures var after := Perform(disk, Completion(batch, r), resolver, now).disk;
            && i < |after.queue|
            && (AlwaysResolves(resolver) && AllLocal(batch, r.conflicts) ==> after.queue[i].status.PENDING?)
            && (resolver.None? ==> after.queue[i].status.CONFLICT?)
            && (resolver.None? ==> forall j | 0 <= j < |r.conflicts| && r.conflicts[j].mutationId == disk.queue[i].id ::
                                     after.queue[i].lastError == Mismatch(r.conflicts[j]))
  {
    var settled := CycleShape(disk, batch, r, resolver, now);
    SettlementsStatus(Prepared(disk, r), r.conflicts, batch, resolver, now, i);
  }

  /** The entity of a resolved conflict stands at a revision the server reported, with
      the creation time and the flag of the reported entity and the data that the
      conflict's mutation carries. */
  lemma ResolvedRevision(disk: Disk, batch: Batch, r: SyncResponse, resolver: Option<Resolver>, now: Stamp, k: Key)
    returns (c: ConflictInfo, data: Json)
    requires WellNamed(disk.queue, batch, r) && ConflictOn(r.conflicts, k)
    requires AlwaysResolves(resolver) && AllLocal(batch, r.conflicts)
    ensures c in r.conflicts && c.key == k
    ensures LandedAs(Perform(disk, Completion(batch, r), resolver, now).disk, c, data, now)
  {
    var settled := CycleShape(disk, batch, r, resolver, now);
    c, data := SettlementsRevision(Prepared(disk, r), r.conflicts, batch, resolver, now, k);
    forall i | 0 <= i < |settled.queue| && settled.queue[i].id == c.mutationId
      ensures Retried(settled.queue, batch, r)[i].value == data
    {
    }
  }
}
