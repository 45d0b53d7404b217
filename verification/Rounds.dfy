/** A synchronization round of one client with the server: the request the engine
    builds, the server's verdicts on it, and the disk the client ends with. */
module Rounds {
  import opened Json
  import opened Protocol
  import opened ServerSpec
  import opened ServerLaws
  import opened ServerRequests
  import opened EngineSpec
  import opened EngineLaws
  import Queue

  datatype Settings = Settings(batchSize: nat, clientId: string, resolver: Option<Resolver>)

  datatype Round = Round(server: Server, disk: Disk, completed: bool)

  /** `performSnapshotSync`; an empty list of collections asks for all of them. */
  function SnapshotRound(s: Server, d: Disk, collections: seq<string>, settings: Settings, now: Stamp): Round {
    var response := Snapshot(s, collections);
    if !IsSnapshotResponse(response) then Round(s, d, false)
    else Round(s, Perform(d, SnapshotCompletion(response), settings.resolver, now).disk, true)
  }

  /** `performIncrementalSync`. An invalid response throws before anything is
      applied; a cursor that is too old marks the batch and falls back to a
      snapshot. */
  function IncrementalRound(s: Server, d: Disk, settings: Settings, now: Stamp): Round {
    var batch := Queue.DequeuePending(d.queue, settings.batchSize);
    var handled := HandleSync(s, BuildRequest(d, batch, settings.clientId), now);
    match handled.reply
    case Response(r) =>
      if !IsSyncResponse(r) then Round(handled.server, d, false)
      else
        var o := Perform(d, Completion(batch, r), settings.resolver, now);
        Round(handled.server, o.disk, o.completed)
    case CursorTooOld(_) =>
      var o := Perform(d, Reenqueued(batch), settings.resolver, now);
      if o.completed then SnapshotRound(handled.server, o.disk, [], settings, now)
      else Round(handled.server, o.disk, false)
  }

  /** A snapshot goes over the replica, and the cursor moves to where it was taken. */
  lemma SnapshotPerformed(d: Disk, response: SnapshotResponse, settings: Settings, now: Stamp)
    ensures Perform(d, SnapshotCompletion(response), settings.resolver, now) ==
            Outcome(d.(entities := d.entities + response.entities, cursor := response.cursor), true)
  {
    var d1 := d.(entities := d.entities + response.entities);
    PerformHead(d, ApplySnapshot(response.entities), [SaveCursor(response.cursor)], settings.resolver, now);
    PerformHead(d1, SaveCursor(response.cursor), [], settings.resolver, now);
    assert SnapshotCompletion(response) == [ApplySnapshot(response.entities)] + ([SaveCursor(response.cursor)] + []);
  }

  // ----- Verdicts on a batch whose base revisions all come from one replica

  predicate BasedOn(ms: seq<ProtocolMutation>, local: map<Key, Entity>) {
    forall m | m in ms :: m.baseRevision == RevisionOf(local, m.key)
  }

  /** At most the first mutation of a key is accepted, and only if the replica was
      up to date; a conflict reports the revision the key has at the end. */
  predicate RevisionMoves(s: Server, t: Server, local: map<Key, Entity>, k: Key) {
    var before, after := RevisionOf(s.entities, k), RevisionOf(t.entities, k);
    && (k in s.entities ==> k in t.entities)
    && (after == before || (RevisionOf(local, k) == before && after == before + 1))
  }

  predicate ConflictReport(t: Server, local: map<Key, Entity>, ms: seq<ProtocolMutation>, c: ConflictInfo) {
    && c.clientRevision == RevisionOf(local, c.key) != c.serverRevision
    && c.serverRevision == RevisionOf(t.entities, c.key)
    && c.serverEntity == (if c.key in t.entities then t.entities[c.key] else Entity(Obj(map[]), 0, Blank, Blank, true))
    && exists m :: m in ms && m.id == c.mutationId && m.key == c.key
  }

  lemma {:induction false} VerdictRevisions(s: Server, ms: seq<ProtocolMutation>, now: Stamp, local: map<Key, Entity>, k: Key)
    requires BasedOn(ms, local)
    ensures RevisionMoves(s, Process(s, ms, now).server, local, k)
  {
    if ms != [] {
      VerdictRevisions(s, ms[..|ms| - 1], now, local, k);
      assert ms[|ms| - 1] in ms;
    }
  }

  /** What a client sends, bases looked up in one replica, may always be repeated:
      nothing of it is due a second time, however far its bases run ahead. */
  lemma {:induction false} ReplicaRequestRepeats(s: Server, ms: seq<ProtocolMutation>, now: Stamp, local: map<Key, Entity>)
    requires BasedOn(ms, local)
    ensures forall m | m in ms :: !Due(Process(s, ms, now).server, m)
    ensures forall later :: Process(Process(s, ms, now).server, ms, later).server == Process(s, ms, now).server
  {
    ReplicaNothingDue(s, ms, now, local);
    forall later ensures Process(Process(s, ms, now).server, ms, later).server == Process(s, ms, now).server {
      NothingDue(Process(s, ms, now).server, ms, later);
    }
  }

  lemma {:induction false} ReplicaNothingDue(s: Server, ms: seq<ProtocolMutation>, now: Stamp, local: map<Key, Entity>)
    requires BasedOn(ms, local)
    ensures forall m | m in ms :: !Due(Process(s, ms, now).server, m)
  {
    if ms != [] {
      var init, last := ms[..|ms| - 1], ms[|ms| - 1];
      ReplicaNothingDue(s, init, now, local);
      var t := Process(s, init, now).server;
      assert last in ms;
      forall m | m in ms ensures !Due(Absorb(t, last, now), m) {
        assert m.baseRevision == RevisionOf(local, m.key);
        if m in init {
          assert !Due(t, m);
        }
      }
    }
  }

  lemma {:induction false} VerdictConflict(s: Server, ms: seq<ProtocolMutation>, now: Stamp, local: map<Key, Entity>, c: ConflictInfo)
    requires BasedOn(ms, local)
    requires c in Process(s, ms, now).conflicts
    ensures ConflictReport(Process(s, ms, now).server, local, ms, c)
  {
    var init, m := ms[..|ms| - 1], ms[|ms| - 1];
    var b0 := Process(s, init, now);
    assert m in ms;
    if c in b0.conflicts {
      VerdictConflict(s, init, now, local, c);
      VerdictRevisions(s, init, now, local, m.key);
      var x :| x in init && x.id == c.mutationId && x.key == c.key;
      assert x in ms;
    }
  }

  predicate AppliedSince(h: seq<Applied>, n: nat, ms: seq<ProtocolMutation>, id: string) {
    exists i :: n <= i < |h| && h[i].mutation.id == id && h[i].mutation in ms
  }

  /** A mutation is acknowledged because it was known or because it was applied now. */
  lemma {:induction false} Acknowledgement(s: Server, ms: seq<ProtocolMutation>, now: Stamp, id: string)
    requires id in Process(s, ms, now).acknowledged && id !in s.tracked
    ensures AppliedSince(Process(s, ms, now).server.history, |s.history|, ms, id)
  {
    var init, m := ms[..|ms| - 1], ms[|ms| - 1];
    var b0, b := Process(s, init, now), Process(s, ms, now);
    HistoryGrows(s, init, now);
    assert m in ms;
    if id in b0.acknowledged {
      Acknowledgement(s, init, now, id);
      var i :| |s.history| <= i < |b0.server.history| && b0.server.history[i].mutation.id == id && b0.server.history[i].mutation in init;
      assert b.server.history[i] == b0.server.history[i];
    } else if Judge(b0.server, m, now).Accepted? {
      assert b.server.history[|b0.server.history|].mutation == m;
    } else {
      TrackedSince(s, init, now, id);
      var i :| |s.history| <= i < |b0.server.history| && b0.server.history[i].mutation.id == id && b0.server.history[i].mutation in init;
      assert b.server.history[i] == b0.server.history[i];
    }
  }

  lemma {:induction false} TrackedSince(s: Server, ms: seq<ProtocolMutation>, now: Stamp, id: string)
    requires id in Process(s, ms, now).server.tracked && id !in s.tracked
    ensures AppliedSince(Process(s, ms, now).server.history, |s.history|, ms, id)
  {
    var init, m := ms[..|ms| - 1], ms[|ms| - 1];
    var b0, b := Process(s, init, now), Process(s, ms, now);
    HistoryGrows(s, init, now);
    assert m in ms;
    if id in b0.server.tracked {
      TrackedSince(s, init, now, id);
      var i :| |s.history| <= i < |b0.server.history| && b0.server.history[i].mutation.id == id && b0.server.history[i].mutation in init;
      assert b.server.history[i] == b0.server.history[i];
    } else {
      assert b.server.history[|b0.server.history|].mutation == m;
    }
  }

  lemma {:induction false} FirstVerdict(s: Server, ms: seq<ProtocolMutation>, now: Stamp)
    requires ms != []
    ensures var b := Process(s, ms, now);
            match Judge(s, ms[0], now)
            case Conflicting(info) => info in b.conflicts
            case _ => ms[0].id in b.acknowledged
  {
    if |ms| == 1 {
      assert ms[..0] == [];
    } else {
      FirstVerdict(s, ms[..|ms| - 1], now);
    }
  }

  // ----- What the changes say

  predicate TouchedSince(h: seq<Applied>, n: nat, k: Key) {
    exists i :: n <= i < |h| && h[i].mutation.key == k
  }

  /** Overlaying the changes since position n gives the server's entity to every
      key touched since then and leaves the others alone. */
  lemma {:induction false} OverlayChanges(local: map<Key, Entity>, h: seq<Applied>, n: nat, k: Key)
    requires n <= |h|
    ensures Get(Overlay(local, Logged(h)[n..]), k) == if TouchedSince(h, n, k) then Latest(h, k) else Get(local, k)
    ensures !TouchedSince(h, n, k) ==> Latest(h, k) == Latest(h[..n], k)
    decreases |h|
  {
    if n == |h| {
      assert Logged(h)[n..] == [] && h[..n] == h;
    } else {
      var init, last := h[..|h| - 1], h[|h| - 1];
      OverlayChanges(local, init, n, k);
      TouchedSplit(h, n, k);
      assert h == init + [last] && init[..n] == h[..n];
      OverlayLast(local, init, last, n, k);
    }
  }

  lemma {:induction false} OverlayLast(local: map<Key, Entity>, init: seq<Applied>, last: Applied, n: nat, k: Key)
    requires n <= |init|
    ensures Get(Overlay(local, Logged(init + [last])[n..]), k) ==
            if last.mutation.key == k then Some(last.entity) else Get(Overlay(local, Logged(init)[n..]), k)
    ensures Latest(init + [last], k) == if last.mutation.key == k then Some(last.entity) else Latest(init, k)
  {
    LoggedTail(init, last, n);
    assert (init + [last])[..|init|] == init;
  }

  lemma LoggedTail(init: seq<Applied>, last: Applied, n: nat)
    requires n <= |init|
    ensures var changes := Logged(init + [last])[n..];
            && changes == Logged(init)[n..] + [ChangeOf(|init| + 1, last)]
            && changes[..|changes| - 1] == Logged(init)[n..]
  {
    LoggedAppend(init, last);
  }

  lemma TouchedSplit(h: seq<Applied>, n: nat, k: Key)
    requires n < |h|
    ensures TouchedSince(h, n, k) <==> h[|h| - 1].mutation.key == k || TouchedSince(h[..|h| - 1], n, k)
  {
    var init := h[..|h| - 1];
    if TouchedSince(h, n, k) {
      var i :| n <= i < |h| && h[i].mutation.key == k;
      if i < |init| { assert init[i].mutation.key == k; }
    }
    if TouchedSince(init, n, k) {
      var i :| n <= i < |init| && init[i].mutation.key == k;
      assert h[i].mutation.key == k;
    }
  }

  // ----- Validity of what the server says

  predicate ValidHistory(h: seq<Applied>) {
    forall i | 0 <= i < |h| :: IsChange(ChangeOf(i + 1, h[i]))
  }

  lemma {:induction false} StoredEntity(h: seq<Applied>, k: Key)
    requires k in StoreOf(h) && Replayable(h)
    ensures StoreOf(h)[k].revision >= 1
    ensures ValidHistory(h) ==> IsProtocolEntity(k, StoreOf(h)[k])
  {
    var init, last := h[..|h| - 1], h[|h| - 1];
    if last.mutation.key == k {
      assert IsChange(ChangeOf(|h|, last)) <== ValidHistory(h);
      if k in StoreOf(init) {
        StoredEntity(init, k);
      }
    } else {
      StoredEntity(init, k);
    }
  }

  predicate AllValid(ms: seq<ProtocolMutation>) {
    forall m | m in ms :: IsProtocolMutation(m)
  }

  lemma {:induction false} HistoryStaysValid(s: Server, ms: seq<ProtocolMutation>, now: Stamp)
    requires Consistent(s) && ValidHistory(s.history) && AllValid(ms) && now.Stamp?
    ensures ValidHistory(Process(s, ms, now).server.history)
  {
    if ms != [] {
      var init, m := ms[..|ms| - 1], ms[|ms| - 1];
      HistoryStaysValid(s, init, now);
      ProcessConsistent(s, init, now);
      var t := Process(s, init, now).server;
      if m.key in t.entities {
        StoredEntity(t.history, m.key);
      }
      assert IsProtocolMutation(m);
    }
  }

  lemma LoggedValid(h: seq<Applied>, n: nat)
    requires ValidHistory(h) && n <= |h|
    ensures forall c | c in Logged(h)[n..] :: IsChange(c)
  {
    forall c | c in Logged(h)[n..] ensures IsChange(c) {
      var i :| 0 <= i < |Logged(h)[n..]| && Logged(h)[n..][i] == c;
      assert c == ChangeOf(n + i + 1, h[n + i]);
    }
  }

  // ----- The request of a batch

  predicate OneKeyPerId(batch: Batch) {
    forall a, b | a in batch && b in batch && a.key.id == b.key.id :: a.key == b.key
  }

  lemma {:induction false} KeyForMember(batch: Batch, m: Mutation)
    requires m in batch
    ensures KeyFor(batch, m.key.id).Some?
    ensures exists x :: x in batch && x.key == KeyFor(batch, m.key.id).value && x.key.id == m.key.id
    decreases |batch|
  {
    if batch[0].key.id == m.key.id {
      assert batch[0] in batch;
    } else {
      assert m in batch[1..];
      KeyForMember(batch[1..], m);
      var x :| x in batch[1..] && x.key == KeyFor(batch[1..], m.key.id).value && x.key.id == m.key.id;
      assert x in batch;
    }
  }

  lemma OutgoingBased(local: map<Key, Entity>, batch: Batch)
    requires OneKeyPerId(batch)
    ensures BasedOn(Outgoing(local, batch), local)
  {
    var ms := Outgoing(local, batch);
    forall m | m in ms ensures m.baseRevision == RevisionOf(local, m.key) {
      var i :| 0 <= i < |ms| && ms[i] == m;
      assert batch[i] in batch;
      KeyForMember(batch, batch[i]);
    }
  }

  predicate FirstNaming(batch: Batch, id: string, i: int) {
    && 0 <= i < |batch| && batch[i].key.id == id
    && forall l | 0 <= l < i :: batch[l].key.id != id
  }

  lemma {:induction false} FirstKeyDecides(batch: Batch, id: string, i: int)
    requires FirstNaming(batch, id, i)
    ensures KeyFor(batch, id) == Some(batch[i].key)
    decreases |batch|
  {
    if i > 0 {
      assert forall l | 0 <= l < i :: batch[1..][l] == batch[l + 1];
      FirstKeyDecides(batch[1..], id, i - 1);
    }
  }

  /** A request carries the cursor, the client's id and the batch, mutation by mutation
      and field by field; each is based on the revision of the replica's entity at the
      key of the first mutation with its entity id. */
  predicate Carries(request: SyncRequest, d: Disk, batch: Batch, clientId: string) {
    && request.cursor == d.cursor && request.clientId == clientId && |request.mutations| == |batch|
    && (forall i | 0 <= i < |batch| ::
          && request.mutations[i].id == batch[i].id && request.mutations[i].key == batch[i].key
          && request.mutations[i].operation == batch[i].operation && request.mutations[i].field == batch[i].field
          && request.mutations[i].value == batch[i].value && request.mutations[i].createdAt == batch[i].createdAt)
    && forall i, j | 0 <= i < |batch| && 0 <= j < |batch| && FirstNaming(batch, batch[i].key.id, j) ::
         request.mutations[i].baseRevision == if batch[j].key in d.entities then d.entities[batch[j].key].revision else 0
  }

  lemma RequestCarries(d: Disk, batch: Batch, clientId: string)
    ensures Carries(BuildRequest(d, batch, clientId), d, batch, clientId)
  {
    forall i, j | 0 <= i < |batch| && FirstNaming(batch, batch[i].key.id, j)
      ensures BuildRequest(d, batch, clientId).mutations[i].baseRevision == RevisionOf(d.entities, batch[j].key)
    {
      FirstKeyDecides(batch, batch[i].key.id, j);
    }
  }

  lemma OutgoingIds(local: map<Key, Entity>, batch: Batch)
    ensures Ids(Outgoing(local, batch)) == seq(|batch|, i requires 0 <= i < |batch| => batch[i].id)
    ensures forall id :: id in Ids(Outgoing(local, batch)) <==> InBatch(batch, id)
  {
    var ids := Ids(Outgoing(local, batch));
    forall id ensures id in ids <==> InBatch(batch, id) {
      if id in ids {
        var i :| 0 <= i < |ids| && ids[i] == id;
        assert batch[i].id == id;
      }
      if InBatch(batch, id) {
        var i :| 0 <= i < |batch| && batch[i].id == id;
        assert ids[i] == id;
      }
    }
  }

  lemma {:induction false} FindMember(batch: Batch, id: string)
    ensures Find(batch, id).Some? <==> InBatch(batch, id)
    ensures Find(batch, id).Some? ==> Find(batch, id).value in batch && Find(batch, id).value.id == id
    decreases |batch|
  {
    if batch != [] {
      FindMember(batch[1..], id);
      InBatchSplit(batch, id);
    }
  }

  // ----- A response of this server fits the batch

  lemma CountedOnce(ids: seq<string>, a: seq<string>, b: seq<string>)
    requires multiset(a) + multiset(b) == multiset(ids)
    requires forall i, j | 0 <= i < j < |ids| :: ids[i] != ids[j]
    ensures forall id :: id in ids <==> id in a || id in b
    ensures forall id :: !(id in a && id in b)
    ensures forall i, j | 0 <= i < j < |b| :: b[i] != b[j]
  {
    forall id ensures id in ids <==> id in a || id in b {
      assert id in multiset(ids) <==> id in multiset(a) + multiset(b);
    }
    forall id ensures !(id in a && id in b) {
      AtMostOnce(ids, id);
      assert multiset(ids)[id] == multiset(a)[id] + multiset(b)[id];
      assert id in a ==> id in multiset(a);
      assert id in b ==> id in multiset(b);
    }
    forall i, j | 0 <= i < j < |b| ensures b[i] != b[j] {
      AtMostOnce(ids, b[i]);
      assert multiset(ids)[b[i]] == multiset(a)[b[i]] + multiset(b)[b[i]];
      assert b == b[..j] + [b[j]] + b[j + 1..];
      assert b[i] in b[..j];
      assert b[i] == b[j] ==> multiset(b)[b[i]] >= 2;
    }
  }

  lemma {:induction false} AtMostOnce(ids: seq<string>, id: string)
    requires forall i, j | 0 <= i < j < |ids| :: ids[i] != ids[j]
    ensures multiset(ids)[id] <= 1
  {
    if ids != [] {
      var init := ids[..|ids| - 1];
      AtMostOnce(init, id);
      assert ids == init + [ids[|ids| - 1]];
      if ids[|ids| - 1] == id {
        assert id !in init;
        assert id !in multiset(init);
      }
    }
  }

  lemma ConflictIdMember(cs: seq<ConflictInfo>, id: string)
    ensures Conflicted(cs, id) <==> id in ConflictIds(cs)
  {
    if Conflicted(cs, id) {
      var i :| 0 <= i < |cs| && cs[i].mutationId == id;
      assert ConflictIds(cs)[i] == id;
    }
    if id in ConflictIds(cs) {
      var i :| 0 <= i < |cs| && ConflictIds(cs)[i] == id;
      assert cs[i].mutationId == id;
    }
  }

  ghost predicate FitsBatch(q: Queue.Mutations, batch: Batch, r: SyncResponse) {
    && WellNamed(q, batch, r) && AllLocal(batch, r.conflicts)
    && (forall id :: InBatch(batch, id) <==> Answered(r, id))
    && (forall id :: !(id in r.acknowledgedMutationIds && Conflicted(r.conflicts, id)))
  }

  /** Whatever the server answers to a batch names known mutations, answers every
      one of them, and acknowledges none that it also reports as a conflict. */
  lemma ServerFitsBatch(s: Server, q: Queue.Mutations, local: map<Key, Entity>, batch: Batch, changes: seq<Change>, cursor: Cursor, now: Stamp)
    requires Queue.DistinctIds(batch) && BatchKnown(q, batch)
    ensures var b := Process(s, Outgoing(local, batch), now);
            FitsBatch(q, batch, SyncResponse(changes, b.acknowledged, b.conflicts, cursor))
  {
    var ms := Outgoing(local, batch);
    var b := Process(s, ms, now);
    var r := SyncResponse(changes, b.acknowledged, b.conflicts, cursor);
    RequestPartition(s, ms, now);
    OutgoingIds(local, batch);
    CountedOnce(Ids(ms), b.acknowledged, ConflictIds(b.conflicts));
    forall id ensures Conflicted(b.conflicts, id) <==> id in ConflictIds(b.conflicts) {
      ConflictIdMember(b.conflicts, id);
    }
    forall id | InBatch(batch, id) ensures Queue.Has(q, id) {
      var i :| 0 <= i < |batch| && batch[i].id == id;
      assert batch[i] in batch;
    }
    forall i, j | 0 <= i < j < |b.conflicts| ensures b.conflicts[i].mutationId != b.conflicts[j].mutationId {
      assert ConflictIds(b.conflicts)[i] != ConflictIds(b.conflicts)[j];
    }
    forall c | c in b.conflicts ensures InBatch(batch, c.mutationId) && Find(batch, c.mutationId).Some? {
      var i :| 0 <= i < |b.conflicts| && b.conflicts[i] == c;
      assert ConflictIds(b.conflicts)[i] == c.mutationId;
      FindMember(batch, c.mutationId);
    }
  }
}
