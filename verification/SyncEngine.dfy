/** The sync engine as an object. Its methods are proved against
    the rounds of Rounds and the lists of writes of EngineSpec. */
module SyncEngine {
  import opened Json
  import opened Protocol
  import opened ServerSpec
  import opened EngineSpec
  import opened EngineLaws
  import opened Rounds
  import opened ClientStorage
  import Queue
  import Strategies
  import SyncServer

  class SyncEngine {
    const storage: Storage
    const mutationQueue: MutationQueue
    const server: SyncServer.SyncServer
    const settings: Settings

    constructor (storage: Storage, server: SyncServer.SyncServer, settings: Settings)
      ensures this.storage == storage && this.server == server && this.settings == settings
      ensures mutationQueue.storage == storage && fresh(mutationQueue)
    {
      this.storage, this.server, this.settings := storage, server, settings;
      mutationQueue := new MutationQueue(storage);
    }

    ghost predicate Valid()
      reads this, storage
    {
      storage.Valid() && mutationQueue.storage == storage
    }

    // ----- The request

    /** One lookup per entity id, in the collection of the first mutation that
        names it. */
    method LoadBaseRevisions(batch: Queue.Mutations) returns (revisions: map<string, int>)
      ensures revisions.Keys == set m | m in batch :: m.key.id
      ensures forall id | id in revisions :: revisions[id] == BaseRevision(storage.entities, batch, id)
      ensures forall id, j | id in revisions && FirstNaming(batch, id, j) :: revisions[id] == RevisionOf(storage.entities, batch[j].key)
    {
      revisions := map[];
      var entityIds := set m | m in batch :: m.key.id;
      var todo := entityIds;
      while todo != {}
        invariant todo <= entityIds && revisions.Keys == entityIds - todo
        invariant forall id | id in revisions :: revisions[id] == BaseRevision(storage.entities, batch, id)
      {
        var id :| id in todo;
        var key := KeyFor(batch, id);
        var m :| m in batch && m.key.id == id;
        KeyForMember(batch, m);
        var revision := if key.value in storage.entities then storage.entities[key.value].revision else 0;
        revisions := revisions[id := revision];
        todo := todo - {id};
      }
      forall id, j | id in revisions && FirstNaming(batch, id, j) ensures revisions[id] == RevisionOf(storage.entities, batch[j].key) {
        FirstKeyDecides(batch, id, j);
      }
    }

    method BuildRequest(batch: Queue.Mutations) returns (request: SyncRequest)
      ensures request == EngineSpec.BuildRequest(storage.Contents(), batch, settings.clientId)
      ensures Carries(request, storage.Contents(), batch, settings.clientId)
    {
      var revisions := LoadBaseRevisions(batch);
      var mutations: seq<ProtocolMutation> := [];
      for i := 0 to |batch|
        invariant mutations == Outgoing(storage.entities, batch)[..i]
      {
        assert batch[i] in batch;
        var base := if batch[i].key.id in revisions then revisions[batch[i].key.id] else 0;
        var m := batch[i];
        mutations := mutations + [ProtocolMutation(m.id, m.key, m.operation, m.field, m.value, base, m.createdAt)];
      }
      request := SyncRequest(storage.cursor, mutations, settings.clientId);
      RequestCarries(storage.Contents(), batch, settings.clientId);
    }

    // ----- Applying remote data

    method GroupChangesByCollection(changes: seq<Change>) returns (groups: map<string, seq<Change>>)
      ensures forall c :: c in groups <==> OfCollection(changes, c) != []
      ensures forall c | c in groups :: groups[c] == OfCollection(changes, c)
    {
      groups := map[];
      for i := 0 to |changes|
        invariant forall c :: c in groups <==> OfCollection(changes[..i], c) != []
        invariant forall c | c in groups :: groups[c] == OfCollection(changes[..i], c)
      {
        assert changes[..i + 1][..i] == changes[..i];
        var collection := changes[i].key.collection;
        var existing := if collection in groups then groups[collection] else [];
        groups := groups[collection := existing + [changes[i]]];
      }
      assert changes[..|changes|] == changes;
    }

    /** One group after the other, in whatever order, has the effect of the changes
        in the order in which the server sent them. */
    method ApplyChanges(changes: seq<Change>)
      modifies storage`entities
      ensures storage.entities == Overlay(old(storage.entities), changes)
    {
      ghost var before := storage.entities;
      var groups := GroupChangesByCollection(changes);
      var todo := groups.Keys;
      forall k: Key | k.collection !in todo ensures Get(before, k) == Get(Overlay(before, changes), k) {
        OverlayGroup(before, before, changes, k.collection, k);
      }
      while todo != {}
        invariant todo <= groups.Keys
        invariant forall k: Key | k.collection !in todo :: Get(storage.entities, k) == Get(Overlay(before, changes), k)
        invariant forall k: Key | k.collection in todo :: Get(storage.entities, k) == Get(before, k)
      {
        var collection :| collection in todo;
        var group := groups[collection];
        ghost var start := storage.entities;
        PutAll(group);
        todo := todo - {collection};
        forall k: Key ensures Get(storage.entities, k) ==
                         if k.collection == collection then Get(Overlay(before, changes), k) else Get(start, k)
        {
          OverlayGroup(start, before, changes, collection, k);
        }
      }
      SameMap(storage.entities, Overlay(before, changes));
    }

    method PutAll(group: seq<Change>)
      modifies storage`entities
      ensures storage.entities == Overlay(old(storage.entities), group)
    {
      for j := 0 to |group|
        invariant storage.entities == Overlay(old(storage.entities), group[..j])
      {
        assert group[..j + 1][..j] == group[..j];
        storage.entities := storage.entities[group[j].key := group[j].entity];
      }
      assert group[..|group|] == group;
    }

    /** The transaction commits all changes; the cursor follows in a write of its own. */
    method ApplySyncResponse(r: SyncResponse)
      modifies storage`entities, storage`cursor
      ensures storage.Contents() ==
              Perform(old(storage.Contents()), [EngineSpec.ApplyChanges(r.changes), SaveCursor(r.newCursor)], settings.resolver, Blank).disk
    {
      ghost var before := storage.Contents();
      if r.changes != [] {
        ApplyChanges(r.changes);
      }
      storage.cursor := r.newCursor;
      PerformHead(before, EngineSpec.ApplyChanges(r.changes), [SaveCursor(r.newCursor)], settings.resolver, Blank);
      PerformHead(before.(entities := Overlay(before.entities, r.changes)), SaveCursor(r.newCursor), [], settings.resolver, Blank);
      assert [EngineSpec.ApplyChanges(r.changes)] + [SaveCursor(r.newCursor)] == [EngineSpec.ApplyChanges(r.changes), SaveCursor(r.newCursor)];
      assert [SaveCursor(r.newCursor)] + [] == [SaveCursor(r.newCursor)];
    }

    method ApplySnapshotResponse(response: SnapshotResponse)
      modifies storage`entities, storage`cursor
      ensures storage.Contents() == old(storage.Contents()).(
                entities := old(storage.entities) + response.entities, cursor := response.cursor)
    {
      ghost var before := storage.entities;
      var todo := response.entities.Keys;
      while todo != {}
        invariant todo <= response.entities.Keys && storage.cursor == old(storage.cursor)
        invariant storage.mutations == old(storage.mutations)
        invariant storage.entities == before + (response.entities - todo)
      {
        var k :| k in todo;
        storage.entities := storage.entities[k := response.entities[k]];
        todo := todo - {k};
      }
      assert response.entities - {} == response.entities;
      storage.cursor := response.cursor;
    }

    // ----- Conflicts

    /** Resolved: the entity is written and the mutation is due again. An unknown
        mutation throws. */
    method AttemptAutoResolve(c: ConflictInfo, batch: Queue.Mutations, now: Stamp) returns (resolved: bool, found: bool)
      requires Valid()
      modifies storage
      ensures Valid()
      ensures resolved == Resolve(old(storage.entities), c, Find(batch, c.mutationId), settings.resolver).Resolved?
      ensures resolved ==> Outcome(storage.Contents(), found) ==
                           Step(old(storage.Contents()), Settle(c, Find(batch, c.mutationId)), settings.resolver, now)
      ensures !resolved ==> storage.Contents() == old(storage.Contents()) && found
      ensures resolved <==> settings.resolver.Some? && Find(batch, c.mutationId).Some?
                            && var m := Find(batch, c.mutationId).value;
                               settings.resolver.value(Strategies.Context(c, m.operation, m.field, m.value, m.createdAt,
                                                                          Get(old(storage.entities), c.key))).Resolved?
      ensures resolved ==>
                var m := Find(batch, c.mutationId).value;
                var context := Strategies.Context(c, m.operation, m.field, m.value, m.createdAt, Get(old(storage.entities), c.key));
                && c.key in storage.entities && storage.entities == old(storage.entities)[c.key := storage.entities[c.key]]
                && WrittenBack(c, storage.entities[c.key], settings.resolver.value(context).data, now)
      ensures resolved ==> |storage.mutations| == |old(storage.mutations)| && forall i | 0 <= i < |storage.mutations| ::
                storage.mutations[i] == if old(storage.mutations)[i].id != c.mutationId then old(storage.mutations)[i]
                                        else old(storage.mutations)[i].(
                                          status := Queue.PENDING, retries := old(storage.mutations)[i].retries + 1, lastError := None,
                                          value := storage.entities[c.key].data, operation := Set)
    {
      found := true;
      if settings.resolver.None? {
        return false, true;
      }
      var local := Find(batch, c.mutationId);
      if local.None? {
        return false, true;
      }
      var m := local.value;
      var existing := Get(storage.entities, c.key);
      var resolution := settings.resolver.value(Strategies.Context(c, m.operation, m.field, m.value, m.createdAt, existing));
      if resolution.Unresolved? {
        return false, true;
      }
      storage.entities := storage.entities[c.key :=
        Entity(resolution.data, c.serverRevision, c.serverEntity.createdAt, now, c.serverEntity.isDeleted)];
      found := mutationQueue.ResolveConflict(c.mutationId, Some(resolution.data), Some(Set));
      resolved := true;
    }

    // ----- The parts of a cycle

    /** Each of these carries out the first tasks of a list and leaves the rest; what
        the whole list does to the disk stays the same. */
    method HandleAcknowledgements(ids: seq<string>, ghost rest: seq<Task>, now: Stamp) returns (completed: bool)
      requires Valid()
      modifies storage
      ensures Valid()
      ensures var whole := Perform(old(storage.Contents()), Acknowledgements(ids) + rest, settings.resolver, now);
              whole == if completed then Perform(storage.Contents(), rest, settings.resolver, now)
                       else Outcome(storage.Contents(), false)
    {
      ghost var whole := Perform(storage.Contents(), Acknowledgements(ids) + rest, settings.resolver, now);
      for i := 0 to |ids|
        invariant Valid()
        invariant whole == Perform(storage.Contents(), Acknowledgements(ids[i..]) + rest, settings.resolver, now)
      {
        assert Acknowledgements(ids[i..]) + rest == [Acknowledge(ids[i])] + (Acknowledgements(ids[i + 1..]) + rest);
        PerformHead(storage.Contents(), Acknowledge(ids[i]), Acknowledgements(ids[i + 1..]) + rest, settings.resolver, now);
        var found := mutationQueue.UpdateMutationStatus(ids[i], Queue.ACKNOWLEDGED);
        if !found {
          return false;
        }
      }
      assert Acknowledgements(ids[|ids|..]) + rest == rest;
      return true;
    }

    method HandleConflicts(cs: seq<ConflictInfo>, batch: Queue.Mutations, ghost rest: seq<Task>, now: Stamp) returns (completed: bool)
      requires Valid()
      modifies storage
      ensures Valid()
      ensures var whole := Perform(old(storage.Contents()), Settlements(cs, batch) + rest, settings.resolver, now);
              whole == if completed then Perform(storage.Contents(), rest, settings.resolver, now)
                       else Outcome(storage.Contents(), false)
    {
      ghost var whole := Perform(storage.Contents(), Settlements(cs, batch) + rest, settings.resolver, now);
      for i := 0 to |cs|
        invariant Valid()
        invariant whole == Perform(storage.Contents(), Settlements(cs[i..], batch) + rest, settings.resolver, now)
      {
        ghost var task := Settle(cs[i], Find(batch, cs[i].mutationId));
        assert Settlements(cs[i..], batch) + rest == [task] + (Settlements(cs[i + 1..], batch) + rest);
        PerformHead(storage.Contents(), task, Settlements(cs[i + 1..], batch) + rest, settings.resolver, now);
        var resolved, found := AttemptAutoResolve(cs[i], batch, now);
        if !resolved {
          found := mutationQueue.MarkConflict(cs[i].mutationId, Some(Queue.RevisionMismatch(cs[i].clientRevision, cs[i].serverRevision)));
        }
        if !found {
          return false;
        }
      }
      assert Settlements(cs[|cs|..], batch) + rest == rest;
      return true;
    }

    method RetryUnanswered(batch: Queue.Mutations, r: SyncResponse, now: Stamp) returns (completed: bool)
      requires Valid()
      modifies storage
      ensures Valid()
      ensures Outcome(storage.Contents(), completed) == Perform(old(storage.Contents()), Retries(batch, r), settings.resolver, now)
    {
      ghost var whole := Perform(storage.Contents(), Retries(batch, r), settings.resolver, now);
      for i := 0 to |batch|
        invariant Valid()
        invariant whole == Perform(storage.Contents(), Retries(batch[i..], r), settings.resolver, now)
      {
        assert batch[i..][1..] == batch[i + 1..];
        assert Retries(batch[i..], r) == (if Answered(r, batch[i].id) then [] else [Retry(batch[i].id)]) + Retries(batch[i + 1..], r);
        assert [] + Retries(batch[i + 1..], r) == Retries(batch[i + 1..], r);
        if !Answered(r, batch[i].id) {
          PerformHead(storage.Contents(), Retry(batch[i].id), Retries(batch[i + 1..], r), settings.resolver, now);
          var found := mutationQueue.Retry(batch[i].id);
          if !found {
            return false;
          }
        }
      }
      return true;
    }

    method ReenqueueAll(batch: Queue.Mutations, now: Stamp) returns (completed: bool)
      requires Valid()
      modifies storage
      ensures Valid()
      ensures Outcome(storage.Contents(), completed) == Perform(old(storage.Contents()), Reenqueued(batch), settings.resolver, now)
    {
      ghost var whole := Perform(storage.Contents(), Reenqueued(batch), settings.resolver, now);
      for i := 0 to |batch|
        invariant Valid()
        invariant whole == Perform(storage.Contents(), Reenqueued(batch[i..]), settings.resolver, now)
      {
        assert Reenqueued(batch[i..]) == [Retry(batch[i].id)] + Reenqueued(batch[i + 1..]);
        PerformHead(storage.Contents(), Retry(batch[i].id), Reenqueued(batch[i + 1..]), settings.resolver, now);
        var found := mutationQueue.Retry(batch[i].id);
        if !found {
          return false;
        }
      }
      return true;
    }

    // ----- The cycle

    method PerformSnapshotSync(collections: seq<string>, now: Stamp) returns (completed: bool)
      requires Valid()
      modifies storage
      ensures Valid()
      ensures Round(server.State(), storage.Contents(), completed) ==
              SnapshotRound(server.State(), old(storage.Contents()), collections, settings, now)
    {
      var response := server.HandleSnapshotRequest(collections);
      if !IsSnapshotResponse(response) {
        return false;
      }
      SnapshotPerformed(storage.Contents(), response, settings, now);
      ApplySnapshotResponse(response);
      return true;
    }

    /** A snapshot on demand, of some collections or of all; the cursor moves either way. */
    method ForceSnapshotSync(collections: seq<string>, now: Stamp) returns (completed: bool)
      requires Valid()
      modifies storage
      ensures Valid() && (completed ==> storage.cursor == CurrentCursor(server.State()))
      ensures Round(server.State(), storage.Contents(), completed) ==
              SnapshotRound(server.State(), old(storage.Contents()), collections, settings, now)
    {
      completed := PerformSnapshotSync(collections, now);
      SnapshotPerformed(old(storage.Contents()), Snapshot(server.State(), collections), settings, now);
    }

    /** Without a cursor the client starts from a snapshot. */
    method Sync(now: Stamp) returns (completed: bool)
      requires Valid()
      modifies storage, server, server.changeLog, server.mutationTracker
      ensures Valid()
      ensures Round(server.State(), storage.Contents(), completed) ==
              if old(storage.cursor).NoCursor? then SnapshotRound(old(server.State()), old(storage.Contents()), [], settings, now)
              else IncrementalRound(old(server.State()), old(storage.Contents()), settings, now)
    {
      if storage.cursor.NoCursor? {
        completed := PerformSnapshotSync([], now);
      } else {
        completed := PerformIncrementalSync(now);
      }
    }

    method PerformIncrementalSync(now: Stamp) returns (completed: bool)
      requires Valid()
      modifies storage, server, server.changeLog, server.mutationTracker
      ensures Valid()
      ensures Round(server.State(), storage.Contents(), completed) ==
              IncrementalRound(old(server.State()), old(storage.Contents()), settings, now)
    {
      ghost var start := storage.Contents();
      var batch := mutationQueue.DequeuePending(settings.batchSize);
      var request := BuildRequest(batch);
      var reply := server.HandleSyncRequest(request, now);
      match reply {
        case CursorTooOld(_) =>
          completed := ReenqueueAll(batch, now);
          if completed {
            completed := PerformSnapshotSync([], now);
          }
        case Response(r) =>
          if !IsSyncResponse(r) {
            return false;
          }
          completed := CompleteCycle(batch, r, now);
      }
    }

    method CompleteCycle(batch: Queue.Mutations, r: SyncResponse, now: Stamp) returns (completed: bool)
      requires Valid()
      modifies storage
      ensures Valid()
      ensures Outcome(storage.Contents(), completed) == Perform(old(storage.Contents()), Completion(batch, r), settings.resolver, now)
    {
      ghost var start := storage.Contents();
      ghost var settles, retries := Settlements(r.conflicts, batch), Retries(batch, r);
      ghost var rest := settles + retries;
      ApplySyncResponse(r);
      CompletionOpening(start, batch, r, settings.resolver, now);
      completed := HandleAcknowledgements(r.acknowledgedMutationIds, rest, now);
      if completed {
        completed := HandleConflicts(r.conflicts, batch, retries, now);
      }
      if completed {
        completed := RetryUnanswered(batch, r, now);
      }
    }
  }

  lemma CompletionOpening(d: Disk, batch: Queue.Mutations, r: SyncResponse, resolver: Option<Resolver>, now: Stamp)
    ensures var opening := [EngineSpec.ApplyChanges(r.changes), SaveCursor(r.newCursor)];
            Perform(d, Completion(batch, r), resolver, now) ==
            Perform(Perform(d, opening, resolver, Blank).disk,
                    Acknowledgements(r.acknowledgedMutationIds) + (Settlements(r.conflicts, batch) + Retries(batch, r)), resolver, now)
  {
    var opening := [EngineSpec.ApplyChanges(r.changes), SaveCursor(r.newCursor)];
    var rest := Acknowledgements(r.acknowledgedMutationIds) + (Settlements(r.conflicts, batch) + Retries(batch, r));
    assert Completion(batch, r) == opening + rest;
    OpeningPerformed(d, r, resolver, now);
    OpeningPerformed(d, r, resolver, Blank);
    PerformSplit(d, opening, rest, resolver, now);
  }

  lemma OpeningPerformed(d: Disk, r: SyncResponse, resolver: Option<Resolver>, now: Stamp)
    ensures Perform(d, [EngineSpec.ApplyChanges(r.changes), SaveCursor(r.newCursor)], resolver, now) ==
            Outcome(d.(entities := Overlay(d.entities, r.changes), cursor := r.newCursor), true)
  {
    var first, second := EngineSpec.ApplyChanges(r.changes), SaveCursor(r.newCursor);
    PerformHead(d, first, [second], resolver, now);
    PerformHead(d.(entities := Overlay(d.entities, r.changes)), second, [], resolver, now);
    assert [first, second] == [first] + ([second] + []);
  }

  // ----- Grouping

  function OfCollection(changes: seq<Change>, collection: string): seq<Change> {
    if changes == [] then []
    else OfCollection(changes[..|changes| - 1], collection)
         + if changes[|changes| - 1].key.collection == collection then [changes[|changes| - 1]] else []
  }

  /** For a key of the collection its group alone decides; for any other key the
      group does nothing. */
  lemma {:induction false} OverlayGroup(start: map<Key, Entity>, before: map<Key, Entity>, changes: seq<Change>, collection: string, k: Key)
    requires k.collection == collection ==> Get(start, k) == Get(before, k)
    ensures Get(Overlay(start, OfCollection(changes, collection)), k) ==
            if k.collection == collection then Get(Overlay(before, changes), k) else Get(start, k)
  {
    if changes != [] {
      var init, last := changes[..|changes| - 1], changes[|changes| - 1];
      OverlayGroup(start, before, init, collection, k);
      var group := OfCollection(changes, collection);
      if last.key.collection == collection {
        assert group[..|group| - 1] == OfCollection(init, collection);
      } else {
        assert group == OfCollection(init, collection);
      }
    }
  }

  lemma SameMap(a: map<Key, Entity>, b: map<Key, Entity>)
    requires forall k :: Get(a, k) == Get(b, k)
    ensures a == b
  {
    forall k ensures k in a <==> k in b {
      assert Get(a, k) == Get(b, k);
    }
    forall k | k in a ensures a[k] == b[k] {
      assert Get(a, k) == Get(b, k);
    }
  }
}
