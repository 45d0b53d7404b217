/** The client's storage as objects: the store itself, the mutation queue over its
    reserved collection, and recovery. Proved against the functions of Queue. */
module ClientStorage {
  import opened Json
  import opened Protocol
  import opened EngineSpec
  import Queue

  /** Application entities, the reserved collection of mutations in listing order,
      and the cursor. Records are addressed by id, so ids are distinct. */
  class Storage {
    var entities: map<Key, Entity>
    var mutations: Queue.Mutations
    var cursor: Cursor

    ghost function Contents(): Disk
      reads this
    {
      Disk(entities, mutations, cursor)
    }

    ghost predicate Valid()
      reads this
    {
      Queue.DistinctIds(mutations)
    }

    constructor ()
      ensures Contents() == Disk(map[], [], NoCursor) && Valid()
    {
      entities, mutations, cursor := map[], [], NoCursor;
    }

    method GetMutation(id: string) returns (m: Option<Mutation>)
      ensures m.None? <==> !Queue.Has(mutations, id)
      ensures m.Some? ==> m.value in mutations && m.value.id == id
    {
      for i := 0 to |mutations|
        invariant forall j | 0 <= j < i :: mutations[j].id != id
      {
        if mutations[i].id == id {
          return Some(mutations[i]);
        }
      }
      return None;
    }

    /** Overwrites the record with this id, or adds one. */
    method PutMutation(m: Mutation)
      requires Valid()
      modifies this`mutations
      ensures Valid() && mutations == Queue.Enqueue(old(mutations), m)
    {
      for i := 0 to |mutations|
        invariant mutations == old(mutations)
        invariant forall j | 0 <= j < i :: mutations[j].id != m.id
      {
        if mutations[i].id == m.id {
          mutations := mutations[i := m];
          return;
        }
      }
      mutations := mutations + [m];
    }
  }

  class MutationQueue {
    const storage: Storage

    constructor (storage: Storage)
      ensures this.storage == storage
    {
      this.storage := storage;
    }

    method Enqueue(m: Mutation)
      requires storage.Valid()
      modifies storage`mutations
      ensures storage.Valid() && storage.mutations == Queue.Enqueue(old(storage.mutations), m)
    {
      storage.PutMutation(m);
    }

    method DequeuePending(limit: nat) returns (batch: Queue.Mutations)
      ensures batch == Queue.DequeuePending(storage.mutations, limit)
    {
      var pending := Queue.WithStatus(Queue.BySequence(storage.mutations), Queue.PENDING);
      batch := if limit <= |pending| then pending[..limit] else pending;
    }

    // Each transition reads the record, rewrites it and stores it; an unknown id throws.

    method UpdateMutationStatus(id: string, status: Queue.Status) returns (found: bool)
      requires storage.Valid() && (status.IN_FLIGHT? || status.ACKNOWLEDGED? || status.PENDING?)
      modifies storage`mutations
      ensures storage.Valid() && found == Queue.Has(old(storage.mutations), id)
      ensures storage.mutations == Queue.Update(old(storage.mutations), id, Queue.ToStatus(status))
      ensures forall i | 0 <= i < |storage.mutations| :: storage.mutations[i] ==
                if old(storage.mutations)[i].id != id then old(storage.mutations)[i]
                else old(storage.mutations)[i].(status := status)
    {
      var m := storage.GetMutation(id);
      if m.None? {
        NothingToUpdate(storage.mutations, id, Queue.ToStatus(status));
        return false;
      }
      PutIsUpdate(storage.mutations, m.value, Queue.ToStatus(status));
      storage.PutMutation(m.value.(status := status));
      return true;
    }

    method MarkFailed(id: string, failure: Queue.Failure) returns (found: bool)
      requires storage.Valid()
      modifies storage`mutations
      ensures storage.Valid() && found == Queue.Has(old(storage.mutations), id)
      ensures storage.mutations == Queue.Update(old(storage.mutations), id, Queue.MarkFailed(failure))
      ensures forall i | 0 <= i < |storage.mutations| :: storage.mutations[i] ==
                if old(storage.mutations)[i].id != id then old(storage.mutations)[i]
                else old(storage.mutations)[i].(status := Queue.FAILED, lastError := Some(failure))
    {
      var m := storage.GetMutation(id);
      if m.None? {
        NothingToUpdate(storage.mutations, id, Queue.MarkFailed(failure));
        return false;
      }
      PutIsUpdate(storage.mutations, m.value, Queue.MarkFailed(failure));
      storage.PutMutation(m.value.(status := Queue.FAILED, lastError := Some(failure)));
      return true;
    }

    method MarkConflict(id: string, reason: Option<Queue.Failure>) returns (found: bool)
      requires storage.Valid()
      modifies storage`mutations
      ensures storage.Valid() && found == Queue.Has(old(storage.mutations), id)
      ensures storage.mutations == Queue.Update(old(storage.mutations), id, Queue.MarkConflict(reason))
      ensures forall i | 0 <= i < |storage.mutations| :: storage.mutations[i] ==
                if old(storage.mutations)[i].id != id then old(storage.mutations)[i]
                else old(storage.mutations)[i].(status := Queue.CONFLICT, lastError := reason)
    {
      var m := storage.GetMutation(id);
      if m.None? {
        NothingToUpdate(storage.mutations, id, Queue.MarkConflict(reason));
        return false;
      }
      PutIsUpdate(storage.mutations, m.value, Queue.MarkConflict(reason));
      storage.PutMutation(m.value.(status := Queue.CONFLICT, lastError := reason));
      return true;
    }

    /** Not back to PENDING: the mutation counts as sent again. */
    method Retry(id: string) returns (found: bool)
      requires storage.Valid()
      modifies storage`mutations
      ensures storage.Valid() && found == Queue.Has(old(storage.mutations), id)
      ensures storage.mutations == Queue.Update(old(storage.mutations), id, Queue.Retry)
      ensures forall i | 0 <= i < |storage.mutations| :: storage.mutations[i] ==
                if old(storage.mutations)[i].id != id then old(storage.mutations)[i]
                else old(storage.mutations)[i].(status := Queue.IN_FLIGHT, retries := old(storage.mutations)[i].retries + 1, lastError := None)
    {
      var m := storage.GetMutation(id);
      if m.None? {
        NothingToUpdate(storage.mutations, id, Queue.Retry);
        return false;
      }
      PutIsUpdate(storage.mutations, m.value, Queue.Retry);
      storage.PutMutation(m.value.(status := Queue.IN_FLIGHT, retries := m.value.retries + 1, lastError := None));
      return true;
    }

    method ResolveConflict(id: string, value: Option<Json>, operation: Option<Operation>) returns (found: bool)
      requires storage.Valid()
      modifies storage`mutations
      ensures storage.Valid() && found == Queue.Has(old(storage.mutations), id)
      ensures storage.mutations == Queue.Update(old(storage.mutations), id, Queue.ResolveConflict(value, operation))
      ensures forall i | 0 <= i < |storage.mutations| :: storage.mutations[i] ==
                if old(storage.mutations)[i].id != id then old(storage.mutations)[i]
                else old(storage.mutations)[i].(
                  status := Queue.PENDING, retries := old(storage.mutations)[i].retries + 1, lastError := None,
                  value := if value.Some? then value.value else old(storage.mutations)[i].value,
                  operation := if operation.Some? then operation.value else old(storage.mutations)[i].operation)
    {
      var m := storage.GetMutation(id);
      if m.None? {
        NothingToUpdate(storage.mutations, id, Queue.ResolveConflict(value, operation));
        return false;
      }
      var updated := m.value.(status := Queue.PENDING, retries := m.value.retries + 1, lastError := None);
      if value.Some? {
        updated := updated.(value := value.value);
      }
      if operation.Some? {
        updated := updated.(operation := operation.value);
      }
      PutIsUpdate(storage.mutations, m.value, Queue.ResolveConflict(value, operation));
      storage.PutMutation(updated);
      return true;
    }

    method GetMaxSequence(collection: string) returns (max: int)
      ensures max == Queue.MaxSequence(storage.mutations, collection)
    {
      var mine := Queue.InCollection(storage.mutations, collection);
      max := if mine == [] then 0 else Queue.Highest(mine);
    }
  }

  class RecoveryManager {
    const storage: Storage
    const mutationQueue: MutationQueue

    constructor (storage: Storage)
      ensures this.storage == storage && mutationQueue.storage == storage && fresh(mutationQueue)
    {
      this.storage := storage;
      mutationQueue := new MutationQueue(storage);
    }

    /** Puts every mutation that was in flight back and reports each of them. */
    method ResetInFlightMutations() returns (repairs: seq<string>)
      requires storage.Valid() && mutationQueue.storage == storage
      modifies storage`mutations
      ensures storage.Valid() && storage.mutations == Queue.ResetInFlight(old(storage.mutations))
      ensures |repairs| == Queue.CountStatus(old(storage.mutations), Queue.IN_FLIGHT)
      ensures forall id :: id in repairs <==>
                exists m :: m in old(storage.mutations) && m.status.IN_FLIGHT? && m.id == id
    {
      ghost var before := storage.mutations;
      var inFlight := Queue.WithStatus(storage.mutations, Queue.IN_FLIGHT);
      Queue.WithStatusMembers(before, Queue.IN_FLIGHT);
      repairs := [];
      for i := 0 to |inFlight|
        invariant storage.Valid()
        invariant storage.mutations == Reset(before, repairs)
        invariant |repairs| == i && forall j | 0 <= j < i :: repairs[j] == inFlight[j].id
      {
        var found := mutationQueue.UpdateMutationStatus(inFlight[i].id, Queue.PENDING);
        repairs := repairs + [inFlight[i].id];
      }
      ResetAll(before, inFlight, repairs);
    }
  }

  lemma PutIsUpdate(q: Queue.Mutations, m: Mutation, t: Queue.Transition)
    requires Queue.DistinctIds(q) && m in q
    ensures Queue.Enqueue(q, Queue.Transit(m, t)) == Queue.Update(q, m.id, t)
  {
    var i :| 0 <= i < |q| && q[i] == m;
    assert Queue.Transit(m, t).id == m.id && q[i].id == m.id;
  }

  lemma NothingToUpdate(q: Queue.Mutations, id: string, t: Queue.Transition)
    requires !Queue.Has(q, id)
    ensures Queue.Update(q, id, t) == q
  {
  }

  /** The mutations whose ids are listed are due again. */
  function Reset(q: Queue.Mutations, ids: seq<string>): Queue.Mutations {
    seq(|q|, i requires 0 <= i < |q| => if q[i].id in ids then Queue.Transit(q[i], Queue.ResetToPending) else q[i])
  }

  lemma ResetAll(q: Queue.Mutations, inFlight: Queue.Mutations, ids: seq<string>)
    requires Queue.DistinctIds(q)
    requires forall x :: x in inFlight <==> x in q && x.status.IN_FLIGHT?
    requires |ids| == |inFlight| && forall j | 0 <= j < |ids| :: ids[j] == inFlight[j].id
    ensures Reset(q, ids) == Queue.ResetInFlight(q)
    ensures forall id :: id in ids <==> exists m :: m in q && m.status.IN_FLIGHT? && m.id == id
  {
    forall m | m in inFlight ensures m.id in ids {
      var j :| 0 <= j < |inFlight| && inFlight[j] == m;
      assert ids[j] == m.id;
    }
    forall i | 0 <= i < |q| ensures q[i].id in ids <==> q[i].status.IN_FLIGHT? {
      if q[i].id in ids {
        var j :| 0 <= j < |ids| && ids[j] == q[i].id;
        assert inFlight[j] in inFlight;
        var l :| 0 <= l < |q| && q[l] == inFlight[j];
        assert l == i;
      }
      if q[i].status.IN_FLIGHT? {
        assert q[i] in inFlight;
      }
    }
    forall id | id in ids ensures exists m :: m in q && m.status.IN_FLIGHT? && m.id == id {
      var j :| 0 <= j < |ids| && ids[j] == id;
      assert inFlight[j] in inFlight;
    }
  }
}
