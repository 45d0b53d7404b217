/** A collection with mutation tracking as objects: the sequence tracker, the recorder
    and the atomic writes. Proved against LocalWrites. */
module Collections {
  import opened Json
  import opened Protocol
  import opened LocalWrites
  import opened ClientStorage
  import Queue

  class SequenceTracker {
    var nextSequenceByCollection: map<string, int>

    constructor ()
      ensures nextSequenceByCollection == map[]
    {
      nextSequenceByCollection := map[];
    }

    method Next(collection: string) returns (next: int)
      modifies this
      ensures next == Current(old(nextSequenceByCollection), collection) + 1
      ensures nextSequenceByCollection == old(nextSequenceByCollection)[collection := next]
    {
      var current := if collection in nextSequenceByCollection then nextSequenceByCollection[collection] else 0;
      next := current + 1;
      nextSequenceByCollection := nextSequenceByCollection[collection := next];
    }

    /** Never goes back behind a number that was already handed out. */
    method Initialize(collection: string, maxSequence: int)
      modifies this
      ensures Current(nextSequenceByCollection, collection) ==
              var before := Current(old(nextSequenceByCollection), collection);
              if maxSequence > before then maxSequence else before
      ensures forall c | c != collection :: Current(nextSequenceByCollection, c) == Current(old(nextSequenceByCollection), c)
    {
      var current := if collection in nextSequenceByCollection then nextSequenceByCollection[collection] else 0;
      if maxSequence > current {
        nextSequenceByCollection := nextSequenceByCollection[collection := maxSequence];
      }
    }
  }

  /** Where a transaction may break off. */
  datatype Fault = NoFault | OnEntity | OnMutation | OnCommit

  class Collection {
    const name: string
    const storage: Storage
    const mutationQueue: MutationQueue
    const tracker: SequenceTracker

    constructor (name: string, storage: Storage, tracker: SequenceTracker)
      ensures this.name == name && this.storage == storage && this.tracker == tracker
      ensures mutationQueue.storage == storage && fresh(mutationQueue)
    {
      this.name, this.storage, this.tracker := name, storage, tracker;
      mutationQueue := new MutationQueue(storage);
    }

    ghost predicate Valid()
      reads this, storage
    {
      storage.Valid() && mutationQueue.storage == storage
    }

    ghost function State(): Local
      reads this, storage, tracker
    {
      Local(storage.entities, storage.mutations, tracker.nextSequenceByCollection)
    }

    method CreateMutation(key: Key, value: Json, id: string, now: Stamp) returns (m: Mutation)
      modifies tracker
      ensures m == Queue.Mutation(id, key, Set, None, value, Current(old(tracker.nextSequenceByCollection), key.collection) + 1,
                                  Queue.PENDING, now, 0, None)
      ensures tracker.nextSequenceByCollection == old(tracker.nextSequenceByCollection)[key.collection := m.sequence]
    {
      var sequence := tracker.Next(key.collection);
      m := Queue.Mutation(id, key, Set, None, value, sequence, Queue.PENDING, now, 0, None);
    }

    /** Entity and mutation in one transaction, which is undone wherever it breaks
        off. The number is taken before the transaction begins. */
    method AtomicWrite(key: Key, entity: Entity, creates: bool, id: string, now: Stamp, fault: Fault) returns (committed: bool)
      requires Valid()
      modifies storage, tracker
      ensures Valid() && storage.cursor == old(storage.cursor)
      ensures committed <==> fault.NoFault? && !(creates && key in old(storage.entities))
      ensures var sequence := Current(old(tracker.nextSequenceByCollection), key.collection) + 1;
              var m := Queue.Mutation(id, key, Set, None, entity.data, sequence, Queue.PENDING, now, 0, None);
              var counted := old(State()).(sequences := old(tracker.nextSequenceByCollection)[key.collection := sequence]);
              State() == if committed
                         then counted.(entities := old(storage.entities)[key := entity], queue := Queue.Enqueue(old(storage.mutations), m))
                         else counted
    {
      var mutation := CreateMutation(key, entity.data, id, now);
      var savedEntities, savedMutations := storage.entities, storage.mutations;
      committed := !(creates && key in storage.entities);
      if committed && fault != OnEntity {
        storage.entities := storage.entities[key := entity];
        if fault != OnMutation {
          mutationQueue.Enqueue(mutation);
        }
      }
      if !committed || fault != NoFault {
        storage.entities, storage.mutations := savedEntities, savedMutations;
        committed := false;
      }
    }

    method Create(id: string, data: Json, mutationId: string, now: Stamp, fault: Fault) returns (created: Option<Entity>)
      requires Valid()
      modifies storage, tracker
      ensures Valid() && storage.cursor == old(storage.cursor)
      ensures State() == Attempted(old(State()), Attempt(Key(name, id), LocalWrites.Create(data), mutationId, now, fault != NoFault))
      ensures created == if fault.NoFault? && Key(name, id) !in old(storage.entities)
                         then Some(Entity(data, 1, now, now, false)) else None
      ensures created.Some? ==> storage.entities == old(storage.entities)[Key(name, id) := created.value]
      ensures created.None? ==> storage.entities == old(storage.entities) && storage.mutations == old(storage.mutations)
    {
      var entity := Entity(data, 1, now, now, false);
      var committed := AtomicWrite(Key(name, id), entity, true, mutationId, now, fault);
      created := if committed then Some(entity) else None;
    }

    method Put(id: string, entity: Entity, mutationId: string, now: Stamp, fault: Fault) returns (stored: bool)
      requires Valid()
      modifies storage, tracker
      ensures Valid() && storage.cursor == old(storage.cursor)
      ensures State() == Attempted(old(State()), Attempt(Key(name, id), LocalWrites.Put(entity), mutationId, now, fault != NoFault))
      ensures stored == fault.NoFault?
      ensures stored ==> storage.entities == old(storage.entities)[Key(name, id) := entity]
      ensures !stored ==> storage.entities == old(storage.entities) && storage.mutations == old(storage.mutations)
    {
      stored := AtomicWrite(Key(name, id), entity, false, mutationId, now, fault);
    }

    method Update(id: string, partial: Json, mutationId: string, now: Stamp, fault: Fault) returns (updated: Option<Entity>)
      requires Valid()
      modifies storage, tracker
      ensures Valid() && storage.cursor == old(storage.cursor)
      ensures State() == Attempted(old(State()), Attempt(Key(name, id), LocalWrites.Update(partial), mutationId, now, fault != NoFault))
      ensures updated.Some? <==> Key(name, id) in old(storage.entities) && fault.NoFault?
      ensures updated.Some? ==> Get(storage.entities, Key(name, id)) == updated
      ensures updated.Some? ==> UpdatedTo(old(storage.entities)[Key(name, id)], partial, now, updated.value)
      ensures updated.None? ==> storage.entities == old(storage.entities) && storage.mutations == old(storage.mutations)
    {
      var key := Key(name, id);
      if key !in storage.entities {
        return None;
      }
      var existing := storage.entities[key];
      var entity := existing.(data := Obj(Spread(existing.data) + Spread(partial)), revision := existing.revision + 1, updatedAt := now);
      var committed := AtomicWrite(key, entity, false, mutationId, now, fault);
      updated := if committed then Some(entity) else None;
    }

    method Delete(id: string, mutationId: string, now: Stamp, fault: Fault) returns (deleted: Option<Entity>)
      requires Valid()
      modifies storage, tracker
      ensures Valid() && storage.cursor == old(storage.cursor)
      ensures State() == Attempted(old(State()), Attempt(Key(name, id), LocalWrites.Delete, mutationId, now, fault != NoFault))
      ensures deleted.Some? <==> Key(name, id) in old(storage.entities) && fault.NoFault?
      ensures deleted.Some? ==> Get(storage.entities, Key(name, id)) == deleted
      ensures deleted.Some? ==> DeletedTo(old(storage.entities)[Key(name, id)], now, deleted.value)
      ensures deleted.None? ==> storage.entities == old(storage.entities) && storage.mutations == old(storage.mutations)
    {
      var key := Key(name, id);
      if key !in storage.entities {
        return None;
      }
      var existing := storage.entities[key];
      var entity := existing.(isDeleted := true, revision := existing.revision + 1, updatedAt := now);
      var committed := AtomicWrite(key, entity, false, mutationId, now, fault);
      deleted := if committed then Some(entity) else None;
    }
  }
}
