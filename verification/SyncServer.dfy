/** The server as objects: a change log, a deduplication
    tracker and the request handler that updates both. Every method is proved
    against the state functions of ServerSpec. */
module SyncServer {
  import opened Json
  import opened Protocol
  import opened ServerSpec

  class ServerChangeLog {
    var entries: seq<Change>
    var nextSequence: int
    var minimumAvailableCursor: Cursor

    constructor ()
      ensures entries == [] && nextSequence == 1 && minimumAvailableCursor == Position(0)
    {
      entries, nextSequence, minimumAvailableCursor := [], 1, Position(0);
    }

    method Append(applied: Applied) returns (serverSequence: int)
      modifies this
      ensures serverSequence == old(nextSequence)
      ensures entries == old(entries) + [ChangeOf(serverSequence, applied)]
      ensures entries[|entries| - 1] == Change(serverSequence, applied.mutation.key, applied.entity, applied.mutation.operation,
                                               applied.mutation.field, applied.mutation.value)
      ensures nextSequence == serverSequence + 1
      ensures minimumAvailableCursor == old(minimumAvailableCursor)
    {
      serverSequence := nextSequence;
      nextSequence := nextSequence + 1;
      var m := applied.mutation;
      entries := entries + [Change(serverSequence, m.key, applied.entity, m.operation, m.field, m.value)];
    }

    method GetChangesSince(cursor: Cursor) returns (changes: seq<Change>)
      ensures changes == ChangesSince(entries, cursor)
    {
      var cursorSequence := Number(cursor);
      if cursorSequence.None? {
        return entries;
      }
      changes := [];
      for i := 0 to |entries|
        invariant changes == After(entries[..i], cursorSequence.value)
      {
        assert entries[..i + 1][..i] == entries[..i];
        if entries[i].serverSequence > cursorSequence.value {
          changes := changes + [entries[i]];
        }
      }
      assert entries[..|entries|] == entries;
    }

    method SetMinimumAvailableCursor(cursor: Cursor)
      modifies this
      ensures minimumAvailableCursor == cursor && nextSequence == old(nextSequence)
      ensures entries == if Number(cursor).Some? then Retained(old(entries), Number(cursor).value) else old(entries)
      ensures Number(cursor).Some? ==> forall c :: c in entries <==> c in old(entries) && c.serverSequence >= Number(cursor).value
    {
      minimumAvailableCursor := cursor;
      var sequence := Number(cursor);
      if sequence.Some? {
        var kept: seq<Change> := [];
        for i := 0 to |entries|
          invariant entries == old(entries)
          invariant kept == Retained(entries[..i], sequence.value)
          invariant forall c :: c in kept <==> c in entries[..i] && c.serverSequence >= sequence.value
        {
          assert entries[..i + 1][..i] == entries[..i];
          if entries[i].serverSequence >= sequence.value {
            kept := kept + [entries[i]];
          }
        }
        assert entries[..|entries|] == entries;
        entries := kept;
      }
    }
  }

  class ServerMutationTracker {
    var mutations: map<string, int>

    constructor ()
      ensures mutations == map[]
    {
      mutations := map[];
    }

    method Record(mutationId: string, serverSequence: int)
      modifies this
      ensures mutations == old(mutations)[mutationId := serverSequence]
    {
      mutations := mutations[mutationId := serverSequence];
    }

    /** Deletes while iterating, counting what goes. */
    method PruneBelowSequence(minSequence: int) returns (pruned: int)
      modifies this
      ensures mutations == StillTracked(old(mutations), minSequence)
      ensures forall id :: id in mutations <==> id in old(mutations) && old(mutations)[id] >= minSequence
      ensures forall id | id in mutations :: mutations[id] == old(mutations)[id]
      ensures pruned == |old(mutations)| - |mutations|
    {
      pruned := 0;
      ghost var before := mutations;
      var todo := mutations.Keys;
      while todo != {}
        invariant todo <= before.Keys
        invariant mutations == map id | id in before && (id in todo || before[id] >= minSequence) :: before[id]
        invariant |mutations| + pruned == |before|
      {
        var id :| id in todo;
        if mutations[id] < minSequence {
          mutations := mutations - {id};
          pruned := pruned + 1;
        }
        todo := todo - {id};
      }
    }
  }

  class SyncServer {
    var entities: map<Key, Entity>
    const changeLog: ServerChangeLog
    const mutationTracker: ServerMutationTracker
    ghost var history: seq<Applied>
    ghost var pruned: int

    ghost function State(): Server
      reads this, changeLog, mutationTracker
    {
      Server(entities, changeLog.entries, changeLog.nextSequence, changeLog.minimumAvailableCursor,
             mutationTracker.mutations, history, pruned)
    }

    constructor ()
      ensures State() == INITIAL
      ensures fresh(changeLog) && fresh(mutationTracker)
    {
      entities := map[];
      changeLog := new ServerChangeLog();
      mutationTracker := new ServerMutationTracker();
      history, pruned := [], 0;
    }

    /** Judges one mutation and stores the entity it makes; the log and the
        tracker are the caller's business. */
    method ProcessMutation(m: ProtocolMutation, now: Stamp) returns (verdict: Verdict)
      modifies this`entities
      ensures verdict == Judge(old(State()), m, now)
      ensures entities == if verdict.Accepted? then old(entities)[m.key := verdict.entity] else old(entities)
      ensures verdict.Duplicate? <==> m.id in mutationTracker.mutations
      ensures verdict.Conflicting? <==> m.id !in mutationTracker.mutations && m.baseRevision != RevisionOf(old(entities), m.key)
      ensures verdict.Accepted? ==> verdict.entity.revision == m.baseRevision + 1 && verdict.entity.updatedAt == now
      ensures verdict.Accepted? && m.key in old(entities) ==>
                verdict.entity.createdAt == old(entities)[m.key].createdAt && verdict.entity.isDeleted == old(entities)[m.key].isDeleted
      ensures verdict.Accepted? && m.key !in old(entities) ==>
                verdict.entity.createdAt == m.createdAt && !verdict.entity.isDeleted
    {
      if m.id in mutationTracker.mutations {
        return Duplicate;
      }
      var entity: Entity;
      if m.key in entities {
        var existing := entities[m.key];
        if m.baseRevision != existing.revision {
          return Conflicting(ConflictInfo(m.id, m.key, m.baseRevision, existing.revision, existing));
        }
        entity := ApplyMutation(existing, m, now);
      } else {
        if m.baseRevision != 0 {
          return Conflicting(ConflictInfo(m.id, m.key, m.baseRevision, 0, Entity(EMPTY, 0, Blank, Blank, true)));
        }
        entity := ApplyMutation(Entity(EMPTY, 0, m.createdAt, now, false), m, now);
      }
      entities := entities[m.key := entity];
      verdict := Accepted(entity);
    }

    method HandleSyncRequest(request: SyncRequest, now: Stamp) returns (reply: SyncReply)
      modifies this, changeLog, mutationTracker
      ensures State() == HandleSync(old(State()), request, now).server
      ensures reply == HandleSync(old(State()), request, now).reply
      ensures reply.CursorTooOld? ==> reply.minimum == changeLog.minimumAvailableCursor && State() == old(State())
    {
      if !request.cursor.NoCursor? && TooOld(changeLog.minimumAvailableCursor, request.cursor) {
        return CursorTooOld(changeLog.minimumAvailableCursor);
      }
      var acknowledged, conflicts := ProcessMutations(request.mutations, now);
      var changes := changeLog.GetChangesSince(if request.cursor.NoCursor? then Position(0) else request.cursor);
      reply := Response(SyncResponse(changes, acknowledged, conflicts, Position(changeLog.nextSequence - 1)));
    }

    /** One verdict after the other, each on the state that the ones before have left. */
    method ProcessMutations(ms: seq<ProtocolMutation>, now: Stamp) returns (acknowledged: seq<string>, conflicts: seq<ConflictInfo>)
      modifies this, changeLog, mutationTracker
      ensures Answers(State(), acknowledged, conflicts) == Process(old(State()), ms, now)
    {
      acknowledged, conflicts := [], [];
      for i := 0 to |ms|
        invariant Answers(State(), acknowledged, conflicts) == Process(old(State()), ms[..i], now)
      {
        assert ms[..i + 1][..i] == ms[..i];
        var verdict := ProcessMutation(ms[i], now);
        match verdict {
          case Conflicting(info) =>
            conflicts := conflicts + [info];
          case Duplicate =>
            acknowledged := acknowledged + [ms[i].id];
          case Accepted(entity) =>
            acknowledged := acknowledged + [ms[i].id];
            RecordAccepted(Applied(ms[i], now, entity));
        }
      }
      assert ms[..|ms|] == ms;
    }

    /** The entity is already stored; log, tracker and history follow. */
    method RecordAccepted(applied: Applied)
      modifies changeLog, mutationTracker, this`history
      ensures State() == old(State()).(
                log := old(changeLog.entries) + [ChangeOf(old(changeLog.nextSequence), applied)],
                nextSequence := old(changeLog.nextSequence) + 1,
                tracked := old(mutationTracker.mutations)[applied.mutation.id := old(changeLog.nextSequence)],
                history := old(history) + [applied])
    {
      var serverSequence := changeLog.Append(applied);
      mutationTracker.Record(applied.mutation.id, serverSequence);
      history := history + [applied];
    }

    method HandleSnapshotRequest(collections: seq<string>) returns (response: SnapshotResponse)
      ensures response == Snapshot(State(), collections)
      ensures forall k :: k in response.entities <==> k in entities && (collections == [] || k.collection in collections)
      ensures forall k | k in response.entities :: response.entities[k] == entities[k]
    {
      response := SnapshotResponse(
        if |collections| > 0 then map k | k in entities && k.collection in collections :: entities[k] else entities,
        Position(changeLog.nextSequence - 1));
    }

    method SetMinimumAvailableCursor(cursor: Cursor)
      modifies this, changeLog, mutationTracker
      ensures State() == Prune(old(State()), cursor)
    {
      changeLog.SetMinimumAvailableCursor(cursor);
      var sequence := Number(cursor);
      if sequence.Some? {
        var dropped := mutationTracker.PruneBelowSequence(sequence.value);
        pruned := pruned + dropped;
      }
    }
  }
}
