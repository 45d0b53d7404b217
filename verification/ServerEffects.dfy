/** What the server stores, logs, tracks and hands out after every run, told field by
    field in terms of the accepted mutations. */
module ServerEffects {
  import opened Json
  import opened Protocol
  import opened ServerSpec
  import opened ServerLaws
  import opened ServerRequests
  import FieldOperations

  // ----- Where a stored entity comes from

  predicate FirstOf(h: seq<Applied>, k: Key, i: int) {
    0 <= i < |h| && h[i].mutation.key == k && forall j | 0 <= j < i :: h[j].mutation.key != k
  }

  predicate LastOf(h: seq<Applied>, k: Key, i: int) {
    0 <= i < |h| && h[i].mutation.key == k && forall j | i < j < |h| :: h[j].mutation.key != k
  }

  /** Not deleted, created when its first mutation was, updated when its last one was
      accepted. */
  ghost predicate Originates(h: seq<Applied>, k: Key, e: Entity) {
    && !e.isDeleted
    && (exists i :: FirstOf(h, k, i) && e.createdAt == h[i].mutation.createdAt)
    && (exists i :: LastOf(h, k, i) && e.updatedAt == h[i].now)
  }

  lemma {:induction false} OriginLaw(h: seq<Applied>, k: Key)
    requires Replayable(h) && k in StoreOf(h)
    ensures Originates(h, k, StoreOf(h)[k])
  {
    var before, last := h[..|h| - 1], h[|h| - 1];
    assert h == before + [last];
    if k in StoreOf(before) {
      OriginLaw(before, k);
      OriginExtends(before, last, k, StoreOf(before)[k]);
      if last.mutation.key == k {
        UpdatedEntity(StoreOf(before)[k], last.mutation, last.now);
      }
    } else {
      CreatedEntity(h, last, k);
    }
  }

  lemma UpdatedEntity(e: Entity, m: ProtocolMutation, now: Stamp)
    ensures var after := Result(Some(e), m, now);
            after.isDeleted == e.isDeleted && after.createdAt == e.createdAt && after.updatedAt == now
  {
  }

  lemma {:induction false} CreatedEntity(h: seq<Applied>, last: Applied, k: Key)
    requires h != [] && h[|h| - 1] == last && last.mutation.key == k && k !in StoreOf(h[..|h| - 1])
    requires last.entity == Result(None, last.mutation, last.now)
    ensures Originates(h, k, last.entity)
  {
    var before := h[..|h| - 1];
    NeverTouched(before, k);
    assert forall i | 0 <= i < |h| - 1 :: h[i] == before[i];
    assert FirstOf(h, k, |h| - 1) && LastOf(h, k, |h| - 1);
  }

  lemma {:induction false} NeverTouched(h: seq<Applied>, k: Key)
    requires k !in StoreOf(h)
    ensures forall i | 0 <= i < |h| :: h[i].mutation.key != k
  {
    if h != [] {
      NeverTouched(h[..|h| - 1], k);
      assert forall i | 0 <= i < |h| - 1 :: h[i] == h[..|h| - 1][i];
    }
  }

  lemma OriginExtends(before: seq<Applied>, last: Applied, k: Key, e: Entity)
    requires Originates(before, k, e)
    ensures var h := before + [last];
            && (exists i :: FirstOf(h, k, i) && e.createdAt == h[i].mutation.createdAt)
            && (last.mutation.key != k ==> Originates(h, k, e))
            && (last.mutation.key == k ==> LastOf(h, k, |before|))
  {
    var h := before + [last];
    var i :| FirstOf(before, k, i) && e.createdAt == before[i].mutation.createdAt;
    assert FirstOf(h, k, i) && h[i] == before[i];
    if last.mutation.key != k {
      var j :| LastOf(before, k, j) && e.updatedAt == before[j].now;
      assert LastOf(h, k, j) && h[j] == before[j];
    }
  }

  /** After every run of requests and prunings each stored entity is not deleted, was
      created with the time of its first mutation and updated when its last one was
      accepted, and its revision is the number of its mutations. */
  lemma {:induction false} StoredEntityOrigin(events: seq<ServerEvent>, k: Key)
    requires k in Run(events).entities
    ensures Originates(Run(events).history, k, Run(events).entities[k])
    ensures Run(events).entities[k].revision == Count(Run(events).history, k)
  {
    HistoryLaw(events);
    OriginLaw(Run(events).history, k);
    RevisionCounts(Run(events).history, k);
  }

  /** The entry a run has logged last is numbered with the head, entry by entry back to
      what pruning has taken; each names what its mutation did and carries the entity
      of that moment. */
  lemma {:induction false} LogEntry(events: seq<ServerEvent>, i: nat)
    requires i < |Run(events).log|
    ensures var s := Run(events);
            var p := |s.history| - |s.log| + i;
            && 0 <= p < |s.history|
            && s.log[i].serverSequence == p + 1
            && s.log[i].key == s.history[p].mutation.key
            && s.log[i].operation == s.history[p].mutation.operation
            && s.log[i].field == s.history[p].mutation.field
            && s.log[i].value == s.history[p].mutation.value
            && Originates(s.history[..p + 1], s.log[i].key, s.log[i].entity)
            && s.log[i].entity.updatedAt == s.history[p].now
  {
    var s := Run(events);
    HistoryLaw(events);
    var p := Lost(s) + i;
    assert s.log[i] == Logged(s.history)[p];
    ReplayablePrefix(s.history, p + 1);
    var upTo := s.history[..p + 1];
    assert upTo[|upTo| - 1] == s.history[p];
    OriginLaw(upTo, s.history[p].mutation.key);
  }

  // ----- What stays known

  /** A pruning to n keeps exactly the ids tracked at n or later, at the same place. */
  lemma PrunedTracker(s: Server, n: int)
    ensures forall id :: id in Prune(s, Position(n)).tracked <==> id in s.tracked && s.tracked[id] >= n
    ensures forall id | id in Prune(s, Position(n)).tracked :: Prune(s, Position(n)).tracked[id] == s.tracked[id]
  {
  }

  /** Every entry that the log still has is known by its id, at its own position or a
      later one. */
  predicate LogIsTracked(s: Server) {
    && |s.log| <= |s.history| && s.nextSequence == |s.history| + 1
    && forall p | Lost(s) <= p < |s.history| ::
         s.history[p].mutation.id in s.tracked && s.tracked[s.history[p].mutation.id] > p
  }

  lemma {:induction false} ProcessTracksLog(s: Server, ms: seq<ProtocolMutation>, now: Stamp)
    requires LogIsTracked(s)
    ensures LogIsTracked(Process(s, ms, now).server)
  {
    if ms != [] {
      ProcessTracksLog(s, ms[..|ms| - 1], now);
    }
  }

  lemma {:induction false} PruneTracksLog(s: Server, c: Cursor)
    requires LogConsistent(s) && LogIsTracked(s)
    ensures LogIsTracked(Prune(s, c))
  {
    if Number(c).Some? {
      PruneKeepsLog(s, c);
      KnownStays(s, Number(c).value, Prune(s, c).tracked, Lost(Prune(s, c)));
    }
  }

  lemma KnownStays(s: Server, n: int, tracked: map<string, int>, from: int)
    requires LogIsTracked(s) && Lost(s) <= from && (from < |s.history| ==> n <= from + 1)
    requires forall id | id in s.tracked && s.tracked[id] >= n :: id in tracked && tracked[id] == s.tracked[id]
    ensures forall p | from <= p < |s.history| :: s.history[p].mutation.id in tracked && tracked[s.history[p].mutation.id] > p
  {
  }

  lemma {:induction false} RunTracksLog(events: seq<ServerEvent>)
    ensures LogIsTracked(Run(events))
  {
    if events != [] {
      var before := events[..|events| - 1];
      RunTracksLog(before);
      HistoryLaw(before);
      match events[|events| - 1]
      case Sync(request, now) => ProcessTracksLog(Run(before), request.mutations, now);
      case SetMinimum(cursor) => PruneTracksLog(Run(before), cursor);
    }
  }

  /** In every run, whatever the log still holds is known: sent again, with whatever
      base, it is acknowledged and changes nothing. */
  lemma {:induction false} ResendOfLoggedIsDuplicate(events: seq<ServerEvent>, p: int, m: ProtocolMutation, now: Stamp)
    requires |Run(events).log| <= |Run(events).history|
    requires Lost(Run(events)) <= p < |Run(events).history| && m.id == Run(events).history[p].mutation.id
    ensures Process(Run(events), [m], now) == Answers(Run(events), [m.id], [])
  {
    var s := Run(events);
    RunTracksLog(events);
    assert [m][..0] == [] && Process(s, [], now) == Answers(s, [], []);
  }

  /** A request is refused exactly if its cursor and the minimum are numbers and the first
      is the smaller one; the client is then told the minimum, and nothing changes. */
  lemma RefusedIff(s: Server, request: SyncRequest, now: Stamp)
    ensures HandleSync(s, request, now).reply.CursorTooOld? <==>
            request.cursor.Position? && !s.minimum.Unparsable? && request.cursor.n < if s.minimum.Position? then s.minimum.n else 0
    ensures HandleSync(s, request, now).reply.CursorTooOld? ==> HandleSync(s, request, now) == Handled(s, CursorTooOld(s.minimum))
  {
  }

  /** A client without a cursor, or with one that is no number, is never refused and is
      sent all that the log holds. */
  lemma {:induction false} NoCursorGetsTheLog(events: seq<ServerEvent>, text: string)
    ensures !Refused(Run(events), NoCursor) && ChangesSince(Run(events).log, NoCursor) == Run(events).log
    ensures !Refused(Run(events), Unparsable(text)) && ChangesSince(Run(events).log, Unparsable(text)) == Run(events).log
  {
    WholeLog(events);
  }

  lemma {:induction false} WholeLog(events: seq<ServerEvent>)
    ensures After(Run(events).log, 0) == Run(events).log
  {
    HistoryLaw(events);
    AfterIsSuffix(Run(events).history, Lost(Run(events)), 0);
  }

  /** A minimum that is no number prunes nothing, and refuses nobody. */
  lemma OddMinimum(s: Server, text: string, c: Cursor)
    ensures Prune(s, Unparsable(text)) == s.(minimum := Unparsable(text))
    ensures !Refused(Prune(s, Unparsable(text)), c)
  {
  }

  // ----- What an operation does to the data

  /** The number a field holds, zero if it holds none. */
  function NumberIn(data: Object, f: string): int {
    if f in data.fields && data.fields[f].Num? then data.fields[f].n else 0
  }

  function ItemsIn(data: Object, f: string): seq<Json> {
    if f in data.fields && data.fields[f].Arr? then data.fields[f].items else []
  }

  function Amount(v: Json): int {
    if v.Num? then v.n else 0
  }

  /** Leaving a value out goes item by item: the equal scalars go, wherever they
      stand, and what is kept keeps its order. */
  lemma {:induction false} WithoutDistributes(a: seq<Json>, b: seq<Json>, v: Json)
    ensures FieldOperations.Without(a + b, v) == FieldOperations.Without(a, v) + FieldOperations.Without(b, v)
  {
    if a == [] {
      assert a + b == b;
    } else {
      assert (a + b)[1..] == a[1..] + b && (a + b)[0] == a[0];
      WithoutHead(a + b, v);
      WithoutHead(a, v);
      WithoutDistributes(a[1..], b, v);
    }
  }

  lemma WithoutHead(a: seq<Json>, v: Json)
    requires a != []
    ensures FieldOperations.Without(a, v) ==
            (if IsScalar(v) && a[0] == v then [] else [a[0]]) + FieldOperations.Without(a[1..], v)
  {
  }

  lemma {:induction false} WithoutSingle(x: Json, v: Json)
    ensures FieldOperations.Without([x], v) == if IsScalar(v) && x == v then [] else [x]
  {
    assert [x][1..] == [];
  }

  /** The data after an operation on a field, read at that field. */
  lemma FieldEffect(data: Object, m: ProtocolMutation)
    requires m.field.Some? && !m.operation.Set? && !m.operation.Patch?
    ensures NewData(data, m).Obj?
    ensures var f, after := m.field.value, Get(NewData(data, m).fields, m.field.value);
            && (m.operation.Increment? ==> after == Some(Num(NumberIn(data, f) + Amount(m.value))))
            && (m.operation.Decrement? ==> after == Some(Num(NumberIn(data, f) - Amount(m.value))))
            && (m.operation.Add? ==> after == Some(Arr(ItemsIn(data, f) + [m.value])))
            && (m.operation.Other? ==> after == Get(data.fields, f))
            && (m.operation.Remove? ==>
                  if f in data.fields && data.fields[f].Arr?
                  then after == Some(Arr(FieldOperations.Without(data.fields[f].items, m.value)))
                  else after == Get(data.fields, f))
  {
  }

  /** The client's resolver does the same to the server's data, except that it adds an
      item only once and leaves an array behind where there was none. */
  lemma ClientFieldEffect(data: Object, op: FieldOperations.FieldOp)
    ensures var f, after := op.field, Get(FieldOperations.ApplyFieldOperation(data, op).fields, op.field);
            && (op.operation.Increment? ==> after == Some(Num(NumberIn(data, f) + Amount(op.value))))
            && (op.operation.Decrement? ==> after == Some(Num(NumberIn(data, f) - Amount(op.value))))
            && (op.operation.Add? ==>
                  after == Some(Arr(if IsScalar(op.value) && op.value in ItemsIn(data, f) then ItemsIn(data, f)
                                    else ItemsIn(data, f) + [op.value])))
            && (op.operation.Remove? ==>
                  after == Some(Arr(FieldOperations.Without(ItemsIn(data, f), op.value))))
            && (op.operation.Set? || op.operation.Patch? || op.operation.Other? ==> after == Get(data.fields, f))
    ensures forall k | k != op.field :: Get(FieldOperations.ApplyFieldOperation(data, op).fields, k) == Get(data.fields, k)
  {
  }

  /** A `set` makes the value the data, null the empty record; without a field the
      operations on fields change no object. */
  lemma WholeEffect(data: Object, m: ProtocolMutation)
    ensures m.operation.Set? ==> NewData(data, m) == if m.value == Null then Obj(map[]) else m.value
    ensures m.field.None? && !m.operation.Set? && !m.operation.Patch? ==> NewData(data, m) == data
  {
  }
}
