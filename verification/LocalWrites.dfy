/** Local writes: every committed write stores its entity and one mutation, a
    failed one stores neither but has used up a sequence number. */
module LocalWrites {
  import opened Json
  import opened Protocol
  import Queue

  type Mutation = Queue.Mutation

  datatype Write = Create(data: Json) | Put(entity: Entity) | Update(partial: Json) | Delete

  /** One call on a collection. `fails` says that its transaction throws. */
  datatype Attempt = Attempt(key: Key, write: Write, id: string, now: Stamp, fails: bool)

  /** `sequences` is the recorder's memory of the last number per collection. */
  datatype Local = Local(entities: map<Key, Entity>, queue: Queue.Mutations, sequences: map<string, int>)

  const NOTHING := Local(map[], [], map[])

  function Current(sequences: map<string, int>, collection: string): int {
    if collection in sequences then sequences[collection] else 0
  }

  /** The entity a call wants to store; updating or deleting what is not there throws. */
  function Intended(entities: map<Key, Entity>, a: Attempt): Option<Entity> {
    match a.write
    case Create(data) => Some(Entity(data, 1, a.now, a.now, false))
    case Put(entity) => Some(entity)
    case Update(partial) =>
      if a.key !in entities then None
      else
        var e := entities[a.key];
        Some(e.(data := Obj(Spread(e.data) + Spread(partial)), revision := e.revision + 1, updatedAt := a.now))
    case Delete =>
      if a.key !in entities then None
      else
        var e := entities[a.key];
        Some(e.(isDeleted := true, revision := e.revision + 1, updatedAt := a.now))
  }

  /** Every write, a deletion too, is recorded as a `set` of the entity's data. */
  function Recorded(a: Attempt, entity: Entity, sequence: int): Mutation {
    Queue.Mutation(a.id, a.key, Set, None, entity.data, sequence, Queue.PENDING, a.now, 0, None)
  }

  predicate RollsBack(entities: map<Key, Entity>, a: Attempt) {
    a.fails || (a.write.Create? && a.key in entities)
  }

  predicate Commits(entities: map<Key, Entity>, a: Attempt) {
    Intended(entities, a).Some? && !RollsBack(entities, a)
  }

  function Attempted(l: Local, a: Attempt): Local {
    match Intended(l.entities, a)
    case None => l
    case Some(entity) =>
      var sequence := Current(l.sequences, a.key.collection) + 1;
      var counted := l.(sequences := l.sequences[a.key.collection := sequence]);
      if RollsBack(l.entities, a) then counted
      else counted.(entities := l.entities[a.key := entity],
                    queue := Queue.Enqueue(l.queue, Recorded(a, entity, sequence)))
  }

  // ----- What a write stores and records

  /** A record in which every field that `partial` names holds partial's value and every
      other field what `before` held. */
  ghost predicate Overwritten(before: Json, partial: Json, after: Json) {
    after.Obj? && forall f: string ::
      && (f in Spread(partial) ==> f in after.fields && after.fields[f] == Spread(partial)[f])
      && (f !in Spread(partial) && f in Spread(before) ==> f in after.fields && after.fields[f] == Spread(before)[f])
      && (f !in Spread(partial) && f !in Spread(before) ==> f !in after.fields)
  }

  /** The entity that an update leaves in place of `e`. */
  ghost predicate UpdatedTo(e: Entity, partial: Json, now: Stamp, after: Entity) {
    && Overwritten(e.data, partial, after.data) && after.revision == e.revision + 1
    && after.createdAt == e.createdAt && after.isDeleted == e.isDeleted && after.updatedAt == now
  }

  /** A deletion keeps data and creation time. */
  predicate DeletedTo(e: Entity, now: Stamp, after: Entity) {
    && after.isDeleted && after.data == e.data && after.revision == e.revision + 1
    && after.createdAt == e.createdAt && after.updatedAt == now
  }

  /** A write commits exactly if its transaction does not throw, a create finds no
      entity and an update or a deletion finds one. */
  lemma CommitsIff(l: Local, a: Attempt)
    ensures Commits(l.entities, a) <==>
            !a.fails && (a.write.Create? ==> a.key !in l.entities) && (a.write.Update? || a.write.Delete? ==> a.key in l.entities)
  {
  }

  /** It stores one entity, whose fields are those its kind of write decides, and
      records it as one more pending `set` of the data under the next number. */
  lemma {:induction false} CommittedEffect(l: Local, a: Attempt)
    requires Commits(l.entities, a) && !Queue.Has(l.queue, a.id)
    ensures var after := Attempted(l, a);
            && a.key in after.entities && after.entities == l.entities[a.key := after.entities[a.key]]
            && var e := after.entities[a.key];
               && (a.write.Create? ==> e == Entity(a.write.data, 1, a.now, a.now, false))
               && (a.write.Put? ==> e == a.write.entity)
               && (a.write.Update? ==> a.key in l.entities && UpdatedTo(l.entities[a.key], a.write.partial, a.now, e))
               && (a.write.Delete? ==> a.key in l.entities && DeletedTo(l.entities[a.key], a.now, e))
               && |after.queue| == |l.queue| + 1 && after.queue[..|l.queue|] == l.queue
               && var m := after.queue[|l.queue|];
                  && m.id == a.id && m.key == a.key && m.operation.Set? && m.field.None? && m.value == e.data
                  && m.status.PENDING? && m.createdAt == a.now && m.retries == 0 && m.lastError.None?
                  && m.sequence == Current(l.sequences, a.key.collection) + 1
                  && after.sequences == l.sequences[a.key.collection := m.sequence]
  {
  }

  /** One that does not commit stores and records nothing; it has used a number up
      unless it threw before the transaction. */
  lemma RefusedEffect(l: Local, a: Attempt)
    requires !Commits(l.entities, a)
    ensures Attempted(l, a).entities == l.entities && Attempted(l, a).queue == l.queue
    ensures Current(Attempted(l, a).sequences, a.key.collection) ==
            Current(l.sequences, a.key.collection) + if (a.write.Update? || a.write.Delete?) && a.key !in l.entities then 0 else 1
    ensures forall c | c != a.key.collection :: Current(Attempted(l, a).sequences, c) == Current(l.sequences, c)
  {
  }

  // ----- Runs with restarts

  datatype Event = Do(attempt: Attempt) | Restart(seeded: set<string>)

  /** The numbers are forgotten; those of the seeded collections are read back. */
  function Reseeded(q: Queue.Mutations, seeded: set<string>): map<string, int> {
    map c | c in seeded && Queue.MaxSequence(q, c) > 0 :: Queue.MaxSequence(q, c)
  }

  function Happen(l: Local, e: Event): Local {
    match e
    case Do(a) => Attempted(l, a)
    case Restart(seeded) => l.(sequences := Reseeded(l.queue, seeded))
  }

  function Run(events: seq<Event>): Local {
    if events == [] then NOTHING else Happen(Run(events[..|events| - 1]), events[|events| - 1])
  }

  predicate FreshIds(events: seq<Event>)
    decreases |events|
  {
    events == [] ||
    var before, last := events[..|events| - 1], events[|events| - 1];
    FreshIds(before) && (last.Do? ==> !Queue.Has(Run(before).queue, last.attempt.id))
  }

  /** Every restart reads the collection's last number back. */
  predicate Seeds(events: seq<Event>, collection: string) {
    forall i | 0 <= i < |events| && events[i].Restart? :: collection in events[i].seeded
  }

  function Committed(events: seq<Event>): nat {
    if events == [] then 0
    else
      var before, last := events[..|events| - 1], events[|events| - 1];
      Committed(before) + if last.Do? && Commits(Run(before).entities, last.attempt) then 1 else 0
  }

  // ----- Sequences

  /** The collection's stored sequences increase in commit order and the recorder
      is at least as far. */
  predicate Increasing(l: Local, collection: string) {
    && (forall i, j | 0 <= i < j < |l.queue| && l.queue[i].key.collection == l.queue[j].key.collection == collection ::
          l.queue[i].sequence < l.queue[j].sequence)
    && (forall i | 0 <= i < |l.queue| && l.queue[i].key.collection == collection ::
          0 < l.queue[i].sequence <= Current(l.sequences, collection))
    && 0 <= Current(l.sequences, collection)
  }

  lemma AttemptIncreasing(l: Local, a: Attempt, collection: string)
    requires Increasing(l, collection) && !Queue.Has(l.queue, a.id)
    ensures Increasing(Attempted(l, a), collection)
  {
  }

  lemma RestartIncreasing(l: Local, seeded: set<string>, collection: string)
    requires Increasing(l, collection) && collection in seeded
    ensures Increasing(Happen(l, Restart(seeded)), collection)
  {
    Queue.MaxSequenceLaw(l.queue, collection);
    forall i | 0 <= i < |l.queue| && l.queue[i].key.collection == collection
      ensures 0 < l.queue[i].sequence <= Queue.MaxSequence(l.queue, collection)
    {
      assert l.queue[i] in l.queue;
    }
  }

  /** A collection's stored sequences are distinct and increase in the order of the
      commits, across failed writes and restarts that read the last number back. */
  lemma {:induction false} SequencesIncrease(events: seq<Event>, collection: string)
    requires FreshIds(events) && Seeds(events, collection)
    ensures Increasing(Run(events), collection)
  {
    if events != [] {
      var before, last := events[..|events| - 1], events[|events| - 1];
      assert forall i | 0 <= i < |before| :: before[i] == events[i];
      SequencesIncrease(before, collection);
      match last {
        case Do(a) => AttemptIncreasing(Run(before), a, collection);
        case Restart(seeded) => RestartIncreasing(Run(before), seeded, collection);
      }
    }
  }

  /** After a restart a collection goes on from its highest stored number if that was read
      back, and from zero if not. */
  lemma RestartNumbers(l: Local, seeded: set<string>, collection: string)
    ensures var from := Current(Happen(l, Restart(seeded)).sequences, collection);
            && (collection !in seeded ==> from == 0) && from >= 0
            && (forall m | m in l.queue && m.key.collection == collection && collection in seeded :: m.sequence <= from)
            && (from > 0 ==> exists m :: m in l.queue && m.key.collection == collection && m.sequence == from)
    ensures Happen(l, Restart(seeded)).entities == l.entities && Happen(l, Restart(seeded)).queue == l.queue
  {
    Queue.MaxSequenceLaw(l.queue, collection);
  }

  // ----- Replay

  function Replay(ms: Queue.Mutations): map<Key, Json> {
    if ms == [] then map[] else Replay(ms[..|ms| - 1])[ms[|ms| - 1].key := ms[|ms| - 1].value]
  }

  /** What replaying by sequence gives for a key. */
  function Replayed(q: Queue.Mutations, k: Key): Option<Json> {
    Get(Replay(Queue.BySequence(q)), k)
  }

  /** A mutation of the key is stored under a higher number. */
  predicate NumberedAbove(q: Queue.Mutations, k: Key, n: int) {
    exists m :: m in q && m.key == k && m.sequence > n
  }

  lemma {:induction false} InsertReplay(sorted: Queue.Mutations, m: Mutation, k: Key)
    requires Queue.Ascending(sorted)
    ensures Get(Replay(Queue.Insert(sorted, m)), k) ==
            if k == m.key && !NumberedAbove(sorted, k, m.sequence) then Some(m.value) else Get(Replay(sorted), k)
  {
    if sorted != [] && sorted[|sorted| - 1].sequence > m.sequence {
      var init, last := sorted[..|sorted| - 1], sorted[|sorted| - 1];
      assert sorted == init + [last];
      InsertReplay(init, m, k);
      ReplaySnoc(Queue.Insert(init, m), last, k);
      ReplaySnoc(init, last, k);
      NumberedAboveSnoc(init, last, k, m.sequence);
    } else {
      ReplaySnoc(sorted, m, k);
      forall x | x in sorted ensures x.sequence <= m.sequence {
        var i :| 0 <= i < |sorted| && sorted[i] == x;
      }
    }
  }

  lemma {:induction false} ReplaySnoc(q: Queue.Mutations, m: Mutation, k: Key)
    ensures Get(Replay(q + [m]), k) == if m.key == k then Some(m.value) else Get(Replay(q), k)
  {
    assert (q + [m])[..|q|] == q;
  }

  lemma NumberedAboveSnoc(q: Queue.Mutations, m: Mutation, k: Key, n: int)
    ensures NumberedAbove(q + [m], k, n) <==> NumberedAbove(q, k, n) || (m.key == k && m.sequence > n)
  {
    assert m in q + [m];
    if NumberedAbove(q, k, n) {
      var x :| x in q && x.key == k && x.sequence > n;
      assert x in q + [m];
    }
  }

  /** One more stored mutation decides its key exactly if none of that key is
      numbered above it, and no other key. */
  lemma {:induction false} AppendReplay(q: Queue.Mutations, m: Mutation, k: Key)
    ensures Replayed(q + [m], k) ==
            if k == m.key && !NumberedAbove(q, k, m.sequence) then Some(m.value) else Replayed(q, k)
  {
    var sorted := Queue.BySequence(q);
    assert (q + [m])[..|q|] == q;
    Queue.BySequenceLaw(q);
    InsertReplay(sorted, m, k);
    forall x ensures x in sorted <==> x in q {
      assert x in multiset(sorted) <==> x in multiset(q);
    }
    assert NumberedAbove(sorted, k, m.sequence) <==> NumberedAbove(q, k, m.sequence);
  }

  function DataOf(entities: map<Key, Entity>, k: Key): Option<Json> {
    if k in entities then Some(entities[k].data) else None
  }

  lemma AttemptReplays(l: Local, a: Attempt, k: Key)
    requires Get(Replay(l.queue), k) == DataOf(l.entities, k) && !Queue.Has(l.queue, a.id)
    ensures Get(Replay(Attempted(l, a).queue), k) == DataOf(Attempted(l, a).entities, k)
    ensures |Attempted(l, a).queue| == |l.queue| + if Commits(l.entities, a) then 1 else 0
  {
    if Commits(l.entities, a) {
      var q := Attempted(l, a).queue;
      assert q[..|q| - 1] == l.queue;
    }
  }

  lemma {:induction false} CommitsReplay(events: seq<Event>, k: Key)
    requires FreshIds(events)
    ensures var l := Run(events);
            |l.queue| == Committed(events) && Get(Replay(l.queue), k) == DataOf(l.entities, k)
  {
    if events != [] {
      var before, last := events[..|events| - 1], events[|events| - 1];
      CommitsReplay(before, k);
      if last.Do? {
        AttemptReplays(Run(before), last.attempt, k);
      }
    }
  }

  predicate ReplaysData(l: Local, k: Key) {
    Replayed(l.queue, k) == DataOf(l.entities, k)
  }

  /** The data a committing call stores. */
  function NewData(l: Local, a: Attempt): Json
    requires Commits(l.entities, a)
  {
    Intended(l.entities, a).value.data
  }

  function NextNumber(l: Local, collection: string): int {
    Current(l.sequences, collection) + 1
  }

  /** After a commit, replay gives the new data exactly if no mutation of the key is
      stored under a higher number than the one handed out, or replay ended on that
      data already. Other keys replay as before. */
  lemma CommitReplaysIff(l: Local, a: Attempt)
    requires Commits(l.entities, a) && !Queue.Has(l.queue, a.id)
    ensures ReplaysData(Attempted(l, a), a.key) <==>
            !NumberedAbove(l.queue, a.key, NextNumber(l, a.key.collection)) || Replayed(l.queue, a.key) == Some(NewData(l, a))
    ensures forall k | k != a.key :: Replayed(Attempted(l, a).queue, k) == Replayed(l.queue, k)
  {
    var m := Recorded(a, Intended(l.entities, a).value, NextNumber(l, a.key.collection));
    assert Attempted(l, a).queue == l.queue + [m];
    forall k ensures Replayed(l.queue + [m], k) ==
                     if k == m.key && !NumberedAbove(l.queue, k, m.sequence) then Some(m.value) else Replayed(l.queue, k)
    {
      AppendReplay(l.queue, m, k);
    }
  }

  /** The call does not commit on the key, or its number is not below one of the
      key's, or it changes no data. */
  predicate InOrder(l: Local, a: Attempt, k: Key) {
    Commits(l.entities, a) && a.key == k ==>
      !NumberedAbove(l.queue, k, NextNumber(l, k.collection)) || DataOf(l.entities, k) == Some(NewData(l, a))
  }

  predicate AllInOrder(events: seq<Event>, k: Key)
    decreases |events|
  {
    events == [] ||
    var before, last := events[..|events| - 1], events[|events| - 1];
    AllInOrder(before, k) && (last.Do? ==> InOrder(Run(before), last.attempt, k))
  }

  predicate ReplaysAt(events: seq<Event>, n: nat, k: Key)
    requires n <= |events|
  {
    ReplaysData(Run(events[..n]), k)
  }

  predicate ReplaysThroughout(events: seq<Event>, k: Key) {
    forall n | 0 <= n <= |events| :: ReplaysAt(events, n, k)
  }

  lemma EventReplaysIff(l: Local, e: Event, k: Key)
    requires ReplaysData(l, k) && (e.Do? ==> !Queue.Has(l.queue, e.attempt.id))
    ensures ReplaysData(Happen(l, e), k) <==> (e.Do? ==> InOrder(l, e.attempt, k))
  {
    if e.Do? && Commits(l.entities, e.attempt) {
      CommitReplaysIff(l, e.attempt);
    }
  }

  /** Over a whole run, whatever fails and whatever restarts forget, replay by
      sequence gives the key's data at every moment exactly if every commit on it was
      in order. */
  lemma {:induction false} ReplaysThroughoutIff(events: seq<Event>, k: Key)
    requires FreshIds(events)
    ensures ReplaysThroughout(events, k) <==> AllInOrder(events, k)
  {
    if events == [] {
      assert Queue.BySequence([]) == [] && events[..0] == [];
      assert ReplaysAt(events, 0, k);
    } else {
      var before, last := events[..|events| - 1], events[|events| - 1];
      ReplaysThroughoutIff(before, k);
      ThroughoutSplit(events, k);
      if ReplaysThroughout(before, k) {
        ThroughoutEnds(before, k);
        EventReplaysIff(Run(before), last, k);
      }
    }
  }

  lemma {:induction false} ThroughoutEnds(events: seq<Event>, k: Key)
    requires ReplaysThroughout(events, k)
    ensures ReplaysData(Run(events), k)
  {
    assert ReplaysAt(events, |events|, k) && events[..|events|] == events;
  }

  lemma {:induction false} PrefixReplays(events: seq<Event>, n: nat, k: Key)
    requires n < |events|
    ensures ReplaysAt(events[..|events| - 1], n, k) <==> ReplaysAt(events, n, k)
  {
    assert events[..|events| - 1][..n] == events[..n];
  }

  lemma {:induction false} ThroughoutSplit(events: seq<Event>, k: Key)
    requires events != []
    ensures ReplaysThroughout(events, k) <==>
            ReplaysThroughout(events[..|events| - 1], k) && ReplaysData(Run(events), k)
  {
    var before := events[..|events| - 1];
    assert events[..|events|] == events;
    if ReplaysThroughout(events, k) {
      assert ReplaysAt(events, |events|, k);
      forall n: nat | n <= |before| ensures ReplaysAt(before, n, k) {
        assert ReplaysAt(events, n, k);
        PrefixReplays(events, n, k);
      }
    }
    if ReplaysThroughout(before, k) && ReplaysData(Run(events), k) {
      forall n: nat | n <= |events| ensures ReplaysAt(events, n, k) {
        if n < |events| {
          assert ReplaysAt(before, n, k);
          PrefixReplays(events, n, k);
        }
      }
    }
  }

  /** At the end of a run it can be read off the stored mutations: with the key's last
      one at position j, replay gives its data exactly if none before it is numbered
      higher, or they end on the same value. */
  lemma {:induction false} ReplayEndsIff(events: seq<Event>, k: Key, j: nat)
    requires FreshIds(events)
    requires var q := Run(events).queue;
             j < |q| && q[j].key == k && forall i | j < i < |q| :: q[i].key != k
    ensures var q := Run(events).queue;
            ReplaysData(Run(events), k) <==> !NumberedAbove(q[..j], k, q[j].sequence) || Replayed(q[..j], k) == Some(q[j].value)
  {
    CommitsReplay(events, k);
    ReplayUpTo(Run(events).queue, k, j);
  }

  lemma {:induction false} ReplayUpTo(q: Queue.Mutations, k: Key, j: nat)
    requires j < |q| && q[j].key == k && forall i | j < i < |q| :: q[i].key != k
    ensures Replayed(q, k) == Get(Replay(q), k) <==>
            !NumberedAbove(q[..j], k, q[j].sequence) || Replayed(q[..j], k) == Some(q[j].value)
  {
    LaterKeysAside(q, k, j + 1);
    LastAppended(q[..j + 1], q[..j], q[j], k);
  }

  lemma {:induction false} LastAppended(q: Queue.Mutations, before: Queue.Mutations, m: Mutation, k: Key)
    requires q == before + [m] && m.key == k
    ensures Get(Replay(q), k) == Some(m.value)
    ensures Replayed(q, k) == Some(m.value) <==> !NumberedAbove(before, k, m.sequence) || Replayed(before, k) == Some(m.value)
  {
    AppendReplay(before, m, k);
    ReplaySnoc(before, m, k);
  }

  lemma {:induction false} LaterKeysAside(q: Queue.Mutations, k: Key, n: nat)
    requires n <= |q| && forall i | n <= i < |q| :: q[i].key != k
    ensures Replayed(q, k) == Replayed(q[..n], k) && Get(Replay(q), k) == Get(Replay(q[..n]), k)
    decreases |q|
  {
    if n == |q| {
      assert q[..n] == q;
    } else {
      var init := q[..|q| - 1];
      assert q == init + [q[|q| - 1]] && init[..n] == q[..n];
      LaterKeysAside(init, k, n);
      AppendReplay(init, q[|q| - 1], k);
    }
  }

  lemma {:induction false} SeededIsInOrder(events: seq<Event>, k: Key)
    requires FreshIds(events) && Seeds(events, k.collection)
    ensures AllInOrder(events, k)
  {
    if events != [] {
      var before := events[..|events| - 1];
      assert forall i | 0 <= i < |before| :: before[i] == events[i];
      SeededIsInOrder(before, k);
      SequencesIncrease(before, k.collection);
      NoneAbove(Run(before), k);
    }
  }

  lemma NoneAbove(l: Local, k: Key)
    requires Increasing(l, k.collection)
    ensures !NumberedAbove(l.queue, k, NextNumber(l, k.collection))
  {
    forall m | m in l.queue && m.key == k ensures m.sequence <= NextNumber(l, k.collection) {
      var i :| 0 <= i < |l.queue| && l.queue[i] == m;
    }
  }

  /** So it is for every run whose restarts read the numbers back. The stored mutations
      are as many as the committed writes, and replaying them by sequence rebuilds
      every entity's data. */
  lemma {:induction false} LocalWritesReplay(events: seq<Event>, k: Key)
    requires FreshIds(events) && Seeds(events, k.collection)
    ensures |Run(events).queue| == Committed(events) && ReplaysThroughout(events, k)
    ensures ReplaysData(Run(events), k)
  {
    CommitsReplay(events, k);
    SeededIsInOrder(events, k);
    ReplaysThroughoutIff(events, k);
    ThroughoutEnds(events, k);
  }

  /** The first commit after a restart that did not read the collection's numbers back
      gets number one: it is harmless exactly if the key's stored mutations are not
      numbered above one, or it changes no data. */
  lemma UnseededCommitIff(l: Local, seeded: set<string>, a: Attempt)
    requires ReplaysData(l, a.key) && a.key.collection !in seeded
    requires Commits(l.entities, a) && !Queue.Has(l.queue, a.id)
    ensures ReplaysData(Attempted(Happen(l, Restart(seeded)), a), a.key) <==>
            !NumberedAbove(l.queue, a.key, 1) || DataOf(l.entities, a.key) == Some(NewData(l, a))
  {
    CommitReplaysIff(Happen(l, Restart(seeded)), a);
  }

  /** A committed create, update or delete moves the local revision one ahead of what
      the client last knew, and so ahead of the revision its mutation is based on. */
  lemma WriteRaisesRevision(l: Local, a: Attempt)
    requires Commits(l.entities, a) && !a.write.Put?
    ensures RevisionOf(Attempted(l, a).entities, a.key) == RevisionOf(l.entities, a.key) + 1
  {
  }

  // ----- What failed writes and unseeded restarts leave behind

  /** A write that commits after one that failed leaves a gap in the sequences,
      although nothing was lost. */
  lemma FailedWriteLeavesGap(l: Local, failed: Attempt, next: Attempt)
    requires Increasing(l, failed.key.collection) && failed.key.collection == next.key.collection
    requires Intended(l.entities, failed).Some? && RollsBack(l.entities, failed)
    requires Commits(l.entities, next) && !Queue.Has(l.queue, next.id)
    ensures var q := Attempted(Attempted(l, failed), next).queue;
            && |q| == |l.queue| + 1 && q[..|l.queue|] == l.queue
            && q[|l.queue|].sequence > Queue.MaxSequence(l.queue, next.key.collection) + 1
  {
    Queue.MaxSequenceLaw(l.queue, failed.key.collection);
  }

  /** A restart that does not read the numbers back hands them out again: two writes,
      a restart, and a third with other data than the second. */
  lemma UnseededRestartBreaksReplay(k: Key, a: Json, b: Json, c: Json)
    requires b != c
    ensures !ReplaysData(Run(ForgetfulRun(k, a, b, c)), k)
  {
    var q := [Recorded(PutOf(k, a, "1"), Plain(a), 1), Recorded(PutOf(k, b, "2"), Plain(b), 2), Recorded(PutOf(k, c, "3"), Plain(c), 1)];
    ForgetfulQueue(k, a, b, c);
    assert FreshIds(ForgetfulRun(k, a, b, c)) by { ForgetfulIds(k, a, b, c); }
    ReplayEndsIff(ForgetfulRun(k, a, b, c), k, 2);
    assert q[1] in q[..2] && NumberedAbove(q[..2], k, 1);
    assert q[..2] == [q[0]] + [q[1]];
    AppendReplay([q[0]], q[1], k);
  }

  function Plain(data: Json): Entity {
    Entity(data, 1, Stamp(0), Stamp(0), false)
  }

  function PutOf(k: Key, data: Json, id: string): Attempt {
    Attempt(k, Put(Plain(data)), id, Stamp(1), false)
  }

  function ForgetfulRun(k: Key, a: Json, b: Json, c: Json): seq<Event> {
    [Do(PutOf(k, a, "1")), Do(PutOf(k, b, "2")), Restart({}), Do(PutOf(k, c, "3"))]
  }

  lemma ForgetfulQueue(k: Key, a: Json, b: Json, c: Json)
    ensures Run(ForgetfulRun(k, a, b, c)) ==
            Local(map[k := Plain(c)],
                  [Recorded(PutOf(k, a, "1"), Plain(a), 1), Recorded(PutOf(k, b, "2"), Plain(b), 2), Recorded(PutOf(k, c, "3"), Plain(c), 1)],
                  map[k.collection := 1])
  {
    var events := ForgetfulRun(k, a, b, c);
    assert events[..3][..2] == events[..2] && events[..2][..1] == events[..1] && events[..1][..0] == [];
    assert Run(events[..1]) == Attempted(NOTHING, PutOf(k, a, "1"));
    assert Run(events[..2]) == Attempted(Run(events[..1]), PutOf(k, b, "2"));
    assert Run(events[..3]) == Run(events[..2]).(sequences := map[]);
  }

  lemma ForgetfulIds(k: Key, a: Json, b: Json, c: Json)
    ensures FreshIds(ForgetfulRun(k, a, b, c))
  {
    var events := ForgetfulRun(k, a, b, c);
    assert events[..3][..2] == events[..2] && events[..2][..1] == events[..1] && events[..1][..0] == [];
    assert Run(events[..1]) == Attempted(NOTHING, PutOf(k, a, "1"));
    assert Run(events[..2]) == Attempted(Run(events[..1]), PutOf(k, b, "2"));
    assert Run(events[..3]) == Run(events[..2]).(sequences := map[]);
    assert FreshIds(events[..1]);
    assert FreshIds(events[..2]);
    assert FreshIds(events[..3]);
  }
}
