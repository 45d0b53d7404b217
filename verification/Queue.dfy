/** The durable mutation queue as a value: the stored mutations in the order in
    which storage lists them, the sequence-ordered reads, and every status
    transition. */
module Queue {
  import opened Json
  import opened Protocol

  datatype Status = PENDING | IN_FLIGHT | ACKNOWLEDGED | FAILED | CONFLICT

  datatype Failure = RevisionMismatch(client: int, server: int) | Message(text: string)

  datatype Mutation = Mutation(
    id: string, key: Key, operation: Operation, field: Option<string>, value: Json,
    sequence: int, status: Status, createdAt: Stamp, retries: int, lastError: Option<Failure>)

  type Mutations = seq<Mutation>

  // ----- Reads

  predicate Has(q: Mutations, id: string) {
    exists i :: 0 <= i < |q| && q[i].id == id
  }

  predicate DistinctIds(q: Mutations) {
    forall i, j | 0 <= i < j < |q| :: q[i].id != q[j].id
  }

  /** Places a mutation after everything whose sequence is not larger. */
  function Insert(sorted: Mutations, m: Mutation): Mutations {
    if sorted != [] && sorted[|sorted| - 1].sequence > m.sequence
    then Insert(sorted[..|sorted| - 1], m) + [sorted[|sorted| - 1]]
    else sorted + [m]
  }

  /** `sort((a, b) => a.sequence - b.sequence)`, which is stable. */
  function BySequence(q: Mutations): Mutations {
    if q == [] then [] else Insert(BySequence(q[..|q| - 1]), q[|q| - 1])
  }

  function WithStatus(q: Mutations, status: Status): Mutations {
    if q == [] then []
    else WithStatus(q[..|q| - 1], status) + if q[|q| - 1].status == status then [q[|q| - 1]] else []
  }

  function Pending(q: Mutations): Mutations {
    WithStatus(BySequence(q), PENDING)
  }

  function DequeuePending(q: Mutations, limit: nat): Mutations {
    var pending := Pending(q);
    if limit <= |pending| then pending[..limit] else pending
  }

  function InCollection(q: Mutations, collection: string): Mutations {
    if q == [] then []
    else InCollection(q[..|q| - 1], collection)
         + if q[|q| - 1].key.collection == collection then [q[|q| - 1]] else []
  }

  /** The highest sequence stored for a collection, or zero. */
  function MaxSequence(q: Mutations, collection: string): int {
    var mine := InCollection(q, collection);
    if mine == [] then 0 else Highest(mine)
  }

  function Highest(q: Mutations): int
    requires q != []
  {
    var last := q[|q| - 1].sequence;
    if |q| == 1 then last
    else var rest := Highest(q[..|q| - 1]); if rest > last then rest else last
  }

  // ----- Writes

  datatype Transition =
    | MarkInFlight
    | Acknowledge
    | MarkFailed(failure: Failure)
    | MarkConflict(reason: Option<Failure>)
    | Retry
    | ResolveConflict(newValue: Option<Json>, newOperation: Option<Operation>)
    | ResetToPending

  function Transit(m: Mutation, t: Transition): Mutation {
    match t
    case MarkInFlight => m.(status := IN_FLIGHT)
    case Acknowledge => m.(status := ACKNOWLEDGED)
    case MarkFailed(failure) => m.(status := FAILED, lastError := Some(failure))
    case MarkConflict(reason) => m.(status := CONFLICT, lastError := reason)
    case Retry => m.(status := IN_FLIGHT, retries := m.retries + 1, lastError := None)
    case ResolveConflict(value, operation) =>
      m.(status := PENDING, retries := m.retries + 1, lastError := None,
         value := if value.Some? then value.value else m.value,
         operation := if operation.Some? then operation.value else m.operation)
    case ResetToPending => m.(status := PENDING)
  }

  /** The transitions that change the status and nothing else. */
  function ToStatus(status: Status): Transition
    requires status.IN_FLIGHT? || status.ACKNOWLEDGED? || status.PENDING?
  {
    if status.IN_FLIGHT? then MarkInFlight else if status.ACKNOWLEDGED? then Acknowledge else ResetToPending
  }

  /** Rewrites the record with the given id and keeps its place. */
  function Update(q: Mutations, id: string, t: Transition): Mutations {
    seq(|q|, i requires 0 <= i < |q| => if q[i].id == id then Transit(q[i], t) else q[i])
  }

  /** A record with a known id is overwritten, a new one goes to the end. */
  function Enqueue(q: Mutations, m: Mutation): Mutations {
    if Has(q, m.id) then seq(|q|, i requires 0 <= i < |q| => if q[i].id == m.id then m else q[i])
    else q + [m]
  }

  /** What recovery does to the queue: a send that never finished is due again. */
  function ResetInFlight(q: Mutations): Mutations {
    seq(|q|, i requires 0 <= i < |q| => if q[i].status.IN_FLIGHT? then Transit(q[i], ResetToPending) else q[i])
  }

  // ----- Sorting

  predicate Ascending(q: Mutations) {
    forall i, j | 0 <= i < j < |q| :: q[i].sequence <= q[j].sequence
  }

  lemma {:induction false} InsertMultiset(sorted: Mutations, m: Mutation)
    ensures multiset(Insert(sorted, m)) == multiset(sorted) + multiset{m}
  {
    if sorted != [] && sorted[|sorted| - 1].sequence > m.sequence {
      InsertMultiset(sorted[..|sorted| - 1], m);
      assert sorted == sorted[..|sorted| - 1] + [sorted[|sorted| - 1]];
    }
  }

  lemma InsertMembers(sorted: Mutations, m: Mutation)
    ensures forall x :: x in Insert(sorted, m) <==> x in sorted || x == m
  {
    InsertMultiset(sorted, m);
    forall x ensures x in Insert(sorted, m) <==> x in sorted || x == m {
      assert x in multiset(Insert(sorted, m)) <==> x in multiset(sorted) + multiset{m};
    }
  }

  lemma {:induction false} InsertAscending(sorted: Mutations, m: Mutation)
    requires Ascending(sorted)
    ensures Ascending(Insert(sorted, m))
  {
    if sorted != [] && sorted[|sorted| - 1].sequence > m.sequence {
      var init := sorted[..|sorted| - 1];
      InsertAscending(init, m);
      InsertMembers(init, m);
      assert forall i | 0 <= i < |Insert(init, m)| :: Insert(init, m)[i] in Insert(init, m);
    }
  }

  lemma {:induction false} BySequenceLaw(q: Mutations)
    ensures Ascending(BySequence(q))
    ensures multiset(BySequence(q)) == multiset(q)
  {
    if q != [] {
      BySequenceLaw(q[..|q| - 1]);
      InsertMultiset(BySequence(q[..|q| - 1]), q[|q| - 1]);
      InsertAscending(BySequence(q[..|q| - 1]), q[|q| - 1]);
      assert q == q[..|q| - 1] + [q[|q| - 1]];
    }
  }

  function AtSequence(q: Mutations, n: int): Mutations {
    if q == [] then []
    else AtSequence(q[..|q| - 1], n) + if q[|q| - 1].sequence == n then [q[|q| - 1]] else []
  }

  lemma {:induction false} InsertStable(sorted: Mutations, m: Mutation, n: int)
    ensures AtSequence(Insert(sorted, m), n) == AtSequence(sorted + [m], n)
  {
    assert (sorted + [m])[..|sorted|] == sorted;
    if sorted != [] && sorted[|sorted| - 1].sequence > m.sequence {
      var init, last := sorted[..|sorted| - 1], sorted[|sorted| - 1];
      InsertStable(init, m, n);
      assert (init + [m])[..|init|] == init;
      assert Insert(sorted, m)[..|Insert(sorted, m)| - 1] == Insert(init, m);
    }
  }

  /** Mutations of different collections that share a sequence keep the order in
      which storage lists them. */
  lemma {:induction false} SortIsStable(q: Mutations, n: int)
    ensures AtSequence(BySequence(q), n) == AtSequence(q, n)
  {
    if q != [] {
      var sorted := BySequence(q[..|q| - 1]);
      SortIsStable(q[..|q| - 1], n);
      InsertStable(sorted, q[|q| - 1], n);
      assert (sorted + [q[|q| - 1]])[..|sorted|] == sorted;
    }
  }

  lemma {:induction false} InCollectionMembers(q: Mutations, collection: string)
    ensures forall x :: x in InCollection(q, collection) <==> x in q && x.key.collection == collection
  {
    if q != [] {
      InCollectionMembers(q[..|q| - 1], collection);
      assert q == q[..|q| - 1] + [q[|q| - 1]];
    }
  }

  lemma {:induction false} WithStatusMembers(q: Mutations, status: Status)
    ensures forall x :: x in WithStatus(q, status) <==> x in q && x.status == status
  {
    if q != [] {
      WithStatusMembers(q[..|q| - 1], status);
      assert q == q[..|q| - 1] + [q[|q| - 1]];
    }
  }

  lemma {:induction false} WithStatusAscending(q: Mutations, status: Status)
    requires Ascending(q)
    ensures Ascending(WithStatus(q, status))
  {
    if q != [] {
      var init := q[..|q| - 1];
      WithStatusAscending(init, status);
      WithStatusMembers(init, status);
      forall i | 0 <= i < |WithStatus(init, status)| ensures WithStatus(init, status)[i].sequence <= q[|q| - 1].sequence {
        assert WithStatus(init, status)[i] in init;
      }
    }
  }

  lemma {:induction false} WithStatusPart(q: Mutations, status: Status)
    ensures multiset(WithStatus(q, status)) <= multiset(q)
  {
    if q != [] {
      WithStatusPart(q[..|q| - 1], status);
      assert q == q[..|q| - 1] + [q[|q| - 1]];
    }
  }

  lemma {:induction false} WithStatusCounts(q: Mutations, status: Status, m: Mutation)
    ensures multiset(WithStatus(q, status))[m] == if m.status == status then multiset(q)[m] else 0
  {
    if q != [] {
      WithStatusCounts(q[..|q| - 1], status, m);
      assert q == q[..|q| - 1] + [q[|q| - 1]];
    }
  }

  lemma {:induction false} InCollectionOfPrefix(q: Mutations, n: nat, collection: string)
    requires n <= |q|
    ensures InCollection(q[..n], collection) <= InCollection(q, collection)
    decreases |q|
  {
    if n < |q| {
      var init := q[..|q| - 1];
      assert init[..n] == q[..n];
      InCollectionOfPrefix(init, n, collection);
    } else {
      assert q[..n] == q;
    }
  }

  lemma PendingLaw(q: Mutations)
    ensures forall m :: m in Pending(q) <==> m in q && m.status.PENDING?
    ensures multiset(Pending(q)) <= multiset(q)
  {
    BySequenceLaw(q);
    WithStatusMembers(BySequence(q), PENDING);
    WithStatusPart(BySequence(q), PENDING);
    forall x ensures x in BySequence(q) <==> x in q {
      assert x in multiset(BySequence(q)) <==> x in multiset(q);
    }
  }

  /** A batch, seen from one collection, is a prefix of what that collection has
      pending: no mutation overtakes an earlier one. */
  lemma {:induction false} BatchIsPrefixPerCollection(q: Mutations, limit: nat, collection: string)
    ensures InCollection(DequeuePending(q, limit), collection) <= InCollection(Pending(q), collection)
  {
    var pending := Pending(q);
    if limit <= |pending| {
      InCollectionOfPrefix(pending, limit, collection);
    }
  }

  /** What is pending is in sequence order, and a collection's part of it is what the
      collection has pending. */
  lemma {:induction false} PendingInOrder(q: Mutations, collection: string)
    ensures Ascending(Pending(q))
    ensures forall x :: x in InCollection(Pending(q), collection) <==>
              x in q && x.status.PENDING? && x.key.collection == collection
  {
    BySequenceLaw(q);
    WithStatusAscending(BySequence(q), PENDING);
    PendingLaw(q);
    InCollectionMembers(Pending(q), collection);
  }

  lemma {:induction false} HighestLaw(q: Mutations)
    requires q != []
    ensures forall m | m in q :: m.sequence <= Highest(q)
    ensures exists m :: m in q && m.sequence == Highest(q)
  {
    var init, last := q[..|q| - 1], q[|q| - 1];
    assert last in q && q == init + [last];
    if init != [] {
      HighestLaw(init);
      var x :| x in init && x.sequence == Highest(init);
      assert x in q;
    }
  }

  /** The maximum is an upper bound of the collection's sequences and one of them;
      with none it is zero. */
  lemma MaxSequenceLaw(q: Mutations, collection: string)
    ensures forall m | m in q && m.key.collection == collection :: m.sequence <= MaxSequence(q, collection)
    ensures (exists m :: m in q && m.key.collection == collection && m.sequence == MaxSequence(q, collection))
            || (MaxSequence(q, collection) == 0 && forall m | m in q :: m.key.collection != collection)
  {
    var mine := InCollection(q, collection);
    InCollectionMembers(q, collection);
    if mine != [] {
      HighestLaw(mine);
      var x :| x in mine && x.sequence == Highest(mine);
      assert x in q;
    }
  }

  // ----- What a batch is made of

  predicate IsBatchOf(batch: Mutations, q: Mutations) {
    && DistinctIds(batch)
    && (forall m | m in batch :: m in q && m.status.PENDING?)
  }

  lemma {:induction false} DistinctByMultiset(q: Mutations, p: Mutations)
    requires DistinctIds(q)
    requires multiset(p) <= multiset(q)
    ensures DistinctIds(p)
  {
    forall i, j | 0 <= i < j < |p| ensures p[i].id != p[j].id {
      if p[i].id == p[j].id {
        assert p[i] in multiset(p) && p[j] in multiset(p);
        assert p[i] in multiset(q) && p[j] in multiset(q);
        assert p[i] in q && p[j] in q;
        assert p[i] == p[j];
        TwiceInSequence(p, i, j);
        var a :| 0 <= a < |q| && q[a] == p[i];
        OnceInSequence(q, a);
      }
    }
  }

  lemma TwiceInSequence(p: Mutations, i: nat, j: nat)
    requires i < j < |p| && p[i] == p[j]
    ensures multiset(p)[p[i]] >= 2
  {
    assert p == p[..j] + [p[j]] + p[j + 1..];
    assert p[i] in p[..j];
  }

  lemma OnceInSequence(q: Mutations, a: nat)
    requires DistinctIds(q) && a < |q|
    ensures multiset(q)[q[a]] == 1
  {
    assert q == q[..a] + [q[a]] + q[a + 1..];
    assert q[a] !in q[..a] && q[a] !in q[a + 1..];
  }

  lemma {:induction false} DequeueIsBatch(q: Mutations, limit: nat)
    requires DistinctIds(q)
    ensures IsBatchOf(DequeuePending(q, limit), q)
  {
    PendingIsBatch(q);
    if limit <= |Pending(q)| {
      BatchPrefix(Pending(q), q, limit);
    }
  }

  lemma {:induction false} PendingIsBatch(q: Mutations)
    requires DistinctIds(q)
    ensures IsBatchOf(Pending(q), q)
  {
    PendingLaw(q);
    DistinctByMultiset(q, Pending(q));
  }

  lemma {:induction false} BatchPrefix(batch: Mutations, q: Mutations, n: nat)
    requires IsBatchOf(batch, q) && n <= |batch|
    ensures IsBatchOf(batch[..n], q)
  {
  }

  // ----- Conservation

  /** Every stored mutation is still there, in its place, with its identity. */
  predicate Evolves(q: Mutations, later: Mutations) {
    |q| <= |later| &&
    forall i | 0 <= i < |q| ::
      && later[i].id == q[i].id && later[i].key == q[i].key
      && later[i].sequence == q[i].sequence && later[i].createdAt == q[i].createdAt
      && later[i].field == q[i].field
  }

  lemma EvolvesTransitive(a: Mutations, b: Mutations, c: Mutations)
    requires Evolves(a, b) && Evolves(b, c)
    ensures Evolves(a, c)
  {
  }

  function CountStatus(q: Mutations, status: Status): nat {
    |WithStatus(q, status)|
  }

  /** The order does not matter to the count. */
  lemma {:induction false} PendingCount(q: Mutations)
    ensures |Pending(q)| == CountStatus(q, PENDING)
  {
    BySequenceLaw(q);
    forall m ensures multiset(Pending(q))[m] == multiset(WithStatus(q, PENDING))[m] {
      WithStatusCounts(BySequence(q), PENDING, m);
      WithStatusCounts(q, PENDING, m);
    }
    assert multiset(Pending(q)) == multiset(WithStatus(q, PENDING));
    assert |multiset(Pending(q))| == |Pending(q)|;
  }

  /** A batch is as large as the limit allows. */
  lemma {:induction false} BatchSize(q: Mutations, limit: nat)
    ensures |DequeuePending(q, limit)| == if limit <= CountStatus(q, PENDING) then limit else CountStatus(q, PENDING)
  {
    PendingCount(q);
  }

  /** The five status counts account for every stored mutation. */
  lemma {:induction false} StatusesSum(q: Mutations)
    ensures CountStatus(q, PENDING) + CountStatus(q, IN_FLIGHT) + CountStatus(q, ACKNOWLEDGED)
            + CountStatus(q, FAILED) + CountStatus(q, CONFLICT) == |q|
  {
    if q != [] {
      StatusesSum(q[..|q| - 1]);
    }
  }

  /** After recovery nothing is in flight, and recovering again repairs nothing. */
  lemma RecoveryIdempotent(q: Mutations)
    ensures CountStatus(ResetInFlight(q), IN_FLIGHT) == 0
    ensures ResetInFlight(ResetInFlight(q)) == ResetInFlight(q)
    ensures Evolves(q, ResetInFlight(q))
    ensures forall i | 0 <= i < |q| :: q[i].status.IN_FLIGHT? ==> ResetInFlight(q)[i].status.PENDING?
    ensures forall i | 0 <= i < |q| :: !q[i].status.IN_FLIGHT? ==> ResetInFlight(q)[i] == q[i]
  {
    NoneWithStatus(ResetInFlight(q), IN_FLIGHT);
  }

  lemma {:induction false} NoneWithStatus(q: Mutations, status: Status)
    requires forall i | 0 <= i < |q| :: q[i].status != status
    ensures WithStatus(q, status) == []
  {
    if q != [] {
      NoneWithStatus(q[..|q| - 1], status);
    }
  }
}
