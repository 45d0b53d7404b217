/** Field-level operations as the client's resolver applies them, and the
    question the type documentation answers with "commutative": in which order
    may a batch of them be applied? */
module FieldOperations {
  import opened Json
  import opened Protocol

  datatype FieldOp = FieldOp(field: string, operation: Operation, value: Json)

  predicate Numeric(op: FieldOp) {
    op.operation.Increment? || op.operation.Decrement?
  }

  predicate SetLike(op: FieldOp) {
    op.operation.Add? || op.operation.Remove?
  }

  function NumberOr0(v: Option<Json>): int {
    match v
    case Some(Num(n)) => n
    case _ => 0
  }

  function ItemsOrEmpty(v: Option<Json>): seq<Json> {
    match v
    case Some(Arr(items)) => items
    case _ => []
  }

  /** `items.filter(item => item !== value)` */
  function Without(items: seq<Json>, value: Json): seq<Json> {
    if items == [] then []
    else if StrictEq(items[0], value) then Without(items[1..], value)
    else [items[0]] + Without(items[1..], value)
  }

  predicate Includes(items: seq<Json>, value: Json) {
    IsScalar(value) && value in items
  }

  /** The new value of the field, for an operation that touches it. */
  function Effect(current: Option<Json>, op: FieldOp): Json
    requires Numeric(op) || SetLike(op)
  {
    match op.operation
    case Increment => Num(NumberOr0(current) + NumberOr0(Some(op.value)))
    case Decrement => Num(NumberOr0(current) - NumberOr0(Some(op.value)))
    case Add =>
      var items := ItemsOrEmpty(current);
      Arr(if Includes(items, op.value) then items else items + [op.value])
    case _ => Arr(Without(ItemsOrEmpty(current), op.value))
  }

  function Apply(record: Object, op: FieldOp): Object {
    if Numeric(op) || SetLike(op)
    then Obj(record.fields[op.field := Effect(Get(record.fields, op.field), op)])
    else record
  }

  function ApplyFieldOperation(data: Json, op: FieldOp): Object {
    Apply(Obj(SpreadObject(data)), op)
  }

  function ApplyAll(record: Object, ops: seq<FieldOp>): Object
    decreases |ops|
  {
    if ops == [] then record else ApplyAll(Apply(record, ops[0]), ops[1..])
  }

  // ----- Equality up to the order of array items

  predicate SameValue(a: Json, b: Json) {
    a == b || (a.Arr? && b.Arr? && multiset(a.items) == multiset(b.items))
  }

  predicate SameUpToOrder(a: Object, b: Object) {
    a.fields.Keys == b.fields.Keys && forall k | k in a.fields :: SameValue(a.fields[k], b.fields[k])
  }

  // ----- When two operations may be exchanged

  predicate Opposed(a: FieldOp, b: FieldOp) {
    StrictEq(a.value, b.value) &&
    ((a.operation.Add? && b.operation.Remove?) || (a.operation.Remove? && b.operation.Add?))
  }

  /** Different fields, both numeric, or both on the same set without adding and
      removing the same value. */
  predicate Exchangeable(a: FieldOp, b: FieldOp) {
    a.field == b.field && (Numeric(a) || SetLike(a)) && (Numeric(b) || SetLike(b)) ==>
      (Numeric(a) && Numeric(b)) || (SetLike(a) && SetLike(b) && !Opposed(a, b))
  }

  predicate AllExchangeable(ops: seq<FieldOp>) {
    forall x, y | x in ops && y in ops :: Exchangeable(x, y)
  }

  lemma {:induction false} WithoutCount(items: seq<Json>, v: Json, x: Json)
    ensures multiset(Without(items, v))[x] == if IsScalar(v) && x == v then 0 else multiset(items)[x]
  {
    if items != [] {
      WithoutCount(items[1..], v, x);
      assert items == [items[0]] + items[1..];
    }
  }

  lemma WithoutMultiset(items: seq<Json>, v: Json)
    ensures multiset(Without(items, v)) == if IsScalar(v) then multiset(items)[v := 0] else multiset(items)
  {
    forall x ensures multiset(Without(items, v))[x] == if IsScalar(v) && x == v then 0 else multiset(items)[x] {
      WithoutCount(items, v, x);
    }
  }

  /** What a set operation does to the item counts of an array. */
  function Counted(counts: multiset<Json>, op: FieldOp): multiset<Json> {
    if op.operation.Add? then
      if IsScalar(op.value) && op.value in counts then counts else counts + multiset{op.value}
    else
      if IsScalar(op.value) then counts[op.value := 0] else counts
  }

  lemma EffectCounts(current: Option<Json>, op: FieldOp)
    requires SetLike(op)
    ensures Effect(current, op).Arr?
    ensures multiset(Effect(current, op).items) == Counted(multiset(ItemsOrEmpty(current)), op)
  {
    var items := ItemsOrEmpty(current);
    if op.operation.Add? {
      assert Includes(items, op.value) <==> IsScalar(op.value) && op.value in multiset(items);
    } else {
      WithoutMultiset(items, op.value);
    }
  }

  lemma {:induction false} EffectRespectsOrder(a: Option<Json>, b: Option<Json>, op: FieldOp)
    requires Numeric(op) || SetLike(op)
    requires a.Some? <==> b.Some?
    requires a.Some? ==> SameValue(a.value, b.value)
    ensures SameValue(Effect(a, op), Effect(b, op))
  {
    if SetLike(op) {
      assert multiset(ItemsOrEmpty(a)) == multiset(ItemsOrEmpty(b));
      EffectCounts(a, op);
      EffectCounts(b, op);
    }
  }

  lemma CountsExchange(counts: multiset<Json>, p: FieldOp, q: FieldOp)
    requires SetLike(p) && SetLike(q) && !Opposed(p, q)
    ensures Counted(Counted(counts, p), q) == Counted(Counted(counts, q), p)
  {
  }

  lemma EffectsExchange(c: Option<Json>, p: FieldOp, q: FieldOp)
    requires (Numeric(p) && Numeric(q)) || (SetLike(p) && SetLike(q) && !Opposed(p, q))
    ensures SameValue(Effect(Some(Effect(c, p)), q), Effect(Some(Effect(c, q)), p))
  {
    if SetLike(p) {
      EffectTwice(c, p, q);
      EffectTwice(c, q, p);
      CountsExchange(multiset(ItemsOrEmpty(c)), p, q);
    }
  }

  lemma {:induction false} EffectTwice(c: Option<Json>, p: FieldOp, q: FieldOp)
    requires SetLike(p) && SetLike(q)
    ensures var twice := Effect(Some(Effect(c, p)), q);
            twice.Arr? && multiset(twice.items) == Counted(Counted(multiset(ItemsOrEmpty(c)), p), q)
  {
    EffectCounts(c, p);
    EffectCounts(Some(Effect(c, p)), q);
  }

  lemma ApplyExchange(d: Object, p: FieldOp, q: FieldOp)
    requires Exchangeable(p, q)
    ensures SameUpToOrder(Apply(Apply(d, p), q), Apply(Apply(d, q), p))
  {
    if p.field == q.field && (Numeric(p) || SetLike(p)) && (Numeric(q) || SetLike(q)) {
      EffectsExchange(Get(d.fields, p.field), p, q);
    }
  }

  lemma {:induction false} ApplyAllRespectsOrder(a: Object, b: Object, ops: seq<FieldOp>)
    requires SameUpToOrder(a, b)
    ensures SameUpToOrder(ApplyAll(a, ops), ApplyAll(b, ops))
    decreases |ops|
  {
    if ops != [] {
      var op := ops[0];
      if Numeric(op) || SetLike(op) {
        EffectRespectsOrder(Get(a.fields, op.field), Get(b.fields, op.field), op);
      }
      ApplyAllRespectsOrder(Apply(a, op), Apply(b, op), ops[1..]);
    }
  }

  lemma SameUpToOrderTransitive(a: Object, b: Object, c: Object)
    requires SameUpToOrder(a, b) && SameUpToOrder(b, c)
    ensures SameUpToOrder(a, c)
  {
  }

  /** An operation that can pass everything before it may be applied first. */
  lemma {:induction false} MoveToFront(d: Object, before: seq<FieldOp>, x: FieldOp, after: seq<FieldOp>)
    requires forall y | y in before :: Exchangeable(y, x)
    ensures SameUpToOrder(ApplyAll(d, before + [x] + after), ApplyAll(d, [x] + before + after))
    decreases |before|
  {
    if before == [] {
      assert before + [x] + after == [x] + before + after;
    } else {
      var y, rest := before[0], before[1..];
      MoveToFront(Apply(d, y), rest, x, after);
      ApplyExchange(d, y, x);
      ApplyAllRespectsOrder(Apply(Apply(d, y), x), Apply(Apply(d, x), y), rest + after);
      assert (before + [x] + after)[1..] == rest + [x] + after;
      assert ([x] + rest + after)[1..] == rest + after;
      assert ([x] + before + after)[1..] == before + after;
      assert (before + after)[1..] == rest + after;
      assert ApplyAll(d, before + [x] + after) == ApplyAll(Apply(d, y), rest + [x] + after);
      assert ApplyAll(Apply(d, y), [x] + rest + after) == ApplyAll(Apply(Apply(d, y), x), rest + after);
      assert ApplyAll(d, [x] + before + after) == ApplyAll(Apply(Apply(d, x), y), rest + after);
      SameUpToOrderTransitive(ApplyAll(d, before + [x] + after), ApplyAll(Apply(d, y), [x] + rest + after),
                              ApplyAll(d, [x] + before + after));
    }
  }

  lemma SplitAt<T>(s: seq<T>, x: T) returns (before: seq<T>, after: seq<T>)
    requires x in s
    ensures s == before + [x] + after
    ensures multiset(s) == multiset(before + after) + multiset{x}
    ensures forall y | y in before + after :: y in s
  {
    var i :| 0 <= i < |s| && s[i] == x;
    before, after := s[..i], s[i + 1..];
    assert s == before + [x] + after;
    assert multiset(s) == multiset(before) + multiset{x} + multiset(after);
    assert multiset(before + after) == multiset(before) + multiset(after);
  }

  lemma SameRest(a: seq<FieldOp>, b: seq<FieldOp>, x: FieldOp)
    requires multiset([x] + a) == multiset(b) + multiset{x}
    ensures multiset(a) == multiset(b)
  {
    assert multiset(a) == multiset([x] + a) - multiset{x};
  }

  lemma {:induction false} ExchangeableBatchesAgree(d: Object, ops: seq<FieldOp>, other: seq<FieldOp>)
    requires multiset(ops) == multiset(other)
    requires AllExchangeable(ops)
    ensures SameUpToOrder(ApplyAll(d, ops), ApplyAll(d, other))
    decreases |ops|
  {
    assert |ops| == |multiset(ops)| == |multiset(other)| == |other|;
    if other != [] {
      var x := other[0];
      assert x in multiset(other);
      var before, after := SplitAt(ops, x);
      MoveToFront(d, before, x, after);
      assert ([x] + before + after)[1..] == before + after;
      assert other == [x] + other[1..];
      SameRest(other[1..], before + after, x);
      ExchangeableBatchesAgree(Apply(d, x), before + after, other[1..]);
      SameUpToOrderTransitive(ApplyAll(d, ops), ApplyAll(Apply(d, x), before + after), ApplyAll(d, other));
    }
  }

  /** Every reordering of the batch gives the same record, array order aside. */
  ghost predicate Confluent(d: Object, ops: seq<FieldOp>) {
    forall other: seq<FieldOp> | multiset(other) == multiset(ops) ::
      SameUpToOrder(ApplyAll(d, ops), ApplyAll(d, other))
  }

  lemma {:induction false} ApplyAllEndsWith(d: Object, ops: seq<FieldOp>, last: FieldOp) returns (mid: Object)
    ensures ApplyAll(d, ops + [last]) == Apply(mid, last)
    decreases |ops|
  {
    if ops == [] {
      mid := d;
    } else {
      mid := ApplyAllEndsWith(Apply(d, ops[0]), ops[1..], last);
      assert (ops + [last])[1..] == ops[1..] + [last];
    }
  }

  lemma LastSetEffect(c: Option<Json>, op: FieldOp)
    requires SetLike(op) && IsScalar(op.value)
    ensures Effect(c, op).Arr?
    ensures multiset(Effect(c, op).items)[op.value] > 0 <==> op.operation.Add?
  {
    EffectCounts(c, op);
  }

  lemma LastWordDiffers(a: Option<Json>, b: Option<Json>, x: FieldOp, y: FieldOp)
    requires !Exchangeable(x, y)
    ensures !SameValue(Effect(a, x), Effect(b, y))
  {
    if SetLike(x) && SetLike(y) {
      LastSetEffect(a, x);
      LastSetEffect(b, y);
    }
  }

  lemma RivalOrdersDiffer(d: Object, rest: seq<FieldOp>, x: FieldOp, y: FieldOp)
    requires !Exchangeable(x, y)
    ensures !SameUpToOrder(ApplyAll(d, rest + [y] + [x]), ApplyAll(d, rest + [x] + [y]))
  {
    var mx := ApplyAllEndsWith(d, rest + [y], x);
    var my := ApplyAllEndsWith(d, rest + [x], y);
    LastWordDiffers(Get(mx.fields, x.field), Get(my.fields, y.field), x, y);
    assert Apply(mx, x).fields[x.field] == Effect(Get(mx.fields, x.field), x);
    assert Apply(my, y).fields[x.field] == Effect(Get(my.fields, y.field), y);
  }

  lemma TakeOutTwo(ops: seq<FieldOp>, x: FieldOp, y: FieldOp) returns (rest: seq<FieldOp>)
    requires x in ops && y in ops && x != y
    ensures multiset(rest + [y] + [x]) == multiset(ops) == multiset(rest + [x] + [y])
  {
    var b1, a1 := SplitAt(ops, x);
    InSum(ops, b1 + a1, x, y);
    var b2, a2 := SplitAt(b1 + a1, y);
    rest := b2 + a2;
    AppendTwo(rest, x, y);
  }

  lemma InSum(all: seq<FieldOp>, others: seq<FieldOp>, x: FieldOp, y: FieldOp)
    requires multiset(all) == multiset(others) + multiset{x} && y in all && x != y
    ensures y in others
  {
    assert y in multiset(all);
  }

  lemma AppendTwo(rest: seq<FieldOp>, x: FieldOp, y: FieldOp)
    ensures multiset(rest + [y] + [x]) == multiset(rest) + multiset{x} + multiset{y} == multiset(rest + [x] + [y])
  {
  }

  /** A batch gives the same record in every order exactly when its operations
      are pairwise exchangeable, whatever record it starts from. */
  lemma ConfluentIffExchangeable(d: Object, ops: seq<FieldOp>)
    ensures Confluent(d, ops) <==> AllExchangeable(ops)
  {
    if AllExchangeable(ops) {
      forall other: seq<FieldOp> | multiset(other) == multiset(ops)
        ensures SameUpToOrder(ApplyAll(d, ops), ApplyAll(d, other))
      {
        ExchangeableBatchesAgree(d, ops, other);
      }
    } else {
      var x, y :| x in ops && y in ops && !Exchangeable(x, y);
      var rest := TakeOutTwo(ops, x, y);
      RivalOrdersDiffer(d, rest, x, y);
      var xLast, yLast := ApplyAll(d, rest + [y] + [x]), ApplyAll(d, rest + [x] + [y]);
      var first := ApplyAll(d, ops);
      if SameUpToOrder(first, xLast) && SameUpToOrder(first, yLast) {
        SameUpToOrderTransitive(xLast, first, yLast);
      }
    }
  }

  /** The documentation calls add and remove commutative; on one value they are not. */
  lemma AddRemoveOrderMatters(d: Object, field: string, v: Json)
    requires IsScalar(v)
    ensures !Confluent(d, [FieldOp(field, Add, v), FieldOp(field, Remove, v)])
  {
    var ops := [FieldOp(field, Add, v), FieldOp(field, Remove, v)];
    assert ops[0] in ops && ops[1] in ops && !Exchangeable(ops[0], ops[1]);
    ConfluentIffExchangeable(d, ops);
  }
}
