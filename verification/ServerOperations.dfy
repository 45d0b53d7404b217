/** What the server's operations do to an entity's data, in terms of each other. */
module ServerOperations {
  import opened Json
  import opened Protocol
  import opened ServerSpec
  import FieldOperations

  /** The same mutation with another operation. */
  function As(m: ProtocolMutation, op: Operation): ProtocolMutation {
    m.(operation := op)
  }

  /** A decrement takes an increment back exactly if the field held a number. */
  lemma DecrementUndoesIncrement(data: Object, m: ProtocolMutation)
    requires m.field.Some?
    ensures NewData(NewData(data, As(m, Increment)), As(m, Decrement)) == data <==>
            m.field.value in data.fields && data.fields[m.field.value].Num?
  {
    var f := m.field.value;
    var after := NewData(NewData(data, As(m, Increment)), As(m, Decrement));
    assert after.fields[f].Num?;
    if f in data.fields && data.fields[f].Num? {
      assert after.fields == data.fields;
    }
  }

  lemma {:induction false} WithoutAbsent(items: seq<Json>, v: Json)
    ensures FieldOperations.Without(items, v) == items <==> !FieldOperations.Includes(items, v)
    ensures |FieldOperations.Without(items, v)| <= |items|
  {
    if items != [] {
      WithoutAbsent(items[1..], v);
      assert items == [items[0]] + items[1..];
    }
  }

  lemma {:induction false} WithoutAppend(items: seq<Json>, v: Json)
    ensures FieldOperations.Without(items + [v], v) ==
            FieldOperations.Without(items, v) + if IsScalar(v) then [] else [v]
  {
    if items != [] {
      assert (items + [v])[1..] == items[1..] + [v];
      WithoutAppend(items[1..], v);
    } else {
      assert (items + [v])[1..] == [];
    }
  }

  /** A remove takes an add back exactly if the field held an array, the value is a
      scalar and it was not in the array before. */
  lemma RemoveUndoesAdd(data: Object, m: ProtocolMutation)
    requires m.field.Some?
    ensures NewData(NewData(data, As(m, Add)), As(m, Remove)) == data <==>
            m.field.value in data.fields && data.fields[m.field.value].Arr?
            && IsScalar(m.value) && m.value !in data.fields[m.field.value].items
  {
    var f := m.field.value;
    var items := FieldOperations.ItemsOrEmpty(Get(data.fields, f));
    var after := NewData(NewData(data, As(m, Add)), As(m, Remove));
    assert after.fields == data.fields[f := Arr(FieldOperations.Without(items + [m.value], m.value))];
    WithoutAppend(items, m.value);
    WithoutAbsent(items, m.value);
    if f in data.fields && data.fields[f] == after.fields[f] {
      assert after.fields == data.fields;
    } else {
      assert f in after.fields && (f !in data.fields || after.fields[f] != data.fields[f]);
    }
  }

  /** A patch decides the fields it names and no others, so a later patch that names
      them all makes an earlier one invisible. */
  lemma LaterPatchCovers(data: Object, earlier: ProtocolMutation, later: ProtocolMutation)
    requires earlier.operation.Patch? && later.operation.Patch?
    ensures Spread(earlier.value).Keys <= Spread(later.value).Keys ==>
              NewData(NewData(data, earlier), later) == NewData(data, later)
    ensures forall k :: Get(NewData(data, later).fields, k) ==
              if k in Spread(later.value) then Some(Spread(later.value)[k]) else Get(data.fields, k)
  {
    if Spread(earlier.value).Keys <= Spread(later.value).Keys {
      assert data.fields + Spread(earlier.value) + Spread(later.value) == data.fields + Spread(later.value);
    }
  }

  /** An operation on a field leaves every other field alone; an unknown one all. */
  lemma FieldOperationIsLocal(data: Object, m: ProtocolMutation, k: string)
    requires !m.operation.Set? && !m.operation.Patch?
    requires m.operation.Other? || m.field.None? || m.field.value != k
    ensures NewData(data, m).Obj? && Get(NewData(data, m).fields, k) == Get(data.fields, k)
  {
  }
}
