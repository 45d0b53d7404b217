/** Exactly when a translated clause says of a row what the operator says of it in
    memory, operator by operator. */
module QueryAgreement {
  import opened Json
  import opened Protocol
  import opened QuerySpec

  lemma ParamsFitClause(f: Filter)
    ensures |ParamsOf(f)| == Placeholders(ClauseOf(f))
  {
  }

  /** Clause and operator agree on the row. */
  predicate Agrees(row: Row, f: Filter) {
    ParamsFitClause(f);
    ClauseTrue(ClauseOf(f), ParamsOf(f), row) <==> ApplyOperator(FieldOf(row, f.field), f.operator, f.value)
  }

  // ----- Columns

  predicate PlainField(field: string) {
    field !in METADATA && field != "" && forall i | 0 <= i < |field| :: field[i] != '.'
  }

  predicate SameKind(a: Json, b: Json) {
    (a.Num? && b.Num?) || (a.Str? && b.Str?) || (a.Bool? && b.Bool?)
  }

  lemma {:induction false} SegmentsOfPlain(field: string)
    requires forall i | 0 <= i < |field| :: field[i] != '.'
    ensures Segments(field) == [field]
  {
    if field != "" {
      SegmentsOfPlain(field[1..]);
      assert field == [field[0]] + field[1..];
    }
  }

  lemma PlainColumn(row: Row, field: string)
    requires PlainField(field)
    ensures ColumnValue(row, ToSqlExpression(field)) == FromJson(FieldOf(row, field))
  {
    SegmentsOfPlain(field);
    var data := row.entity.data;
    assert [field][1..] == [];
    if data.Obj? && field in data.fields {
      assert Extracted(data.fields[field], []) == Some(data.fields[field]);
    }
  }

  /** A data field that is missing or a scalar. */
  predicate Extractable(row: Row, field: string) {
    PlainField(field) && (FieldOf(row, field).Some? ==> IsScalar(FieldOf(row, field).value))
  }

  // ----- Strings

  lemma {:induction false} StringOrder(a: string, b: string)
    ensures !(StringLess(a, b) && StringLess(b, a))
    ensures a != b <==> StringLess(a, b) || StringLess(b, a)
    decreases |a|
  {
    if a != "" && b != "" {
      StringOrder(a[1..], b[1..]);
      assert a == [a[0]] + a[1..] && b == [b[0]] + b[1..];
    }
  }

  lemma {:induction false} StringTransitive(a: string, b: string, c: string)
    requires StringLess(a, b) && StringLess(b, c)
    ensures StringLess(a, c)
    decreases |a|
  {
    if a != "" && b != "" && c != "" && a[0] == b[0] && b[0] == c[0] {
      StringTransitive(a[1..], b[1..], c[1..]);
    }
  }

  // ----- Equality

  /** A boolean and a number that SQL cannot tell apart. */
  predicate Confused(v: Json, w: Json) {
    ((v.Bool? && w.Num?) || (v.Num? && w.Bool?)) && ToNumber(Some(v)) == ToNumber(Some(w))
  }

  predicate Present(v: Option<Json>) {
    v.Some? && !v.value.Null?
  }

  lemma ScalarsEqualIff(v: Json, w: Json)
    requires IsScalar(v) && IsScalar(w)
    ensures ToSqlValue(v) == ToSqlValue(w) <==> v == w || Confused(v, w)
  {
  }

  /** `eq`: unless both sides are null, or one is a boolean and the other its number. */
  lemma EqAgreesIff(row: Row, f: Filter)
    requires Extractable(row, f.field) && f.operator.EQ? && IsScalar(f.value)
    ensures var v := FieldOf(row, f.field);
            Agrees(row, f) <==>
            !(v == Some(Null) && f.value.Null?) && !(v.Some? && Confused(v.value, f.value))
  {
    PlainColumn(row, f.field);
    if FieldOf(row, f.field).Some? {
      ScalarsEqualIff(FieldOf(row, f.field).value, f.value);
    }
  }

  /** `neq`: if both sides are null, or neither is nor is missing and they are not a
      boolean and its number. */
  lemma NeqAgreesIff(row: Row, f: Filter)
    requires Extractable(row, f.field) && f.operator.NEQ? && IsScalar(f.value)
    ensures var v := FieldOf(row, f.field);
            Agrees(row, f) <==>
            (v == Some(Null) && f.value.Null?) || (Present(v) && !f.value.Null? && !Confused(v.value, f.value))
  {
    PlainColumn(row, f.field);
    if FieldOf(row, f.field).Some? {
      ScalarsEqualIff(FieldOf(row, f.field).value, f.value);
    }
  }

  // ----- Order

  predicate IsOrder(op: Operator) {
    op.GT? || op.GTE? || op.LT? || op.LTE?
  }

  /** The comparison of the two as numbers, false if one is none. */
  predicate Numerically(v: Json, op: Operator, w: Json) {
    var a, b := ToNumber(Some(v)), ToNumber(Some(w));
    && a.Some? && b.Some?
    && match op
       case GT => a.value > b.value
       case GTE => a.value >= b.value
       case LT => a.value < b.value
       case LTE => a.value <= b.value
       case _ => false
  }

  /** With a null, if the comparison with zero in its place is false. With text on one
      side only, if the comparison as numbers puts the text above the other side.
      Otherwise always. */
  predicate OrderAgreeable(v: Json, op: Operator, w: Json) {
    if v.Null? || w.Null? then !Numerically(v, op, w)
    else if v.Str? == w.Str? then true
    else Numerically(v, op, w) <==> (v.Str? <==> op.GT? || op.GTE?)
  }

  lemma OrderAgreesIff(row: Row, f: Filter)
    requires Extractable(row, f.field) && IsOrder(f.operator) && IsScalar(f.value)
    ensures var v := FieldOf(row, f.field);
            Agrees(row, f) <==> v.None? || OrderAgreeable(v.value, f.operator, f.value)
  {
    PlainColumn(row, f.field);
    var v := FieldOf(row, f.field);
    if v.Some? && v.value.Str? && f.value.Str? {
      StringOrder(v.value.s, f.value.s);
    }
  }

  // ----- Membership

  /** `in`: unless a null is looked for and listed, or a boolean or number is not
      listed and its counterpart is. */
  predicate InAgreeable(v: Option<Json>, items: seq<Json>) {
    && !(v == Some(Null) && Null in items)
    && !(v.Some? && v.value !in items && exists item :: item in items && Confused(v.value, item))
  }

  lemma InAgreesIff(row: Row, f: Filter)
    requires Extractable(row, f.field) && f.operator.IN? && f.value.Arr? && forall item | item in f.value.items :: IsScalar(item)
    ensures Agrees(row, f) <==> InAgreeable(FieldOf(row, f.field), f.value.items)
  {
    var v, items := FieldOf(row, f.field), f.value.items;
    InMemory(v, items);
    if v.Some? {
      InSql(row, f);
    } else {
      PlainColumn(row, f.field);
    }
  }

  lemma InMemory(v: Option<Json>, items: seq<Json>)
    requires (v.Some? ==> IsScalar(v.value)) && forall item | item in items :: IsScalar(item)
    ensures ApplyOperator(v, IN, Arr(items)) <==> v.Some? && v.value in items
  {
  }

  lemma InSql(row: Row, f: Filter)
    requires Extractable(row, f.field) && f.operator.IN? && f.value.Arr? && forall item | item in f.value.items :: IsScalar(item)
    requires FieldOf(row, f.field).Some?
    ensures |ParamsOf(f)| == Placeholders(ClauseOf(f))
    ensures var v := FieldOf(row, f.field).value;
            ClauseTrue(ClauseOf(f), ParamsOf(f), row) <==>
            !v.Null? && (v in f.value.items || exists item :: item in f.value.items && Confused(v, item))
  {
    var v, items, params := FieldOf(row, f.field).value, f.value.items, ParamsOf(f);
    PlainColumn(row, f.field);
    forall i | 0 <= i < |items| ensures ToSqlValue(v) == params[i] <==> v == items[i] || Confused(v, items[i]) {
      assert items[i] in items;
      ScalarsEqualIff(v, items[i]);
    }
    if items != [] && ClauseTrue(ClauseOf(f), params, row) {
      var p :| p in params && SqlCompare(ToSqlValue(v), EQ, p);
      var i :| 0 <= i < |params| && params[i] == p;
      assert items[i] in items;
    }
    if !v.Null? && (v in items || exists item :: item in items && Confused(v, item)) {
      var item :| item in items && (v == item || Confused(v, item));
      var i :| 0 <= i < |items| && items[i] == item;
      assert params[i] in params;
    }
  }

  // ----- Substrings

  function FoldAll(s: string): string {
    seq(|s|, i requires 0 <= i < |s| => Fold(s[i]))
  }

  predicate NoWildcard(t: string) {
    forall i | 0 <= i < |t| :: t[i] != '%' && t[i] != '_'
  }

  lemma {:induction false} LikeAnything(s: string)
    ensures LikeMatch("%", s)
  {
    assert "%"[1..] == "";
    if s != "" {
      LikeAnything(s[1..]);
    }
  }

  /** A pattern without wildcards, followed by `%`, matches what begins with it. */
  lemma {:induction false} LikePrefix(t: string, s: string)
    requires NoWildcard(t)
    ensures LikeMatch(t + "%", s) <==> FoldAll(t) <= FoldAll(s)
    decreases |t|
  {
    if t == "" {
      assert t + "%" == "%";
      LikeAnything(s);
    } else {
      assert (t + "%")[0] == t[0] && (t + "%")[1..] == t[1..] + "%";
      assert NoWildcard(t[1..]);
      if s != "" {
        LikePrefix(t[1..], s[1..]);
        PrefixHead(t, s);
      } else {
        assert FoldAll(s) == "" && |FoldAll(t)| > 0;
      }
    }
  }

  lemma FoldHead(s: string)
    requires s != ""
    ensures FoldAll(s) == [Fold(s[0])] + FoldAll(s[1..]) && FoldAll(s)[1..] == FoldAll(s[1..])
  {
  }

  lemma PrefixHead(t: string, s: string)
    requires t != "" && s != ""
    ensures FoldAll(t) <= FoldAll(s) <==> Fold(t[0]) == Fold(s[0]) && FoldAll(t[1..]) <= FoldAll(s[1..])
  {
    FoldHead(t);
    FoldHead(s);
    ConsPrefix(Fold(t[0]), FoldAll(t[1..]), Fold(s[0]), FoldAll(s[1..]));
  }

  lemma ConsPrefix(a: char, x: string, b: char, y: string)
    ensures [a] + x <= [b] + y <==> a == b && x <= y
  {
    if [a] + x <= [b] + y {
      assert ([a] + x)[0] == ([b] + y)[0];
      assert forall i | 0 <= i < |x| :: x[i] == ([a] + x)[i + 1] == ([b] + y)[i + 1] == y[i];
    }
    if a == b && x <= y {
      assert ([b] + y)[..|x| + 1] == [b] + y[..|x|];
    }
  }

  /** Between two `%` it matches what contains it, letter case aside. */
  lemma {:induction false} LikeContains(t: string, s: string)
    requires NoWildcard(t)
    ensures LikeMatch("%" + t + "%", s) <==> Substring(FoldAll(s), FoldAll(t))
    decreases |s|
  {
    var p := "%" + t + "%";
    assert p[0] == '%' && p[1..] == t + "%";
    LikePrefix(t, s);
    if s != "" {
      LikeContains(t, s[1..]);
      FoldHead(s);
    }
  }

  lemma {:induction false} FoldKeepsSubstring(s: string, t: string)
    requires Substring(s, t)
    ensures Substring(FoldAll(s), FoldAll(t))
    decreases |s|
  {
    if t <= s {
      assert FoldAll(t) <= FoldAll(s);
    } else {
      FoldKeepsSubstring(s[1..], t);
      FoldHead(s);
    }
  }

  /** Whatever wildcards the text has, LIKE finds it where it is. */
  lemma {:induction false} LikeItself(t: string, s: string)
    requires t <= s
    ensures LikeMatch(t + "%", s)
    decreases |t|
  {
    if t == "" {
      assert t + "%" == "%";
      LikeAnything(s);
    } else {
      assert (t + "%")[0] == t[0] && (t + "%")[1..] == t[1..] + "%";
      LikeItself(t[1..], s[1..]);
      if t[0] == '%' {
        LikeStep(t[1..] + "%", s);
      }
    }
  }

  /** A `%` in the pattern may swallow one more character. */
  lemma {:induction false} LikeStep(p: string, s: string)
    requires s != "" && LikeMatch(p, s[1..])
    ensures LikeMatch("%" + p, s)
  {
    assert ("%" + p)[0] == '%' && ("%" + p)[1..] == p;
    assert LikeMatch("%" + p, s[1..]);
  }

  /** `contains` on text never finds what LIKE does not. */
  lemma {:induction false} ContainsImpliesLike(s: string, t: string)
    requires Substring(s, t)
    ensures LikeMatch("%" + t + "%", s)
    decreases |s|
  {
    var p := "%" + t + "%";
    assert p[0] == '%' && p[1..] == t + "%";
    if t <= s {
      LikeItself(t, s);
    } else {
      ContainsImpliesLike(s[1..], t);
    }
  }

  /** `contains` on text: unless only the letter case differs. */
  lemma ContainsAgreesIff(row: Row, f: Filter)
    requires PlainField(f.field) && f.operator.CONTAINS? && NoWildcard(Template(f.value))
    requires FieldOf(row, f.field).Some? && FieldOf(row, f.field).value.Str?
    ensures var s, t := FieldOf(row, f.field).value.s, Template(f.value);
            Agrees(row, f) <==> Substring(s, t) || !Substring(FoldAll(s), FoldAll(t))
  {
    var s, t := FieldOf(row, f.field).value.s, Template(f.value);
    PlainColumn(row, f.field);
    LikeContains(t, s);
    if Substring(s, t) {
      FoldKeepsSubstring(s, t);
    }
  }

  // ----- Metadata

  function StampJson(s: Stamp): Json {
    match s case Blank => Str("") case Stamp(t) => Num(t)
  }

  /** What the column of a metadata field holds. */
  function MetaJson(row: Row, name: string): Json {
    if name == "id" then Str(row.id)
    else if name == "revision" then Num(row.entity.revision)
    else if name == "createdAt" then StampJson(row.entity.createdAt)
    else if name == "updatedAt" then StampJson(row.entity.updatedAt)
    else Bool(row.entity.isDeleted)
  }

  lemma MetaColumn(row: Row, name: string)
    requires name in METADATA
    ensures ColumnValue(row, ToSqlExpression(name)) == ToSqlValue(MetaJson(row, name))
  {
  }

  lemma ValuesAgree(v: Json, w: Json)
    requires SameKind(v, w)
    ensures ToSqlValue(v) == ToSqlValue(w) <==> v == w
    ensures SqlLess(ToSqlValue(v), ToSqlValue(w)) <==> JsLess(Some(v), Some(w))
    ensures !SqlLess(ToSqlValue(w), ToSqlValue(v)) <==> JsAtMost(Some(v), Some(w))
  {
  }

  /** The clause compares the column, the operator a data field of that name: they
      agree exactly if the two values compare alike. */
  lemma MetadataAgreesIff(row: Row, f: Filter)
    requires f.field in METADATA && !f.operator.IN? && !f.operator.CONTAINS? && SameKind(MetaJson(row, f.field), f.value)
    ensures Agrees(row, f) <==>
            (ApplyOperator(Some(MetaJson(row, f.field)), f.operator, f.value) <==>
             ApplyOperator(FieldOf(row, f.field), f.operator, f.value))
  {
    MetaColumn(row, f.field);
    ValuesAgree(MetaJson(row, f.field), f.value);
    ValuesAgree(f.value, MetaJson(row, f.field));
  }

  /** They agree on `eq` whatever the target exactly if the data repeats the metadata. */
  lemma MetadataRepeatedIff(row: Row, name: string)
    requires name in METADATA
    ensures (forall w | SameKind(MetaJson(row, name), w) :: Agrees(row, Filter(name, EQ, w))) <==>
            FieldOf(row, name) == Some(MetaJson(row, name))
  {
    var m := MetaJson(row, name);
    forall w | SameKind(m, w) ensures Agrees(row, Filter(name, EQ, w)) <==> ((m == w) <==> FieldOf(row, name) == Some(w)) {
      MetadataAgreesIff(row, Filter(name, EQ, w));
    }
    assert SameKind(m, m);
  }

  // ----- All operators

  /** Both sides are defined: the data is there to look into, compared values are
      scalars, `contains` looks into text and for text without wildcards, and a
      metadata field is compared with a value of its own type. */
  predicate Defined(row: Row, f: Filter) {
    && !row.entity.data.Null?
    && (f.field in METADATA ==> DefinedOnColumn(row, f))
    && (f.field !in METADATA ==> DefinedOnData(row, f))
  }

  predicate DefinedOnColumn(row: Row, f: Filter) {
    !f.operator.IN? && !f.operator.CONTAINS? && SameKind(MetaJson(row, f.field), f.value)
  }

  predicate DefinedOnData(row: Row, f: Filter) {
    && Extractable(row, f.field)
    && match f.operator
       case IN => f.value.Arr? && forall item | item in f.value.items :: IsScalar(item)
       case CONTAINS => FieldOf(row, f.field).Some? && FieldOf(row, f.field).value.Str? && NoWildcard(Template(f.value))
       case _ => IsScalar(f.value)
  }

  predicate Agreeable(row: Row, f: Filter)
    requires Defined(row, f)
  {
    var v := FieldOf(row, f.field);
    if f.field in METADATA
    then ApplyOperator(Some(MetaJson(row, f.field)), f.operator, f.value) <==> ApplyOperator(v, f.operator, f.value)
    else match f.operator
      case EQ => !(v == Some(Null) && f.value.Null?) && !(v.Some? && Confused(v.value, f.value))
      case NEQ => (v == Some(Null) && f.value.Null?) || (Present(v) && !f.value.Null? && !Confused(v.value, f.value))
      case IN => InAgreeable(v, f.value.items)
      case CONTAINS =>
        var t := Template(f.value);
        Substring(v.value.s, t) || !Substring(FoldAll(v.value.s), FoldAll(t))
      case op => v.None? || OrderAgreeable(v.value, op, f.value)
  }

  /** Clause and operator agree exactly under the condition of the operator. */
  lemma FilterAgreesIff(row: Row, f: Filter)
    requires Defined(row, f)
    ensures Agrees(row, f) <==> Agreeable(row, f)
  {
    if f.field in METADATA {
      MetadataAgreesIff(row, f);
    } else {
      match f.operator
      case EQ => EqAgreesIff(row, f);
      case NEQ => NeqAgreesIff(row, f);
      case IN => InAgreesIff(row, f);
      case CONTAINS => ContainsAgreesIff(row, f);
      case _ => OrderAgreesIff(row, f);
    }
  }

  // ----- Where they never agree

  /** `neq` on a missing field, whatever the target. */
  lemma MissingFieldDiffers(row: Row, f: Filter)
    requires PlainField(f.field) && FieldOf(row, f.field).None? && f.operator.NEQ? && IsScalar(f.value)
    ensures !Agrees(row, f)
  {
    NeqAgreesIff(row, f);
  }

  /** `eq` between a boolean and its number. */
  lemma BooleanDiffers(row: Row, f: Filter, b: bool)
    requires PlainField(f.field) && FieldOf(row, f.field) == Some(Bool(b))
    requires f.operator.EQ? && f.value == Num(if b then 1 else 0)
    ensures !Agrees(row, f)
  {
    EqAgreesIff(row, f);
  }

  /** A metadata field that the data does not repeat. */
  lemma MetadataDiffers(row: Row, name: string)
    requires name in METADATA && FieldOf(row, name) != Some(MetaJson(row, name))
    ensures exists w :: SameKind(MetaJson(row, name), w) && !Agrees(row, Filter(name, EQ, w))
  {
    MetadataRepeatedIff(row, name);
  }

  /** `contains` for a text of which only the letter case is there. */
  lemma ContainsDiffers(row: Row, f: Filter)
    requires PlainField(f.field) && f.operator.CONTAINS? && NoWildcard(Template(f.value))
    requires FieldOf(row, f.field).Some? && FieldOf(row, f.field).value.Str?
    requires var s, t := FieldOf(row, f.field).value.s, Template(f.value);
             !Substring(s, t) && Substring(FoldAll(s), FoldAll(t))
    ensures !Agrees(row, f)
  {
    ContainsAgreesIff(row, f);
  }
}
