/** Where every clause agrees with its operator, the translated statement has the
    answers that the reference store gives. */
module QueryLaws {
  import opened Json
  import opened Protocol
  import opened QuerySpec
  import opened QueryAgreement

  // ----- Binding

  lemma {:induction false} ParamsFitClauses(filters: seq<Filter>)
    ensures |Params(filters)| == TotalPlaceholders(Clauses(filters))
  {
    if filters != [] {
      ParamsFitClause(filters[0]);
      ParamsFitClauses(filters[1..]);
    }
  }

  /** Whatever the definition, as many values are bound as the statement has
      placeholders, each one at the placeholder it belongs to. */
  lemma BindingIsPositional(collection: string, def: Definition)
    ensures var t, bound := Translate(def), AllParams(collection, def);
            && |bound| == StatementPlaceholders(t)
            && bound[0] == Text(collection)
            && bound[1..1 + TotalPlaceholders(t.clauses)] == Params(def.filters)
            && (def.limit.Some? ==> bound[1 + TotalPlaceholders(t.clauses)] == Integer(def.limit.value))
            && (def.offset.Some? ==> bound[|bound| - 1] == Integer(def.offset.value))
  {
    ParamsFitClauses(def.filters);
    ClausesTotal(def.filters);
    Parts(Text(collection), Params(def.filters),
          if def.limit.Some? then [Integer(def.limit.value)] else [], if def.offset.Some? then [Integer(def.offset.value)] else []);
  }

  lemma ClausesTotal(filters: seq<Filter>)
    ensures TotalPlaceholders([NotDeleted] + Clauses(filters)) == TotalPlaceholders(Clauses(filters))
  {
    assert ([NotDeleted] + Clauses(filters))[1..] == Clauses(filters);
  }

  lemma Parts(first: SqlValue, middle: seq<SqlValue>, limit: seq<SqlValue>, offset: seq<SqlValue>)
    requires |limit| <= 1 && |offset| <= 1
    ensures var all := [first] + middle + limit + offset;
            && |all| == 1 + |middle| + |limit| + |offset| && all[0] == first && all[1..1 + |middle|] == middle
            && (limit != [] ==> all[1 + |middle|] == limit[0]) && (offset != [] ==> all[|all| - 1] == offset[0])
  {
  }

  // ----- The WHERE clause

  /** Every filter is defined on the row, and its clause agrees with it there. */
  predicate AllAgreeable(row: Row, filters: seq<Filter>) {
    forall i | 0 <= i < |filters| :: Defined(row, filters[i]) && Agreeable(row, filters[i])
  }

  lemma {:induction false} ClausesAgree(row: Row, filters: seq<Filter>)
    requires AllAgreeable(row, filters)
    ensures WhereTrue(Clauses(filters), Params(filters), row) <==> Passes(row, filters)
  {
    if filters != [] {
      var f, rest := filters[0], filters[1..];
      assert forall i | 0 <= i < |rest| :: rest[i] == filters[i + 1];
      ClausesAgree(row, rest);
      FilterAgreesIff(row, f);
      var n := Placeholders(ClauseOf(f));
      assert Clauses(filters)[1..] == Clauses(rest);
      assert Params(filters)[..n] == ParamsOf(f) && Params(filters)[n..] == Params(rest);
      assert Passes(row, filters) <==> ApplyOperator(FieldOf(row, f.field), f.operator, f.value) && Passes(row, rest);
    }
  }

  lemma WhereAgrees(row: Row, def: Definition)
    requires AllAgreeable(row, def.filters)
    ensures WhereTrue(Translate(def).clauses, Params(def.filters), row) <==> Kept(row, def.filters)
  {
    ClausesAgree(row, def.filters);
    var clauses := Translate(def).clauses;
    assert clauses[1..] == Clauses(def.filters);
    assert Params(def.filters)[..0] == [] && Params(def.filters)[0..] == Params(def.filters);
  }

  /** The rows of one collection, as the reference store lists them. */
  function OfCollection(table: seq<Row>, collection: string): seq<Row> {
    if table == [] then []
    else OfCollection(table[..|table| - 1], collection)
         + if table[|table| - 1].collection == collection then [table[|table| - 1]] else []
  }

  predicate InFragment(table: seq<Row>, collection: string, filters: seq<Filter>) {
    forall row | row in table && row.collection == collection :: AllAgreeable(row, filters)
  }

  /** The statement selects exactly the rows that the reference store keeps. */
  lemma SelectionAgrees(table: seq<Row>, collection: string, def: Definition)
    requires InFragment(table, collection, def.filters)
    ensures |AllParams(collection, def)| == StatementPlaceholders(Translate(def))
    ensures Select(table, Translate(def), AllParams(collection, def)) == Keep(OfCollection(table, collection), def.filters)
  {
    BindingIsPositional(collection, def);
    forall row | row in table
      ensures Picked(row, Translate(def), AllParams(collection, def)) <==> row.collection == collection && Kept(row, def.filters)
    {
      RowAgrees(row, collection, def);
    }
    SelectIsKeep(table, Translate(def), AllParams(collection, def), collection, def.filters);
  }

  lemma {:induction false} SelectIsKeep(table: seq<Row>, t: Translation, bound: seq<SqlValue>, collection: string, filters: seq<Filter>)
    requires |bound| == StatementPlaceholders(t)
    requires forall row | row in table :: Picked(row, t, bound) <==> row.collection == collection && Kept(row, filters)
    ensures Select(table, t, bound) == Keep(OfCollection(table, collection), filters)
  {
    if table != [] {
      var init, row := table[..|table| - 1], table[|table| - 1];
      assert table == init + [row] && row in table;
      SelectIsKeep(init, t, bound, collection, filters);
      KeepAppend(OfCollection(init, collection), row, filters);
      if row.collection != collection {
        assert OfCollection(table, collection) == OfCollection(init, collection);
      }
    }
  }

  lemma RowAgrees(row: Row, collection: string, def: Definition)
    requires row.collection == collection ==> AllAgreeable(row, def.filters)
    ensures |AllParams(collection, def)| == StatementPlaceholders(Translate(def))
    ensures Picked(row, Translate(def), AllParams(collection, def)) <==> row.collection == collection && Kept(row, def.filters)
  {
    BindingIsPositional(collection, def);
    if row.collection == collection {
      WhereAgrees(row, def);
    }
  }

  lemma KeepAppend(rows: seq<Row>, row: Row, filters: seq<Filter>)
    ensures Keep(rows + [row], filters) == Keep(rows, filters) + if Kept(row, filters) then [row] else []
  {
    assert (rows + [row])[..|rows|] == rows;
  }

  // ----- One filter

  lemma {:induction false} KeepMembers(rows: seq<Row>, filters: seq<Filter>)
    ensures forall row :: row in Keep(rows, filters) <==> row in rows && Kept(row, filters)
  {
    if rows != [] {
      KeepMembers(rows[..|rows| - 1], filters);
      assert rows == rows[..|rows| - 1] + [rows[|rows| - 1]];
    }
  }

  lemma {:induction false} SelectMembers(table: seq<Row>, t: Translation, bound: seq<SqlValue>)
    requires |bound| == StatementPlaceholders(t)
    ensures forall row :: row in Select(table, t, bound) <==> row in table && Picked(row, t, bound)
  {
    if table != [] {
      SelectMembers(table[..|table| - 1], t, bound);
      assert table == table[..|table| - 1] + [table[|table| - 1]];
    }
  }

  lemma {:induction false} OfCollectionMembers(table: seq<Row>, collection: string)
    ensures forall row :: row in OfCollection(table, collection) <==> row in table && row.collection == collection
  {
    if table != [] {
      OfCollectionMembers(table[..|table| - 1], collection);
      assert table == table[..|table| - 1] + [table[|table| - 1]];
    }
  }

  lemma OneClause(row: Row, f: Filter)
    ensures WhereTrue([NotDeleted] + Clauses([f]), Params([f]), row) <==>
            !row.entity.isDeleted && (ParamsFitClause(f); ClauseTrue(ClauseOf(f), ParamsOf(f), row))
    ensures Kept(row, [f]) <==> !row.entity.isDeleted && ApplyOperator(FieldOf(row, f.field), f.operator, f.value)
  {
    var clauses, params := [NotDeleted] + Clauses([f]), Params([f]);
    assert [f][1..] == [] && Clauses([f]) == [ClauseOf(f)] && Params([f]) == ParamsOf(f);
    assert clauses[1..] == [ClauseOf(f)] && params[..0] == [] && params[0..] == params;
    ParamsFitClause(f);
    var n := Placeholders(ClauseOf(f));
    assert [ClauseOf(f)][1..] == [] && params[..n] == ParamsOf(f);
    assert WhereTrue([ClauseOf(f)], params, row) <==> ClauseTrue(ClauseOf(f), ParamsOf(f), row);
  }

  /** A query with one filter selects what the reference store keeps exactly if the
      clause agrees with the operator on every row of the collection that is not
      deleted. */
  lemma {:induction false} OneFilterAgreesIff(table: seq<Row>, collection: string, def: Definition, f: Filter)
    requires def.filters == [f]
    requires forall row | row in table && row.collection == collection :: Defined(row, f)
    ensures |AllParams(collection, def)| == StatementPlaceholders(Translate(def))
    ensures Select(table, Translate(def), AllParams(collection, def)) == Keep(OfCollection(table, collection), def.filters) <==>
            forall row | row in table && row.collection == collection && !row.entity.isDeleted :: Agreeable(row, f)
  {
    var t, bound, mine := Translate(def), AllParams(collection, def), OfCollection(table, collection);
    BindingIsPositional(collection, def);
    SelectMembers(table, t, bound);
    KeepMembers(mine, def.filters);
    OfCollectionMembers(table, collection);
    forall row | row in table
      ensures row.collection != collection ==> !Picked(row, t, bound)
      ensures row.collection == collection ==>
                ((Picked(row, t, bound) <==> Kept(row, [f])) <==> row.entity.isDeleted || Agreeable(row, f))
    {
      OneClause(row, f);
      if row.collection == collection {
        FilterAgreesIff(row, f);
      }
    }
    if forall row | row in table && row.collection == collection && !row.entity.isDeleted :: Agreeable(row, f) {
      SelectIsKeep(table, t, bound, collection, def.filters);
    } else {
      var row :| row in table && row.collection == collection && !row.entity.isDeleted && !Agreeable(row, f);
      assert row in Select(table, t, bound) <==> row !in Keep(mine, def.filters);
    }
  }

  // ----- Sorting

  /** All rows have the field, with values of one type, and different rows have
      different values. */
  predicate SortsApart(rows: seq<Row>, field: string) {
    && PlainField(field)
    && (forall a | a in rows :: a.entity.data.Obj? && FieldOf(a, field).Some?)
    && (forall a, b | a in rows && b in rows :: SameKind(FieldOf(a, field).value, FieldOf(b, field).value))
    && (forall a, b | a in rows && b in rows && FieldOf(a, field) == FieldOf(b, field) :: a == b)
  }

  function SqlOrder(sort: Sort): (Column, bool) {
    (ToSqlExpression(sort.field), sort.descending)
  }

  predicate Before(a: Row, b: Row, order: (Column, bool)) {
    var x, y := ColumnValue(a, order.0), ColumnValue(b, order.0);
    if order.1 then SqlLess(y, x) else SqlLess(x, y)
  }

  lemma CompareAgrees(rows: seq<Row>, a: Row, b: Row, sort: Sort)
    requires SortsApart(rows, sort.field) && a in rows && b in rows
    ensures Compare(a, b, sort) > 0 <==> Before(b, a, SqlOrder(sort))
    ensures !(Before(a, b, SqlOrder(sort)) && Before(b, a, SqlOrder(sort)))
    ensures Before(a, b, SqlOrder(sort)) || Before(b, a, SqlOrder(sort)) || a == b
  {
    var x, y := FieldOf(a, sort.field).value, FieldOf(b, sort.field).value;
    PlainColumn(a, sort.field);
    PlainColumn(b, sort.field);
    if x.Str? {
      StringOrder(x.s, y.s);
    }
  }

  lemma BeforeTransitive(rows: seq<Row>, a: Row, b: Row, c: Row, sort: Sort)
    requires SortsApart(rows, sort.field) && a in rows && b in rows && c in rows
    requires Before(a, b, SqlOrder(sort)) && Before(b, c, SqlOrder(sort))
    ensures Before(a, c, SqlOrder(sort))
  {
    var x, y, z := FieldOf(a, sort.field).value, FieldOf(b, sort.field).value, FieldOf(c, sort.field).value;
    PlainColumn(a, sort.field);
    PlainColumn(b, sort.field);
    PlainColumn(c, sort.field);
    if x.Str? {
      if sort.descending { StringTransitive(z.s, y.s, x.s); } else { StringTransitive(x.s, y.s, z.s); }
    }
  }

  predicate Ordered(rows: seq<Row>, order: (Column, bool)) {
    forall i, j | 0 <= i < j < |rows| :: !Before(rows[j], rows[i], order)
  }

  predicate Within(part: seq<Row>, rows: seq<Row>) {
    forall row | row in part :: row in rows
  }

  lemma {:induction false} InsertMultiset(sorted: seq<Row>, row: Row, sort: Sort)
    ensures multiset(InsertSorted(sorted, row, sort)) == multiset(sorted) + multiset{row}
  {
    if sorted != [] && Compare(sorted[|sorted| - 1], row, sort) > 0 {
      var init, last := sorted[..|sorted| - 1], sorted[|sorted| - 1];
      InsertMultiset(init, row, sort);
      assert sorted == init + [last];
      assert multiset(InsertSorted(init, row, sort) + [last]) == multiset(InsertSorted(init, row, sort)) + multiset{last};
    }
  }

  lemma {:induction false} InsertOrdered(rows: seq<Row>, sorted: seq<Row>, row: Row, sort: Sort)
    requires SortsApart(rows, sort.field) && Within(sorted, rows) && row in rows
    requires Ordered(sorted, SqlOrder(sort))
    ensures Ordered(InsertSorted(sorted, row, sort), SqlOrder(sort))
  {
    if sorted != [] {
      var init, last := sorted[..|sorted| - 1], sorted[|sorted| - 1];
      assert last in sorted;
      CompareAgrees(rows, last, row, sort);
      if Compare(last, row, sort) > 0 {
        InsertOrdered(rows, init, row, sort);
        assert sorted == init + [last];
        LastStaysLast(init, last, SqlOrder(sort));
        InsertedBefore(init, row, last, sort);
        OrderedAppend(InsertSorted(init, row, sort), last, SqlOrder(sort));
      } else {
        forall x | x in sorted ensures !Before(row, x, SqlOrder(sort)) {
          var i :| 0 <= i < |sorted| && sorted[i] == x;
          NotBeforeEarlier(rows, sorted, row, i, sort);
        }
        OrderedAppend(sorted, row, SqlOrder(sort));
      }
    }
  }

  lemma LastStaysLast(init: seq<Row>, last: Row, order: (Column, bool))
    requires Ordered(init + [last], order)
    ensures forall x | x in init :: !Before(last, x, order)
  {
    forall x | x in init ensures !Before(last, x, order) {
      var i :| 0 <= i < |init| && init[i] == x;
      assert (init + [last])[i] == x && (init + [last])[|init|] == last;
    }
  }

  lemma OrderedAppend(rows: seq<Row>, row: Row, order: (Column, bool))
    requires Ordered(rows, order) && forall x | x in rows :: !Before(row, x, order)
    ensures Ordered(rows + [row], order)
  {
  }

  lemma InsertedBefore(init: seq<Row>, row: Row, last: Row, sort: Sort)
    requires !Before(last, row, SqlOrder(sort)) && forall x | x in init :: !Before(last, x, SqlOrder(sort))
    ensures forall x | x in InsertSorted(init, row, sort) :: !Before(last, x, SqlOrder(sort))
  {
    InsertMultiset(init, row, sort);
    forall x | x in InsertSorted(init, row, sort) ensures x in init || x == row {
      assert x in multiset(init) + multiset{row};
    }
  }

  lemma NotBeforeEarlier(rows: seq<Row>, sorted: seq<Row>, row: Row, i: nat, sort: Sort)
    requires SortsApart(rows, sort.field) && Within(sorted, rows) && row in rows && i < |sorted|
    requires Ordered(sorted, SqlOrder(sort)) && !Before(row, sorted[|sorted| - 1], SqlOrder(sort))
    ensures !Before(row, sorted[i], SqlOrder(sort))
  {
    var last := sorted[|sorted| - 1];
    assert last in sorted && sorted[i] in sorted;
    if i < |sorted| - 1 && Before(row, sorted[i], SqlOrder(sort)) {
      CompareAgrees(rows, sorted[i], last, sort);
      if Before(sorted[i], last, SqlOrder(sort)) {
        BeforeTransitive(rows, row, sorted[i], last, sort);
      }
    }
  }

  lemma {:induction false} SortOrdered(rows: seq<Row>, part: seq<Row>, sort: Sort)
    requires SortsApart(rows, sort.field) && Within(part, rows)
    ensures Ordered(SortRows(part, sort), SqlOrder(sort))
    ensures multiset(SortRows(part, sort)) == multiset(part)
  {
    if part != [] {
      var init, last := part[..|part| - 1], part[|part| - 1];
      assert part == init + [last] && last in part;
      SortOrdered(rows, init, sort);
      forall row | row in SortRows(init, sort) ensures row in rows {
        assert row in multiset(init);
      }
      InsertMultiset(SortRows(init, sort), last, sort);
      InsertOrdered(rows, SortRows(init, sort), last, sort);
    }
  }

  /** Two orderings of the same rows that both respect the sort are the same. */
  lemma {:induction false} OrderIsUnique(rows: seq<Row>, a: seq<Row>, b: seq<Row>, sort: Sort)
    requires SortsApart(rows, sort.field) && Within(a, rows) && multiset(a) == multiset(b)
    requires Ordered(a, SqlOrder(sort)) && Ordered(b, SqlOrder(sort))
    ensures a == b
  {
    if a == [] {
      assert |multiset(b)| == |b|;
    } else {
      FirstIsUnique(rows, a, b, sort);
      TailMultiset(a);
      TailMultiset(b);
      OrderIsUnique(rows, a[1..], b[1..], sort);
    }
  }

  lemma TailMultiset(a: seq<Row>)
    requires a != []
    ensures a == [a[0]] + a[1..] && multiset(a[1..]) == multiset(a) - multiset{a[0]}
  {
    assert a == [a[0]] + a[1..];
  }

  lemma FirstIsUnique(rows: seq<Row>, a: seq<Row>, b: seq<Row>, sort: Sort)
    requires SortsApart(rows, sort.field) && Within(a, rows) && multiset(a) == multiset(b) && a != []
    requires Ordered(a, SqlOrder(sort)) && Ordered(b, SqlOrder(sort))
    ensures b != [] && a[0] == b[0]
  {
    assert |multiset(a)| == |a| && |multiset(b)| == |b|;
    assert a[0] in multiset(b) && b[0] in multiset(a);
    var i :| 0 <= i < |b| && b[i] == a[0];
    var j :| 0 <= j < |a| && a[j] == b[0];
    CompareAgrees(rows, a[0], b[0], sort);
  }

  // ----- The answers

  lemma InOrderIsOrdered(rows: seq<Row>, order: (Column, bool))
    ensures InOrder(rows, order) <==> Ordered(rows, order)
  {
  }

  predicate Forward(def: Definition) {
    (def.limit.Some? ==> def.limit.value >= 0) && (def.offset.Some? ==> def.offset.value >= 0)
  }

  function Slice(rows: seq<Row>, def: Definition): seq<Row> {
    var skipped := if def.offset.Some? then rows[SliceIndex(def.offset.value, |rows|)..] else rows;
    if def.limit.Some? then skipped[..SliceIndex(def.limit.value, |skipped|)] else skipped
  }

  /** With bounds that are not negative the windows of the two languages agree,
      whatever the rows. */
  lemma WindowsAgree(rows: seq<Row>, collection: string, def: Definition)
    requires Forward(def)
    ensures |AllParams(collection, def)| == StatementPlaceholders(Translate(def))
    ensures Window(rows, Translate(def), AllParams(collection, def)) == Slice(rows, def)
  {
    BindingIsPositional(collection, def);
  }

  predicate Bindable(filters: seq<Filter>) {
    Unbindable !in Params(filters)
  }

  lemma AllBindable(collection: string, def: Definition)
    requires Bindable(def.filters)
    ensures Unbindable !in AllParams(collection, def)
  {
  }

  /** The rows that the reference store keeps and sorts are those the statement selects,
      in the order it asks for. */
  lemma {:induction false} SortedAsAsked(table: seq<Row>, collection: string, def: Definition)
    requires InFragment(table, collection, def.filters)
    requires def.sort.Some? && SortsApart(OfCollection(table, collection), def.sort.value.field)
    ensures |AllParams(collection, def)| == StatementPlaceholders(Translate(def))
    ensures multiset(Sorted(table, collection, def)) == multiset(Select(table, Translate(def), AllParams(collection, def)))
    ensures Ordered(Sorted(table, collection, def), SqlOrder(def.sort.value))
  {
    SelectionAgrees(table, collection, def);
    KeptSorted(OfCollection(table, collection), def.filters, def.sort.value);
  }

  lemma KeptSorted(rows: seq<Row>, filters: seq<Filter>, sort: Sort)
    requires SortsApart(rows, sort.field)
    ensures var sorted := SortRows(Keep(rows, filters), sort);
            multiset(sorted) == multiset(Keep(rows, filters)) && Ordered(sorted, SqlOrder(sort))
  {
    KeptWithin(rows, filters);
    SortOrdered(rows, Keep(rows, filters), sort);
  }

  function Sorted(table: seq<Row>, collection: string, def: Definition): seq<Row>
    requires def.sort.Some?
  {
    SortRows(Keep(OfCollection(table, collection), def.filters), def.sort.value)
  }

  lemma FilteredIsSlice(table: seq<Row>, collection: string, def: Definition)
    requires def.sort.Some?
    ensures FilterEntities(OfCollection(table, collection), def) == Slice(Sorted(table, collection, def), def)
  {
  }

  lemma {:induction false} ReferenceIsOnlyAnswer(table: seq<Row>, collection: string, def: Definition, answer: seq<Row>)
    requires InFragment(table, collection, def.filters) && Forward(def)
    requires def.sort.Some? && SortsApart(OfCollection(table, collection), def.sort.value.field)
    requires IsAnswer(table, Translate(def), AllParams(collection, def), answer)
    ensures answer == FilterEntities(OfCollection(table, collection), def)
  {
    var t, bound, mine := Translate(def), AllParams(collection, def), OfCollection(table, collection);
    var sort, sorted := def.sort.value, Sorted(table, collection, def);
    SortedAsAsked(table, collection, def);
    FilteredIsSlice(table, collection, def);
    WindowsAgree(sorted, collection, def);
    var rows :| multiset(rows) == multiset(Select(table, t, bound)) && InOrder(rows, SqlOrder(sort)) && answer == Window(rows, t, bound);
    InOrderIsOrdered(rows, SqlOrder(sort));
    SelectionAgrees(table, collection, def);
    KeptWithin(mine, def.filters);
    forall row | row in rows ensures row in mine {
      assert row in multiset(Keep(mine, def.filters));
    }
    OrderIsUnique(mine, rows, sorted, sort);
  }

  /** A query in the fragment that sorts its rows apart has exactly one answer, the
      one of the reference store: the same rows, in the same order, in the same
      window. */
  lemma {:induction false} TranslationAgrees(table: seq<Row>, collection: string, def: Definition, answer: seq<Row>)
    requires InFragment(table, collection, def.filters) && Bindable(def.filters) && Forward(def)
    requires def.sort.Some? && SortsApart(OfCollection(table, collection), def.sort.value.field)
    ensures IsAnswer(table, Translate(def), AllParams(collection, def), answer) <==>
            answer == FilterEntities(OfCollection(table, collection), def)
  {
    if IsAnswer(table, Translate(def), AllParams(collection, def), answer) {
      ReferenceIsOnlyAnswer(table, collection, def, answer);
    } else {
      AllBindable(collection, def);
      SortedAsAsked(table, collection, def);
      FilteredIsSlice(table, collection, def);
      InOrderIsOrdered(Sorted(table, collection, def), SqlOrder(def.sort.value));
      WindowsAgree(Sorted(table, collection, def), collection, def);
    }
  }

  lemma {:induction false} KeptWithin(rows: seq<Row>, filters: seq<Filter>)
    ensures Within(Keep(rows, filters), rows)
  {
    if rows != [] {
      KeptWithin(rows[..|rows| - 1], filters);
      assert rows == rows[..|rows| - 1] + [rows[|rows| - 1]];
    }
  }

  /** Without a sort and a window, the answers are the orderings of the rows that
      the reference store returns. */
  lemma UnsortedAgrees(table: seq<Row>, collection: string, def: Definition, answer: seq<Row>)
    requires InFragment(table, collection, def.filters) && Bindable(def.filters)
    requires def.sort.None? && def.limit.None? && def.offset.None?
    ensures IsAnswer(table, Translate(def), AllParams(collection, def), answer) <==>
            multiset(answer) == multiset(FilterEntities(OfCollection(table, collection), def))
  {
    var t, bound := Translate(def), AllParams(collection, def);
    SelectionAgrees(table, collection, def);
    AllBindable(collection, def);
    assert Window(answer, t, bound) == answer;
    if IsAnswer(table, t, bound, answer) {
      var rows :| multiset(rows) == multiset(Select(table, t, bound)) && answer == Window(rows, t, bound);
    }
  }

  // ----- In the fragment nothing throws

  lemma {:induction false} FragmentNeverThrows(table: seq<Row>, collection: string, def: Definition)
    requires InFragment(table, collection, def.filters)
    requires def.sort.Some? ==> SortsApart(OfCollection(table, collection), def.sort.value.field)
    ensures !Throws(OfCollection(table, collection), def)
  {
    var mine := OfCollection(table, collection);
    OfCollectionMembers(table, collection);
    forall i, row | 0 <= i < |def.filters| && row in Keep(mine, def.filters[..i]) ensures !FilterThrows(row, def.filters[i]) {
      KeepMembers(mine, def.filters[..i]);
      assert AllAgreeable(row, def.filters) && Defined(row, def.filters[i]);
    }
    KeepMembers(mine, def.filters);
  }
}
