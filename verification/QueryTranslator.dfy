/** Translation and in-memory evaluation as loops, proved against QuerySpec. */
module QueryTranslator {
  import opened Json
  import opened Protocol
  import opened QuerySpec
  import opened QueryLaws

  method TranslateFilter(filter: Filter) returns (part: Clause, added: seq<SqlValue>)
    ensures part == ClauseOf(filter) && added == ParamsOf(filter)
  {
    var column := ToSqlExpression(filter.field);
    match filter.operator {
      case IN =>
        var values := if filter.value.Arr? then filter.value.items else [];
        if |values| == 0 {
          part, added := Never, [];
        } else {
          part, added := InList(column, |values|), SqlValues(values);
        }
      case CONTAINS =>
        part, added := Like(column), [Text("%" + Template(filter.value) + "%")];
      case op =>
        part, added := Comparison(column, op), [ToSqlValue(filter.value)];
    }
  }

  /** Pushes a clause and its parameters for each filter, in step. */
  method TranslateFilters(filters: seq<Filter>) returns (parts: seq<Clause>, params: seq<SqlValue>)
    ensures parts == [NotDeleted] + Clauses(filters) && params == Params(filters)
  {
    parts, params := [NotDeleted], [];
    for i := 0 to |filters|
      invariant parts + Clauses(filters[i..]) == [NotDeleted] + Clauses(filters)
      invariant params + Params(filters[i..]) == Params(filters)
    {
      var part, added := TranslateFilter(filters[i]);
      FirstFilter(filters, i);
      Regroup(parts, [part], Clauses(filters[i + 1..]));
      Regroup(params, added, Params(filters[i + 1..]));
      parts, params := parts + [part], params + added;
    }
    assert filters[|filters|..] == [];
  }

  lemma FirstFilter(filters: seq<Filter>, i: nat)
    requires i < |filters|
    ensures Clauses(filters[i..]) == [ClauseOf(filters[i])] + Clauses(filters[i + 1..])
    ensures Params(filters[i..]) == ParamsOf(filters[i]) + Params(filters[i + 1..])
  {
    assert filters[i..][1..] == filters[i + 1..];
  }

  lemma Regroup<T>(a: seq<T>, b: seq<T>, c: seq<T>)
    ensures a + (b + c) == a + b + c
  {
  }

  method TranslateQuery(def: Definition) returns (t: Translation)
    ensures t == Translate(def)
  {
    var parts, params := TranslateFilters(def.filters);
    var orderBy := if def.sort.Some? then Some((ToSqlExpression(def.sort.value.field), def.sort.value.descending)) else None;
    var limit := NoLimit;
    if def.limit.Some? {
      limit := LimitParameter;
    } else if def.offset.Some? {
      limit := LimitMinusOne;
    }
    t := Translation(parts, params, orderBy, limit, def.offset.Some?);
  }

  function Narrow(rows: seq<Row>, f: Filter): seq<Row> {
    if rows == [] then []
    else
      var last := rows[|rows| - 1];
      Narrow(rows[..|rows| - 1], f) + if ApplyOperator(FieldOf(last, f.field), f.operator, f.value) then [last] else []
  }

  lemma {:induction false} NarrowKeeps(rows: seq<Row>, filters: seq<Filter>, f: Filter)
    ensures Narrow(Keep(rows, filters), f) == Keep(rows, filters + [f])
  {
    if rows != [] {
      var init, last := rows[..|rows| - 1], rows[|rows| - 1];
      NarrowKeeps(init, filters, f);
      var all := filters + [f];
      assert all[|filters|] == f && forall i | 0 <= i < |filters| :: all[i] == filters[i];
      assert Passes(last, all) <==> Passes(last, filters) && ApplyOperator(FieldOf(last, f.field), f.operator, f.value);
      var kept := Keep(init, filters);
      if Kept(last, filters) {
        assert (kept + [last])[..|kept|] == kept;
      } else {
        assert Keep(rows, filters) == kept;
      }
    }
  }

  /** One filter after the other over what is left, then sort, offset and limit; None
      if that throws. */
  method FilterEntities(rows: seq<Row>, def: Definition) returns (results: Option<seq<Row>>)
    ensures results == if Throws(rows, def) then None else Some(QuerySpec.FilterEntities(rows, def))
  {
    var kept := [];
    for i := 0 to |rows|
      invariant kept == Keep(rows[..i], [])
    {
      assert rows[..i + 1][..i] == rows[..i];
      if !rows[i].entity.isDeleted {
        kept := kept + [rows[i]];
      }
    }
    assert rows[..|rows|] == rows;
    for i := 0 to |def.filters|
      invariant kept == Keep(rows, def.filters[..i])
      invariant forall j, row | 0 <= j < i && row in Keep(rows, def.filters[..j]) :: !FilterThrows(row, def.filters[j])
    {
      if exists row :: row in kept && FilterThrows(row, def.filters[i]) {
        return None;
      }
      NarrowKeeps(rows, def.filters[..i], def.filters[i]);
      assert def.filters[..i + 1] == def.filters[..i] + [def.filters[i]];
      kept := Narrow(kept, def.filters[i]);
    }
    assert def.filters[..|def.filters|] == def.filters;
    if def.sort.Some? {
      if SortThrows(kept) {
        return None;
      }
      kept := SortRows(kept, def.sort.value);
    }
    if def.offset.Some? {
      kept := kept[SliceIndex(def.offset.value, |kept|)..];
    }
    if def.limit.Some? {
      kept := kept[..SliceIndex(def.limit.value, |kept|)];
    }
    return Some(kept);
  }
}
