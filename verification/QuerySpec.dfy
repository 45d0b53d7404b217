/** Queries twice: as the reference store evaluates them in memory, and as SQL
    clauses with positional parameters and the answers SQLite may give to them. */
module QuerySpec {
  import opened Json
  import opened Protocol

  datatype Operator = EQ | NEQ | GT | GTE | LT | LTE | IN | CONTAINS

  datatype Filter = Filter(field: string, operator: Operator, value: Json)

  datatype Sort = Sort(field: string, descending: bool)

  datatype Definition = Definition(filters: seq<Filter>, sort: Option<Sort>, limit: Option<int>, offset: Option<int>)

  datatype Row = Row(collection: string, id: string, entity: Entity)

  // ----- Comparing values

  predicate StringLess(a: string, b: string) {
    if b == "" then false
    else if a == "" then true
    else if a[0] != b[0] then a[0] < b[0]
    else StringLess(a[1..], b[1..])
  }

  // ----- In memory

  function FieldOf(row: Row, field: string): Option<Json> {
    if row.entity.data.Obj? then Get(row.entity.data.fields, field) else None
  }

  const SPACES := "\t\n\U{B}\U{C}\r \U{A0}\U{1680}\U{2028}\U{2029}\U{202F}\U{205F}\U{3000}\U{FEFF}"

  predicate IsSpace(c: char) {
    c in SPACES || '\U{2000}' <= c <= '\U{200A}'
  }

  function Trim(s: string): string {
    if s == "" then ""
    else if IsSpace(s[0]) then Trim(s[1..])
    else if IsSpace(s[|s| - 1]) then Trim(s[..|s| - 1])
    else s
  }

  predicate AllDigits(s: string) {
    s != "" && forall i | 0 <= i < |s| :: '0' <= s[i] <= '9'
  }

  function DigitsValue(s: string): nat
    requires forall i | 0 <= i < |s| :: '0' <= s[i] <= '9'
  {
    if s == "" then 0 else DigitsValue(s[..|s| - 1]) * 10 + (s[|s| - 1] as int - '0' as int)
  }

  /** `Number(s)` of a text, None for NaN. Only integers are numbers here. */
  function NumberOfText(s: string): Option<int> {
    var t := Trim(s);
    if t == "" then Some(0)
    else if AllDigits(t) then Some(DigitsValue(t))
    else if t[0] == '-' && AllDigits(t[1..]) then (var n: int := DigitsValue(t[1..]); Some(-n))
    else if t[0] == '+' && AllDigits(t[1..]) then Some(DigitsValue(t[1..]))
    else None
  }

  /** A number for a comparison, None for NaN. */
  function ToNumber(v: Option<Json>): Option<int> {
    match v
    case Some(Num(n)) => Some(n)
    case Some(Bool(b)) => Some(if b then 1 else 0)
    case Some(Null) => Some(0)
    case Some(Str(s)) => NumberOfText(s)
    case _ => None
  }

  /** `a < b`. */
  predicate JsLess(a: Option<Json>, b: Option<Json>) {
    if a.Some? && b.Some? && a.value.Str? && b.value.Str? then StringLess(a.value.s, b.value.s)
    else ToNumber(a).Some? && ToNumber(b).Some? && ToNumber(a).value < ToNumber(b).value
  }

  /** `a <= b`. */
  predicate JsAtMost(a: Option<Json>, b: Option<Json>) {
    if a.Some? && b.Some? && a.value.Str? && b.value.Str? then !StringLess(b.value.s, a.value.s)
    else ToNumber(a).Some? && ToNumber(b).Some? && ToNumber(a).value <= ToNumber(b).value
  }

  predicate JsEqual(a: Option<Json>, b: Json) {
    a.Some? && StrictEq(a.value, b)
  }

  predicate Substring(text: string, part: string) {
    part <= text || (text != "" && Substring(text[1..], part))
  }

  predicate ApplyOperator(v: Option<Json>, op: Operator, target: Json) {
    match op
    case EQ => JsEqual(v, target)
    case NEQ => !JsEqual(v, target)
    case GT => JsLess(Some(target), v)
    case GTE => JsAtMost(Some(target), v)
    case LT => JsLess(v, Some(target))
    case LTE => JsAtMost(v, Some(target))
    case IN => target.Arr? && exists item :: item in target.items && JsEqual(v, item)
    case CONTAINS =>
      match v
      case Some(Str(s)) => Substring(s, Template(target))
      case Some(Arr(items)) => exists item :: item in items && StrictEq(item, target)
      case _ => false
  }

  predicate Passes(row: Row, filters: seq<Filter>) {
    forall i | 0 <= i < |filters| :: ApplyOperator(FieldOf(row, filters[i].field), filters[i].operator, filters[i].value)
  }

  predicate Kept(row: Row, filters: seq<Filter>) {
    !row.entity.isDeleted && Passes(row, filters)
  }

  function Keep(rows: seq<Row>, filters: seq<Filter>): seq<Row> {
    if rows == [] then []
    else Keep(rows[..|rows| - 1], filters) + if Kept(rows[|rows| - 1], filters) then [rows[|rows| - 1]] else []
  }

  /** Applying the filter to the row throws: the data is null, or `contains` meets
      something that is neither text nor array. */
  predicate FilterThrows(row: Row, f: Filter) {
    row.entity.data.Null? ||
    (f.operator.CONTAINS? && match FieldOf(row, f.field) case Some(Str(_)) => false case Some(Arr(_)) => false case _ => true)
  }

  /** Every filter is applied to the rows that the ones before it have kept. */
  predicate FiltersThrow(rows: seq<Row>, filters: seq<Filter>) {
    exists i, row :: 0 <= i < |filters| && row in Keep(rows, filters[..i]) && FilterThrows(row, filters[i])
  }

  predicate SortThrows(rows: seq<Row>) {
    |rows| >= 2 && exists row :: row in rows && row.entity.data.Null?
  }

  predicate Throws(rows: seq<Row>, def: Definition) {
    FiltersThrow(rows, def.filters) || (def.sort.Some? && SortThrows(Keep(rows, def.filters)))
  }

  predicate Missing(v: Option<Json>) {
    v.None? || v.value.Null?
  }

  /** The comparison function that is handed to the sort, negative, zero or positive. */
  function Compare(a: Row, b: Row, sort: Sort): int {
    var x, y := FieldOf(a, sort.field), FieldOf(b, sort.field);
    if (x.None? && y.None?) || (y.Some? && JsEqual(x, y.value)) then 0
    else if Missing(x) then 1
    else if Missing(y) then -1
    else
      var cmp := if JsLess(x, y) then -1 else 1;
      if sort.descending then -cmp else cmp
  }

  function InsertSorted(sorted: seq<Row>, row: Row, sort: Sort): seq<Row> {
    if sorted != [] && Compare(sorted[|sorted| - 1], row, sort) > 0
    then InsertSorted(sorted[..|sorted| - 1], row, sort) + [sorted[|sorted| - 1]]
    else sorted + [row]
  }

  function SortRows(rows: seq<Row>, sort: Sort): seq<Row> {
    if rows == [] then [] else InsertSorted(SortRows(rows[..|rows| - 1], sort), rows[|rows| - 1], sort)
  }

  /** Where a slice index falls; negative ones count from the end. */
  function SliceIndex(n: int, length: nat): (k: nat)
    ensures k <= length
  {
    if n < 0 then (if length + n < 0 then 0 else length + n) else if n > length then length else n
  }

  function FilterEntities(rows: seq<Row>, def: Definition): seq<Row> {
    var kept := Keep(rows, def.filters);
    var sorted := if def.sort.Some? then SortRows(kept, def.sort.value) else kept;
    var skipped := if def.offset.Some? then sorted[SliceIndex(def.offset.value, |sorted|)..] else sorted;
    if def.limit.Some? then skipped[..SliceIndex(def.limit.value, |skipped|)] else skipped
  }

  // ----- SQL values

  datatype SqlValue = NULL | Integer(n: int) | Text(s: string) | Unbindable

  function ToSqlValue(v: Json): SqlValue {
    match v
    case Bool(b) => Integer(if b then 1 else 0)
    case Num(n) => Integer(n)
    case Str(s) => Text(s)
    case Null => NULL
    case _ => Unbindable
  }

  /** The order across and within storage classes; NULL comes first. */
  predicate SqlLess(a: SqlValue, b: SqlValue) {
    match (a, b)
    case (NULL, NULL) => false
    case (NULL, _) => true
    case (Integer(m), Integer(n)) => m < n
    case (Integer(_), Text(_)) => true
    case (Text(s), Text(t)) => StringLess(s, t)
    case (_, _) => false
  }

  // ----- SQL clauses

  datatype Column = Meta(name: string) | Extract(path: seq<string>)

  datatype Clause = NotDeleted | Never | Comparison(column: Column, operator: Operator) | InList(column: Column, size: nat) | Like(column: Column)

  datatype Limit = NoLimit | LimitParameter | LimitMinusOne

  datatype Translation = Translation(clauses: seq<Clause>, params: seq<SqlValue>, orderBy: Option<(Column, bool)>, limit: Limit, offset: bool)

  const METADATA: seq<string> := ["id", "revision", "createdAt", "updatedAt", "isDeleted"]

  /** The segments of the JSON path that the field name becomes. */
  function Segments(field: string): seq<string> {
    if field == "" then [""]
    else
      var rest := Segments(field[1..]);
      if field[0] == '.' then [""] + rest else [[field[0]] + rest[0]] + rest[1..]
  }

  function ToSqlExpression(field: string): Column {
    if field in METADATA then Meta(field) else Extract(Segments(field))
  }

  function Decimal(n: int): string {
    if n < 0 then "-" + Digits(-n) else Digits(n)
  }

  function Template(v: Json): string {
    match v
    case Null => "null"
    case Bool(b) => if b then "true" else "false"
    case Num(n) => Decimal(n)
    case Str(s) => s
    case Arr(items) => Joined(v, items)
    case Obj(_) => "[object Object]"
  }

  function Joined(v: Json, items: seq<Json>): string
    requires v.Arr? && items <= v.items
    decreases v, |items|
  {
    if items == [] then ""
    else
      var last := items[|items| - 1];
      assert last in v.items;
      (if |items| == 1 then "" else Joined(v, items[..|items| - 1]) + ",") + (if last.Null? then "" else Template(last))
  }

  function SqlValues(items: seq<Json>): seq<SqlValue> {
    seq(|items|, i requires 0 <= i < |items| => ToSqlValue(items[i]))
  }

  function ClauseOf(f: Filter): Clause {
    var column := ToSqlExpression(f.field);
    match f.operator
    case IN => if f.value.Arr? && f.value.items != [] then InList(column, |f.value.items|) else Never
    case CONTAINS => Like(column)
    case op => Comparison(column, op)
  }

  function ParamsOf(f: Filter): seq<SqlValue> {
    match f.operator
    case IN => if f.value.Arr? then SqlValues(f.value.items) else []
    case CONTAINS => [Text("%" + Template(f.value) + "%")]
    case _ => [ToSqlValue(f.value)]
  }

  function Clauses(filters: seq<Filter>): seq<Clause> {
    if filters == [] then [] else [ClauseOf(filters[0])] + Clauses(filters[1..])
  }

  function Params(filters: seq<Filter>): seq<SqlValue> {
    if filters == [] then [] else ParamsOf(filters[0]) + Params(filters[1..])
  }

  function Translate(def: Definition): Translation {
    Translation(
      [NotDeleted] + Clauses(def.filters), Params(def.filters),
      if def.sort.Some? then Some((ToSqlExpression(def.sort.value.field), def.sort.value.descending)) else None,
      if def.limit.Some? then LimitParameter else if def.offset.Some? then LimitMinusOne else NoLimit,
      def.offset.Some?)
  }

  /** Everything that is bound, in the order of the placeholders of the statement. */
  function AllParams(collection: string, def: Definition): seq<SqlValue> {
    [Text(collection)] + Translate(def).params
    + (if def.limit.Some? then [Integer(def.limit.value)] else [])
    + (if def.offset.Some? then [Integer(def.offset.value)] else [])
  }

  // ----- What a statement means

  function Extracted(v: Json, path: seq<string>): Option<Json>
    decreases |path|
  {
    if path == [] then Some(v)
    else if v.Obj? && path[0] in v.fields then Extracted(v.fields[path[0]], path[1..])
    else None
  }

  /** JSON that is not a scalar comes out as text, which is not modelled. */
  function FromJson(v: Option<Json>): SqlValue {
    if v.None? then NULL else ToSqlValue(v.value)
  }

  function StampValue(s: Stamp): SqlValue {
    match s case Blank => Text("") case Stamp(t) => Integer(t)
  }

  function ColumnValue(row: Row, c: Column): SqlValue {
    match c
    case Extract(path) => FromJson(Extracted(row.entity.data, path))
    case Meta(name) =>
      if name == "id" then Text(row.id)
      else if name == "revision" then Integer(row.entity.revision)
      else if name == "createdAt" then StampValue(row.entity.createdAt)
      else if name == "updatedAt" then StampValue(row.entity.updatedAt)
      else Integer(if row.entity.isDeleted then 1 else 0)
  }

  /** A comparison with NULL is never true. */
  predicate SqlCompare(a: SqlValue, op: Operator, b: SqlValue) {
    !a.NULL? && !b.NULL? &&
    match op
    case EQ => a == b
    case NEQ => a != b
    case GT => SqlLess(b, a)
    case GTE => !SqlLess(a, b)
    case LT => SqlLess(a, b)
    case LTE => !SqlLess(b, a)
    case _ => false
  }

  function Fold(c: char): char {
    if 'A' <= c <= 'Z' then (c as int + 32) as char else c
  }

  /** LIKE ignores the case of letters and knows two wildcards. */
  predicate LikeMatch(pattern: string, text: string)
    decreases |pattern| + |text|
  {
    if pattern == "" then text == ""
    else if pattern[0] == '%' then LikeMatch(pattern[1..], text) || (text != "" && LikeMatch(pattern, text[1..]))
    else text != "" && (pattern[0] == '_' || Fold(pattern[0]) == Fold(text[0])) && LikeMatch(pattern[1..], text[1..])
  }

  function Placeholders(c: Clause): nat {
    match c
    case NotDeleted => 0
    case Never => 0
    case Comparison(_, _) => 1
    case InList(_, n) => n
    case Like(_) => 1
  }

  predicate ClauseTrue(c: Clause, params: seq<SqlValue>, row: Row)
    requires |params| == Placeholders(c)
  {
    match c
    case NotDeleted => !row.entity.isDeleted
    case Never => false
    case Comparison(column, op) => SqlCompare(ColumnValue(row, column), op, params[0])
    case InList(column, _) => exists p :: p in params && SqlCompare(ColumnValue(row, column), EQ, p)
    case Like(column) =>
      var v := ColumnValue(row, column);
      match (v, params[0])
      case (Text(s), Text(pattern)) => LikeMatch(pattern, s)
      case (Integer(n), Text(pattern)) => LikeMatch(pattern, Decimal(n))
      case _ => false
  }

  /** Each clause takes the parameters for its own placeholders off the front. */
  predicate WhereTrue(clauses: seq<Clause>, params: seq<SqlValue>, row: Row)
    decreases |clauses|
  {
    clauses == [] ||
    var n := Placeholders(clauses[0]);
    n <= |params| && ClauseTrue(clauses[0], params[..n], row) && WhereTrue(clauses[1..], params[n..], row)
  }

  function TotalPlaceholders(clauses: seq<Clause>): nat {
    if clauses == [] then 0 else Placeholders(clauses[0]) + TotalPlaceholders(clauses[1..])
  }

  /** How many placeholders the whole statement has: the collection, the clauses,
      LIMIT and OFFSET. */
  function StatementPlaceholders(t: Translation): nat {
    1 + TotalPlaceholders(t.clauses) + (if t.limit.LimitParameter? then 1 else 0) + (if t.offset then 1 else 0)
  }

  predicate Picked(row: Row, t: Translation, bound: seq<SqlValue>)
    requires |bound| == StatementPlaceholders(t)
  {
    Text(row.collection) == bound[0] && WhereTrue(t.clauses, bound[1..1 + TotalPlaceholders(t.clauses)], row)
  }

  function Select(table: seq<Row>, t: Translation, bound: seq<SqlValue>): seq<Row>
    requires |bound| == StatementPlaceholders(t)
  {
    if table == [] then []
    else
      var row := table[|table| - 1];
      Select(table[..|table| - 1], t, bound) + if Picked(row, t, bound) then [row] else []
  }

  predicate InOrder(rows: seq<Row>, order: (Column, bool)) {
    forall i, j | 0 <= i < j < |rows| ::
      var a, b := ColumnValue(rows[i], order.0), ColumnValue(rows[j], order.0);
      if order.1 then !SqlLess(a, b) else !SqlLess(b, a)
  }

  function Bounded(v: SqlValue, length: nat, default: nat): (k: nat)
    requires default <= length
    ensures k <= length
  {
    if v.Integer? && v.n >= 0 then (if v.n > length then length else v.n) else default
  }

  /** A negative OFFSET skips nothing and a negative LIMIT bounds nothing. */
  function Window(rows: seq<Row>, t: Translation, bound: seq<SqlValue>): seq<Row>
    requires |bound| == StatementPlaceholders(t)
  {
    var at := 1 + TotalPlaceholders(t.clauses);
    var skipped := if t.offset then rows[Bounded(bound[|bound| - 1], |rows|, 0)..] else rows;
    if t.limit.LimitParameter? then skipped[..Bounded(bound[at], |skipped|, |skipped|)] else skipped
  }

  /** An answer the database may give: the selected rows in some order that the
      ORDER BY clause, if there is one, allows, and of those the window. OFFSET without
      LIMIT is no statement at all. */
  ghost predicate IsAnswer(table: seq<Row>, t: Translation, bound: seq<SqlValue>, answer: seq<Row>)
  {
    && |bound| == StatementPlaceholders(t) && Unbindable !in bound && (t.offset ==> !t.limit.NoLimit?)
    && exists rows: seq<Row> ::
         && multiset(rows) == multiset(Select(table, t, bound))
         && (t.orderBy.Some? ==> InOrder(rows, t.orderBy.value))
         && answer == Window(rows, t, bound)
  }
}
