/** What the text functions that both ways of evaluating a query rely on mean: the order
    and the parts of texts, numbers as text and back, paths, and where missing values and
    negative bounds go. */
module QueryValues {
  import opened Json
  import opened Protocol
  import opened QuerySpec
  import QueryAgreement

  // ----- Order and parts of texts

  /** A text comes before another if it is a proper part of its beginning, or has the
      smaller character at the first place where they differ. */
  ghost predicate DecidedAt(a: string, b: string, i: nat) {
    && i <= |a| && i < |b| && a[..i] == b[..i] && (i == |a| || a[i] < b[i])
  }

  lemma DecidedHead(a: string, b: string, i: nat)
    requires DecidedAt(a, b, i)
    ensures i == 0 || (a != "" && b != "" && a[0] == b[0])
  {
    assert i == 0 || a[..i][0] == b[..i][0];
  }

  lemma {:induction false} StringLessIff(a: string, b: string)
    ensures StringLess(a, b) <==> exists i: nat :: DecidedAt(a, b, i)
  {
    if a == "" || b == "" || a[0] != b[0] {
      if StringLess(a, b) {
        assert DecidedAt(a, b, 0);
      }
      forall i: nat | DecidedAt(a, b, i) ensures StringLess(a, b) {
        DecidedHead(a, b, i);
      }
    } else {
      StringLessIff(a[1..], b[1..]);
      if StringLess(a, b) {
        var i: nat :| DecidedAt(a[1..], b[1..], i);
        assert a[..i + 1] == [a[0]] + a[1..][..i] && b[..i + 1] == [b[0]] + b[1..][..i];
        assert DecidedAt(a, b, i + 1);
      }
      forall i: nat | DecidedAt(a, b, i) ensures StringLess(a, b) {
        assert i > 0;
        assert a[1..][..i - 1] == a[..i][1..] && b[1..][..i - 1] == b[..i][1..];
        assert DecidedAt(a[1..], b[1..], i - 1);
      }
    }
  }

  /** The text has the part somewhere. */
  predicate FoundAt(text: string, part: string, i: nat) {
    i + |part| <= |text| && text[i..i + |part|] == part
  }

  lemma {:induction false} SubstringIff(text: string, part: string)
    ensures Substring(text, part) <==> exists i: nat :: FoundAt(text, part, i)
  {
    if part <= text {
      assert FoundAt(text, part, 0);
    } else if text != "" {
      SubstringIff(text[1..], part);
      if Substring(text[1..], part) {
        var i: nat :| FoundAt(text[1..], part, i);
        assert text[1..][i..i + |part|] == text[i + 1..i + 1 + |part|];
        assert FoundAt(text, part, i + 1);
      }
      forall i: nat | FoundAt(text, part, i) ensures Substring(text, part) {
        assert i > 0;
        assert text[1..][i - 1..i - 1 + |part|] == text[i..i + |part|];
        assert FoundAt(text[1..], part, i - 1);
      }
    }
  }

  /** Two characters are alike to LIKE if they are the same or one is the other's
      capital, for the letters of ASCII. */
  lemma AlikeIff(c: char, d: char)
    ensures Fold(c) == Fold(d) <==>
            c == d || ('A' <= c <= 'Z' && d as int == c as int + 32) || ('A' <= d <= 'Z' && c as int == d as int + 32)
  {
  }

  predicate NoPercent(pattern: string) {
    forall i | 0 <= i < |pattern| :: pattern[i] != '%'
  }

  /** A pattern without `%` matches what is alike character by character, where `_` is
      alike to anything. */
  lemma {:induction false} LikePlain(pattern: string, text: string)
    requires NoPercent(pattern)
    ensures LikeMatch(pattern, text) <==>
            |pattern| == |text| && forall i | 0 <= i < |text| :: pattern[i] == '_' || Fold(pattern[i]) == Fold(text[i])
  {
    if pattern != "" && text != "" {
      LikePlain(pattern[1..], text[1..]);
      assert forall i | 0 < i < |text| :: text[i] == text[1..][i - 1];
      assert forall i | 0 < i < |pattern| :: pattern[i] == pattern[1..][i - 1];
    }
  }

  // ----- Numbers as text

  predicate OnlyDigits(s: string) {
    forall i | 0 <= i < |s| :: '0' <= s[i] <= '9'
  }

  /** The decimal digits of a number are read back as that number; none has a leading
      zero but zero itself. */
  lemma {:induction false} DigitsRead(n: nat)
    ensures Digits(n) != "" && OnlyDigits(Digits(n)) && DigitsValue(Digits(n)) == n
    ensures Digits(n)[0] == '0' ==> n == 0
  {
    if n < 10 {
      assert Digits(n)[..0] == "";
    } else {
      DigitsRead(n / 10);
      var s := Digits(n);
      assert Digits(n % 10) == [s[|s| - 1]] && s[..|s| - 1] == Digits(n / 10);
    }
  }

  /** The line ends and spaces that ECMA-262 strips from the text of a number (section
      7.1.4.1), by their code points. */
  predicate IsBlank(n: int) {
    || 9 <= n <= 13 || n == 32 || n == 160 || n == 5760 || 8192 <= n <= 8202 || n == 8232 || n == 8233
    || n == 8239 || n == 8287 || n == 12288 || n == 65279
  }

  predicate Blanks(s: string) {
    forall i | 0 <= i < |s| :: IsBlank(s[i] as int)
  }

  lemma BlankIffSpace(c: char)
    ensures IsSpace(c) <==> IsBlank(c as int)
  {
    if IsSpace(c) {
      if c in SPACES {
        var i :| 0 <= i < |SPACES| && SPACES[i] == c;
      }
    }
    if IsBlank(c as int) {
      assert SPACES[0] as int == 9 && SPACES[1] as int == 10 && SPACES[2] as int == 11 && SPACES[3] as int == 12;
      assert SPACES[4] as int == 13 && SPACES[5] as int == 32 && SPACES[6] as int == 160 && SPACES[7] as int == 5760;
      assert SPACES[8] as int == 8232 && SPACES[9] as int == 8233 && SPACES[10] as int == 8239 && SPACES[11] as int == 8287;
      assert SPACES[12] as int == 12288 && SPACES[13] as int == 65279;
    }
  }

  lemma {:induction false} TrimPadded(before: string, s: string, after: string)
    requires Blanks(before) && Blanks(after)
    requires s != "" && !IsSpace(s[0]) && !IsSpace(s[|s| - 1])
    ensures Trim(before + s + after) == s
    decreases |before| + |after|
  {
    var text := before + s + after;
    if before != "" {
      BlankIffSpace(before[0]);
      assert text[1..] == before[1..] + s + after;
      TrimPadded(before[1..], s, after);
    } else if after != "" {
      BlankIffSpace(after[|after| - 1]);
      assert text[..|text| - 1] == before + s + after[..|after| - 1];
      TrimPadded(before, s, after[..|after| - 1]);
    } else {
      assert text == s;
    }
  }

  lemma DecimalRead(n: int, text: string)
    requires Trim(text) == Decimal(n)
    ensures NumberOfText(text) == Some(n)
  {
    if n < 0 {
      NegativeRead(-n, text);
    } else {
      DigitsRead(n);
      assert AllDigits(Trim(text));
    }
  }

  lemma NegativeRead(n: nat, text: string)
    requires Trim(text) == "-" + Digits(n)
    ensures NumberOfText(text) == Some(0 - n)
  {
    DigitsRead(n);
    var t := Trim(text);
    assert t[0] == '-' && !AllDigits(t);
    assert t[1..] == Digits(n);
    assert AllDigits(t[1..]);
  }

  lemma NumeralIsNoSpace(c: char)
    requires '0' <= c <= '9' || c == '-' || c == '+'
    ensures !IsSpace(c)
  {
    BlankIffSpace(c);
  }

  lemma DecimalEnds(n: int)
    ensures Decimal(n) != "" && !IsSpace(Decimal(n)[0]) && !IsSpace(Decimal(n)[|Decimal(n)| - 1])
  {
    var digits := Digits(if n < 0 then -n else n);
    DigitsRead(if n < 0 then -n else n);
    LastOfSum("-", digits);
    NumeralIsNoSpace(Decimal(n)[0]);
    NumeralIsNoSpace(digits[|digits| - 1]);
  }

  lemma LastOfSum(a: string, b: string)
    requires b != ""
    ensures (a + b)[|a + b| - 1] == b[|b| - 1]
  {
  }

  /** Every number, written out and with blanks around it, is read back. */
  lemma NumberReadBack(n: int, before: string, after: string)
    requires Blanks(before) && Blanks(after)
    ensures NumberOfText(before + Decimal(n) + after) == Some(n)
  {
    DecimalEnds(n);
    TrimPadded(before, Decimal(n), after);
    DecimalRead(n, before + Decimal(n) + after);
  }

  /** A plus sign is read over. */
  lemma SignedReadBack(n: nat, before: string, after: string)
    requires Blanks(before) && Blanks(after)
    ensures NumberOfText(before + ("+" + Digits(n)) + after) == Some(n)
  {
    DigitsRead(n);
    var t := "+" + Digits(n);
    assert t[0] == '+' && t[1..] == Digits(n);
    NumeralIsNoSpace(t[0]);
    NumeralIsNoSpace(t[|t| - 1]);
    TrimPadded(before, t, after);
    assert !AllDigits(t);
  }

  /** Against a number, null counts as zero, a boolean as zero or one and a written
      number as itself; what is missing is neither less nor more. */
  lemma AgainstNumber(n: int, m: int, b: bool)
    ensures JsLess(Some(Null), Some(Num(n))) <==> 0 < n
    ensures JsLess(Some(Num(n)), Some(Null)) <==> n < 0
    ensures JsAtMost(Some(Null), Some(Num(n))) <==> 0 <= n
    ensures JsAtMost(Some(Num(n)), Some(Null)) <==> n <= 0
    ensures JsLess(Some(Bool(b)), Some(Num(n))) <==> (if b then 1 else 0) < n
    ensures JsAtMost(Some(Num(n)), Some(Bool(b))) <==> n <= if b then 1 else 0
    ensures JsLess(Some(Str(Decimal(m))), Some(Num(n))) <==> m < n
    ensures JsAtMost(Some(Num(n)), Some(Str(Decimal(m)))) <==> n <= m
    ensures !JsLess(None, Some(Num(n))) && !JsLess(Some(Num(n)), None) && !JsAtMost(None, Some(Num(n))) && !JsAtMost(Some(Num(n)), None)
  {
    NumberReadBack(m, "", "");
    assert "" + Decimal(m) + "" == Decimal(m);
  }

  /** A text of blanks is zero, as the program's conversion has it. */
  lemma {:induction false} BlanksAreZero(s: string)
    requires Blanks(s)
    ensures NumberOfText(s) == Some(0)
  {
    if s != "" {
      BlankIffSpace(s[0]);
      BlanksAreZero(s[1..]);
    }
  }

  // ----- Other values as text

  /** What a value becomes in a template. */
  lemma TextOfScalar(v: Json)
    requires IsScalar(v)
    ensures (v == Null ==> Template(v) == "null") && (v == Bool(true) ==> Template(v) == "true")
            && (v == Bool(false) ==> Template(v) == "false") && (v.Str? ==> Template(v) == v.s)
            && (v.Num? ==> NumberOfText(Template(v)) == Some(v.n))
  {
    if v.Num? {
      NumberReadBack(v.n, "", "");
      assert "" + Decimal(v.n) + "" == Decimal(v.n);
    }
  }

  function Commas(texts: seq<string>): string {
    if texts == [] then ""
    else if |texts| == 1 then texts[0]
    else Commas(texts[..|texts| - 1]) + "," + texts[|texts| - 1]
  }

  function ItemTexts(items: seq<Json>): seq<string> {
    seq(|items|, i requires 0 <= i < |items| => if items[i] == Null then "" else Template(items[i]))
  }

  lemma {:induction false} JoinedByCommas(v: Json, items: seq<Json>)
    requires v.Arr? && items <= v.items
    ensures Joined(v, items) == Commas(ItemTexts(items))
    decreases |items|
  {
    if items != [] {
      var init := items[..|items| - 1];
      JoinedByCommas(v, init);
      assert ItemTexts(items)[..|items| - 1] == ItemTexts(init);
      assert |items| == 1 ==> Joined(v, init) == "";
    }
  }

  /** An array becomes its items with commas between them, an item that is null nothing. */
  lemma TextOfArray(items: seq<Json>)
    ensures Template(Arr(items)) == Commas(ItemTexts(items))
  {
    JoinedByCommas(Arr(items), items);
  }

  // ----- Equality and membership

  /** Arrays and objects are equal to nothing, and an array contains exactly the scalars
      among its items. */
  lemma IdentityOfContainers(v: Json, w: Json, items: seq<Json>)
    ensures ApplyOperator(Some(v), EQ, w) <==> v == w && !v.Arr? && !v.Obj?
    ensures ApplyOperator(Some(Arr(items)), CONTAINS, w) <==> w in items && !w.Arr? && !w.Obj?
    ensures ApplyOperator(Some(v), IN, Arr(items)) <==> v in items && !v.Arr? && !v.Obj?
  {
  }

  // ----- Columns

  /** Five names are columns of the table, every other is looked up in the data. */
  lemma ColumnIff(field: string)
    ensures ToSqlExpression(field).Meta? <==>
            field == "id" || field == "revision" || field == "createdAt" || field == "updatedAt" || field == "isDeleted"
    ensures ToSqlExpression(field).Meta? ==> ToSqlExpression(field).name == field
  {
    assert METADATA[0] == "id" && METADATA[1] == "revision" && METADATA[2] == "createdAt" && METADATA[3] == "updatedAt"
      && METADATA[4] == "isDeleted";
  }

  /** In SQL what has no value comes first if ascending and last if descending, so with
      SortMissingLast an ascending order differs as soon as some rows have one and some
      have none. */
  lemma NullsFirst(rows: seq<Row>, column: Column, descending: bool, i: nat, j: nat)
    requires InOrder(rows, (column, descending)) && i < j < |rows|
    ensures !descending && ColumnValue(rows[j], column).NULL? ==> ColumnValue(rows[i], column).NULL?
    ensures descending && ColumnValue(rows[i], column).NULL? ==> ColumnValue(rows[j], column).NULL?
  {
    var order := (column, descending);
    assert if order.1 then !SqlLess(ColumnValue(rows[i], column), ColumnValue(rows[j], column))
           else !SqlLess(ColumnValue(rows[j], column), ColumnValue(rows[i], column));
    NotLessThanNull(ColumnValue(rows[i], column), ColumnValue(rows[j], column));
    NotLessThanNull(ColumnValue(rows[j], column), ColumnValue(rows[i], column));
  }

  lemma NotLessThanNull(a: SqlValue, b: SqlValue)
    ensures a.NULL? && !SqlLess(a, b) ==> b.NULL?
  {
  }

  // ----- Arrays as records

  /** Spreading an array makes a record with one field for each index, written out. */
  lemma {:induction false} SpreadArray(items: seq<Json>)
    ensures forall i | 0 <= i < |items| :: Get(Spread(Arr(items)), Digits(i)) == Some(items[i])
    ensures forall f | f in Spread(Arr(items)) :: exists i :: 0 <= i < |items| && f == Digits(i)
  {
    forall i | 0 <= i < |items| ensures Get(Indexed(items), Digits(i)) == Some(items[i]) {
      IndexedAt(items, i);
    }
    forall f | f in Indexed(items) ensures exists i :: 0 <= i < |items| && f == Digits(i) {
      var i := IndexOf(items, f);
    }
  }

  /** Spreading a text makes one of its characters, any other scalar an empty one. */
  lemma SpreadScalar(v: Json)
    requires IsScalar(v)
    ensures v.Str? ==> forall i | 0 <= i < |v.s| :: Get(Spread(v), Digits(i)) == Some(Str([v.s[i]]))
    ensures forall f | f in Spread(v) :: v.Str? && exists i :: 0 <= i < |v.s| && f == Digits(i)
  {
    if v.Str? {
      var items := seq(|v.s|, i requires 0 <= i < |v.s| => Str([v.s[i]]));
      SpreadArray(items);
      forall i | 0 <= i < |v.s| ensures Get(Spread(v), Digits(i)) == Some(Str([v.s[i]])) {
        assert items[i] == Str([v.s[i]]);
      }
    }
  }

  lemma {:induction false} IndexedAt(items: seq<Json>, i: nat)
    requires i < |items|
    ensures Get(Indexed(items), Digits(i)) == Some(items[i])
    decreases |items|
  {
    if i < |items| - 1 {
      DigitsRead(i);
      DigitsRead(|items| - 1);
      IndexedAt(items[..|items| - 1], i);
    }
  }

  lemma {:induction false} IndexOf(items: seq<Json>, f: string) returns (i: nat)
    requires f in Indexed(items)
    ensures i < |items| && f == Digits(i)
  {
    if f == Digits(|items| - 1) {
      i := |items| - 1;
    } else {
      i := IndexOf(items[..|items| - 1], f);
    }
  }

  // ----- Paths

  function Dotted(segments: seq<string>): string {
    if segments == [] then "" else if |segments| == 1 then segments[0] else segments[0] + "." + Dotted(segments[1..])
  }

  /** The path has the field name's parts between the dots: joined again they are the
      name, and no part has a dot. */
  lemma {:induction false} SegmentsJoin(field: string)
    ensures Segments(field) != [] && Dotted(Segments(field)) == field
    ensures forall i | 0 <= i < |Segments(field)| :: '.' !in Segments(field)[i]
  {
    if field != "" {
      SegmentsJoin(field[1..]);
      var rest := Segments(field[1..]);
      if field[0] == '.' {
        assert ([""] + rest)[1..] == rest;
        assert field == "." + field[1..];
      } else {
        var longer := [[field[0]] + rest[0]] + rest[1..];
        assert longer[1..] == rest[1..];
        assert field == [field[0]] + field[1..];
      }
    }
  }

  lemma {:induction false} SegmentsOfTwo(a: string, b: string)
    requires '.' !in a && '.' !in b
    ensures Segments(a + "." + b) == [a, b]
  {
    var field := a + "." + b;
    if a == "" {
      QueryAgreement.SegmentsOfPlain(b);
      assert field[0] == '.' && field[1..] == b;
    } else {
      assert '.' !in a[1..];
      SegmentsOfTwo(a[1..], b);
      assert a[0] in a && field[0] == a[0] && field[1..] == a[1..] + "." + b;
      assert [a[0]] + a[1..] == a;
      assert [a[1..], b][1..] == [b];
    }
  }

  lemma DottedName(a: string, b: string)
    requires '.' !in a && '.' !in b
    ensures ToSqlExpression(a + "." + b) == Extract([a, b])
  {
    SegmentsOfTwo(a, b);
    assert (a + "." + b)[|a|] == '.';
    NamesHaveNoDot();
  }

  lemma NamesHaveNoDot()
    ensures forall name | name in METADATA :: '.' !in name
  {
    forall i | 0 <= i < |METADATA| ensures '.' !in METADATA[i] {
    }
  }

  lemma InnerMost(v: Json, b: string)
    ensures Extracted(v, [b]) == if v.Obj? then Get(v.fields, b) else None
  {
    assert [b][1..] == [];
  }

  lemma InnerValue(data: Object, a: string, b: string)
    ensures Extracted(data, [a, b]) == if a in data.fields && data.fields[a].Obj? then Get(data.fields[a].fields, b) else None
  {
    assert [a, b][1..] == [b];
    if a in data.fields {
      InnerMost(data.fields[a], b);
    }
  }

  /** A name with a dot in it looks into the record that the first part names; in memory
      it is the name of one field. */
  lemma DottedColumn(row: Row, a: string, b: string)
    requires '.' !in a && '.' !in b && row.entity.data.Obj?
    ensures var outer := Get(row.entity.data.fields, a);
            ColumnValue(row, ToSqlExpression(a + "." + b)) ==
            if outer.Some? && outer.value.Obj? && b in outer.value.fields then ToSqlValue(outer.value.fields[b]) else NULL
  {
    DottedName(a, b);
    InnerValue(row.entity.data, a, b);
  }

  // ----- The sort in memory

  predicate MissingLast(rows: seq<Row>, field: string) {
    forall i, j | 0 <= i < j < |rows| && Missing(FieldOf(rows[i], field)) :: Missing(FieldOf(rows[j], field))
  }

  predicate NoneMissing(rows: seq<Row>, field: string) {
    forall i | 0 <= i < |rows| :: !Missing(FieldOf(rows[i], field))
  }

  lemma {:induction false} InsertMissingLast(sorted: seq<Row>, row: Row, sort: Sort)
    requires MissingLast(sorted, sort.field)
    ensures MissingLast(InsertSorted(sorted, row, sort), sort.field)
    ensures NoneMissing(sorted, sort.field) && !Missing(FieldOf(row, sort.field)) ==>
              NoneMissing(InsertSorted(sorted, row, sort), sort.field)
  {
    if sorted != [] {
      var init, last := sorted[..|sorted| - 1], sorted[|sorted| - 1];
      assert sorted == init + [last];
      assert !Missing(FieldOf(last, sort.field)) ==> NoneMissing(sorted, sort.field);
      if Compare(last, row, sort) > 0 {
        InsertMissingLast(init, row, sort);
      }
    }
  }

  /** Whatever the direction, the rows without a value come last. */
  lemma {:induction false} SortMissingLast(rows: seq<Row>, sort: Sort)
    ensures MissingLast(SortRows(rows, sort), sort.field)
  {
    if rows != [] {
      SortMissingLast(rows[..|rows| - 1], sort);
      InsertMissingLast(SortRows(rows[..|rows| - 1], sort), rows[|rows| - 1], sort);
    }
  }

  // ----- Negative bounds

  /** In memory a negative offset keeps that many rows from the end and a negative limit
      drops that many there. */
  lemma NegativeBounds(rows: seq<Row>, k: int)
    requires 0 < k <= |rows|
    ensures rows[SliceIndex(-k, |rows|)..] == rows[|rows| - k..] && rows[..SliceIndex(-k, |rows|)] == rows[..|rows| - k]
  {
  }

  // ----- Where the program throws

  /** With one filter and no sort, evaluation throws exactly if a row that is not deleted
      has null for data, or is asked what a value contains that is neither a text nor an
      array. */
  lemma OneFilterThrowsIff(rows: seq<Row>, f: Filter, limit: Option<int>, offset: Option<int>)
    ensures Throws(rows, Definition([f], None, limit, offset)) <==>
            exists row :: row in rows && !row.entity.isDeleted && CannotAnswer(row, f)
  {
    KeepAll(rows);
    assert [f][..0] == [];
    if exists row :: row in rows && !row.entity.isDeleted && CannotAnswer(row, f) {
      var row :| row in rows && !row.entity.isDeleted && CannotAnswer(row, f);
      assert row in Keep(rows, [f][..0]) && FilterThrows(row, [f][0]);
    }
  }

  /** Without filters a sort throws exactly if there are two rows to compare and one of
      those that are not deleted has null for data. */
  lemma SortThrowsIff(rows: seq<Row>, sort: Sort, limit: Option<int>, offset: Option<int>)
    ensures Throws(rows, Definition([], Some(sort), limit, offset)) <==>
            |Keep(rows, [])| > 1 && exists row :: row in rows && !row.entity.isDeleted && row.entity.data == Null
  {
    KeepAll(rows);
  }

  predicate CannotAnswer(row: Row, f: Filter) {
    || row.entity.data == Null
    || (f.operator == CONTAINS &&
        !(row.entity.data.Obj? && f.field in row.entity.data.fields
          && (row.entity.data.fields[f.field].Str? || row.entity.data.fields[f.field].Arr?)))
  }

  lemma {:induction false} KeepAll(rows: seq<Row>)
    ensures forall row :: row in Keep(rows, []) <==> row in rows && !row.entity.isDeleted
  {
    if rows != [] {
      KeepAll(rows[..|rows| - 1]);
      assert rows == rows[..|rows| - 1] + [rows[|rows| - 1]];
    }
  }
}
