/** Normalisation of uploaded plan files (backend/services/plan_parser.py):
    spreadsheet column references, cell values, sheet rows placed by
    column, XLSX and CSV tables with normalised headers and cells, the
    dispatch on the file suffix and the combined text of the text files.
    The ZIP and XML reading and the CSV tokenising are outside the model:
    sheets arrive as lists of cells, CSV files as lists of fields. */
module PlanParser {
  import opened Common
  import opened DocumentLoaders

  // ---------------------------------------------------------------------
  // Column references
  // ---------------------------------------------------------------------

  predicate IsUpper(c: char)
  {
    'A' <= c <= 'Z'
  }

  predicate AllUpper(s: string)
  {
    forall i :: 0 <= i < |s| ==> IsUpper(s[i])
  }

  /** What `re.match(r"([A-Z]+)", reference)` captures, or "" when it fails. */
  function LeadingUpper(s: string): (p: string)
    ensures |p| <= |s| && p == s[..|p|] && AllUpper(p)
    ensures |p| < |s| ==> !IsUpper(s[|p|])
  {
    if s == [] || !IsUpper(s[0]) then [] else [s[0]] + LeadingUpper(s[1..])
  }

  function LetterValue(c: char): int
    requires IsUpper(c)
  {
    c as int - 'A' as int + 1
  }

  /** Letters read as a bijective base-26 numeral (A = 1, Z = 26, AA = 27). */
  function Base26(p: string): (n: int)
    requires AllUpper(p)
    ensures p == [] <==> n == 0
    ensures n >= 0
  {
    if p == [] then 0 else Base26(p[..|p| - 1]) * 26 + LetterValue(p[|p| - 1])
  }

  /** The zero-based column of a cell reference; a reference that does not
      start with a capital letter gives its own length. */
  function ColumnOf(reference: string): (c: nat)
  {
    var p := LeadingUpper(reference);
    if p == [] then |reference| else Base26(p) - 1
  }

  lemma {:induction false} LeadingUpperIs(s: string, n: int)
    requires 0 <= n <= |s| && AllUpper(s[..n]) && (n == |s| || !IsUpper(s[n]))
    ensures LeadingUpper(s) == s[..n]
    decreases n
  {
    if n > 0 {
      assert s[..n][0] == s[0];
      assert s[1..][..n - 1] == s[1..n];
      assert forall i :: 0 <= i < n - 1 ==> s[1..n][i] == s[..n][i + 1];
      LeadingUpperIs(s[1..], n - 1);
      assert s[..n] == [s[0]] + s[1..n];
    }
  }

  /** `_column_index`: the loop over the captured letters. */
  method ColumnIndex(reference: string) returns (index: int)
    ensures index == ColumnOf(reference)
    ensures index >= 0
    ensures reference == [] || !IsUpper(reference[0]) ==> index == |reference|
  {
    var n := 0;
    while n < |reference| && IsUpper(reference[n])
      invariant 0 <= n <= |reference| && AllUpper(reference[..n])
    {
      n := n + 1;
    }
    LeadingUpperIs(reference, n);
    if n == 0 {
      return |reference|;
    }
    var letters := reference[..n];
    index := 0;
    for k := 0 to n
      invariant index == Base26(letters[..k])
    {
      assert letters[..k + 1][..k] == letters[..k];
      index := index * 26 + LetterValue(letters[k]);
    }
    assert letters[..n] == letters;
    index := index - 1;
  }

  /** The letters of a bijective base-26 numeral. */
  function Letters(n: nat): (s: string)
    ensures AllUpper(s)
    decreases n
  {
    if n == 0 then "" else Letters((n - 1) / 26) + [('A' as int + (n - 1) % 26) as char]
  }

  /** The column letters of a zero-based column, as the parser's tests
      write them when building a workbook. */
  function ColumnLetter(index: nat): string
  {
    Letters(index + 1)
  }

  lemma {:induction false} Base26Letters(n: nat)
    ensures Base26(Letters(n)) == n
    decreases n
  {
    if n > 0 {
      var s := Letters(n);
      Base26Letters((n - 1) / 26);
      assert s[..|s| - 1] == Letters((n - 1) / 26);
    }
  }

  lemma DivModUnique(q: int, r: int)
    requires q >= 0 && 0 <= r < 26
    ensures (q * 26 + r) / 26 == q && (q * 26 + r) % 26 == r
  {
  }

  lemma {:induction false} LettersBase26(p: string)
    requires AllUpper(p)
    ensures Letters(Base26(p)) == p
    decreases |p|
  {
    if p != [] {
      var init, last := p[..|p| - 1], p[|p| - 1];
      LettersBase26(init);
      DivModUnique(Base26(init), LetterValue(last) - 1);
      assert p == init + [last];
    }
  }

  /** Reading back the letters of column i gives column i. */
  lemma ColumnRoundTrip(index: nat)
    ensures ColumnOf(ColumnLetter(index)) == index
  {
    var s := ColumnLetter(index);
    Base26Letters(index + 1);
    LeadingUpperIs(s, |s|);
    assert s[..|s|] == s;
  }

  /** Every run of capital letters is the letters of exactly one column. */
  lemma ColumnLetterOf(p: string)
    requires p != [] && AllUpper(p)
    ensures ColumnOf(p) >= 0 && ColumnLetter(ColumnOf(p)) == p
  {
    LeadingUpperIs(p, |p|);
    assert p[..|p|] == p;
    LettersBase26(p);
  }

  // ---------------------------------------------------------------------
  // Cell values
  // ---------------------------------------------------------------------

  /** A sheet cell: its reference, its `t` attribute, the text of its `<v>`
      node if it has one, the text of its inline string if it has one. */
  datatype Cell = Cell(reference: string, cellType: Option<string>, value: Option<string>, inline: Option<string>)

  /** Python's `int(text)` on ASCII decimal text: surrounding whitespace, an
      optional sign, then at least one digit. */
  function ParseInt(text: string): Option<int>
  {
    var t := Strip(text);
    var negative := t != [] && t[0] == '-';
    var body := if t != [] && (t[0] == '-' || t[0] == '+') then t[1..] else t;
    if body == [] || !(forall i :: 0 <= i < |body| ==> IsDigit(body[i])) then None
    else
      var v: int := DigitsValue(body);
      Some(if negative then -v else v)
  }

  /** The text a cell holds before shared strings are looked up. */
  function RawValue(cell: Cell): string
  {
    if cell.value.Some? then cell.value.value
    else if cell.inline.Some? then cell.inline.value
    else ""
  }

  datatype ResolveError = IndexError

  /** `_resolve_cell_value` as written: a negative index passes the
      `index < len(shared_strings)` test and Python then counts it from
      the end of the list, or fails when it reaches past the start. */
  function ResolveCellAsWritten(cell: Cell, shared: seq<string>): (r: Result<string, ResolveError>)
    ensures r.Err? <==> cell.value.Some? && cell.cellType == Some("s") && ParseInt(cell.value.value).Some?
                        && ParseInt(cell.value.value).value < -|shared|
  {
    if cell.value.None? then Ok(RawValue(cell))
    else
      var raw := cell.value.value;
      if cell.cellType != Some("s") then Ok(raw)
      else match ParseInt(raw)
        case None => Ok(raw)
        case Some(index) =>
          if index >= |shared| then Ok(raw)
          else if index >= 0 then Ok(shared[index])
          else if index >= -|shared| then Ok(shared[|shared| + index])
          else Err(IndexError)
  }

  /** `_resolve_cell_value` as intended: a shared-string cell resolves to
      the string when its index is in range, and to its raw text when the
      text is not an integer or the index is out of range. */
  function ResolveCell(cell: Cell, shared: seq<string>): (r: string)
    ensures cell.value.None? ==> r == RawValue(cell)
    ensures cell.value.Some? && cell.cellType != Some("s") ==> r == cell.value.value
    ensures cell.value.Some? && cell.cellType == Some("s") ==>
      var p := ParseInt(cell.value.value);
      r == if p.Some? && 0 <= p.value < |shared| then shared[p.value] else cell.value.value
  {
    if cell.value.None? then RawValue(cell)
    else
      var raw := cell.value.value;
      if cell.cellType != Some("s") then raw
      else match ParseInt(raw)
        case None => raw
        case Some(index) => if 0 <= index < |shared| then shared[index] else raw
  }

  /** The two agree everywhere except on negative shared-string indices. */
  lemma ResolveAgreesOffNegative(cell: Cell, shared: seq<string>)
    requires !(cell.value.Some? && cell.cellType == Some("s") && ParseInt(cell.value.value).Some?
               && ParseInt(cell.value.value).value < 0)
    ensures ResolveCellAsWritten(cell, shared) == Ok(ResolveCell(cell, shared))
  {
  }

  /** A cell holding "-1" resolves to the last shared string instead of its
      own text, and one holding "-3" fails with an IndexError. */
  lemma NegativeSharedIndex()
    ensures var shared := ["first", "second"];
      && ResolveCellAsWritten(Cell("A1", Some("s"), Some("-1"), None), shared) == Ok("second")
      && ResolveCell(Cell("A1", Some("s"), Some("-1"), None), shared) == "-1"
      && ResolveCellAsWritten(Cell("A1", Some("s"), Some("-3"), None), shared) == Err(IndexError)
  {
    assert Strip("-1") == "-1";
    assert Strip("-3") == "-3";
    assert "-1"[1..] == "1" && DigitsValue("1") == 1;
    assert "-3"[1..] == "3" && DigitsValue("3") == 3;
  }

  lemma StripDigits(s: string)
    requires s != [] && forall i :: 0 <= i < |s| ==> IsDigit(s[i])
    ensures Strip(s) == s
  {
    TrimRightShape(s);
  }

  /** A shared-string cell written as `str(i)` for an index in range
      resolves to string i. */
  lemma ResolveSharedIndex(index: nat, shared: seq<string>, reference: string)
    requires index < |shared|
    ensures ResolveCell(Cell(reference, Some("s"), Some(NatToString(index)), None), shared) == shared[index]
  {
    DigitsOfNat(index);
    StripDigits(NatToString(index));
  }

  // ---------------------------------------------------------------------
  // Sheet rows
  // ---------------------------------------------------------------------

  /** Writing `v` at column `index` of a row: the row is first padded with
      "" up to that column, and nothing else changes. */
  function Place(values: seq<string>, index: nat, v: string): (r: seq<string>)
    ensures |r| == if index < |values| then |values| else index + 1
    ensures r[index] == v
    ensures forall j :: 0 <= j < |r| && j != index ==> r[j] == if j < |values| then values[j] else ""
  {
    var padded := if index < |values| then values else values + seq(index + 1 - |values|, _ => "");
    padded[index := v]
  }

  /** The values of one sheet row: its cells, in document order, each
      placed at its own column. */
  function PlaceRow(cells: seq<Cell>, shared: seq<string>): seq<string>
  {
    if cells == [] then []
    else
      var last := cells[|cells| - 1];
      Place(PlaceRow(cells[..|cells| - 1], shared), ColumnOf(last.reference), ResolveCell(last, shared))
  }

  /** The value of the last cell of the row that sits in column `j`. */
  function LastAt(cells: seq<Cell>, j: nat, shared: seq<string>): Option<string>
  {
    if cells == [] then None
    else
      var last := cells[|cells| - 1];
      if ColumnOf(last.reference) == j then Some(ResolveCell(last, shared))
      else LastAt(cells[..|cells| - 1], j, shared)
  }

  /** One more than the largest column any cell of the row names. */
  function Width(cells: seq<Cell>): nat
  {
    if cells == [] then 0
    else
      var w := Width(cells[..|cells| - 1]);
      var c := ColumnOf(cells[|cells| - 1].reference);
      if c < w then w else c + 1
  }

  /** A sheet row is as wide as its right-most cell; each position holds
      the value of the last cell written there, and a position no cell
      names holds "". */
  lemma {:induction false} PlaceRowShape(cells: seq<Cell>, shared: seq<string>)
    ensures var r := PlaceRow(cells, shared);
      && |r| == Width(cells)
      && (forall j :: 0 <= j < |r| ==> r[j] == if LastAt(cells, j, shared).Some? then LastAt(cells, j, shared).value else "")
      && (forall j: nat :: LastAt(cells, j, shared).Some? ==> j < |r|)
  {
    if cells != [] {
      var init := cells[..|cells| - 1];
      PlaceRowShape(init, shared);
    }
  }

  /** `_read_sheet_rows` for one row: the cells are placed one by one,
      growing the row with "" until the cell's column exists. */
  method ReadSheetRow(cells: seq<Cell>, shared: seq<string>) returns (values: seq<string>)
    ensures values == PlaceRow(cells, shared)
  {
    values := [];
    for k := 0 to |cells|
      invariant values == PlaceRow(cells[..k], shared)
    {
      var cell := cells[k];
      var index := ColumnIndex(cell.reference);
      values := PlaceCell(values, index, ResolveCell(cell, shared));
      assert cells[..k + 1][..k] == cells[..k];
    }
    assert cells[..|cells|] == cells;
  }

  /** The body of the cell loop of `_read_sheet_rows`: the row grows with
      "" until position `index` exists, which then gets `v`. */
  method PlaceCell(row: seq<string>, index: nat, v: string) returns (values: seq<string>)
    ensures values == Place(row, index, v)
  {
    values := row;
    while |values| <= index
      invariant |row| <= |values| && values == row + seq(|values| - |row|, _ => "")
      invariant |values| == |row| || |values| <= index + 1
      decreases index - |values|
    {
      values := values + [""];
    }
    values := values[index := v];
  }

  /** `_read_sheet_rows`: every row of the sheet, in order. */
  method ReadSheetRows(rows: seq<seq<Cell>>, shared: seq<string>) returns (values: seq<seq<string>>)
    ensures values == PlaceRows(rows, shared)
  {
    values := [];
    for k := 0 to |rows|
      invariant values == PlaceRows(rows[..k], shared)
    {
      var row := ReadSheetRow(rows[k], shared);
      PlaceRowsSnoc(rows, k, shared);
      values := values + [row];
    }
    assert rows[..|rows|] == rows;
  }

  lemma PlaceRowsSnoc(rows: seq<seq<Cell>>, k: nat, shared: seq<string>)
    requires k < |rows|
    ensures PlaceRows(rows[..k + 1], shared) == PlaceRows(rows[..k], shared) + [PlaceRow(rows[k], shared)]
  {
    assert rows[..k + 1] == rows[..k] + [rows[k]];
  }

  // ---------------------------------------------------------------------
  // Normalised cells and headers
  // ---------------------------------------------------------------------

  /** No whitespace at either end. */
  predicate Stripped(s: string)
  {
    s == [] || (!IsSpace(s[0]) && !IsSpace(s[|s| - 1]))
  }

  lemma StripIsStripped(s: string)
    ensures Stripped(Strip(s))
  {
    var l := TrimLeft(s);
    TrimRightShape(l);
  }

  /** `_normalise_cell`: a missing value is "", any other is stripped. */
  function NormaliseCell(value: Option<string>): (r: string)
    ensures Stripped(r)
    ensures value.None? ==> r == ""
    ensures value.Some? ==> |r| <= |value.value| && (r == [] <==> IsBlank(value.value))
  {
    if value.None? then ""
    else
      StripIsStripped(value.value);
      StripEmptyIffBlank(value.value);
      Strip(value.value)
  }

  /** The default name of the column at zero-based `index`. */
  function ColumnName(index: nat): (name: string)
    ensures |name| > |"column_"| && name[..|"column_"|] == "column_"
  {
    "column_" + NatToString(index + 1)
  }

  /** `_normalise_header`: the stripped value, or the column's default
      name when that is empty; never empty itself. */
  function NormaliseHeader(value: string, index: nat): (h: string)
    ensures h != [] && Stripped(h)
    ensures !IsBlank(value) ==> h == Strip(value)
    ensures IsBlank(value) ==> h == ColumnName(index)
  {
    var base := NormaliseCell(Some(value));
    if base != [] then base
    else
      assert ColumnName(index)[0] == 'c';
      assert ColumnName(index)[|ColumnName(index)| - 1] == NatToString(index + 1)[|NatToString(index + 1)| - 1];
      ColumnName(index)
  }

  // ---------------------------------------------------------------------
  // Dictionaries
  // ---------------------------------------------------------------------

  /** Storing values under keys one after another, as `dict(zip(keys,
      values))` and repeated assignments do. */
  function PutAll<K(==), V>(d: Dict<K, V>, keys: seq<K>, vals: seq<V>): (r: Dict<K, V>)
    requires |keys| == |vals|
    ensures DistinctKeys(d) ==> DistinctKeys(r)
    ensures forall i :: 0 <= i < |r| ==> r[i].0 in Keys(d) || r[i].0 in keys
    ensures forall i :: 0 <= i < |keys| ==> keys[i] in Keys(r)
  {
    if keys == [] then d
    else
      var n := |keys| - 1;
      assert forall i :: 0 <= i < n ==> keys[..n][i] == keys[i];
      Put(PutAll(d, keys[..n], vals[..n]), keys[n], vals[n])
  }

  predicate Distinct<T(==)>(s: seq<T>)
  {
    forall i, j :: 0 <= i < j < |s| ==> s[i] != s[j]
  }

  /** The items of `dict(zip(keys, vals))` when nothing repeats. */
  function Zip<K, V>(keys: seq<K>, vals: seq<V>): (r: Dict<K, V>)
    requires |keys| == |vals|
    ensures |r| == |keys| && forall i :: 0 <= i < |keys| ==> r[i] == (keys[i], vals[i])
  {
    seq(|keys|, i requires 0 <= i < |keys| => (keys[i], vals[i]))
  }

  lemma FreshAfterAppend<K, V>(d: Dict<K, V>, keys: seq<K>, vals: seq<V>, k: K)
    requires |keys| == |vals| && k !in keys && k !in Keys(d)
    ensures k !in Keys(d + Zip(keys, vals))
  {
  }

  /** With fresh, distinct keys every assignment appends one item. */
  lemma {:induction false} PutAllFresh<K, V>(d: Dict<K, V>, keys: seq<K>, vals: seq<V>)
    requires |keys| == |vals| && Distinct(keys)
    requires forall i :: 0 <= i < |keys| ==> keys[i] !in Keys(d)
    ensures PutAll(d, keys, vals) == d + Zip(keys, vals)
  {
    if keys != [] {
      var n := |keys| - 1;
      PutAllFresh(d, keys[..n], vals[..n]);
      FreshAfterAppend(d, keys[..n], vals[..n], keys[n]);
      assert keys[..n + 1] == keys && vals[..n + 1] == vals;
      ZipSnoc(keys, vals, n + 1);
    }
  }

  // ---------------------------------------------------------------------
  // XLSX tables
  // ---------------------------------------------------------------------

  /** A table of a parsed plan: its name, its headers and its records. */
  datatype Table = Table(name: string, headers: seq<string>, rows: seq<Dict<string, string>>)

  /** A worksheet as listed by the workbook manifest, with its rows of
      cells in document order. */
  datatype Sheet = Sheet(name: string, rows: seq<seq<Cell>>)

  /** A data row padded with "" or cut to `n` values. */
  function Fit(raw: seq<string>, n: nat): (r: seq<string>)
    ensures |r| == n
    ensures forall i :: 0 <= i < n ==> r[i] == if i < |raw| then raw[i] else ""
  {
    if |raw| >= n then raw[..n] else raw + seq(n - |raw|, _ => "")
  }

  /** The headers of a sheet: its first row, normalised column by column. */
  function Headers(first: seq<string>): (h: seq<string>)
    ensures |h| == |first|
    ensures forall i :: 0 <= i < |h| ==> h[i] != [] && Stripped(h[i])
  {
    seq(|first|, i requires 0 <= i < |first| => NormaliseHeader(first[i], i))
  }

  /** The normalised values of a data row under `n` headers. */
  function RowValues(raw: seq<string>, n: nat): (vals: seq<string>)
    ensures |vals| == n
    ensures forall i :: 0 <= i < n ==> Stripped(vals[i])
  {
    var fitted := Fit(raw, n);
    seq(n, i requires 0 <= i < n => NormaliseCell(Some(fitted[i])))
  }

  /** The record one data row becomes: header i maps to value i, a later
      repeated header overwriting an earlier one. */
  function SheetRecord(headers: seq<string>, raw: seq<string>): Dict<string, string>
  {
    PutAll([], headers, RowValues(raw, |headers|))
  }

  predicate AnyValue<K>(d: Dict<K, string>)
  {
    exists i :: 0 <= i < |d| && d[i].1 != ""
  }

  /** The images under `f` of the items of `data` whose image passes `p`,
      in order. */
  function KeepMapped<A, B>(data: seq<A>, f: A -> B, p: B -> bool): seq<B>
  {
    if data == [] then []
    else
      var b := f(data[|data| - 1]);
      KeepMapped(data[..|data| - 1], f, p) + if p(b) then [b] else []
  }

  lemma KeepMappedSnoc<A, B>(data: seq<A>, f: A -> B, p: B -> bool, k: int)
    requires 0 <= k < |data|
    ensures KeepMapped(data[..k + 1], f, p) == KeepMapped(data[..k], f, p) + if p(f(data[k])) then [f(data[k])] else []
  {
    assert data[..k + 1][..k] == data[..k];
  }

  lemma {:induction false} KeepMappedSound<A, B>(data: seq<A>, f: A -> B, p: B -> bool, b: B)
    requires b in KeepMapped(data, f, p)
    ensures p(b) && exists i :: 0 <= i < |data| && b == f(data[i])
  {
    var n := |data| - 1;
    if b in KeepMapped(data[..n], f, p) {
      KeepMappedSound(data[..n], f, p, b);
      var i :| 0 <= i < n && b == f(data[..n][i]);
      assert data[..n][i] == data[i];
    }
  }

  lemma {:induction false} KeepMappedComplete<A, B>(data: seq<A>, f: A -> B, p: B -> bool, i: int)
    requires 0 <= i < |data| && p(f(data[i]))
    ensures f(data[i]) in KeepMapped(data, f, p)
  {
    var n := |data| - 1;
    if i < n {
      assert data[..n][i] == data[i];
      KeepMappedComplete(data[..n], f, p, i);
    }
  }

  lemma {:induction false} KeepMappedLength<A, B>(data: seq<A>, f: A -> B, p: B -> bool)
    ensures |KeepMapped(data, f, p)| <= |data|
  {
    if data != [] {
      KeepMappedLength(data[..|data| - 1], f, p);
    }
  }

  function RecordOf(headers: seq<string>): seq<string> -> Dict<string, string>
  {
    raw => SheetRecord(headers, raw)
  }

  function HasValue(): Dict<string, string> -> bool
  {
    d => AnyValue(d)
  }

  /** The records kept from the data rows: those with a non-empty value. */
  function KeptRecords(headers: seq<string>, data: seq<seq<string>>): seq<Dict<string, string>>
  {
    KeepMapped(data, RecordOf(headers), HasValue())
  }

  /** The table of one sheet; a sheet without rows gives none. */
  function SheetTable(stem: string, name: string, rows: seq<seq<string>>): Option<Table>
  {
    if rows == [] then None
    else
      var headers := Headers(rows[0]);
      Some(Table(stem + ":" + name, headers, KeptRecords(headers, rows[1..])))
  }

  function PlaceRows(rows: seq<seq<Cell>>, shared: seq<string>): (r: seq<seq<string>>)
    ensures |r| == |rows| && forall i :: 0 <= i < |rows| ==> r[i] == PlaceRow(rows[i], shared)
  {
    seq(|rows|, i requires 0 <= i < |rows| => PlaceRow(rows[i], shared))
  }

  /** The tables of a workbook, sheet by sheet. */
  function XlsxTables(stem: string, shared: seq<string>, sheets: seq<Sheet>): seq<Table>
  {
    if sheets == [] then []
    else
      var last := sheets[|sheets| - 1];
      var t := SheetTable(stem, last.name, PlaceRows(last.rows, shared));
      XlsxTables(stem, shared, sheets[..|sheets| - 1]) + if t.Some? then [t.value] else []
  }

  /** The record loop of `_parse_xlsx` for one sheet. */
  method SheetRecords(headers: seq<string>, data: seq<seq<string>>) returns (records: seq<Dict<string, string>>)
    ensures records == KeptRecords(headers, data)
  {
    records := [];
    for k := 0 to |data|
      invariant records == KeepMapped(data[..k], RecordOf(headers), HasValue())
    {
      KeepMappedSnoc(data, RecordOf(headers), HasValue(), k);
      var record := RecordOf(headers)(data[k]);
      if HasValue()(record) {
        records := records + [record];
      }
    }
    assert data[..|data|] == data;
  }

  /** `_parse_xlsx` once the workbook has been read: one table per sheet
      that has rows. */
  method ParseXlsx(stem: string, shared: seq<string>, sheets: seq<Sheet>) returns (tables: seq<Table>)
    ensures tables == XlsxTables(stem, shared, sheets)
  {
    tables := [];
    for k := 0 to |sheets|
      invariant tables == XlsxTables(stem, shared, sheets[..k])
    {
      assert sheets[..k + 1][..k] == sheets[..k];
      var rows := ReadSheetRows(sheets[k].rows, shared);
      if rows == [] {
        continue;
      }
      var headers := Headers(rows[0]);
      var records := SheetRecords(headers, rows[1..]);
      tables := tables + [Table(stem + ":" + sheets[k].name, headers, records)];
    }
    assert sheets[..|sheets|] == sheets;
  }

  /** With distinct headers a record holds every header, in order, with
      the stripped value of its column, or "" past the end of the row. */
  lemma SheetRecordDistinct(headers: seq<string>, raw: seq<string>)
    requires Distinct(headers)
    ensures var r := SheetRecord(headers, raw);
      && |r| == |headers|
      && forall i :: 0 <= i < |headers| ==> r[i] == (headers[i], if i < |raw| then Strip(raw[i]) else "")
  {
    PutAllFresh([], headers, RowValues(raw, |headers|));
    assert [] + Zip(headers, RowValues(raw, |headers|)) == Zip(headers, RowValues(raw, |headers|));
  }

  /** Any record has distinct keys drawn from the headers and stripped
      values. */
  lemma SheetRecordKeys(headers: seq<string>, raw: seq<string>)
    ensures var r := SheetRecord(headers, raw);
      && DistinctKeys(r)
      && (forall i :: 0 <= i < |r| ==> r[i].0 in headers)
  {
    var empty: Dict<string, string> := [];
    assert Keys(empty) == [];
  }

  /** A record is kept exactly when it comes from a data row and holds a
      non-empty value; no more records than data rows. */
  lemma KeptRecordsFilter(headers: seq<string>, data: seq<seq<string>>, r: Dict<string, string>)
    ensures |KeptRecords(headers, data)| <= |data|
    ensures r in KeptRecords(headers, data) <==>
      AnyValue(r) && exists i :: 0 <= i < |data| && r == SheetRecord(headers, data[i])
  {
    KeepMappedLength(data, RecordOf(headers), HasValue());
    if r in KeptRecords(headers, data) {
      KeepMappedSound(data, RecordOf(headers), HasValue(), r);
    } else if AnyValue(r) && exists i :: 0 <= i < |data| && r == SheetRecord(headers, data[i]) {
      var i :| 0 <= i < |data| && r == SheetRecord(headers, data[i]);
      KeepMappedComplete(data, RecordOf(headers), HasValue(), i);
    }
  }

  /** Every table is named after the file and one of its sheets, and its
      headers are non-empty. */
  lemma {:induction false} XlsxTablesShape(stem: string, shared: seq<string>, sheets: seq<Sheet>)
    ensures var ts := XlsxTables(stem, shared, sheets);
      && |ts| <= |sheets|
      && forall t :: t in ts ==>
        (exists k :: 0 <= k < |sheets| && t.name == stem + ":" + sheets[k].name)
        && forall j :: 0 <= j < |t.headers| ==> t.headers[j] != []
  {
    if sheets != [] {
      var n := |sheets| - 1;
      XlsxTablesShape(stem, shared, sheets[..n]);
      forall t | t in XlsxTables(stem, shared, sheets[..n])
        ensures exists k :: 0 <= k < |sheets| && t.name == stem + ":" + sheets[k].name
      {
        var k :| 0 <= k < n && t.name == stem + ":" + sheets[..n][k].name;
        assert sheets[..n][k] == sheets[k];
      }
    }
  }

  // ---------------------------------------------------------------------
  // Loops that stop at the first error
  // ---------------------------------------------------------------------

  /** A loop over `items` (with their indices, as `enumerate` gives them)
      that updates a state and stops at the first step that raises. */
  function Fold<A, S, E>(items: seq<A>, start: S, step: (S, A, nat) -> Result<S, E>): Result<S, E>
  {
    if items == [] then Ok(start)
    else match Fold(items[..|items| - 1], start, step)
      case Err(e) => Err(e)
      case Ok(st) => step(st, items[|items| - 1], |items| - 1)
  }

  lemma FoldSnoc<A, S, E>(items: seq<A>, start: S, step: (S, A, nat) -> Result<S, E>, k: int)
    requires 0 <= k < |items|
    ensures Fold(items[..k + 1], start, step) ==
      match Fold(items[..k], start, step)
        case Err(e) => Err(e)
        case Ok(st) => step(st, items[k], k)
  {
    assert items[..k + 1][..k] == items[..k];
  }

  /** Once a prefix of the loop has raised, the whole loop raises the same. */
  lemma {:induction false} FoldErrSticks<A, S, E>(items: seq<A>, start: S, step: (S, A, nat) -> Result<S, E>, k: int)
    requires 0 <= k <= |items| && Fold(items[..k], start, step).Err?
    ensures Fold(items, start, step) == Fold(items[..k], start, step)
    decreases |items|
  {
    if k == |items| {
      assert items[..k] == items;
    } else {
      var n: nat := |items| - 1;
      assert items[..n][..k] == items[..k];
      FoldErrSticks(items[..n], start, step, k);
    }
  }

  /** When a step raises exactly on the items `bad` picks out, the loop
      succeeds exactly when no item is bad. */
  lemma {:induction false} FoldOkIff<A, S, E>(items: seq<A>, start: S, step: (S, A, nat) -> Result<S, E>, bad: A -> bool)
    requires forall st: S, a: A, i: nat :: step(st, a, i).Err? <==> bad(a)
    ensures Fold(items, start, step).Ok? <==> forall i :: 0 <= i < |items| ==> !bad(items[i])
  {
    if items != [] {
      var n: nat := |items| - 1;
      FoldOkIff(items[..n], start, step, bad);
      match Fold(items[..n], start, step)
      case Ok(st) =>
        assert step(st, items[n], n).Err? <==> bad(items[n]);
        assert forall i :: 0 <= i < n ==> items[..n][i] == items[i];
      case Err(_) =>
        var i :| 0 <= i < n && bad(items[..n][i]);
        assert items[..n][i] == items[i];
    }
  }

  /** A loop whose every step appends one output collects the outputs
      in order. */
  lemma {:induction false} FoldCollect<A, B, E>(items: seq<A>, step: (seq<B>, A, nat) -> Result<seq<B>, E>, outs: seq<B>)
    requires |items| == |outs|
    requires forall st: seq<B>, i: nat :: i < |items| ==> step(st, items[i], i) == Ok(st + [outs[i]])
    ensures Fold(items, [], step) == Ok(outs)
  {
    if items != [] {
      var n: nat := |items| - 1;
      assert forall i :: 0 <= i < n ==> items[..n][i] == items[i] && outs[..n][i] == outs[i];
      FoldCollect(items[..n], step, outs[..n]);
      assert step(outs[..n], items[n], n) == Ok(outs[..n] + [outs[n]]);
      assert outs == outs[..n] + [outs[n]];
    }
  }

  /** A property every step keeps holds of the state the loop ends in. */
  lemma {:induction false} FoldKeeps<A, S, E>(items: seq<A>, start: S, step: (S, A, nat) -> Result<S, E>, inv: S -> bool)
    requires inv(start)
    requires forall st: S, a: A, i: nat :: inv(st) && step(st, a, i).Ok? ==> inv(step(st, a, i).value)
    ensures Fold(items, start, step).Ok? ==> inv(Fold(items, start, step).value)
  {
    if items != [] {
      var n: nat := |items| - 1;
      FoldKeeps(items[..n], start, step, inv);
      match Fold(items[..n], start, step)
      case Ok(st) =>
        assert step(st, items[n], n).Ok? ==> inv(step(st, items[n], n).value);
      case Err(_) =>
    }
  }

  // ---------------------------------------------------------------------
  // CSV tables
  // ---------------------------------------------------------------------

  /** A value of the dict `csv.DictReader` yields: a field, the `None` it
      puts under a header the row is too short for, or the list of extra
      fields it puts under the key `None`. */
  datatype CsvValue = Field(text: string) | Missing | Extra(fields: seq<string>)

  /** The dict `csv.DictReader` yields for a non-empty row, its keys the
      header names or `None`. */
  function ReaderRow(fieldnames: seq<string>, row: seq<string>): Dict<Option<string>, CsvValue>
  {
    var n := if |row| < |fieldnames| then |row| else |fieldnames|;
    var d := PutAll([], seq(n, i requires 0 <= i < n => Some(fieldnames[i])), seq(n, i requires 0 <= i < n => Field(row[i])));
    if |fieldnames| < |row| then Put(d, None, Extra(row[|fieldnames|..]))
    else
      var m := |fieldnames| - |row|;
      PutAll(d, seq(m, i requires 0 <= i < m => Some(fieldnames[|row| + i])), seq(m, _ => Missing))
  }

  /** Normalising a row raises when a row has more fields than the header:
      its extra fields are a list, which has no `strip`. */
  datatype CsvError = ExtraFields

  /** The name and value one item of a reader row becomes. */
  function CsvItem(key: Option<string>, value: CsvValue, index: nat): Result<(string, string), CsvError>
  {
    var name := if key.None? || key.value == "" then ColumnName(index) else key.value;
    match value
      case Field(text) => Ok((name, Strip(text)))
      case Missing => Ok((name, ""))
      case Extra(fields) => if fields == [] then Ok((name, "")) else Err(ExtraFields)
  }

  /** One iteration of the normalising loop of `_parse_csv`. */
  function CsvStep(): (Dict<string, string>, (Option<string>, CsvValue), nat) -> Result<Dict<string, string>, CsvError>
  {
    (d: Dict<string, string>, item: (Option<string>, CsvValue), index: nat) =>
      match CsvItem(item.0, item.1, index)
        case Err(e) => Err(e)
        case Ok(kv) => Ok(Put(d, kv.0, kv.1))
  }

  /** The normalised record of a reader row. */
  function CsvRecord(items: Dict<Option<string>, CsvValue>): Result<Dict<string, string>, CsvError>
  {
    Fold(items, [], CsvStep())
  }

  /** One iteration of the row loop of `_parse_csv`. */
  function RowStep(fieldnames: seq<string>): (seq<Dict<string, string>>, seq<string>, nat) -> Result<seq<Dict<string, string>>, CsvError>
  {
    (rows: seq<Dict<string, string>>, row: seq<string>, index: nat) =>
      match CsvRecord(ReaderRow(fieldnames, row))
        case Err(e) => Err(e)
        case Ok(record) => Ok(rows + [record])
  }

  /** The rows `csv.DictReader` iterates over: the rows after the header,
      without the empty ones. */
  function DataRows(rows: seq<seq<string>>): (r: seq<seq<string>>)
    ensures forall i :: 0 <= i < |r| ==> r[i] != [] && r[i] in rows
    ensures forall i :: 0 <= i < |rows| && rows[i] != [] ==> rows[i] in r
  {
    if rows == [] then []
    else DataRows(rows[..|rows| - 1]) + if rows[|rows| - 1] == [] then [] else [rows[|rows| - 1]]
  }

  /** `_parse_csv` on the rows the CSV reader tokenises: named after the
      file's stem, headers from the first row, one record per non-empty
      data row. */
  function CsvTable(stem: string, lines: seq<seq<string>>): Result<Table, CsvError>
  {
    if lines == [] then Ok(Table(stem, [], []))
    else
      var fieldnames := lines[0];
      match Fold(DataRows(lines[1..]), [], RowStep(fieldnames))
        case Err(e) => Err(e)
        case Ok(rows) =>
          var headers := if fieldnames != [] then fieldnames else if rows != [] then Keys(rows[0]) else [];
          Ok(Table(stem, headers, rows))
  }

  /** The normalising loop of `_parse_csv` for one reader row. */
  method NormaliseCsvRow(items: Dict<Option<string>, CsvValue>) returns (r: Result<Dict<string, string>, CsvError>)
    ensures r == CsvRecord(items)
  {
    var record: Dict<string, string> := [];
    for index := 0 to |items|
      invariant Fold(items[..index], [], CsvStep()) == Ok(record)
    {
      FoldSnoc(items, [], CsvStep(), index);
      var (key, value) := items[index];
      var item := CsvItem(key, value, index);
      if item.Err? {
        FoldErrSticks(items, [], CsvStep(), index + 1);
        return Err(item.error);
      }
      var (name, text) := item.value;
      record := Put(record, name, text);
    }
    assert items[..|items|] == items;
    return Ok(record);
  }

  /** `_parse_csv` on the rows the CSV reader tokenises. */
  method ParseCsv(stem: string, lines: seq<seq<string>>) returns (r: Result<Table, CsvError>)
    ensures r == CsvTable(stem, lines)
  {
    if lines == [] {
      return Ok(Table(stem, [], []));
    }
    var fieldnames := lines[0];
    var data := DataRows(lines[1..]);
    var rows: seq<Dict<string, string>> := [];
    for k := 0 to |data|
      invariant Fold(data[..k], [], RowStep(fieldnames)) == Ok(rows)
    {
      FoldSnoc(data, [], RowStep(fieldnames), k);
      var record := NormaliseCsvRow(ReaderRow(fieldnames, data[k]));
      if record.Err? {
        FoldErrSticks(data, [], RowStep(fieldnames), k + 1);
        return Err(record.error);
      }
      rows := rows + [record.value];
    }
    assert data[..|data|] == data;
    var headers := fieldnames;
    if headers == [] && rows != [] {
      headers := Keys(rows[0]);
    }
    return Ok(Table(stem, headers, rows));
  }

  predicate IsExtra(item: (Option<string>, CsvValue))
  {
    item.1.Extra? && item.1.fields != []
  }

  /** Storing only values that satisfy `ok` leaves only such values. */
  lemma {:induction false} PutAllValues<K, V>(d: Dict<K, V>, keys: seq<K>, vals: seq<V>, ok: V -> bool)
    requires |keys| == |vals|
    requires forall i :: 0 <= i < |d| ==> ok(d[i].1)
    requires forall i :: 0 <= i < |vals| ==> ok(vals[i])
    ensures forall i :: 0 <= i < |PutAll(d, keys, vals)| ==> ok(PutAll(d, keys, vals)[i].1)
  {
    if keys != [] {
      var n := |keys| - 1;
      assert forall i :: 0 <= i < n ==> vals[..n][i] == vals[i];
      PutAllValues(d, keys[..n], vals[..n], ok);
      var r0 := PutAll(d, keys[..n], vals[..n]);
      assert PutAll(d, keys, vals) == Put(r0, keys[n], vals[n]);
      PutKeepsValues(r0, keys[n], vals[n], ok);
    }
  }

  lemma PutKeepsValues<K, V>(d: Dict<K, V>, k: K, v: V, ok: V -> bool)
    requires forall i :: 0 <= i < |d| ==> ok(d[i].1)
    requires ok(v)
    ensures forall i :: 0 <= i < |Put(d, k, v)| ==> ok(Put(d, k, v)[i].1)
  {
    var r := Put(d, k, v);
    forall i | 0 <= i < |r| ensures ok(r[i].1) {
      if k in Keys(d) {
        assert r[i] == if d[i].0 == k then (k, v) else d[i];
      } else if i < |d| {
        assert r[i] == d[i];
      }
    }
  }

  function NotExtra(): CsvValue -> bool
  {
    (v: CsvValue) => !(v.Extra? && v.fields != [])
  }

  /** A row longer than the header leaves its extra fields, a non-empty
      list, under the key `None`. */
  lemma ReaderRowLong(fieldnames: seq<string>, row: seq<string>)
    requires |fieldnames| < |row|
    ensures exists i :: 0 <= i < |ReaderRow(fieldnames, row)| && IsExtra(ReaderRow(fieldnames, row)[i])
  {
    var n := |fieldnames|;
    var keys := seq(n, i requires 0 <= i < n => Some(fieldnames[i]));
    var vals := seq(n, i requires 0 <= i < n => Field(row[i]));
    var empty: Dict<Option<string>, CsvValue> := [];
    var d := PutAll(empty, keys, vals);
    assert None !in Keys(d);
    assert ReaderRow(fieldnames, row)[|d|] == (None, Extra(row[|fieldnames|..]));
  }

  /** A row no longer than the header holds only fields and missing
      values. */
  lemma ReaderRowShort(fieldnames: seq<string>, row: seq<string>)
    requires |row| <= |fieldnames|
    ensures forall i :: 0 <= i < |ReaderRow(fieldnames, row)| ==> !IsExtra(ReaderRow(fieldnames, row)[i])
  {
    var n := |row|;
    var keys := seq(n, i requires 0 <= i < n => Some(fieldnames[i]));
    var vals := seq(n, i requires 0 <= i < n => Field(row[i]));
    var empty: Dict<Option<string>, CsvValue> := [];
    var d := PutAll(empty, keys, vals);
    PutAllValues(empty, keys, vals, NotExtra());
    var m := |fieldnames| - |row|;
    PutAllValues(d, seq(m, i requires 0 <= i < m => Some(fieldnames[|row| + i])), seq(m, _ => Missing), NotExtra());
    var r := ReaderRow(fieldnames, row);
    forall i | 0 <= i < |r| ensures !IsExtra(r[i]) {
      assert NotExtra()(r[i].1);
    }
  }

  lemma CsvStepRaises(st: Dict<string, string>, item: (Option<string>, CsvValue), i: nat)
    ensures CsvStep()(st, item, i).Err? <==> IsExtra(item)
  {
    var r := CsvItem(item.0, item.1, i);
    assert CsvStep()(st, item, i).Err? <==> r.Err?;
  }

  /** Normalising a reader row raises exactly when the row is longer than
      the header. */
  lemma CsvRecordOk(fieldnames: seq<string>, row: seq<string>)
    ensures CsvRecord(ReaderRow(fieldnames, row)).Ok? <==> |row| <= |fieldnames|
  {
    var items := ReaderRow(fieldnames, row);
    var bad := (item: (Option<string>, CsvValue)) => IsExtra(item);
    forall st: Dict<string, string>, item: (Option<string>, CsvValue), i: nat
      ensures CsvStep()(st, item, i).Err? <==> bad(item)
    {
      CsvStepRaises(st, item, i);
    }
    FoldOkIff(items, [], CsvStep(), bad);
    if |row| <= |fieldnames| {
      ReaderRowShort(fieldnames, row);
    } else {
      ReaderRowLong(fieldnames, row);
    }
  }

  /** A CSV file parses exactly when no data row is longer than its header
      row. */
  lemma CsvTableOk(stem: string, lines: seq<seq<string>>)
    ensures CsvTable(stem, lines).Ok? <==> forall i :: 1 <= i < |lines| ==> |lines[i]| <= |lines[0]|
  {
    if lines != [] {
      var fieldnames := lines[0];
      var data := DataRows(lines[1..]);
      RowStepErrIff(fieldnames);
      FoldOkIff(data, [], RowStep(fieldnames), TooLong(|fieldnames|));
      DataRowsShort(lines[1..], |fieldnames|);
      TailShort(lines, |fieldnames|);
    }
  }

  lemma TailShort(lines: seq<seq<string>>, width: nat)
    requires lines != []
    ensures (forall i :: 0 <= i < |lines[1..]| ==> |lines[1..][i]| <= width)
      <==> (forall i :: 1 <= i < |lines| ==> |lines[i]| <= width)
  {
    assert forall i :: 1 <= i < |lines| ==> lines[1..][i - 1] == lines[i];
  }

  /** A row longer than the header row. */
  function TooLong(width: nat): seq<string> -> bool
  {
    (row: seq<string>) => |row| > width
  }

  lemma RowStepErrIff(fieldnames: seq<string>)
    ensures forall st, row, i: nat :: RowStep(fieldnames)(st, row, i).Err? <==> TooLong(|fieldnames|)(row)
  {
    forall st, row, i: nat ensures RowStep(fieldnames)(st, row, i).Err? <==> TooLong(|fieldnames|)(row) {
      CsvRecordOk(fieldnames, row);
    }
  }

  /** Dropping the empty rows keeps every row within a width exactly when
      all rows were. */
  lemma DataRowsShort(rows: seq<seq<string>>, width: nat)
    ensures (forall i :: 0 <= i < |DataRows(rows)| ==> !TooLong(width)(DataRows(rows)[i]))
      <==> (forall i :: 0 <= i < |rows| ==> |rows[i]| <= width)
  {
    var data := DataRows(rows);
    if forall i :: 0 <= i < |data| ==> !TooLong(width)(data[i]) {
      forall i | 0 <= i < |rows| ensures |rows[i]| <= width {
        if rows[i] != [] {
          assert rows[i] in data;
          var j :| 0 <= j < |data| && data[j] == rows[i];
          assert !TooLong(width)(data[j]);
        }
      }
    }
    if forall i :: 0 <= i < |rows| ==> |rows[i]| <= width {
      forall i | 0 <= i < |data| ensures !TooLong(width)(data[i]) {
        assert data[i] in rows;
        var j :| 0 <= j < |rows| && rows[j] == data[i];
        assert |rows[j]| <= width;
      }
    }
  }

  /** The fallback to the first record's keys never takes effect: with an
      empty header row every data row is too long, so a file that parses
      has no records and no headers. */
  lemma CsvHeaderFallbackUnused(stem: string, lines: seq<seq<string>>)
    requires lines != [] && lines[0] == []
    requires CsvTable(stem, lines).Ok?
    ensures CsvTable(stem, lines).value.rows == [] && CsvTable(stem, lines).value.headers == []
  {
    CsvTableOk(stem, lines);
  }

  /** A normalised record: distinct, non-empty keys and stripped values. */
  predicate WellFormedRecord(d: Dict<string, string>)
  {
    DistinctKeys(d) && forall i :: 0 <= i < |d| ==> d[i].0 != [] && Stripped(d[i].1)
  }

  function IsWellFormed(): Dict<string, string> -> bool
  {
    d => WellFormedRecord(d)
  }

  lemma CsvStepKeeps(d: Dict<string, string>, item: (Option<string>, CsvValue), index: nat)
    requires WellFormedRecord(d) && CsvStep()(d, item, index).Ok?
    ensures WellFormedRecord(CsvStep()(d, item, index).value)
  {
    var kv := CsvItem(item.0, item.1, index).value;
    if item.1.Field? {
      StripIsStripped(item.1.text);
    }
    assert kv.0 != [] && Stripped(kv.1);
    var r := Put(d, kv.0, kv.1);
    assert CsvStep()(d, item, index).value == r;
    forall i | 0 <= i < |r| ensures r[i].0 != [] && Stripped(r[i].1) {
      if kv.0 in Keys(d) {
        assert r[i] == if d[i].0 == kv.0 then kv else d[i];
      } else if i < |d| {
        assert r[i] == d[i];
      }
    }
  }

  /** Every key of a normalised CSV record is non-empty (a missing or
      empty header becomes `column_<n>`), keys do not repeat, and every
      value is stripped (a missing one is ""). */
  lemma CsvRecordWellFormed(items: Dict<Option<string>, CsvValue>)
    ensures CsvRecord(items).Ok? ==> WellFormedRecord(CsvRecord(items).value)
  {
    forall st: Dict<string, string>, item: (Option<string>, CsvValue), i: nat
      | IsWellFormed()(st) && CsvStep()(st, item, i).Ok?
      ensures IsWellFormed()(CsvStep()(st, item, i).value)
    {
      CsvStepKeeps(st, item, i);
    }
    FoldKeeps(items, [], CsvStep(), IsWellFormed());
  }

  function AllWellFormed(): seq<Dict<string, string>> -> bool
  {
    rows => forall i :: 0 <= i < |rows| ==> WellFormedRecord(rows[i])
  }

  /** Every record of a parsed CSV table is well formed. */
  lemma CsvTableWellFormed(stem: string, lines: seq<seq<string>>)
    requires CsvTable(stem, lines).Ok?
    ensures forall i :: 0 <= i < |CsvTable(stem, lines).value.rows| ==> WellFormedRecord(CsvTable(stem, lines).value.rows[i])
    ensures CsvTable(stem, lines).value.name == stem
  {
    if lines != [] {
      var fieldnames := lines[0];
      forall st: seq<Dict<string, string>>, row: seq<string>, i: nat
        | AllWellFormed()(st) && RowStep(fieldnames)(st, row, i).Ok?
        ensures AllWellFormed()(RowStep(fieldnames)(st, row, i).value)
      {
        CsvRecordWellFormed(ReaderRow(fieldnames, row));
      }
      FoldKeeps(DataRows(lines[1..]), [], RowStep(fieldnames), AllWellFormed());
    }
  }

  function SomeKeys(fieldnames: seq<string>): (ks: seq<Option<string>>)
    ensures |ks| == |fieldnames| && forall i :: 0 <= i < |ks| ==> ks[i] == Some(fieldnames[i])
  {
    seq(|fieldnames|, i requires 0 <= i < |fieldnames| => Some(fieldnames[i]))
  }

  /** The values a row no longer than `n` headers gives them. */
  function RowFields(row: seq<string>, n: nat): (vs: seq<CsvValue>)
    requires |row| <= n
    ensures |vs| == n && forall i :: 0 <= i < n ==> vs[i] == if i < |row| then Field(row[i]) else Missing
  {
    seq(n, i requires 0 <= i < n => if i < |row| then Field(row[i]) else Missing)
  }

  lemma ZipAppend<K, V>(k1: seq<K>, v1: seq<V>, k2: seq<K>, v2: seq<V>)
    requires |k1| == |v1| && |k2| == |v2|
    ensures Zip(k1, v1) + Zip(k2, v2) == Zip(k1 + k2, v1 + v2)
  {
  }

  lemma FreshKeys<V>(fieldnames: seq<string>, n: nat, d: Dict<Option<string>, V>)
    requires Distinct(fieldnames) && n <= |fieldnames|
    requires |d| == n && forall i :: 0 <= i < n ==> d[i].0 == Some(fieldnames[i])
    ensures forall j :: n <= j < |fieldnames| ==> Some(fieldnames[j]) !in Keys(d)
  {
    forall j | n <= j < |fieldnames| ensures Some(fieldnames[j]) !in Keys(d) {
    }
  }

  function FieldsOf(row: seq<string>): (vs: seq<CsvValue>)
    ensures |vs| == |row| && forall i :: 0 <= i < |row| ==> vs[i] == Field(row[i])
  {
    seq(|row|, i requires 0 <= i < |row| => Field(row[i]))
  }

  /** The reader row of a row no longer than the header, as two runs of
      assignments. */
  lemma ReaderRowShortParts(fieldnames: seq<string>, row: seq<string>)
    requires |row| <= |fieldnames|
    ensures ReaderRow(fieldnames, row) ==
      PutAll(PutAll([], SomeKeys(fieldnames[..|row|]), FieldsOf(row)), SomeKeys(fieldnames[|row|..]), seq(|fieldnames| - |row|, _ => Missing))
  {
    var n := |row|;
    var m := |fieldnames| - n;
    assert seq(n, i requires 0 <= i < n => Some(fieldnames[i])) == SomeKeys(fieldnames[..n]);
    assert seq(n, i requires 0 <= i < n => Field(row[i])) == FieldsOf(row);
    assert seq(m, i requires 0 <= i < m => Some(fieldnames[|row| + i])) == SomeKeys(fieldnames[n..]);
  }

  lemma ReaderRowFirstPart(fieldnames: seq<string>, row: seq<string>)
    requires Distinct(fieldnames) && |row| <= |fieldnames|
    ensures PutAll([], SomeKeys(fieldnames[..|row|]), FieldsOf(row)) == Zip(SomeKeys(fieldnames[..|row|]), FieldsOf(row))
  {
    var empty: Dict<Option<string>, CsvValue> := [];
    PutAllFresh(empty, SomeKeys(fieldnames[..|row|]), FieldsOf(row));
  }

  lemma ReaderRowSecondPart(fieldnames: seq<string>, row: seq<string>)
    requires Distinct(fieldnames) && |row| <= |fieldnames|
    ensures var d := Zip(SomeKeys(fieldnames[..|row|]), FieldsOf(row));
      var missing: seq<CsvValue> := seq(|fieldnames| - |row|, _ => Missing);
      PutAll(d, SomeKeys(fieldnames[|row|..]), missing) == d + Zip(SomeKeys(fieldnames[|row|..]), missing)
  {
    var n := |row|;
    var d := Zip(SomeKeys(fieldnames[..n]), FieldsOf(row));
    FreshKeys(fieldnames, n, d);
    var keys2 := SomeKeys(fieldnames[n..]);
    assert forall j :: 0 <= j < |keys2| ==> keys2[j] == Some(fieldnames[n + j]);
    PutAllFresh(d, keys2, seq(|fieldnames| - n, _ => Missing));
  }

  lemma SomeKeysSplit(fieldnames: seq<string>, n: nat)
    requires n <= |fieldnames|
    ensures SomeKeys(fieldnames[..n]) + SomeKeys(fieldnames[n..]) == SomeKeys(fieldnames)
  {
  }

  lemma RowFieldsSplit(row: seq<string>, n: nat)
    requires |row| <= n
    ensures FieldsOf(row) + seq(n - |row|, _ => Missing) == RowFields(row, n)
  {
  }

  /** With distinct header names, the reader gives each header, in order,
      its field or `None`. */
  lemma ReaderRowDistinct(fieldnames: seq<string>, row: seq<string>)
    requires Distinct(fieldnames) && |row| <= |fieldnames|
    ensures ReaderRow(fieldnames, row) == Zip(SomeKeys(fieldnames), RowFields(row, |fieldnames|))
  {
    var n := |row|;
    var keys1 := SomeKeys(fieldnames[..n]);
    var vals1 := FieldsOf(row);
    var keys2 := SomeKeys(fieldnames[n..]);
    var vals2: seq<CsvValue> := seq(|fieldnames| - n, _ => Missing);
    var empty: Dict<Option<string>, CsvValue> := [];
    SomeKeysSplit(fieldnames, n);
    RowFieldsSplit(row, |fieldnames|);
    assert keys1 + keys2 == SomeKeys(fieldnames);
    assert vals1 + vals2 == RowFields(row, |fieldnames|);
    calc {
      ReaderRow(fieldnames, row);
      { ReaderRowShortParts(fieldnames, row); }
      PutAll(PutAll(empty, keys1, vals1), keys2, vals2);
      { ReaderRowFirstPart(fieldnames, row); }
      PutAll(Zip(keys1, vals1), keys2, vals2);
      { ReaderRowSecondPart(fieldnames, row); }
      Zip(keys1, vals1) + Zip(keys2, vals2);
      { ZipAppend(keys1, vals1, keys2, vals2); }
      Zip(keys1 + keys2, vals1 + vals2);
      Zip(SomeKeys(fieldnames), RowFields(row, |fieldnames|));
    }
  }

  /** Field values stripped, `None` as "". */
  function Normalised(vals: seq<CsvValue>): (r: seq<string>)
    ensures |r| == |vals|
    ensures forall i :: 0 <= i < |vals| ==> r[i] == match vals[i] case Field(t) => Strip(t) case _ => ""
  {
    seq(|vals|, i requires 0 <= i < |vals| => match vals[i] case Field(t) => Strip(t) case _ => "")
  }

  lemma CsvStepFresh(d: Dict<string, string>, key: string, value: CsvValue, index: nat)
    requires key != [] && key !in Keys(d) && !value.Extra?
    ensures CsvStep()(d, (Some(key), value), index) == Ok(d + [(key, match value case Field(t) => Strip(t) case _ => "")])
  {
    var v := match value case Field(t) => Strip(t) case _ => "";
    assert CsvItem(Some(key), value, index) == Ok((key, v));
    assert Put(d, key, v) == d + [(key, v)];
  }

  lemma ZipSnoc<K, V>(ks: seq<K>, vs: seq<V>, k: nat)
    requires |ks| == |vs| && 0 < k <= |ks|
    ensures Zip(ks[..k], vs[..k]) == Zip(ks[..k - 1], vs[..k - 1]) + [(ks[k - 1], vs[k - 1])]
  {
  }

  lemma {:induction false} CsvRecordPrefix(fieldnames: seq<string>, vals: seq<CsvValue>, k: nat)
    requires Distinct(fieldnames) && |vals| == |fieldnames| && k <= |vals|
    requires forall i :: 0 <= i < |fieldnames| ==> fieldnames[i] != []
    requires forall i :: 0 <= i < |vals| ==> !vals[i].Extra?
    ensures Fold(Zip(SomeKeys(fieldnames), vals)[..k], [], CsvStep()) == Ok(Zip(fieldnames[..k], Normalised(vals)[..k]))
  {
    if k > 0 {
      var items := Zip(SomeKeys(fieldnames), vals);
      CsvRecordPrefix(fieldnames, vals, k - 1);
      FoldSnoc(items, [], CsvStep(), k - 1);
      var d := Zip(fieldnames[..k - 1], Normalised(vals)[..k - 1]);
      assert fieldnames[k - 1] !in Keys(d);
      CsvStepFresh(d, fieldnames[k - 1], vals[k - 1], k - 1);
      ZipSnoc(fieldnames, Normalised(vals), k);
    }
  }

  /** With distinct, non-empty header names and a row no longer than the
      header, the record holds every header in order with its stripped
      field, or "" where the row ran out. */
  lemma CsvRecordDistinct(fieldnames: seq<string>, row: seq<string>)
    requires Distinct(fieldnames) && |row| <= |fieldnames|
    requires forall i :: 0 <= i < |fieldnames| ==> fieldnames[i] != []
    ensures CsvRecord(ReaderRow(fieldnames, row)).Ok?
    ensures var r := CsvRecord(ReaderRow(fieldnames, row)).value;
      && |r| == |fieldnames|
      && forall i :: 0 <= i < |fieldnames| ==> r[i] == (fieldnames[i], if i < |row| then Strip(row[i]) else "")
  {
    ReaderRowDistinct(fieldnames, row);
    var vals := RowFields(row, |fieldnames|);
    CsvRecordPrefix(fieldnames, vals, |fieldnames|);
    var items := Zip(SomeKeys(fieldnames), vals);
    assert items[..|items|] == items;
    assert fieldnames[..|fieldnames|] == fieldnames;
    assert Normalised(vals)[..|vals|] == Normalised(vals);
  }

  lemma RowStepOk(fieldnames: seq<string>, st: seq<Dict<string, string>>, row: seq<string>, i: nat, record: Dict<string, string>)
    requires CsvRecord(ReaderRow(fieldnames, row)) == Ok(record)
    ensures RowStep(fieldnames)(st, row, i) == Ok(st + [record])
  {
  }

  /** When every row normalises, the table's records are those rows'
      records, in order. */
  lemma RowsFold(fieldnames: seq<string>, rows: seq<seq<string>>, records: seq<Dict<string, string>>)
    requires |rows| == |records|
    requires forall i :: 0 <= i < |rows| ==> CsvRecord(ReaderRow(fieldnames, rows[i])) == Ok(records[i])
    ensures Fold(rows, [], RowStep(fieldnames)) == Ok(records)
  {
    forall st: seq<Dict<string, string>>, i: nat | i < |rows|
      ensures RowStep(fieldnames)(st, rows[i], i) == Ok(st + [records[i]])
    {
      RowStepOk(fieldnames, st, rows[i], i, records[i]);
    }
    FoldCollect(rows, RowStep(fieldnames), records);
  }

  lemma ScheduleRows(row1: seq<string>, row2: seq<string>)
    requires row1 != [] && row2 != []
    ensures DataRows([row1, row2]) == [row1, row2]
  {
    var rows := [row1, row2];
    assert rows[..1][..0] == [];
    assert DataRows(rows[..1]) == [row1];
    assert rows[..|rows| - 1] == rows[..1];
  }

  lemma ScheduleStrips()
    ensures Strip("Monday") == "Monday" && Strip("Group work") == "Group work"
    ensures Strip("Tuesday") == "Tuesday" && Strip("Assessment") == "Assessment"
  {
    StripTight("Monday");
    StripTight("Group work");
    StripTight("Tuesday");
    StripTight("Assessment");
  }

  lemma ScheduleRecord(day: string, activity: string)
    requires Strip(day) == day && Strip(activity) == activity
    ensures CsvRecord(ReaderRow(["day", "activity"], [day, activity])) == Ok([("day", day), ("activity", activity)])
  {
    var f := ["day", "activity"];
    CsvRecordDistinct(f, [day, activity]);
    var r := CsvRecord(ReaderRow(f, [day, activity])).value;
    assert r == [r[0], r[1]];
  }

  /** A `day,activity` file with two rows of already stripped values. */
  lemma ScheduleTable(stem: string, day1: string, activity1: string, day2: string, activity2: string)
    requires Strip(day1) == day1 && Strip(activity1) == activity1
    requires Strip(day2) == day2 && Strip(activity2) == activity2
    ensures CsvTable(stem, [["day", "activity"], [day1, activity1], [day2, activity2]])
      == Ok(Table(stem, ["day", "activity"], [
        [("day", day1), ("activity", activity1)],
        [("day", day2), ("activity", activity2)]]))
  {
    var f := ["day", "activity"];
    var lines := [f, [day1, activity1], [day2, activity2]];
    assert lines[1..] == [[day1, activity1], [day2, activity2]];
    ScheduleRows([day1, activity1], [day2, activity2]);
    ScheduleRecord(day1, activity1);
    ScheduleRecord(day2, activity2);
    TwoRowsFold(f, [day1, activity1], [day2, activity2], [("day", day1), ("activity", activity1)], [("day", day2), ("activity", activity2)]);
  }

  lemma TwoRowsFold(fieldnames: seq<string>, row1: seq<string>, row2: seq<string>, record1: Dict<string, string>, record2: Dict<string, string>)
    requires CsvRecord(ReaderRow(fieldnames, row1)) == Ok(record1)
    requires CsvRecord(ReaderRow(fieldnames, row2)) == Ok(record2)
    ensures Fold([row1, row2], [], RowStep(fieldnames)) == Ok([record1, record2])
  {
    var rows := [row1, row2];
    var records := [record1, record2];
    forall i | 0 <= i < |rows| ensures CsvRecord(ReaderRow(fieldnames, rows[i])) == Ok(records[i]) {
      if i == 0 {
        assert rows[i] == row1 && records[i] == record1;
      } else {
        assert rows[i] == row2 && records[i] == record2;
      }
    }
    RowsFold(fieldnames, rows, records);
  }

  /** The schedule file of the parser's own fixture: a header row and two
      data rows give a table named after the file with one record per
      row. */
  lemma CsvScheduleExample()
    ensures CsvTable("schedule", [["day", "activity"], ["Monday", "Group work"], ["Tuesday", "Assessment"]])
      == Ok(Table("schedule", ["day", "activity"], [
        [("day", "Monday"), ("activity", "Group work")],
        [("day", "Tuesday"), ("activity", "Assessment")]]))
  {
    ScheduleStrips();
    ScheduleTable("schedule", "Monday", "Group work", "Tuesday", "Assessment");
  }

  // ---------------------------------------------------------------------
  // Dispatch on the file suffix
  // ---------------------------------------------------------------------

  /** The suffixes read as text through the document loaders. */
  const TextExtensions: set<string> := {".pdf", ".docx", ".txt", ".md"}

  /** Every suffix the parser accepts. */
  const PlanExtensions: set<string> := TextExtensions + {".csv", ".xlsx"}

  /** What the parser learns about an uploaded path: whether it exists,
      whether it is a regular file, what the document loaders read from
      it and whether they raise, the rows the CSV reader tokenises, and the
      shared strings and sheets of a workbook. */
  datatype Files = Files(
    present: string -> bool,
    isFile: string -> bool,
    read: (Loader, string) -> string,
    loadFails: string -> bool,
    csvRows: string -> seq<seq<string>>,
    sharedStrings: string -> seq<string>,
    sheets: string -> seq<Sheet>)

  datatype ParseError =
    | NotFound(path: string)
    | NotAFile(path: string)
    | TextFailed(path: string)
    | CsvFailed(path: string)
    | Unsupported(suffix: string)

  /** The text segments, tables and source paths gathered so far. */
  datatype ParsedPlan = ParsedPlan(segments: seq<string>, tables: seq<Table>, sources: seq<string>)

  /** pathlib's `Path.stem`: the last path component without its suffix. */
  function Stem(path: string): string
  {
    var name := BaseName(path);
    var i := RFind(name, '.');
    if 0 < i < |name| - 1 then name[..i] else name
  }

  /** The stem and the suffix make up the last path component. */
  lemma StemSuffix(path: string)
    ensures Stem(path) + Suffix(path) == BaseName(path)
  {
    var name := BaseName(path);
    var i := RFind(name, '.');
    if 0 < i < |name| - 1 {
      assert Stem(path) == name[..i] && Suffix(path) == name[i..];
      SplitAt(name, i);
    } else {
      assert Stem(path) == name && Suffix(path) == [];
      assert name + [] == name;
    }
  }

  lemma SplitAt(s: string, i: nat)
    requires i <= |s|
    ensures s[..i] + s[i..] == s
  {
  }

  /** One iteration of `parse`: validate the path, then read it by its
      lower-cased suffix, or refuse the suffix. */
  function ParseStep(files: Files): (ParsedPlan, string, nat) -> Result<ParsedPlan, ParseError>
  {
    (plan: ParsedPlan, path: string, index: nat) =>
      if !files.present(path) then Err(NotFound(path))
      else if !files.isFile(path) then Err(NotAFile(path))
      else
        var suffix := Lower(Suffix(path));
        if suffix in TextExtensions then
          match LoadDocument(path, files.read)
            case Err(_) => Err(TextFailed(path))
            case Ok(text) =>
              if files.loadFails(path) then Err(TextFailed(path))
              else Ok(plan.(segments := plan.segments + [text], sources := plan.sources + [path]))
        else if suffix == ".csv" then
          match CsvTable(Stem(path), files.csvRows(path))
            case Err(_) => Err(CsvFailed(path))
            case Ok(table) => Ok(plan.(tables := plan.tables + [table], sources := plan.sources + [path]))
        else if suffix == ".xlsx" then
          var tables := XlsxTables(Stem(path), files.sharedStrings(path), files.sheets(path));
          Ok(plan.(tables := plan.tables + tables, sources := plan.sources + [path]))
        else Err(Unsupported(suffix))
  }

  /** `parse`: the paths in order, stopping at the first that raises. */
  function ParseAll(files: Files, paths: seq<string>): Result<ParsedPlan, ParseError>
  {
    Fold(paths, ParsedPlan([], [], []), ParseStep(files))
  }

  /** `parse` as the loop it is. */
  method Parse(files: Files, paths: seq<string>) returns (r: Result<ParsedPlan, ParseError>)
    ensures r == ParseAll(files, paths)
  {
    var parsed := ParsedPlan([], [], []);
    for k := 0 to |paths|
      invariant Fold(paths[..k], ParsedPlan([], [], []), ParseStep(files)) == Ok(parsed)
    {
      FoldSnoc(paths, ParsedPlan([], [], []), ParseStep(files), k);
      var path := paths[k];
      if !files.present(path) || !files.isFile(path) {
        FoldErrSticks(paths, ParsedPlan([], [], []), ParseStep(files), k + 1);
        return ParseStep(files)(parsed, path, k);
      }
      var suffix := Lower(Suffix(path));
      if suffix in TextExtensions {
        var text := LoadDocument(path, files.read);
        if text.Err? || files.loadFails(path) {
          FoldErrSticks(paths, ParsedPlan([], [], []), ParseStep(files), k + 1);
          return Err(TextFailed(path));
        }
        parsed := parsed.(segments := parsed.segments + [text.value]);
      } else if suffix == ".csv" {
        var table := ParseCsv(Stem(path), files.csvRows(path));
        if table.Err? {
          FoldErrSticks(paths, ParsedPlan([], [], []), ParseStep(files), k + 1);
          return Err(CsvFailed(path));
        }
        parsed := parsed.(tables := parsed.tables + [table.value]);
      } else if suffix == ".xlsx" {
        var tables := ParseXlsx(Stem(path), files.sharedStrings(path), files.sheets(path));
        parsed := parsed.(tables := parsed.tables + tables);
      } else {
        FoldErrSticks(paths, ParsedPlan([], [], []), ParseStep(files), k + 1);
        return Err(Unsupported(suffix));
      }
      parsed := parsed.(sources := parsed.sources + [path]);
    }
    assert paths[..|paths|] == paths;
    return Ok(parsed);
  }

  /** A path `parse` gets through: it exists, is a file and has a suffix
      the parser reads. */
  predicate Accepted(files: Files, path: string)
  {
    files.present(path) && files.isFile(path) && Lower(Suffix(path)) in PlanExtensions
  }

  /** One accepted path: validation passed, the suffix is one the parser
      reads, the path joins the sources and at most one text segment is
      added. */
  lemma ParseStepOk(files: Files, plan: ParsedPlan, path: string, index: nat)
    requires ParseStep(files)(plan, path, index).Ok?
    ensures var next := ParseStep(files)(plan, path, index).value;
      && next.sources == plan.sources + [path]
      && |next.segments| <= |plan.segments| + 1
      && Accepted(files, path)
  {
  }

  function Sources(): ParsedPlan -> seq<string>
  {
    (p: ParsedPlan) => p.sources
  }

  function SegmentCount(): ParsedPlan -> int
  {
    (p: ParsedPlan) => |p.segments|
  }

  function AcceptedBy(files: Files): string -> bool
  {
    path => Accepted(files, path)
  }

  /** A loop whose every successful step records its item, accepts it and
      grows a measure by at most one. */
  lemma {:induction false} FoldRecords<A, S, E>(items: seq<A>, start: S, step: (S, A, nat) -> Result<S, E>,
                                                 seen: S -> seq<A>, size: S -> int, ok: A -> bool)
    requires seen(start) == [] && size(start) == 0
    requires forall st: S, a: A, i: nat :: step(st, a, i).Ok? ==>
      seen(step(st, a, i).value) == seen(st) + [a] && size(step(st, a, i).value) <= size(st) + 1 && ok(a)
    ensures Fold(items, start, step).Ok? ==>
      && seen(Fold(items, start, step).value) == items
      && size(Fold(items, start, step).value) <= |items|
      && forall i :: 0 <= i < |items| ==> ok(items[i])
  {
    if items != [] {
      var n: nat := |items| - 1;
      FoldRecords(items[..n], start, step, seen, size, ok);
      match Fold(items[..n], start, step)
      case Ok(st) =>
        var next := step(st, items[n], n);
        assert next.Ok? ==> seen(next.value) == seen(st) + [items[n]];
        if next.Ok? {
          RecordsSnoc(items, seen(st), seen(next.value), size(st), size(next.value), ok);
        }
      case Err(_) =>
    }
  }

  lemma RecordsSnoc<A>(items: seq<A>, before: seq<A>, after: seq<A>, sizeBefore: int, sizeAfter: int, ok: A -> bool)
    requires items != []
    requires before == items[..|items| - 1] && after == before + [items[|items| - 1]]
    requires sizeBefore <= |items| - 1 && sizeAfter <= sizeBefore + 1
    requires forall i :: 0 <= i < |before| ==> ok(before[i])
    requires ok(items[|items| - 1])
    ensures after == items && sizeAfter <= |items|
    ensures forall i :: 0 <= i < |items| ==> ok(items[i])
  {
    var n := |items| - 1;
    assert forall i :: 0 <= i < n ==> items[..n][i] == items[i];
    assert items == items[..n] + [items[n]];
  }

  /** When `parse` succeeds every path was accepted and appears once, in
      order, among the sources; there is at most one text segment per
      path. */
  lemma ParseSucceeded(files: Files, paths: seq<string>)
    ensures ParseAll(files, paths).Ok? ==>
      && ParseAll(files, paths).value.sources == paths
      && |ParseAll(files, paths).value.segments| <= |paths|
      && forall i :: 0 <= i < |paths| ==> Accepted(files, paths[i])
  {
    forall st: ParsedPlan, path: string, i: nat | ParseStep(files)(st, path, i).Ok?
      ensures Sources()(ParseStep(files)(st, path, i).value) == Sources()(st) + [path]
      ensures SegmentCount()(ParseStep(files)(st, path, i).value) <= SegmentCount()(st) + 1
      ensures AcceptedBy(files)(path)
    {
      ParseStepOk(files, st, path, i);
    }
    FoldRecords(paths, ParsedPlan([], [], []), ParseStep(files), Sources(), SegmentCount(), AcceptedBy(files));
  }

  /** A path with a suffix the parser does not read makes `parse` fail. */
  lemma ParseRejects(files: Files, paths: seq<string>, i: int)
    requires 0 <= i < |paths| && Lower(Suffix(paths[i])) !in PlanExtensions
    ensures ParseAll(files, paths).Err?
  {
    ParseSucceeded(files, paths);
  }

  /** A refused suffix is the lower-cased suffix of one of the paths, and
      is not one the parser reads. */
  lemma {:induction false} ParseUnsupportedNamesSuffix(files: Files, paths: seq<string>)
    ensures ParseAll(files, paths).Err? && ParseAll(files, paths).error.Unsupported? ==>
      var s := ParseAll(files, paths).error.suffix;
      s !in PlanExtensions && exists i :: 0 <= i < |paths| && s == Lower(Suffix(paths[i]))
  {
    if paths != [] {
      var n := |paths| - 1;
      ParseUnsupportedNamesSuffix(files, paths[..n]);
      match Fold(paths[..n], ParsedPlan([], [], []), ParseStep(files))
      case Err(e) =>
        assert ParseAll(files, paths) == Err(e);
        if e.Unsupported? {
          var i :| 0 <= i < n && e.suffix == Lower(Suffix(paths[..n][i]));
          assert paths[..n][i] == paths[i];
        }
      case Ok(st) =>
        assert ParseAll(files, paths) == ParseStep(files)(st, paths[n], n);
        ParseStepUnsupported(files, st, paths[n], n);
    }
  }

  /** The one step that refuses a suffix refuses its own path's suffix. */
  lemma ParseStepUnsupported(files: Files, plan: ParsedPlan, path: string, index: nat)
    ensures var r := ParseStep(files)(plan, path, index);
      r.Err? && r.error.Unsupported? ==> r.error.suffix == Lower(Suffix(path)) && r.error.suffix !in PlanExtensions
  {
  }

  // ---------------------------------------------------------------------
  // Combined text
  // ---------------------------------------------------------------------

  /** The stripped segments that are not blank, in order. */
  function NonBlank(segments: seq<string>): (r: seq<string>)
    ensures forall i :: 0 <= i < |r| ==> r[i] != []
  {
    if segments == [] then []
    else
      var s := Strip(segments[|segments| - 1]);
      NonBlank(segments[..|segments| - 1]) + if s != [] then [s] else []
  }

  /** `combined_text`: the stripped non-blank segments joined by a blank
      line. */
  function CombinedText(segments: seq<string>): string
  {
    Join("\n\n", NonBlank(segments))
  }

  lemma {:induction false} JoinNonEmpty(sep: string, parts: seq<string>)
    requires parts != [] && parts[0] != []
    ensures Join(sep, parts) != []
  {
    if |parts| > 1 {
      assert Join(sep, parts)[0] == parts[0][0];
    }
  }

  lemma {:induction false} JoinSnoc(sep: string, parts: seq<string>, x: string)
    requires parts != []
    ensures Join(sep, parts + [x]) == Join(sep, parts) + sep + x
  {
    if |parts| > 1 {
      assert (parts + [x])[1..] == parts[1..] + [x];
      JoinSnoc(sep, parts[1..], x);
    }
  }

  lemma NonBlankSnoc(segments: seq<string>, s: string)
    ensures NonBlank(segments + [s]) == NonBlank(segments) + if Strip(s) != [] then [Strip(s)] else []
  {
    var all := segments + [s];
    assert all[..|all| - 1] == segments;
  }

  lemma {:induction false} NonBlankAllBlank(segments: seq<string>)
    requires forall i :: 0 <= i < |segments| ==> IsBlank(segments[i])
    ensures NonBlank(segments) == []
  {
    if segments != [] {
      var n := |segments| - 1;
      assert forall i :: 0 <= i < n ==> segments[..n][i] == segments[i];
      NonBlankAllBlank(segments[..n]);
      StripEmptyIffBlank(segments[n]);
    }
  }

  lemma {:induction false} NonBlankHas(segments: seq<string>, i: int)
    requires 0 <= i < |segments| && !IsBlank(segments[i])
    ensures NonBlank(segments) != []
  {
    var n := |segments| - 1;
    if i < n {
      assert segments[..n][i] == segments[i];
      NonBlankHas(segments[..n], i);
    } else {
      StripEmptyIffBlank(segments[n]);
    }
  }

  lemma NonBlankEmpty(segments: seq<string>)
    ensures NonBlank(segments) == [] <==> forall i :: 0 <= i < |segments| ==> IsBlank(segments[i])
  {
    if forall i :: 0 <= i < |segments| ==> IsBlank(segments[i]) {
      NonBlankAllBlank(segments);
    } else {
      var i :| 0 <= i < |segments| && !IsBlank(segments[i]);
      NonBlankHas(segments, i);
    }
  }

  /** The combined text is empty exactly when every segment is blank. */
  lemma CombinedTextEmpty(segments: seq<string>)
    ensures CombinedText(segments) == [] <==> forall i :: 0 <= i < |segments| ==> IsBlank(segments[i])
  {
    NonBlankEmpty(segments);
    if NonBlank(segments) != [] {
      JoinNonEmpty("\n\n", NonBlank(segments));
    }
  }

  /** A further segment leaves the combined text as it was when blank, and
      otherwise adds a blank line and the stripped segment (or starts the
      text). */
  lemma CombinedTextSnoc(segments: seq<string>, s: string)
    ensures IsBlank(s) ==> CombinedText(segments + [s]) == CombinedText(segments)
    ensures !IsBlank(s) && CombinedText(segments) != [] ==>
      CombinedText(segments + [s]) == CombinedText(segments) + "\n\n" + Strip(s)
    ensures !IsBlank(s) && CombinedText(segments) == [] ==> CombinedText(segments + [s]) == Strip(s)
  {
    NonBlankSnoc(segments, s);
    StripEmptyIffBlank(s);
    CombinedTextEmpty(segments);
    if IsBlank(s) {
      assert NonBlank(segments + [s]) == NonBlank(segments) + [];
      assert NonBlank(segments) + [] == NonBlank(segments);
    } else if NonBlank(segments) != [] {
      JoinSnoc("\n\n", NonBlank(segments), Strip(s));
    }
  }
}
