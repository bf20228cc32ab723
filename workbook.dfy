/** The to-do workbook builder of `scripts/build_main_todo_workbook.py`: to-do CSV files
    become sheets, the detail sheets' keys are indexed, and the master sheet gets a
    `Link` column whose formulas jump to the row that mentions its key. A CSV table is
    given as its columns (name to cells); the worksheet as a rectangular grid of cells. */
module TodoWorkbook {
  import opened PyStr

  const MASTER_SHEET := "hindsight"
  const MASTER_KEY_COL := "Key"
  /** The key columns tried in a detail sheet, in order. */
  const DETAIL_KEY_COLUMNS := ["MainKey", "Key"]
  const LINK_COL_NAME := "Link"
  /** Excel's limit on sheet names. */
  const SHEET_NAME_MAX := 31
  const WIDTH_MAX := 60

  // ---------------------------------------------------------------------
  // read_csv_dataframe

  predicate IsComment(line: string) { StartsWith(line, "//") }

  /** `[r for r in text if not r.startswith("//")]` */
  function DropComments(lines: seq<string>): (rows: seq<string>)
    ensures |rows| <= |lines|
    ensures forall x :: x in rows <==> x in lines && !IsComment(x)
  {
    if lines == [] then []
    else
      var rest := DropComments(lines[..|lines| - 1]);
      var last := lines[|lines| - 1];
      assert lines == lines[..|lines| - 1] + [last];
      if IsComment(last) then rest else rest + [last]
  }

  /** The filter keeps the order: it works line by line. */
  lemma {:induction false} DropCommentsConcat(a: seq<string>, b: seq<string>)
    ensures DropComments(a + b) == DropComments(a) + DropComments(b)
    decreases |b|
  {
    if b == [] {
      assert a + b == a;
    } else {
      var b' := b[..|b| - 1];
      assert (a + b)[..|a + b| - 1] == a + b';
      DropCommentsConcat(a, b');
    }
  }

  /** A file without comment lines keeps all of them. */
  lemma {:induction false} DropCommentsNone(lines: seq<string>)
    requires forall k :: 0 <= k < |lines| ==> !IsComment(lines[k])
    ensures DropComments(lines) == lines
    decreases |lines|
  {
    if lines != [] {
      DropCommentsNone(lines[..|lines| - 1]);
      assert lines == lines[..|lines| - 1] + [lines[|lines| - 1]];
    }
  }

  /** `"\n".join(rows)` */
  function JoinLines(rows: seq<string>): string
    decreases |rows|
  {
    if rows == [] then []
    else if |rows| == 1 then rows[0]
    else rows[0] + "\n" + JoinLines(rows[1..])
  }

  /** The rows handed to the CSV reader: the file's lines without comments, `None` when
      none is left (the empty table). */
  function CsvRows(text: string): (r: Option<seq<string>>)
    ensures r.Some? ==> r.value != [] && forall x :: x in r.value ==> !IsComment(x)
  {
    var rows := DropComments(SplitLines(text));
    if rows == [] then None else Some(rows)
  }

  /** Break-free rows whose last one is not empty split back into themselves. */
  lemma {:induction false} SplitJoinLines(rows: seq<string>)
    requires rows != [] && rows[|rows| - 1] != []
    requires forall k :: 0 <= k < |rows| ==> BreakFree(rows[k])
    ensures SplitLines(JoinLines(rows)) == rows
    decreases |rows|
  {
    if |rows| == 1 {
      SplitLinesSingle(rows[0]);
    } else {
      SplitJoinLines(rows[1..]);
      SplitLinesCons(rows[0], JoinLines(rows[1..]));
      assert rows == [rows[0]] + rows[1..];
    }
  }

  /** The text the CSV reader gets holds exactly the kept rows (pandas drops a trailing
      empty line anyway). */
  lemma CsvTextRoundTrip(text: string)
    requires CsvRows(text).Some?
    requires var rows := CsvRows(text).value; rows[|rows| - 1] != []
    ensures SplitLines(JoinLines(CsvRows(text).value)) == CsvRows(text).value
  {
    var lines := SplitLines(text);
    var rows := CsvRows(text).value;
    forall k | 0 <= k < |rows| ensures BreakFree(rows[k]) {
      assert rows[k] in rows;
      var i :| 0 <= i < |lines| && lines[i] == rows[k];
    }
    SplitJoinLines(rows);
  }

  // ---------------------------------------------------------------------
  // write_initial_workbook

  /** `sheet[:31]` */
  function SafeSheetName(sheet: string): (name: string)
    ensures |name| <= SHEET_NAME_MAX && |name| <= |sheet| && name == sheet[..|name|]
    ensures |sheet| <= SHEET_NAME_MAX ==> name == sheet
    ensures |sheet| > SHEET_NAME_MAX ==> |name| == SHEET_NAME_MAX
  {
    if |sheet| <= SHEET_NAME_MAX then sheet else sheet[..SHEET_NAME_MAX]
  }

  /** Truncating a truncated name changes nothing. */
  lemma SafeSheetNameIdempotent(sheet: string)
    ensures SafeSheetName(SafeSheetName(sheet)) == SafeSheetName(sheet)
  {
  }

  // ---------------------------------------------------------------------
  // build_key_index

  /** A table cell as pandas reads it: empty (NaN), text, or a number. */
  datatype Cell = Blank | Text(s: string) | Number(n: int)

  /** A table: its columns by name. */
  datatype Frame = Frame(columns: map<string, seq<Cell>>)

  /** The sheets in the order they were loaded. */
  datatype Sheet = Sheet(name: string, frame: Frame)

  /** The first of `MainKey`, `Key` that the table has. */
  function KeyColumn(f: Frame): (col: Option<string>)
    ensures col.Some? ==> col.value in f.columns && col.value in DETAIL_KEY_COLUMNS
    ensures col == Some("MainKey") <==> "MainKey" in f.columns
    ensures col.None? <==> "MainKey" !in f.columns && "Key" !in f.columns
  {
    if "MainKey" in f.columns then Some("MainKey")
    else if "Key" in f.columns then Some("Key")
    else None
  }

  /** The cells of a detail sheet that can be indexed. */
  function KeyCells(s: Sheet): seq<Cell> {
    if s.name == MASTER_SHEET then []
    else match KeyColumn(s.frame)
      case None => []
      case Some(col) => s.frame.columns[col]
  }

  /** `isinstance(value, str) and value` */
  predicate Indexable(c: Cell) { c.Text? && c.s != [] }

  /** Sheet `p`, logical row `j` offers key `v`. */
  predicate Mentions(sheets: seq<Sheet>, p: int, j: int, v: string) {
    0 <= p < |sheets| && 0 <= j < |KeyCells(sheets[p])| && KeyCells(sheets[p])[j] == Text(v) && v != []
  }

  /** Excel row of a logical row: one header row, rows counted from 1. */
  function ExcelRow(j: nat): nat { j + 2 }

  /** `index.setdefault(value, (sheet, row))` for the first `j` cells of one sheet. */
  function AddCells(index: map<string, (string, nat)>, sheet: string, cells: seq<Cell>, j: nat): map<string, (string, nat)>
    requires j <= |cells|
  {
    if j == 0 then index
    else
      var m := AddCells(index, sheet, cells, j - 1);
      var c := cells[j - 1];
      if Indexable(c) && c.s !in m then m[c.s := (sheet, ExcelRow(j - 1))] else m
  }

  /** The index after the first `p` sheets. */
  function IndexUpTo(sheets: seq<Sheet>, p: nat): map<string, (string, nat)>
    requires p <= |sheets|
  {
    if p == 0 then map[]
    else
      var cells := KeyCells(sheets[p - 1]);
      AddCells(IndexUpTo(sheets, p - 1), sheets[p - 1].name, cells, |cells|)
  }

  function KeyIndex(sheets: seq<Sheet>): map<string, (string, nat)> {
    IndexUpTo(sheets, |sheets|)
  }

  /** An existing entry is never overwritten. */
  lemma {:induction false} AddCellsKeeps(index: map<string, (string, nat)>, sheet: string, cells: seq<Cell>, j: nat, v: string)
    requires j <= |cells| && v in index
    ensures v in AddCells(index, sheet, cells, j) && AddCells(index, sheet, cells, j)[v] == index[v]
  {
    if j > 0 { AddCellsKeeps(index, sheet, cells, j - 1, v); }
  }

  /** A new key gets the row of its first cell. */
  lemma {:induction false} AddCellsFirst(index: map<string, (string, nat)>, sheet: string, cells: seq<Cell>, j: nat, k: nat, v: string)
    requires k < j <= |cells| && v !in index && v != []
    requires cells[k] == Text(v) && forall i :: 0 <= i < k ==> cells[i] != Text(v)
    ensures v in AddCells(index, sheet, cells, j) && AddCells(index, sheet, cells, j)[v] == (sheet, ExcelRow(k))
  {
    if j - 1 == k {
      AddCellsAbsent(index, sheet, cells, k, v);
    } else {
      AddCellsFirst(index, sheet, cells, j - 1, k, v);
    }
  }

  /** A key no cell holds is not added. */
  lemma {:induction false} AddCellsAbsent(index: map<string, (string, nat)>, sheet: string, cells: seq<Cell>, j: nat, v: string)
    requires j <= |cells| && v !in index
    requires forall i :: 0 <= i < j ==> !(Indexable(cells[i]) && cells[i].s == v)
    ensures v !in AddCells(index, sheet, cells, j)
  {
    if j > 0 { AddCellsAbsent(index, sheet, cells, j - 1, v); }
  }

  /** No sheet before `p` mentions `v`. */
  ghost predicate UnseenBefore(sheets: seq<Sheet>, p: int, v: string) {
    forall q, j :: 0 <= q < p && q < |sheets| ==> !Mentions(sheets, q, j, v)
  }

  /** An unmentioned key stays out of the index. */
  lemma {:induction false} IndexAbsent(sheets: seq<Sheet>, p: nat, v: string)
    requires p <= |sheets| && UnseenBefore(sheets, p, v)
    ensures v !in IndexUpTo(sheets, p)
  {
    if p > 0 {
      IndexAbsent(sheets, p - 1, v);
      var cells := KeyCells(sheets[p - 1]);
      forall i | 0 <= i < |cells| ensures !(Indexable(cells[i]) && cells[i].s == v) {
        assert !Mentions(sheets, p - 1, i, v);
      }
      AddCellsAbsent(IndexUpTo(sheets, p - 1), sheets[p - 1].name, cells, |cells|, v);
    }
  }

  /** The first mention of a key decides its entry: the first sheet (in load order) to
      mention it wins, and within it the first row; the `hindsight` sheet never counts. */
  lemma {:induction false} IndexFirstMention(sheets: seq<Sheet>, p: nat, q: nat, j: nat, v: string)
    requires q < p <= |sheets| && Mentions(sheets, q, j, v) && UnseenBefore(sheets, q, v)
    requires forall i :: 0 <= i < j ==> !Mentions(sheets, q, i, v)
    ensures v in IndexUpTo(sheets, p) && IndexUpTo(sheets, p)[v] == (sheets[q].name, ExcelRow(j))
  {
    var cells := KeyCells(sheets[p - 1]);
    if q == p - 1 {
      IndexAbsent(sheets, q, v);
      forall i | 0 <= i < j ensures cells[i] != Text(v) {
        assert !Mentions(sheets, q, i, v);
      }
      AddCellsFirst(IndexUpTo(sheets, q), sheets[q].name, cells, |cells|, j, v);
    } else {
      IndexFirstMention(sheets, p - 1, q, j, v);
      AddCellsKeeps(IndexUpTo(sheets, p - 1), sheets[p - 1].name, cells, |cells|, v);
    }
  }

  /** Keys of the index are exactly the mentioned keys, each with its first mention. */
  lemma KeyIndexSpec(sheets: seq<Sheet>, v: string)
    ensures UnseenBefore(sheets, |sheets|, v) ==> v !in KeyIndex(sheets)
    ensures forall q, j ::
      (Mentions(sheets, q, j, v) && UnseenBefore(sheets, q, v) &&
       (forall i :: 0 <= i < j ==> !Mentions(sheets, q, i, v))) ==>
      v in KeyIndex(sheets) && KeyIndex(sheets)[v] == (sheets[q].name, ExcelRow(j))
  {
    if UnseenBefore(sheets, |sheets|, v) {
      IndexAbsent(sheets, |sheets|, v);
    }
    forall q, j | Mentions(sheets, q, j, v) && UnseenBefore(sheets, q, v) &&
      (forall i :: 0 <= i < j ==> !Mentions(sheets, q, i, v))
      ensures v in KeyIndex(sheets) && KeyIndex(sheets)[v] == (sheets[q].name, ExcelRow(j))
    {
      IndexFirstMention(sheets, |sheets|, q, j, v);
    }
  }

  /** `build_key_index` */
  method BuildKeyIndex(sheets: seq<Sheet>) returns (index: map<string, (string, nat)>)
    ensures index == KeyIndex(sheets)
  {
    index := map[];
    var p := 0;
    while p < |sheets|
      invariant p <= |sheets| && index == IndexUpTo(sheets, p)
    {
      var sheet := sheets[p];
      if sheet.name != MASTER_SHEET {
        var c := 0;
        while c < |DETAIL_KEY_COLUMNS|
          invariant c <= |DETAIL_KEY_COLUMNS|
          invariant forall i :: 0 <= i < c ==> DETAIL_KEY_COLUMNS[i] !in sheet.frame.columns
          invariant index == IndexUpTo(sheets, p)
        {
          var keyCol := DETAIL_KEY_COLUMNS[c];
          if keyCol in sheet.frame.columns {
            var cells := sheet.frame.columns[keyCol];
            assert cells == KeyCells(sheet);
            index := AddAll(index, sheet.name, cells);
            break;
          }
          c := c + 1;
        }
      }
      p := p + 1;
    }
  }

  /** The innermost loop: every cell of one key column. */
  method AddAll(index0: map<string, (string, nat)>, sheet: string, cells: seq<Cell>)
    returns (index: map<string, (string, nat)>)
    ensures index == AddCells(index0, sheet, cells, |cells|)
  {
    index := index0;
    var j := 0;
    while j < |cells|
      invariant j <= |cells| && index == AddCells(index0, sheet, cells, j)
    {
      var value := cells[j];
      if value.Text? && value.s != [] && value.s !in index {
        index := index[value.s := (sheet, j + 2)];
      }
      j := j + 1;
    }
  }

  // ---------------------------------------------------------------------
  // append_hyperlinks

  /** A worksheet cell: empty, text, or an integer. */
  datatype Value = Empty | Str(s: string) | Int(n: int)

  /** `str(value)` of a non-empty cell. */
  function ValueText(v: Value): string
    requires !v.Empty?
  {
    match v
    case Str(s) => s
    case Int(n) => IntToStr(n)
  }

  /** Python truthiness of a cell value. */
  predicate Truthy(v: Value) {
    match v
    case Empty => false
    case Str(s) => s != []
    case Int(n) => n != 0
  }

  const LINK_PREFIX := "=HYPERLINK(\"#'"
  const LINK_MIDDLE := "'!A"
  const LINK_SEP := "\",\""
  const LINK_END := "\")"

  /** The formula of a link to row `row` of `sheet`, showing the sheet's name. */
  function Hyperlink(sheet: string, row: nat): string {
    LINK_PREFIX + sheet + LINK_MIDDLE + NatToStr(row) + LINK_SEP + sheet + LINK_END
  }

  predicate AllDigits(t: string) {
    t != [] && forall k :: 0 <= k < |t| ==> IsDigit(t[k])
  }

  /** Where a link formula points, read as a spreadsheet reads `#'sheet'!A<row>`. */
  function LinkTarget(f: string): Option<(string, nat)> {
    if StartsWith(f, LINK_PREFIX) then SheetRowOf(f[|LINK_PREFIX|..]) else None
  }

  /** The quoted sheet name, then `'!A` and the row. */
  function SheetRowOf(rest: string): Option<(string, nat)> {
    var i := IndexFrom(rest, '\'', 0);
    var after := rest[i..];
    if !StartsWith(after, LINK_MIDDLE) then None
    else match RowOf(after[|LINK_MIDDLE|..])
      case None => None
      case Some(row) => Some((rest[..i], row))
  }

  /** The digits up to the closing `"`. */
  function RowOf(t: string): Option<nat> {
    var j := IndexFrom(t, '"', 0);
    if AllDigits(t[..j]) then Some(DigitsValue(t[..j])) else None
  }

  lemma RowOfDigits(digits: string, tail: string)
    requires AllDigits(digits) && tail != [] && tail[0] == '"'
    ensures RowOf(digits + tail) == Some(DigitsValue(digits))
  {
    assert '"' !in digits by {
      forall k | 0 <= k < |digits| ensures digits[k] != '"' { assert IsDigit(digits[k]); }
    }
    IndexFromAt(digits, tail, '"');
  }

  lemma SheetRowOfParts(sheet: string, digits: string, tail: string)
    requires '\'' !in sheet && AllDigits(digits) && tail != [] && tail[0] == '"'
    ensures SheetRowOf(sheet + (LINK_MIDDLE + (digits + tail))) == Some((sheet, DigitsValue(digits)))
  {
    var after := LINK_MIDDLE + (digits + tail);
    assert after[0] == '\'';
    IndexFromAt(sheet, after, '\'');
    assert after[|LINK_MIDDLE|..] == digits + tail;
    RowOfDigits(digits, tail);
  }

  lemma LinkTargetOfPrefix(rest: string)
    ensures LinkTarget(LINK_PREFIX + rest) == SheetRowOf(rest)
  {
    assert (LINK_PREFIX + rest)[..|LINK_PREFIX|] == LINK_PREFIX;
    assert (LINK_PREFIX + rest)[|LINK_PREFIX|..] == rest;
  }

  /** Round trip: a link to a sheet whose name holds no quote leads to that sheet and
      row. */
  lemma HyperlinkRoundTrip(sheet: string, row: nat)
    requires '\'' !in sheet
    ensures LinkTarget(Hyperlink(sheet, row)) == Some((sheet, row))
  {
    var tail := LINK_SEP + sheet + LINK_END;
    var digits := NatToStr(row);
    assert Hyperlink(sheet, row) == LINK_PREFIX + (sheet + (LINK_MIDDLE + (digits + tail)));
    LinkTargetOfPrefix(sheet + (LINK_MIDDLE + (digits + tail)));
    assert tail[0] == '"';
    SheetRowOfParts(sheet, digits, tail);
    NatToStrValue(row);
  }

  /** `header.index(x)`: the first position of `x`. */
  function FirstIndex(header: seq<Value>, x: Value): (r: Option<nat>)
    ensures r.Some? <==> x in header
    ensures r.Some? ==> r.value < |header| && header[r.value] == x &&
                        forall k :: 0 <= k < r.value ==> header[k] != x
    decreases |header|
  {
    if header == [] then None
    else if header[0] == x then Some(0)
    else match FirstIndex(header[1..], x)
      case None => None
      case Some(i) => Some(i + 1)
  }

  /** All rows as wide as the header row. */
  predicate Rectangular(grid: seq<seq<Value>>) {
    grid != [] && forall r :: 0 <= r < |grid| ==> |grid[r]| == |grid[0]|
  }

  /** The grid once the header row has a `Link` cell: a new last column when absent. */
  function WithLinkHeader(grid: seq<seq<Value>>): (g: seq<seq<Value>>)
    requires Rectangular(grid)
    ensures Rectangular(g) && |g| == |grid| && Str(LINK_COL_NAME) in g[0]
    ensures Str(LINK_COL_NAME) in grid[0] ==> g == grid
    ensures Str(LINK_COL_NAME) !in grid[0] ==>
      |g[0]| == |grid[0]| + 1 && g[0][|grid[0]|] == Str(LINK_COL_NAME) &&
      forall r :: 0 <= r < |g| ==> g[r][..|grid[0]|] == grid[r] && (r > 0 ==> g[r][|grid[0]|] == Empty)
  {
    if Str(LINK_COL_NAME) in grid[0] then grid
    else seq(|grid|, r requires 0 <= r < |grid| => grid[r] + [if r == 0 then Str(LINK_COL_NAME) else Empty])
  }

  /** The header cell is added at most once. */
  lemma LinkHeaderOnce(grid: seq<seq<Value>>)
    requires Rectangular(grid)
    ensures WithLinkHeader(WithLinkHeader(grid)) == WithLinkHeader(grid)
  {
  }

  /** One master row: the link cell gets the formula when the row's key is indexed. */
  function LinkRow(row: seq<Value>, keyCol: nat, linkCol: nat, index: map<string, (string, nat)>): seq<Value>
    requires keyCol < |row| && linkCol < |row|
  {
    var key := row[keyCol];
    if Truthy(key) && ValueText(key) in index then
      row[linkCol := Str(Hyperlink(index[ValueText(key)].0, index[ValueText(key)].1))]
    else row
  }

  /** The grid after the row loop: the header row as it is, every other row linked. */
  function LinkedGrid(grid: seq<seq<Value>>, keyCol: nat, linkCol: nat, index: map<string, (string, nat)>): (g: seq<seq<Value>>)
    requires Rectangular(grid) && keyCol < |grid[0]| && linkCol < |grid[0]|
    ensures |g| == |grid| && g[0] == grid[0] && Rectangular(g)
  {
    seq(|grid|, r requires 0 <= r < |grid| => if r == 0 then grid[0] else LinkRow(grid[r], keyCol, linkCol, index))
  }

  /** Only the link cell of a row can change, and it changes exactly when the row has a
      key that some detail sheet mentions; the new formula leads to that mention. */
  lemma LinkedCells(grid: seq<seq<Value>>, keyCol: nat, linkCol: nat, index: map<string, (string, nat)>, r: nat, c: nat)
    requires Rectangular(grid) && keyCol < |grid[0]| && linkCol < |grid[0]|
    requires 0 < r < |grid| && c < |grid[0]|
    requires forall v :: v in index ==> '\'' !in index[v].0
    ensures var g := LinkedGrid(grid, keyCol, linkCol, index);
      var key := grid[r][keyCol];
      |g[r]| == |grid[r]| &&
      (c != linkCol ==> g[r][c] == grid[r][c]) &&
      (Truthy(key) && ValueText(key) in index ==>
         g[r][linkCol].Str? && LinkTarget(g[r][linkCol].s) == Some(index[ValueText(key)])) &&
      (!(Truthy(key) && ValueText(key) in index) ==> g[r][linkCol] == grid[r][linkCol])
  {
    var key := grid[r][keyCol];
    if Truthy(key) && ValueText(key) in index {
      var target := index[ValueText(key)];
      HyperlinkRoundTrip(target.0, target.1);
    }
  }

  /** The longest text among the first `n` non-empty cells of column `c`. */
  function MaxLen(grid: seq<seq<Value>>, c: nat, n: nat): nat
    requires Rectangular(grid) && c < |grid[0]| && n <= |grid|
  {
    if n == 0 then 0
    else
      var m := MaxLen(grid, c, n - 1);
      var v := grid[n - 1][c];
      if !v.Empty? && |ValueText(v)| > m then |ValueText(v)| else m
  }

  /** `MaxLen` is the maximum: no cell is longer, and it is some cell's length (or 0). */
  lemma {:induction false} MaxLenIsMax(grid: seq<seq<Value>>, c: nat, n: nat)
    requires Rectangular(grid) && c < |grid[0]| && n <= |grid|
    ensures forall r :: 0 <= r < n && !grid[r][c].Empty? ==> |ValueText(grid[r][c])| <= MaxLen(grid, c, n)
    ensures MaxLen(grid, c, n) == 0 ||
      exists r :: 0 <= r < n && !grid[r][c].Empty? && |ValueText(grid[r][c])| == MaxLen(grid, c, n)
  {
    if n > 0 {
      MaxLenIsMax(grid, c, n - 1);
    }
  }

  /** `min(60, max_len + 2)` */
  function ColumnWidth(grid: seq<seq<Value>>, c: nat): (w: nat)
    requires Rectangular(grid) && c < |grid[0]|
    ensures 2 <= w <= WIDTH_MAX
  {
    var m := MaxLen(grid, c, |grid|);
    if m + 2 < WIDTH_MAX then m + 2 else WIDTH_MAX
  }

  /** Each column fits its longest text plus two, up to the cap of 60. */
  lemma ColumnWidthFits(grid: seq<seq<Value>>, c: nat)
    requires Rectangular(grid) && c < |grid[0]|
    ensures forall r :: 0 <= r < |grid| && !grid[r][c].Empty? ==>
      |ValueText(grid[r][c])| + 2 <= ColumnWidth(grid, c) || ColumnWidth(grid, c) == WIDTH_MAX
    ensures ColumnWidth(grid, c) == WIDTH_MAX || ColumnWidth(grid, c) == 2 ||
      exists r :: 0 <= r < |grid| && !grid[r][c].Empty? && |ValueText(grid[r][c])| + 2 == ColumnWidth(grid, c)
  {
    MaxLenIsMax(grid, c, |grid|);
  }

  /** The widths of the first `n` columns, keyed by their 1-based numbers. */
  function WidthsUpTo(grid: seq<seq<Value>>, n: nat): (w: map<nat, nat>)
    requires Rectangular(grid) && n <= |grid[0]|
  {
    if n == 0 then map[] else WidthsUpTo(grid, n - 1)[n := ColumnWidth(grid, n - 1)]
  }

  /** The first `n` header columns, numbered from 1, get their widths, and no other key. */
  lemma {:induction false} WidthsUpToSpec(grid: seq<seq<Value>>, n: nat)
    requires Rectangular(grid) && n <= |grid[0]|
    ensures forall c :: c in WidthsUpTo(grid, n) <==> 1 <= c <= n
    ensures forall c :: 1 <= c <= n ==> WidthsUpTo(grid, n)[c] == ColumnWidth(grid, c - 1)
  {
    if n > 0 {
      WidthsUpToSpec(grid, n - 1);
    }
  }

  /** The width of every column. */
  function Widths(grid: seq<seq<Value>>): map<nat, nat>
    requires Rectangular(grid)
  {
    WidthsUpTo(grid, |grid[0]|)
  }

  /** The master sheet of the workbook: its cells, column widths and frozen panes. */
  class MasterSheet {
    var grid: seq<seq<Value>>
    var widths: map<nat, nat>
    var frozen: string

    constructor(grid0: seq<seq<Value>>)
      requires Rectangular(grid0)
      ensures grid == grid0 && widths == map[] && frozen == []
    {
      grid := grid0;
      widths := map[];
      frozen := [];
    }

    /** `append_hyperlinks` from the master worksheet on. Without a `Key` header it
        raises before saving, so the stored sheet does not change. */
    method AppendHyperlinks(index: map<string, (string, nat)>) returns (saved: bool)
      requires Rectangular(grid)
      modifies this
      ensures var g := WithLinkHeader(old(grid));
        saved <==> Str(MASTER_KEY_COL) in g[0]
      ensures !saved ==> grid == old(grid) && widths == old(widths) && frozen == old(frozen)
      ensures saved ==> var g := WithLinkHeader(old(grid));
        var keyCol := FirstIndex(g[0], Str(MASTER_KEY_COL)).value;
        var linkCol := FirstIndex(g[0], Str(LINK_COL_NAME)).value;
        grid == LinkedGrid(g, keyCol, linkCol, index) &&
        widths == old(widths) + Widths(grid) &&
        frozen == "A2"
    {
      var g := WithLinkHeader(grid);
      var header := g[0];
      var linkCol := FirstIndex(header, Str(LINK_COL_NAME)).value;
      var keyIdx := FirstIndex(header, Str(MASTER_KEY_COL));
      if keyIdx.None? {
        return false;
      }
      var keyCol := keyIdx.value;
      g := LinkRows(g, keyCol, linkCol, index);
      var w := ColumnWidths(g, widths);
      grid := g;
      widths := w;
      frozen := "A2";
      saved := true;
    }
  }

  /** The row loop: every row after the header. */
  method LinkRows(base: seq<seq<Value>>, keyCol: nat, linkCol: nat, index: map<string, (string, nat)>)
    returns (g: seq<seq<Value>>)
    requires Rectangular(base) && keyCol < |base[0]| && linkCol < |base[0]|
    ensures g == LinkedGrid(base, keyCol, linkCol, index)
  {
    g := base;
    var r := 1;
    while r < |g|
      invariant 1 <= r <= |g| && |g| == |base|
      invariant forall i :: 0 <= i < r ==> g[i] == LinkedGrid(base, keyCol, linkCol, index)[i]
      invariant forall i :: r <= i < |g| ==> g[i] == base[i]
    {
      var key := g[r][keyCol];
      if Truthy(key) && ValueText(key) in index {
        var target := index[ValueText(key)];
        g := g[r := g[r][linkCol := Str(Hyperlink(target.0, target.1))]];
      }
      r := r + 1;
    }
  }

  lemma WidthsStep(g: seq<seq<Value>>, widths0: map<nat, nat>, c: nat)
    requires Rectangular(g) && c < |g[0]|
    ensures (widths0 + WidthsUpTo(g, c))[c + 1 := ColumnWidth(g, c)] == widths0 + WidthsUpTo(g, c + 1)
  {
  }

  /** The loop over the cells of one column. */
  method ColumnMax(g: seq<seq<Value>>, c: nat) returns (maxLen: nat)
    requires Rectangular(g) && c < |g[0]|
    ensures maxLen == MaxLen(g, c, |g|)
  {
    maxLen := 0;
    var r := 0;
    while r < |g|
      invariant r <= |g| && maxLen == MaxLen(g, c, r)
    {
      var v := g[r][c];
      if !v.Empty? {
        var l := |ValueText(v)|;
        if l > maxLen {
          maxLen := l;
        }
      }
      r := r + 1;
    }
  }

  /** The column-width loop: each header column, 1-based, gets its width. */
  method ColumnWidths(g: seq<seq<Value>>, widths0: map<nat, nat>) returns (widths: map<nat, nat>)
    requires Rectangular(g)
    ensures widths == widths0 + Widths(g)
  {
    widths := widths0;
    var c := 0;
    while c < |g[0]|
      invariant c <= |g[0]|
      invariant widths == widths0 + WidthsUpTo(g, c)
    {
      var maxLen := ColumnMax(g, c);
      var width := if maxLen + 2 < WIDTH_MAX then maxLen + 2 else WIDTH_MAX;
      assert width == ColumnWidth(g, c);
      WidthsStep(g, widths0, c);
      widths := widths[c + 1 := width];
      c := c + 1;
    }
  }
}
