/**
 * The Markdown rendering of a query result: a header line, a rule line, at
 * most `maxRows` data lines of formatted cells and a trailer counting the
 * rows left out, joined by newlines.
 */
module Formatting {
  import opened Text
  import opened Tables

  /** Three digits, zero-padded, as in each group after the first of `f"{n:,}"`. */
  function Pad3(n: nat): (s: string)
    requires n < 1000
    ensures |s| == 3 && IsDigit(s[0]) && IsDigit(s[1]) && IsDigit(s[2])
  {
    [DigitChar(n / 100), DigitChar(n / 10 % 10), DigitChar(n % 10)]
  }

  /** `f"{n:,}"` for a natural number: decimal digits in groups of three separated by commas. */
  function Grouped(n: nat): (s: string)
    ensures |s| > 0
    decreases n
  {
    if n < 1000 then NatToString(n) else Grouped(n / 1000) + "," + Pad3(n % 1000)
  }

  /** `f"{val:,}"` for an integer. */
  function GroupedInt(v: int): string {
    if v < 0 then "-" + Grouped(-v) else Grouped(v)
  }

  /** The string without its commas. */
  function NoCommas(s: string): (r: string)
    ensures ',' !in r
  {
    if s == [] then [] else (if s[0] == ',' then [] else [s[0]]) + NoCommas(s[1..])
  }

  lemma {:induction false} NoCommasAppend(a: string, b: string)
    ensures NoCommas(a + b) == NoCommas(a) + NoCommas(b)
    decreases |a|
  {
    if a == [] {
      assert a + b == b;
    } else {
      assert (a + b)[1..] == a[1..] + b;
      NoCommasAppend(a[1..], b);
    }
  }

  lemma {:induction false} NoCommasDigits(s: string)
    requires forall i :: 0 <= i < |s| ==> '0' <= s[i] <= '9'
    ensures NoCommas(s) == s
  {
    if s != [] {
      NoCommasDigits(s[1..]);
    }
  }

  /** `NatToString` of `q * 1000 + r` is that of `q` followed by the three digits of `r`, for `q > 0`. */
  lemma {:induction false} ThousandsSplit(q: nat, r: nat)
    requires q > 0 && r < 1000
    ensures NatToString(q * 1000 + r) == NatToString(q) + Pad3(r)
  {
    var n := q * 1000 + r;
    assert n / 10 == q * 100 + r / 10;
    assert (n / 10) / 10 == q * 10 + r / 100;
    assert ((n / 10) / 10) / 10 == q;
    assert n % 10 == r % 10;
    assert (n / 10) % 10 == r / 10 % 10;
    assert ((n / 10) / 10) % 10 == r / 100;
    assert NatToString(n) == NatToString(n / 10) + [DigitChar(r % 10)];
    assert NatToString(n / 10) == NatToString((n / 10) / 10) + [DigitChar(r / 10 % 10)];
    assert NatToString((n / 10) / 10) == NatToString(q) + [DigitChar(r / 100)];
  }

  /** Removing the thousands separators gives back plain `str(n)`. */
  lemma {:induction false} GroupedDigits(n: nat)
    ensures NoCommas(Grouped(n)) == NatToString(n)
    decreases n
  {
    if n < 1000 {
      NatToStringValue(n);
      NoCommasDigits(NatToString(n));
    } else {
      var q, r := n / 1000, n % 1000;
      GroupedDigits(q);
      GroupStep(Grouped(q), Pad3(r));
      ThousandsSplit(q, r);
    }
  }

  lemma GroupStep(g: string, p: string)
    requires forall i :: 0 <= i < |p| ==> '0' <= p[i] <= '9'
    ensures NoCommas(g + "," + p) == NoCommas(g) + p
  {
    var a := g + ",";
    NoCommasAppend(a, p);
    NoCommasAppend(g, ",");
    NoCommasComma();
    NoCommasDigits(p);
    assert NoCommas(a) == NoCommas(g);
  }

  lemma NoCommasComma()
    ensures NoCommas(",") == []
  {
    assert ","[1..] == [];
  }

  /** Three digits follow the comma at `k`, and then the end or the next comma. */
  predicate GroupAfter(s: string, k: nat) {
    k + 4 <= |s| && IsDigit(s[k + 1]) && IsDigit(s[k + 2]) && IsDigit(s[k + 3]) && (k + 4 == |s| || s[k + 4] == ',')
  }

  /** Digits and commas: a first group of one to three digits, then groups of exactly three after each comma. */
  predicate GroupedForm(s: string) {
    && s != [] && IsDigit(s[0])
    && (forall i :: 0 <= i < |s| ==> IsDigit(s[i]) || s[i] == ',')
    && (forall k :: 0 <= k < |s| && s[k] == ',' ==> GroupAfter(s, k))
    && (',' !in s ==> |s| <= 3)
    && (',' in s ==> |s| >= 4 && ',' in s[1..4])
  }

  /** `f"{n:,}"` has the grouped form, with a comma exactly when n has four digits or more. */
  lemma {:induction false} GroupedShape(n: nat)
    ensures GroupedForm(Grouped(n))
    ensures ',' in Grouped(n) <==> n >= 1000
    ensures n >= 1000 ==> var s := Grouped(n);
      s[|s| - 4] == ',' && IsDigit(s[|s| - 3]) && IsDigit(s[|s| - 2]) && IsDigit(s[|s| - 1])
    decreases n
  {
    if n < 1000 {
      NatToStringValue(n);
      SmallNatLength(n);
      assert forall i :: 0 <= i < |NatToString(n)| ==> IsDigit(NatToString(n)[i]);
    } else {
      GroupedShape(n / 1000);
      GroupStepShape(Grouped(n / 1000), Pad3(n % 1000));
      assert Grouped(n)[|Grouped(n / 1000)|] == ',';
    }
  }

  lemma SmallNatLength(n: nat)
    requires n < 1000
    ensures |NatToString(n)| <= 3
  {
    if n >= 10 {
      assert |NatToString(n)| == |NatToString(n / 10)| + 1;
      if n / 10 >= 10 {
        assert |NatToString(n / 10)| == |NatToString(n / 100)| + 1;
      }
    }
  }

  /** Appending a comma and three digits to a grouped form keeps it grouped. */
  lemma GroupStepShape(g: string, p: string)
    requires GroupedForm(g) && |p| == 3 && IsDigit(p[0]) && IsDigit(p[1]) && IsDigit(p[2])
    ensures GroupedForm(g + "," + p)
  {
    var s := g + "," + p;
    assert s[|g|] == ',';
    forall i | 0 <= i < |s|
      ensures IsDigit(s[i]) || s[i] == ','
    {
      if i < |g| {
        assert s[i] == g[i];
      } else if i > |g| {
        assert s[i] == p[i - |g| - 1];
      }
    }
    forall k | 0 <= k < |s| && s[k] == ','
      ensures GroupAfter(s, k)
    {
      if k < |g| {
        assert g[k] == ',';
        assert GroupAfter(g, k);
        assert s[k + 1] == g[k + 1] && s[k + 2] == g[k + 2] && s[k + 3] == g[k + 3];
        if k + 4 < |g| {
          assert s[k + 4] == g[k + 4];
        }
      }
    }
    if ',' in g {
      assert s[1..4] == g[1..4];
    } else {
      assert s[1..4][|g| - 1] == ',';
    }
  }

  /** `_fmt_cell(val, col)` outside the floating-point branches: bools before ints, then `str(val)`. */
  function FmtCell(c: Cell): string {
    match c
    case BoolCell(b) => if b then "true" else "false"
    case IntCell(i) => GroupedInt(i)
    case TextCell(s) => s
    case NullCell => "None"
  }

  /** `df.head(n)`: the first `n` rows, or all but the last `-n` when `n` is negative. */
  function Head(rows: seq<seq<Cell>>, n: int): (r: seq<seq<Cell>>)
    ensures r <= rows
    ensures n >= 0 ==> |r| == if n < |rows| then n else |rows|
    ensures n < 0 ==> |r| == if |rows| + n > 0 then |rows| + n else 0
  {
    if n >= 0 then (if n < |rows| then rows[..n] else rows)
    else if |rows| + n > 0 then rows[..|rows| + n] else []
  }

  function Bar(cells: seq<string>): string {
    "| " + Join(" | ", cells) + " |"
  }

  function RuleCells(n: nat): (r: seq<string>)
    ensures |r| == n && forall k :: 0 <= k < n ==> r[k] == "---"
  {
    seq(n, _ => "---")
  }

  /** The formatted cells of a row, one per column, in order. */
  function RowCells(row: seq<Cell>): (r: seq<string>)
    ensures |r| == |row| && forall k :: 0 <= k < |row| ==> r[k] == FmtCell(row[k])
  {
    if row == [] then [] else RowCells(row[..|row| - 1]) + [FmtCell(row[|row| - 1])]
  }

  /** One line per row. */
  function RowLines(rows: seq<seq<Cell>>): (r: seq<string>)
    ensures |r| == |rows| && forall i :: 0 <= i < |rows| ==> r[i] == Bar(RowCells(rows[i]))
  {
    if rows == [] then [] else RowLines(rows[..|rows| - 1]) + [Bar(RowCells(rows[|rows| - 1]))]
  }

  /** The literal trailer, including the mis-decoded ellipsis `â€¦`. */
  function Trailer(k: int): string {
    "_\U{E2}\U{20AC}\U{A6}plus " + IntToString(k) + " more rows_"
  }

  /** The lines `df_to_markdown_table` builds before joining them. */
  function MarkdownLines(t: Table, maxRows: int): seq<string> {
    var shown := Head(t.rows, maxRows);
    [Bar(t.columns), Bar(RuleCells(|t.columns|))]
    + RowLines(shown)
    + (if |t.rows| > maxRows then [Trailer(|t.rows| - maxRows)] else [])
  }

  function MarkdownTable(t: Table, maxRows: int): string {
    Join("\n", MarkdownLines(t, maxRows))
  }

  /** `df_to_markdown_table(df, max_rows)`, building the lines and each row's cells by appending. */
  method ToMarkdown(t: Table, maxRows: int) returns (md: string)
    requires t.Valid()
    ensures md == MarkdownTable(t, maxRows)
  {
    var shown := Head(t.rows, maxRows);
    var headers := t.columns;
    var lines := [Bar(headers), Bar(RuleCells(|headers|))];
    var body := FormatRows(shown);
    lines := lines + body;
    var trailer: seq<string> := [];
    if |t.rows| > maxRows {
      trailer := [Trailer(|t.rows| - maxRows)];
    }
    lines := lines + trailer;
    MarkdownLinesShape(t, maxRows);
    md := Join("\n", lines);
  }

  /** The outer loop: one line per shown row, appended in order. */
  method FormatRows(shown: seq<seq<Cell>>) returns (lines: seq<string>)
    ensures lines == RowLines(shown)
  {
    lines := [];
    var i := 0;
    while i < |shown|
      invariant 0 <= i <= |shown|
      invariant lines == RowLines(shown[..i])
    {
      var vals := FormatRow(shown[i]);
      RowLinesStep(shown, i);
      lines := lines + [Bar(vals)];
      i := i + 1;
    }
    assert shown[..i] == shown;
  }

  lemma MarkdownLinesShape(t: Table, maxRows: int)
    ensures MarkdownLines(t, maxRows)
            == [Bar(t.columns), Bar(RuleCells(|t.columns|))] + RowLines(Head(t.rows, maxRows))
               + (if |t.rows| > maxRows then [Trailer(|t.rows| - maxRows)] else [])
  {
  }

  lemma RowLinesStep(rows: seq<seq<Cell>>, i: nat)
    requires i < |rows|
    ensures RowLines(rows[..i + 1]) == RowLines(rows[..i]) + [Bar(RowCells(rows[i]))]
  {
    assert rows[..i + 1][..i] == rows[..i];
  }

  /** The inner loop: the formatted cells of one row, appended one by one. */
  method FormatRow(row: seq<Cell>) returns (vals: seq<string>)
    ensures vals == RowCells(row)
  {
    vals := [];
    var j := 0;
    while j < |row|
      invariant 0 <= j <= |row|
      invariant vals == RowCells(row[..j])
    {
      assert row[..j + 1][..j] == row[..j];
      vals := vals + [FmtCell(row[j])];
      j := j + 1;
    }
    assert row[..j] == row;
  }

  /** Two fixed lines, one line per shown row, and a trailer exactly when rows are left out. */
  lemma LineCount(t: Table, maxRows: nat)
    ensures |MarkdownLines(t, maxRows)|
            == 2 + (if |t.rows| < maxRows then |t.rows| else maxRows) + (if |t.rows| > maxRows then 1 else 0)
  {
  }

  /** The header line names the columns in order; the rule line has one `---` per column. */
  lemma HeaderLines(t: Table, maxRows: int)
    ensures MarkdownLines(t, maxRows)[0] == "| " + Join(" | ", t.columns) + " |"
    ensures MarkdownLines(t, maxRows)[1] == "| " + Join(" | ", seq(|t.columns|, _ => "---")) + " |"
  {
  }

  /** Data line `2 + i` renders row `i` of the table, one formatted cell per column, in order. */
  lemma DataLine(t: Table, maxRows: int, i: nat)
    requires t.Valid() && i < |Head(t.rows, maxRows)|
    ensures var line := MarkdownLines(t, maxRows)[2 + i];
      var cells := RowCells(t.rows[i]);
      && line == "| " + Join(" | ", cells) + " |"
      && |cells| == |t.columns|
      && forall k :: 0 <= k < |cells| ==> cells[k] == FmtCell(t.rows[i][k])
  {
    assert t.rows[i] in t.rows;
    DataLineCells(t, maxRows, i);
  }

  lemma DataLineCells(t: Table, maxRows: int, i: nat)
    requires i < |Head(t.rows, maxRows)|
    ensures MarkdownLines(t, maxRows)[2 + i] == Bar(RowCells(t.rows[i]))
  {
    MarkdownLinesIndex(t, maxRows, i);
    HeadIndex(t.rows, maxRows, i);
  }

  lemma MarkdownLinesIndex(t: Table, maxRows: int, i: nat)
    requires i < |Head(t.rows, maxRows)|
    ensures MarkdownLines(t, maxRows)[2 + i] == RowLines(Head(t.rows, maxRows))[i]
  {
    MarkdownLinesShape(t, maxRows);
  }

  lemma HeadIndex(rows: seq<seq<Cell>>, n: int, i: nat)
    requires i < |Head(rows, n)|
    ensures Head(rows, n)[i] == rows[i]
  {
  }

  /** The last line is the trailer, naming how many rows were left out, exactly when rows were left out. */
  lemma TrailerLine(t: Table, maxRows: nat)
    ensures var lines := MarkdownLines(t, maxRows);
      (|t.rows| > maxRows ==> lines[|lines| - 1] == Trailer(|t.rows| - maxRows))
      && (|t.rows| <= maxRows ==> |lines| == 2 + |t.rows|)
  {
  }

  /** A cell rendering never breaks a line unless the cell's own text does. */
  lemma FmtCellOneLine(c: Cell)
    requires c.TextCell? ==> '\n' !in c.s
    ensures '\n' !in FmtCell(c)
  {
    if c.IntCell? {
      var v := if c.i < 0 then -c.i else c.i;
      GroupedDigitsOnly(v);
    }
  }

  lemma {:induction false} GroupedDigitsOnly(n: nat)
    ensures forall k :: 0 <= k < |Grouped(n)| ==> Grouped(n)[k] == ',' || '0' <= Grouped(n)[k] <= '9'
    decreases n
  {
    if n < 1000 {
      NatToStringValue(n);
    } else {
      GroupedDigitsOnly(n / 1000);
    }
  }

  /** No newline inside a rendered row, given none in its text cells. */
  lemma RowOneLine(row: seq<Cell>)
    requires forall c :: c in row && c.TextCell? ==> '\n' !in c.s
    ensures '\n' !in Bar(RowCells(row))
  {
    var cells := RowCells(row);
    forall k | 0 <= k < |row|
      ensures '\n' !in cells[k]
    {
      assert row[k] in row;
      FmtCellOneLine(row[k]);
    }
    JoinAvoids(" | ", cells, '\n');
  }

  /** No line of the rendering contains a newline when no column name or text cell does. */
  lemma LinesOneLine(t: Table, maxRows: int)
    requires forall k :: 0 <= k < |t.columns| ==> '\n' !in t.columns[k]
    requires forall r, c :: r in t.rows && c in r && c.TextCell? ==> '\n' !in c.s
    ensures forall k :: 0 <= k < |MarkdownLines(t, maxRows)| ==> '\n' !in MarkdownLines(t, maxRows)[k]
  {
    var lines := MarkdownLines(t, maxRows);
    var shown := Head(t.rows, maxRows);
    JoinAvoids(" | ", t.columns, '\n');
    JoinAvoids(" | ", RuleCells(|t.columns|), '\n');
    forall i | 0 <= i < |shown|
      ensures '\n' !in RowLines(shown)[i]
    {
      assert shown[i] in t.rows;
      RowOneLine(shown[i]);
    }
    if |t.rows| > maxRows {
      TrailerOneLine(|t.rows| - maxRows);
    }
  }

  /** Without newlines in the column names and text cells, splitting the output on newlines gives the lines back. */
  lemma SplitIntoLines(t: Table, maxRows: int)
    requires forall k :: 0 <= k < |t.columns| ==> '\n' !in t.columns[k]
    requires forall r, c :: r in t.rows && c in r && c.TextCell? ==> '\n' !in c.s
    ensures SplitOn(MarkdownTable(t, maxRows), '\n') == MarkdownLines(t, maxRows)
  {
    LinesOneLine(t, maxRows);
    SplitJoin(MarkdownLines(t, maxRows), '\n');
  }

  lemma TrailerOneLine(k: int)
    ensures '\n' !in Trailer(k)
  {
    var d := if k < 0 then -k else k;
    NatToStringValue(d);
    assert '\n' !in IntToString(k);
  }
}
