/**
 * Text layout of printing.py: a column-oriented table that grows row by row and renders as
 * pipe-separated, padded lines with a dashed rule under the headings; a progress bar; and
 * Markdown-style titles. Cells are held as the strings `str()` gives for them.
 */
module Printing {
  import opened Wrappers
  import opened Strings

  // ---------------------------------------------------------------- table contents

  /** All columns have the same number of cells. */
  ghost predicate Rectangular(content: seq<seq<string>>) {
    forall j :: 0 <= j < |content| ==> |content[j]| == |content[0]|
  }

  /** The shape the table keeps: a rectangle whose columns all start with their heading. */
  ghost predicate WellShaped(content: seq<seq<string>>) {
    Rectangular(content) && forall j :: 0 <= j < |content| ==> |content[j]| >= 1
  }

  /** The columns after a row is added: the row's i-th value goes under the i-th column. */
  function WithRow(content: seq<seq<string>>, values: seq<string>): Result<seq<seq<string>>> {
    if |values| != |content| then Err("ValueError")
    else Ok(seq(|content|, j requires 0 <= j < |content| => content[j] + [values[j]]))
  }

  /** Adding a row fails exactly on a length mismatch; otherwise every column grows by its value. */
  lemma WithRowGrows(content: seq<seq<string>>, values: seq<string>)
    requires WellShaped(content)
    ensures WithRow(content, values).Err? <==> |values| != |content|
    ensures WithRow(content, values).Ok? ==>
              var c := WithRow(content, values).value;
              && WellShaped(c) && |c| == |content|
              && forall j :: 0 <= j < |c| ==> c[j][..|content[j]|] == content[j] && c[j][|content[j]|] == values[j]
  {
    if |values| == |content| {
      var c := WithRow(content, values).value;
      forall j | 0 <= j < |c|
        ensures c[j][..|content[j]|] == content[j] && c[j][|content[j]|] == values[j]
      {
        assert c[j] == content[j] + [values[j]];
      }
      assert forall j :: 0 <= j < |c| ==> |c[j]| == |content[j]| + 1;
    }
  }

  /**
   * The length test as the source writes it, `len(values) is not len(self.content)`: an
   * identity test, and CPython shares one int object only for small values (up to 256), so
   * two equal lengths above 256 are distinct objects.
   */
  function IsNotAsWritten(a: nat, b: nat): bool {
    a != b || a > 256
  }

  /** `add_row` as written, with the identity test. */
  function WithRowAsWritten(content: seq<seq<string>>, values: seq<string>): Result<seq<seq<string>>> {
    if IsNotAsWritten(|values|, |content|) then Err("ValueError")
    else Ok(seq(|content|, j requires 0 <= j < |content| => content[j] + [values[j]]))
  }

  /** As written, a table of 257 columns rejects a row of 257 values, which the intended test accepts. */
  lemma WideRowRejectedAsWritten(content: seq<seq<string>>, values: seq<string>)
    requires |content| == 257 && |values| == 257
    ensures WithRowAsWritten(content, values) == Err("ValueError")
    ensures WithRow(content, values).Ok?
  {
  }

  /** The identity test agrees with `!=` on every length up to 256. */
  lemma IsNotAgreesOnSmallLengths(a: nat, b: nat)
    requires a <= 256 && b <= 256
    ensures IsNotAsWritten(a, b) == (a != b)
    ensures WithRowAsWritten([], []) == WithRow([], [])
  {
  }

  // ---------------------------------------------------------------- rendering

  /** The widest cell of a column (0 for no cells): the loop over `column` in `__repr__`. */
  function Width(column: seq<string>): (w: nat)
    ensures forall k :: 0 <= k < |column| ==> |column[k]| <= w
  {
    if column == [] then 0
    else
      var w := Width(column[..|column| - 1]);
      assert forall k :: 0 <= k < |column| - 1 ==> column[..|column| - 1][k] == column[k];
      if |column[|column| - 1]| > w then |column[|column| - 1]| else w
  }

  /** The width is attained: some cell is exactly that wide. */
  lemma {:induction false} WidthAttained(column: seq<string>)
    requires column != []
    ensures exists k :: 0 <= k < |column| && |column[k]| == Width(column)
  {
    var init := column[..|column| - 1];
    if init != [] && Width(init) >= |column[|column| - 1]| {
      WidthAttained(init);
      var k :| 0 <= k < |init| && |init[k]| == Width(init);
      assert column[k] == init[k];
    }
  }

  function Widths(content: seq<seq<string>>): (widths: seq<nat>)
    ensures |widths| == |content|
    ensures forall j :: 0 <= j < |content| ==> widths[j] == Width(content[j])
  {
    seq(|content|, j requires 0 <= j < |content| => Width(content[j]))
  }

  /** Every column has a cell in row `i`. */
  predicate HasRow(content: seq<seq<string>>, i: nat) {
    forall j :: 0 <= j < |content| ==> i < |content[j]|
  }

  /** The first `n` cells of row `i`, each padded to its column's width and followed by " | ". */
  function Cells(content: seq<seq<string>>, widths: seq<nat>, i: nat, n: nat): string
    requires HasRow(content, i) && n <= |content| && n <= |widths|
  {
    if n == 0 then ""
    else Cells(content, widths, i, n - 1) + LJust(content[n - 1][i], widths[n - 1]) + " | "
  }

  /** The line drawn for row `i` (without its newline). */
  function RowLine(content: seq<seq<string>>, widths: seq<nat>, i: nat): string
    requires HasRow(content, i) && |widths| == |content|
  {
    "| " + Cells(content, widths, i, |content|)
  }

  /** The first `n` columns of the rule: `width + 2` dashes then '|'. */
  function Dashes(widths: seq<nat>, n: nat): string
    requires n <= |widths|
  {
    if n == 0 then "" else Dashes(widths, n - 1) + Repeat('-', widths[n - 1] + 2) + "|"
  }

  /** The rule drawn under the heading line (without its newline). */
  function RuleLine(widths: seq<nat>): string {
    "|" + Dashes(widths, |widths|) + " "
  }

  /** The lines drawn for the first `rows` rows: each row's line, and the rule after row 0. */
  function LinesUpTo(content: seq<seq<string>>, widths: seq<nat>, rows: nat): seq<string>
    requires forall i :: 0 <= i < rows ==> HasRow(content, i)
    requires |widths| == |content|
  {
    if rows == 0 then []
    else LinesUpTo(content, widths, rows - 1) + [RowLine(content, widths, rows - 1)]
         + (if rows == 1 then [RuleLine(widths)] else [])
  }

  /** The lines joined, each followed by a newline. */
  function JoinLines(lines: seq<string>): string {
    if lines == [] then "" else lines[0] + "\n" + JoinLines(lines[1..])
  }

  /** The lines of the rendered table, given a well-shaped table with at least one column. */
  function Lines(content: seq<seq<string>>): seq<string>
    requires WellShaped(content) && |content| > 0
  {
    LinesUpTo(content, Widths(content), |content[0]|)
  }

  /** What `__repr__` returns: IndexError for a table without columns, else the joined lines. */
  function Rendered(content: seq<seq<string>>): Result<string>
    requires WellShaped(content)
  {
    if |content| == 0 then Err("IndexError") else Ok(JoinLines(Lines(content)))
  }

  lemma {:induction false} JoinLinesSnoc(lines: seq<string>, line: string)
    ensures JoinLines(lines + [line]) == JoinLines(lines) + line + "\n"
    decreases |lines|
  {
    if lines != [] {
      assert (lines + [line])[1..] == lines[1..] + [line];
      JoinLinesSnoc(lines[1..], line);
    }
  }

  /** Lines without newlines come back from `split("\n")`, followed by the empty tail. */
  lemma {:induction false} SplitJoinLines(lines: seq<string>)
    requires AllLack(lines, '\n')
    ensures Split(JoinLines(lines), "\n") == lines + [""]
    decreases |lines|
  {
    if lines != [] {
      SplitJoinLines(lines[1..]);
      SplitAtChar(lines[0], '\n', JoinLines(lines[1..]));
      assert lines == [lines[0]] + lines[1..];
    }
  }

  function Sum(widths: seq<nat>, n: nat): nat
    requires n <= |widths|
  {
    if n == 0 then 0 else Sum(widths, n - 1) + widths[n - 1]
  }

  /** Each padded cell takes exactly its column's width when no cell is wider, so row `i`'s cells take the widths plus separators. */
  lemma {:induction false} CellsLength(content: seq<seq<string>>, widths: seq<nat>, i: nat, n: nat)
    requires HasRow(content, i) && |widths| == |content| && n <= |content|
    requires forall j :: 0 <= j < |content| ==> |content[j][i]| <= widths[j]
    ensures |Cells(content, widths, i, n)| == Sum(widths, n) + 3 * n
  {
    if n > 0 {
      CellsLength(content, widths, i, n - 1);
      var cell := LJust(content[n - 1][i], widths[n - 1]);
      assert |cell| == widths[n - 1];
    }
  }

  lemma {:induction false} DashesLength(widths: seq<nat>, n: nat)
    requires n <= |widths|
    ensures |Dashes(widths, n)| == Sum(widths, n) + 3 * n
  {
    if n > 0 {
      DashesLength(widths, n - 1);
    }
  }

  /** Every row of a well-shaped table has a cell in every column. */
  lemma RowsPresent(content: seq<seq<string>>)
    requires WellShaped(content) && |content| > 0
    ensures forall i :: 0 <= i < |content[0]| ==> HasRow(content, i)
  {
  }

  /** The order of the first `rows` lines: row lines in order, the rule second. */
  predicate LinesInOrder(ls: seq<string>, content: seq<seq<string>>, widths: seq<nat>, rows: nat)
    requires forall i :: 0 <= i < rows ==> HasRow(content, i)
    requires |widths| == |content|
  {
    && |ls| == (if rows == 0 then 0 else rows + 1)
    && (rows > 0 ==> ls[0] == RowLine(content, widths, 0) && ls[1] == RuleLine(widths))
    && (forall i :: 1 <= i < rows ==> ls[i + 1] == RowLine(content, widths, i))
  }

  lemma {:induction false} LinesUpToOrder(content: seq<seq<string>>, widths: seq<nat>, rows: nat)
    requires forall i :: 0 <= i < rows ==> HasRow(content, i)
    requires |widths| == |content|
    ensures LinesInOrder(LinesUpTo(content, widths, rows), content, widths, rows)
  {
    if rows == 1 {
      assert LinesUpTo(content, widths, 0) == [];
      assert LinesUpTo(content, widths, 1) == [RowLine(content, widths, 0), RuleLine(widths)];
    } else if rows > 1 {
      LinesUpToOrder(content, widths, rows - 1);
      var prev := LinesUpTo(content, widths, rows - 1);
      LinesInOrderSnoc(prev, content, widths, rows - 1);
      assert LinesUpTo(content, widths, rows) == prev + [RowLine(content, widths, rows - 1)];
    }
  }

  /** A row line appended after the first `rows > 0` lines keeps them in order. */
  lemma LinesInOrderSnoc(prev: seq<string>, content: seq<seq<string>>, widths: seq<nat>, rows: nat)
    requires forall i :: 0 <= i <= rows ==> HasRow(content, i)
    requires |widths| == |content| && rows > 0
    requires LinesInOrder(prev, content, widths, rows)
    ensures LinesInOrder(prev + [RowLine(content, widths, rows)], content, widths, rows + 1)
  {
    var ls := prev + [RowLine(content, widths, rows)];
    forall i | 1 <= i < rows + 1 ensures ls[i + 1] == RowLine(content, widths, i) {
      if i < rows {
        assert ls[i + 1] == prev[i + 1];
      }
    }
    assert ls[0] == prev[0] && ls[1] == prev[1];
  }

  predicate AllOfLength(lines: seq<string>, n: nat) {
    forall k :: 0 <= k < |lines| ==> |lines[k]| == n
  }

  lemma AllOfLengthAppend(a: seq<string>, b: seq<string>, n: nat)
    requires AllOfLength(a, n) && AllOfLength(b, n)
    ensures AllOfLength(a + b, n)
  {
    assert forall k :: |a| <= k < |a + b| ==> (a + b)[k] == b[k - |a|];
  }

  /** A row line is the widths plus three characters per column plus two. */
  lemma RowLineLength(content: seq<seq<string>>, i: nat)
    requires HasRow(content, i)
    ensures |RowLine(content, Widths(content), i)| == Sum(Widths(content), |content|) + 3 * |content| + 2
  {
    var w := Widths(content);
    forall j | 0 <= j < |content| ensures |content[j][i]| <= w[j] {
      assert w[j] == Width(content[j]);
    }
    CellsLength(content, w, i, |content|);
  }

  /** So is the rule line. */
  lemma RuleLineLength(content: seq<seq<string>>)
    ensures |RuleLine(Widths(content))| == Sum(Widths(content), |content|) + 3 * |content| + 2
  {
    DashesLength(Widths(content), |content|);
  }

  /** When every row line and the rule have length `n`, so has every line drawn. */
  lemma {:induction false} LinesUpToLength(content: seq<seq<string>>, widths: seq<nat>, rows: nat, n: nat)
    requires forall i :: 0 <= i < rows ==> HasRow(content, i)
    requires |widths| == |content|
    requires forall i :: 0 <= i < rows ==> |RowLine(content, widths, i)| == n
    requires |RuleLine(widths)| == n
    ensures AllOfLength(LinesUpTo(content, widths, rows), n)
  {
    if rows > 0 {
      var prev := LinesUpTo(content, widths, rows - 1);
      var row := RowLine(content, widths, rows - 1);
      var extra: seq<string> := if rows == 1 then [RuleLine(widths)] else [];
      LinesUpToLength(content, widths, rows - 1, n);
      assert |row| == n;
      assert LinesUpTo(content, widths, rows) == prev + [row] + extra;
      AllOfLengthSnoc(prev, row, extra, n);
    }
  }

  lemma AllOfLengthSnoc(prev: seq<string>, row: string, extra: seq<string>, n: nat)
    requires AllOfLength(prev, n) && |row| == n
    requires |extra| <= 1 && (extra != [] ==> |extra[0]| == n)
    ensures AllOfLength(prev + [row] + extra, n)
  {
    assert AllOfLength([row], n) by {
      assert [row][0] == row;
    }
    AllOfLengthAppend(prev, [row], n);
    AllOfLengthAppend(prev + [row], extra, n);
  }

  /**
   * The rendered table is one line per row plus the rule after the heading line; every line
   * has the same length; cells are padded to their column's widest cell.
   */
  lemma RenderedShape(content: seq<seq<string>>)
    requires WellShaped(content) && |content| > 0
    ensures var ls := Lines(content);
            && |ls| == |content[0]| + 1
            && ls[0] == RowLine(content, Widths(content), 0)
            && ls[1] == RuleLine(Widths(content))
            && (forall i :: 1 <= i < |content[0]| ==> ls[i + 1] == RowLine(content, Widths(content), i))
            && (forall k :: 0 <= k < |ls| ==> |ls[k]| == |ls[0]|)
  {
    RowsPresent(content);
    var rows := |content[0]|;
    LinesUpToOrder(content, Widths(content), rows);
    var n := Sum(Widths(content), |content|) + 3 * |content| + 2;
    forall i | 0 <= i < rows ensures |RowLine(content, Widths(content), i)| == n {
      RowLineLength(content, i);
    }
    RuleLineLength(content);
    LinesUpToLength(content, Widths(content), rows, n);
  }

  /** Each padded cell is the cell followed by spaces up to the widest cell of its column. */
  lemma PaddedCell(content: seq<seq<string>>, i: nat, j: nat)
    requires j < |content| && i < |content[j]|
    ensures var p := LJust(content[j][i], Widths(content)[j]);
            && |p| == Widths(content)[j] && p[..|content[j][i]|] == content[j][i]
            && exists k :: 0 <= k < |content[j]| && |content[j][k]| == |p|
  {
    WidthAttained(content[j]);
  }

  predicate NoNewlines(content: seq<seq<string>>) {
    forall j, i :: 0 <= j < |content| && 0 <= i < |content[j]| ==> Lacks(content[j][i], '\n')
  }

  lemma {:induction false} CellsLackNewline(content: seq<seq<string>>, widths: seq<nat>, i: nat, n: nat)
    requires HasRow(content, i) && n <= |content| && n <= |widths| && NoNewlines(content)
    ensures Lacks(Cells(content, widths, i, n), '\n')
  {
    if n > 0 {
      CellsLackNewline(content, widths, i, n - 1);
      var p := LJust(content[n - 1][i], widths[n - 1]);
      assert Lacks(p, '\n') by {
        assert forall k :: 0 <= k < |content[n - 1][i]| ==> p[k] == p[..|content[n - 1][i]|][k];
      }
    }
  }

  lemma {:induction false} DashesLackNewline(widths: seq<nat>, n: nat)
    requires n <= |widths|
    ensures Lacks(Dashes(widths, n), '\n')
  {
    if n > 0 {
      DashesLackNewline(widths, n - 1);
    }
  }

  lemma LacksConcat(a: string, b: string, c: string, x: char)
    requires Lacks(a, x) && Lacks(b, x) && Lacks(c, x)
    ensures Lacks(a + b + c, x)
  {
    assert forall k :: 0 <= k < |a + b + c| ==>
      (a + b + c)[k] == if k < |a| then a[k] else if k < |a| + |b| then b[k - |a|] else c[k - |a| - |b|];
  }

  predicate AllLack(lines: seq<string>, c: char) {
    forall k :: 0 <= k < |lines| ==> Lacks(lines[k], c)
  }

  lemma {:induction false} LinesLackNewline(content: seq<seq<string>>, rows: nat)
    requires forall i :: 0 <= i < rows ==> HasRow(content, i)
    requires NoNewlines(content)
    ensures AllLack(LinesUpTo(content, Widths(content), rows), '\n')
  {
    if rows > 0 {
      var w := Widths(content);
      LinesLackNewline(content, rows - 1);
      CellsLackNewline(content, w, rows - 1, |content|);
      DashesLackNewline(w, |content|);
      LacksConcat("| ", Cells(content, w, rows - 1, |content|), "", '\n');
      LacksConcat("|", Dashes(w, |w|), " ", '\n');
      var prev := LinesUpTo(content, w, rows - 1);
      var row := RowLine(content, w, rows - 1);
      var extra := if rows == 1 then [RuleLine(w)] else [];
      assert row == "| " + Cells(content, w, rows - 1, |content|) + "";
      assert AllLack(extra, '\n');
      assert LinesUpTo(content, w, rows) == prev + [row] + extra;
      AllLackSnoc(prev, row, extra, '\n');
    }
  }

  lemma AllLackSnoc(prev: seq<string>, row: string, extra: seq<string>, c: char)
    requires AllLack(prev, c) && Lacks(row, c) && AllLack(extra, c)
    ensures AllLack(prev + [row] + extra, c)
  {
    var ls := prev + [row] + extra;
    forall k | 0 <= k < |ls| ensures Lacks(ls[k], c) {
      if k < |prev| {
        assert ls[k] == prev[k];
      } else if k == |prev| {
        assert ls[k] == row;
      } else {
        assert ls[k] == extra[k - |prev| - 1];
      }
    }
  }

  /** When no cell holds a newline, splitting the rendered table at newlines gives back its lines. */
  lemma RenderedSplits(content: seq<seq<string>>)
    requires WellShaped(content) && |content| > 0 && NoNewlines(content)
    ensures Split(Rendered(content).value, "\n") == Lines(content) + [""]
  {
    RowsPresent(content);
    LinesLackNewline(content, |content[0]|);
    SplitJoinLines(Lines(content));
  }

  // ---------------------------------------------------------------- the table object

  class Table {
    /** One list per column, heading first. */
    var content: seq<seq<string>>

    ghost predicate Valid()
      reads this
    {
      WellShaped(content)
    }

    /** `table(headings)`: one column per heading, holding just the heading. */
    constructor(headings: seq<string>)
      ensures Valid()
      ensures |content| == |headings|
      ensures forall j :: 0 <= j < |headings| ==> content[j] == [headings[j]]
    {
      content := [];
      new;
      for i := 0 to |headings|
        invariant |content| == i
        invariant forall j :: 0 <= j < i ==> content[j] == [headings[j]]
      {
        content := content + [[headings[i]]];
      }
    }

    /** `add_row`: ValueError and no change on a length mismatch, else one value per column. */
    method AddRow(values: seq<string>) returns (r: Result<()>)
      requires Valid()
      modifies this
      ensures Valid()
      ensures WithRow(old(content), values).Err? ==> r == Err("ValueError") && content == old(content)
      ensures WithRow(old(content), values).Ok? ==> r == Ok(()) && content == WithRow(old(content), values).value
    {
      WithRowGrows(content, values);
      if |values| != |content| {
        return Err("ValueError");
      }
      ghost var before := content;
      for i := 0 to |values|
        invariant |content| == |before|
        invariant forall j :: 0 <= j < i ==> content[j] == before[j] + [values[j]]
        invariant forall j :: i <= j < |content| ==> content[j] == before[j]
      {
        content := content[i := content[i] + [values[i]]];
      }
      r := Ok(());
    }

    /** `__repr__`: measure every column, then draw each row, with the rule after the headings. */
    method Repr() returns (r: Result<string>)
      requires Valid()
      ensures r == Rendered(content)
    {
      if |content| == 0 {
        return Err("IndexError");
      }
      var widths := MeasureColumns(content);
      RowsPresent(content);
      var s := DrawRows(content, widths, |content[0]|);
      r := Ok(s);
    }
  }

  /** The width loop of `__repr__`: one width per column. */
  method MeasureColumns(content: seq<seq<string>>) returns (widths: seq<nat>)
    ensures widths == Widths(content)
  {
    widths := [];
    for j := 0 to |content|
      invariant widths == Widths(content)[..j]
    {
      var length := MeasureColumn(content[j]);
      widths := widths + [length];
    }
  }

  /** One more row adds its line, and after the first row also the rule. */
  lemma JoinLinesStep(content: seq<seq<string>>, widths: seq<nat>, i: nat)
    requires forall r :: 0 <= r <= i ==> HasRow(content, r)
    requires |widths| == |content|
    ensures JoinLines(LinesUpTo(content, widths, i + 1)) ==
      JoinLines(LinesUpTo(content, widths, i)) + RowLine(content, widths, i) + "\n" +
      (if i == 0 then RuleLine(widths) + "\n" else "")
  {
    var lines := LinesUpTo(content, widths, i);
    var row := RowLine(content, widths, i);
    JoinLinesSnoc(lines, row);
    if i == 0 {
      var rule := RuleLine(widths);
      JoinLinesSnoc(lines + [row], rule);
      assert LinesUpTo(content, widths, i + 1) == lines + [row] + [rule];
    } else {
      assert LinesUpTo(content, widths, i + 1) == lines + [row];
    }
  }

  /** The drawing loop of `__repr__`: each row's line, and the rule after the first one. */
  method DrawRows(content: seq<seq<string>>, widths: seq<nat>, rows: nat) returns (s: string)
    requires forall i :: 0 <= i < rows ==> HasRow(content, i)
    requires |widths| == |content|
    ensures s == JoinLines(LinesUpTo(content, widths, rows))
  {
    s := "";
    for i := 0 to rows
      invariant s == JoinLines(LinesUpTo(content, widths, i))
    {
      s := AppendRow(s, content, widths, i);
      if i == 0 {
        s := AppendRule(s, widths);
      }
      JoinLinesStep(content, widths, i);
    }
  }

  /** The width loop of `__repr__` for one column: keep the longest cell length seen. */
  method MeasureColumn(column: seq<string>) returns (length: nat)
    ensures length == Width(column)
  {
    length := 0;
    for i := 0 to |column|
      invariant length == Width(column[..i])
    {
      assert column[..i + 1][..i] == column[..i];
      if |column[i]| > length {
        length := |column[i]|;
      }
    }
    assert column[..|column|] == column;
  }

  /** Draw row `i` of `__repr__` after `s`: "| ", each padded cell and " | ", a newline. */
  method AppendRow(s: string, content: seq<seq<string>>, widths: seq<nat>, i: nat) returns (t: string)
    requires HasRow(content, i) && |widths| == |content|
    ensures t == s + RowLine(content, widths, i) + "\n"
  {
    t := s + "| ";
    ghost var prefix := t;
    for j := 0 to |content|
      invariant t == prefix + Cells(content, widths, i, j)
    {
      var cell := LJust(content[j][i], widths[j]) + " | ";
      ConcatAssociative(prefix, Cells(content, widths, i, j), cell);
      CellsSnoc(content, widths, i, j);
      t := t + cell;
    }
    ConcatAssociative(s, "| ", Cells(content, widths, i, |content|));
    t := t + "\n";
  }

  lemma CellsSnoc(content: seq<seq<string>>, widths: seq<nat>, i: nat, j: nat)
    requires HasRow(content, i) && |widths| == |content| && j < |content|
    ensures Cells(content, widths, i, j + 1) == Cells(content, widths, i, j) + (LJust(content[j][i], widths[j]) + " | ")
  {
    ConcatAssociative(Cells(content, widths, i, j), LJust(content[j][i], widths[j]), " | ");
  }

  /** Draw the rule of `__repr__` after `s`: '|', each column's dashes and '|', " \n". */
  method AppendRule(s: string, widths: seq<nat>) returns (t: string)
    ensures t == s + RuleLine(widths) + "\n"
  {
    t := s + "|";
    for k := 0 to |widths|
      invariant t == s + "|" + Dashes(widths, k)
    {
      t := t + Repeat('-', widths[k] + 2) + "|";
    }
    t := t + " \n";
  }

  // ---------------------------------------------------------------- progress_bar and title

  /** Python's `//` (floor division), which Python 2 applies to `/` on ints. */
  function FloorDiv(a: int, b: int): (q: int)
    requires b != 0
    ensures b > 0 ==> q * b <= a < q * b + b
    ensures b < 0 ==> q * b >= a > q * b + b
  {
    if b > 0 then a / b else (-a) / (-b)
  }

  function Clamp(value: int, maxValue: int): int {
    var low := if value > 0 then value else 0;
    if low < maxValue then low else maxValue
  }

  /** `num_hashes` for integer arguments: `round` of an int is that int. */
  function Hashes(value: int, maxValue: int, width: int): int
    requires maxValue != 0
  {
    FloorDiv(width * Clamp(value, maxValue), maxValue)
  }

  /** `progress_bar`: ZeroDivisionError when `max_value` is 0. */
  function ProgressBar(value: int, maxValue: int, width: int, fill: char, space: char): Result<string> {
    if maxValue == 0 then Err("ZeroDivisionError")
    else
      var h := Hashes(value, maxValue, width);
      Ok("[" + Repeat(fill, h) + Repeat(space, width - h) + "]")
  }

  /**
   * For a positive maximum and a non-negative width the bar is `width` cells between brackets:
   * a run of fill characters whose length is the clamped share of the width, then spaces.
   */
  lemma ProgressBarShape(value: int, maxValue: int, width: int, fill: char, space: char)
    requires maxValue > 0 && width >= 0
    ensures ProgressBar(value, maxValue, width, fill, space).Ok?
    ensures var s := ProgressBar(value, maxValue, width, fill, space).value;
            var h := Hashes(value, maxValue, width);
            && 0 <= h <= width && |s| == width + 2
            && s[0] == '[' && s[width + 1] == ']'
            && (forall k :: 1 <= k <= h ==> s[k] == fill)
            && (forall k :: h < k <= width ==> s[k] == space)
            && h * maxValue <= width * Clamp(value, maxValue) < (h + 1) * maxValue
  {
    var h := Hashes(value, maxValue, width);
    HashesBounds(value, maxValue, width);
    BarCells(fill, space, h, width);
  }

  /** The number of fill characters is the floor of the clamped share of the width. */
  lemma HashesBounds(value: int, maxValue: int, width: int)
    requires maxValue > 0 && width >= 0
    ensures var h := Hashes(value, maxValue, width);
            && 0 <= h <= width
            && h * maxValue <= width * Clamp(value, maxValue) < (h + 1) * maxValue
  {
    var c := Clamp(value, maxValue);
    var h := Hashes(value, maxValue, width);
    assert 0 <= c <= maxValue;
    assert h * maxValue <= width * c < h * maxValue + maxValue;
    assert h * maxValue + maxValue == (h + 1) * maxValue;
    assert 0 <= width * c <= width * maxValue by {
      MulMonotone(width, c, maxValue);
    }
    assert h <= width by {
      MulCancel(h, width, maxValue);
    }
    assert 0 <= h by {
      MulCancelStrict(-1, h, maxValue);
    }
  }

  /** The bar string: brackets around `h` fill characters and `width - h` spaces. */
  lemma BarCells(fill: char, space: char, h: int, width: int)
    requires 0 <= h <= width
    ensures var s := "[" + Repeat(fill, h) + Repeat(space, width - h) + "]";
            && |s| == width + 2
            && s[0] == '[' && s[width + 1] == ']'
            && (forall k :: 1 <= k <= h ==> s[k] == fill)
            && (forall k :: h < k <= width ==> s[k] == space)
  {
    var s := "[" + Repeat(fill, h) + Repeat(space, width - h) + "]";
    assert forall k :: 1 <= k <= h ==> s[k] == Repeat(fill, h)[k - 1];
    assert forall k :: h < k <= width ==> s[k] == Repeat(space, width - h)[k - 1 - h];
  }

  lemma MulCancel(a: int, b: int, m: int)
    requires m > 0 && a * m <= b * m
    ensures a <= b
  {
    assert (b - a) * m == b * m - a * m;
  }

  lemma MulCancelStrict(a: int, b: int, m: int)
    requires m > 0 && a * m < b * m
    ensures a < b
  {
    assert (b - a) * m == b * m - a * m;
  }

  lemma MulMonotone(a: int, b: int, c: int)
    requires a >= 0 && b <= c
    ensures a * b <= a * c
  {
  }

  /** More progress never draws fewer fill characters. */
  lemma ProgressBarMonotone(v1: int, v2: int, maxValue: int, width: int)
    requires maxValue > 0 && width >= 0 && v1 <= v2
    ensures Hashes(v1, maxValue, width) <= Hashes(v2, maxValue, width)
  {
    var c1, c2 := Clamp(v1, maxValue), Clamp(v2, maxValue);
    assert c1 <= c2;
    MulMonotone(width, c1, c2);
    var h1, h2 := Hashes(v1, maxValue, width), Hashes(v2, maxValue, width);
    assert h1 * maxValue <= width * c1;
    assert width * c2 < h2 * maxValue + maxValue;
    assert h2 * maxValue + maxValue == (h2 + 1) * maxValue;
    MulCancelStrict(h1, h2 + 1, maxValue);
  }

  /** An empty bar at or below 0. */
  lemma ProgressBarEmpty(value: int, maxValue: int, width: int)
    requires maxValue > 0 && width >= 0 && value <= 0
    ensures Hashes(value, maxValue, width) == 0
  {
    assert Clamp(value, maxValue) == 0;
    assert width * 0 == 0;
  }

  /** A full bar at or above the maximum. */
  lemma ProgressBarFull(value: int, maxValue: int, width: int)
    requires maxValue > 0 && width >= 0 && value >= maxValue
    ensures Hashes(value, maxValue, width) == width
  {
    var h := Hashes(value, maxValue, width);
    assert Clamp(value, maxValue) == maxValue;
    assert h * maxValue <= width * maxValue < h * maxValue + maxValue;
    assert h * maxValue + maxValue == (h + 1) * maxValue;
    MulCancel(h, width, maxValue);
    MulCancelStrict(width, h + 1, maxValue);
  }

  /** `title`: '=' or '-' underline for levels 1 and 2, '#' prefix above, ValueError below 1. */
  function Title(s: string, level: int): Result<string> {
    if level == 1 then Ok(s + "\n" + Repeat('=', |s|))
    else if level == 2 then Ok(s + "\n" + Repeat('-', |s|))
    else if level > 2 then Ok(Repeat('#', level) + " " + s)
    else Err("ValueError")
  }

  /** A one-line heading of level 1 or 2 reads back as itself over an underline of equal length. */
  lemma TitleUnderline(s: string, level: int)
    requires level == 1 || level == 2
    requires Lacks(s, '\n')
    ensures Title(s, level).Ok?
    ensures var lines := Split(Title(s, level).value, "\n");
            && |lines| == 2 && lines[0] == s && |lines[1]| == |s|
            && forall k :: 0 <= k < |s| ==> lines[1][k] == (if level == 1 then '=' else '-')
  {
    var u := Repeat(if level == 1 then '=' else '-', |s|);
    SplitAtChar(s, '\n', u);
    SplitLacking(u, '\n');
  }

  /** Deeper headings are `level` hashes, a space, then the text; levels below 1 are rejected. */
  lemma TitleHashes(s: string, level: int)
    ensures level <= 0 <==> Title(s, level).Err?
    ensures level > 2 ==>
              var t := Title(s, level).value;
              && |t| == level + 1 + |s| && t[level] == ' ' && t[level + 1..] == s
              && forall k :: 0 <= k < level ==> t[k] == '#'
  {
    if level > 2 {
      var t := Title(s, level).value;
      assert t == Repeat('#', level) + " " + s;
      assert t[level + 1..] == s;
    }
  }
}
