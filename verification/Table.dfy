/** Laying out a table: column widths, shrinking to the wrap width, and lines whose columns
    align.  Widths count characters; shares are exact integer divisions. */
module Table {
  import opened Text

  type Row = seq<string>

  function Sum(widths: seq<nat>): nat {
    if widths == [] then 0 else Sum(widths[..|widths| - 1]) + widths[|widths| - 1]
  }

  function NumCols(rows: seq<Row>): nat {
    if rows == [] then 0 else Max(NumCols(rows[..|rows| - 1]), |rows[|rows| - 1]|)
  }

  function ColWidth(rows: seq<Row>, i: nat): nat {
    if rows == [] then 0
    else
      var row := rows[|rows| - 1];
      Max(ColWidth(rows[..|rows| - 1], i), if i < |row| then |row[i]| else 0)
  }

  function Widths(rows: seq<Row>): (ws: seq<nat>)
    ensures |ws| == NumCols(rows)
    ensures forall i | 0 <= i < |ws| :: ws[i] == ColWidth(rows, i)
  {
    seq(NumCols(rows), i requires 0 <= i => ColWidth(rows, i))
  }

  /** The characters of a line that belong to no cell. */
  function Frame(cols: nat): nat
    requires cols > 0
  {
    (cols - 1) * 3 + 4
  }

  /** The part of `available` in proportion to `width`, rounded down. */
  function Portion(width: nat, available: nat, total: nat): (p: nat)
    requires total > 0
    ensures total * p <= available * width < total * (p + 1)
  {
    available * width / total
  }

  function Share(width: nat, available: nat, total: nat): nat
    requires total > 0
  {
    Max(Portion(width, available, total), 3)
  }

  function Shares(widths: seq<nat>, available: nat, total: nat): (ws: seq<nat>)
    requires total > 0
    ensures |ws| == |widths|
    ensures forall i | 0 <= i < |ws| :: ws[i] == Share(widths[i], available, total)
  {
    seq(|widths|, i requires 0 <= i < |widths| => Share(widths[i], available, total))
  }

  function Available(cols: nat, max: nat): nat
    requires cols > 0
  {
    if max < Frame(cols) then 0 else max - Frame(cols)
  }

  function Fitted(widths: seq<nat>, wrap: Option<nat>): (ws: seq<nat>)
    requires widths != []
    ensures |ws| == |widths|
  {
    if wrap.Some? && Sum(widths) + Frame(|widths|) > wrap.value && Sum(widths) > 0 then
      Shares(widths, Available(|widths|, wrap.value), Sum(widths))
    else widths
  }

  function Repeat(c: char, n: nat): (s: string)
    ensures |s| == n && forall i | 0 <= i < n :: s[i] == c
  {
    seq(n, _ => c)
  }

  function CellText(cell: string, width: nat): string {
    var content :=
      if |cell| > width then if width > 3 then cell[..width - 3] + "..." else cell[..width]
      else cell;
    content + Repeat(' ', if |content| <= width then width - |content| else 0)
  }

  /** The cells of a row up to `n`, with the separators between them. */
  function Cells(row: Row, widths: seq<nat>, n: nat): string
    requires n <= |row| <= |widths|
  {
    if n == 0 then ""
    else Cells(row, widths, n - 1) + (if n > 1 then " │ " else "") + CellText(row[n - 1], widths[n - 1])
  }

  function RowLine(row: Row, widths: seq<nat>): string
    requires |row| <= |widths|
  {
    "│ " + Cells(row, widths, |row|) + " │"
  }

  function Dashes(widths: seq<nat>, n: nat): string
    requires n <= |widths|
  {
    if n == 0 then ""
    else Dashes(widths, n - 1) + (if n > 1 then "─┼─" else "") + Repeat('─', widths[n - 1])
  }

  function SeparatorLine(widths: seq<nat>): string {
    "├─" + Dashes(widths, |widths|) + "─┤"
  }

  function RowLines(rows: seq<Row>, widths: seq<nat>): (lines: seq<string>)
    requires forall r | 0 <= r < |rows| :: |rows[r]| <= |widths|
    ensures |lines| == |rows|
    ensures forall r | 0 <= r < |rows| :: lines[r] == RowLine(rows[r], widths)
  {
    if rows == [] then []
    else RowLines(rows[..|rows| - 1], widths) + [RowLine(rows[|rows| - 1], widths)]
  }

  /** The source never stores a row without cells. */
  predicate HasCells(rows: seq<Row>) {
    forall r | 0 <= r < |rows| :: rows[r] != []
  }

  function TableWidths(rows: seq<Row>, wrap: Option<nat>): (ws: seq<nat>)
    requires rows != [] && HasCells(rows)
    ensures |ws| == NumCols(rows) > 0
  {
    NumColsBounds(rows, |rows| - 1);
    Fitted(Widths(rows), wrap)
  }

  lemma {:induction false} NumColsBounds(rows: seq<Row>, r: nat)
    requires r < |rows|
    ensures |rows[r]| <= NumCols(rows)
  {
    if r < |rows| - 1 {
      NumColsBounds(rows[..|rows| - 1], r);
    }
  }

  /** The separator stands after the first row. */
  function Render(rows: seq<Row>, wrap: Option<nat>): seq<string>
    requires HasCells(rows)
  {
    if rows == [] then []
    else
      var ws := TableWidths(rows, wrap);
      assert forall r | 0 <= r < |rows| :: |rows[r]| <= |ws| by {
        forall r | 0 <= r < |rows| ensures |rows[r]| <= |ws| { NumColsBounds(rows, r); }
      }
      var lines := RowLines(rows, ws);
      lines[..1] + [SeparatorLine(ws)] + lines[1..]
  }

  // ----- widths ---------------------------------------------------------------------------

  lemma {:induction false} ColWidthBounds(rows: seq<Row>, r: nat, i: nat)
    requires r < |rows| && i < |rows[r]|
    ensures |rows[r][i]| <= ColWidth(rows, i)
  {
    if r < |rows| - 1 {
      ColWidthBounds(rows[..|rows| - 1], r, i);
    }
  }

  lemma {:induction false} ColWidthAttained(rows: seq<Row>, i: nat) returns (r: nat)
    requires i < NumCols(rows)
    ensures r < |rows| && i < |rows[r]| && |rows[r][i]| == ColWidth(rows, i)
  {
    var last := |rows| - 1;
    if i < |rows[last]| && ColWidth(rows[..last], i) <= |rows[last][i]| {
      r := last;
    } else if i < NumCols(rows[..last]) {
      r := ColWidthAttained(rows[..last], i);
    } else {
      ColWidthEmpty(rows[..last], i);
      r := last;
    }
  }

  lemma {:induction false} ColWidthEmpty(rows: seq<Row>, i: nat)
    requires NumCols(rows) <= i
    ensures ColWidth(rows, i) == 0
  {
    if rows != [] {
      ColWidthEmpty(rows[..|rows| - 1], i);
    }
  }

  /** Each column is as wide as its widest cell, and there are as many columns as the longest
      row has cells. */
  lemma WidthsAreExact(rows: seq<Row>, i: nat)
    requires i < NumCols(rows)
    ensures forall r | 0 <= r < |rows| && i < |rows[r]| :: |rows[r][i]| <= Widths(rows)[i]
    ensures exists r | 0 <= r < |rows| :: i < |rows[r]| && |rows[r][i]| == Widths(rows)[i]
  {
    forall r | 0 <= r < |rows| && i < |rows[r]|
      ensures |rows[r][i]| <= Widths(rows)[i]
    {
      ColWidthBounds(rows, r, i);
    }
    var r := ColWidthAttained(rows, i);
  }

  /** Shares sum to at most the available room and what raising each to three characters
      adds. */
  lemma {:induction false} SumOfShares(widths: seq<nat>, available: nat, total: nat, raised: nat)
    requires total > 0
    requires forall i | 0 <= i < |widths| :: Share(widths[i], available, total) <= Portion(widths[i], available, total) + raised
    ensures total * Sum(Shares(widths, available, total)) <= available * Sum(widths) + total * (raised * |widths|)
    decreases |widths|
  {
    hide Share, Portion;
    if widths == [] {
      assert Shares(widths, available, total) == [];
    } else {
      var n := |widths| - 1;
      SumOfShares(widths[..n], available, total, raised);
      assert Shares(widths, available, total)[..n] == Shares(widths[..n], available, total);
      AddShare(total, Sum(Shares(widths[..n], available, total)), Shares(widths, available, total)[n],
               Portion(widths[n], available, total), available, Sum(widths[..n]), widths[n], raised, n);
    }
  }

  lemma AddShare(total: nat, sum: nat, last: nat, portion: nat, available: nat, before: nat, width: nat, raised: nat, n: nat)
    requires total * sum <= available * before + total * (raised * n)
    requires last <= portion + raised && total * portion <= available * width
    ensures total * (sum + last) <= available * (before + width) + total * (raised * (n + 1))
  {
    Distribute(total, sum, last);
    Distribute(available, before, width);
    Distribute(raised, n, 1);
    Distribute(total, raised * n, raised);
    Distribute(total, portion, raised);
    Monotone(total, last, portion + raised);
  }

  lemma Distribute(a: int, b: int, c: int)
    ensures a * (b + c) == a * b + a * c
  {
  }

  lemma Monotone(a: nat, b: int, c: int)
    requires b <= c
    ensures a * b <= a * c
  {
  }

  lemma Cancel(a: nat, b: int, c: int)
    requires a > 0 && a * b <= a * c
    ensures b <= c
  {
    if b > c {
      Monotone(a, c + 1, b);
      Distribute(a, c, 1);
    }
  }

  lemma SharesRoom(widths: seq<nat>, room: nat, raised: nat)
    requires Sum(widths) > 0
    requires forall i | 0 <= i < |widths| :: Share(widths[i], room, Sum(widths)) <= Portion(widths[i], room, Sum(widths)) + raised
    ensures Sum(Shares(widths, room, Sum(widths))) <= room + raised * |widths|
  {
    hide Share, Portion, Sum;
    var total := Sum(widths);
    SumOfShares(widths, room, total, raised);
    Distribute(total, room, raised * |widths|);
    Cancel(total, Sum(Shares(widths, room, total)), room + raised * |widths|);
  }

  /** Fitting leaves a table alone exactly if it fits or has no text at all.  A shrunk table
      gives every column at least three characters, and its columns sum to at most the room
      for cells and three more for each column; to at most the room itself if no share falls
      below three. */
  lemma FittedRoom(widths: seq<nat>, max: nat)
    requires widths != []
    ensures var ws, room := Fitted(widths, Some(max)), Available(|widths|, max);
            if Sum(widths) + Frame(|widths|) <= max || Sum(widths) == 0 then ws == widths
            else
              && Sum(ws) <= room + 3 * |widths|
              && (forall i | 0 <= i < |ws| :: ws[i] >= 3)
              && ((forall i | 0 <= i < |widths| :: Portion(widths[i], room, Sum(widths)) >= 3) ==> Sum(ws) <= room)
  {
    hide Portion, Sum;
    var total, room := Sum(widths), Available(|widths|, max);
    if total + Frame(|widths|) > max && total > 0 {
      SharesRoom(widths, room, 3);
      if forall i | 0 <= i < |widths| :: Portion(widths[i], room, total) >= 3 {
        SharesRoom(widths, room, 0);
      }
    }
  }

  /** In a shrunk table each column has its share of the room in proportion to its width,
      rounded down, but three characters at least. */
  lemma SharesAreExact(widths: seq<nat>, max: nat, i: nat)
    requires i < |widths| && Sum(widths) + Frame(|widths|) > max && Sum(widths) > 0
    ensures var total, room, w := Sum(widths), Available(|widths|, max), Fitted(widths, Some(max))[i];
            && w >= 3 && room * widths[i] < total * (w + 1)
            && (w > 3 ==> total * w <= room * widths[i])
  {
    hide Sum, Frame, Available, Portion;
    var total, room, p := Sum(widths), Available(|widths|, max), Portion(widths[i], Available(|widths|, max), Sum(widths));
    Monotone(total, p + 1, Share(widths[i], room, total) + 1);
  }

  // ----- lines --------------------------------------------------------------------------------

  /** A cell fills its column exactly; what fits is kept whole, a longer cell is cut to a
      prefix, which ends in an ellipsis if there is room for one. */
  lemma CellFills(cell: string, width: nat)
    ensures |CellText(cell, width)| == width
    ensures |cell| <= width ==> CellText(cell, width)[..|cell|] == cell
    ensures |cell| > width && width <= 3 ==> CellText(cell, width) == cell[..width]
    ensures |cell| > width > 3 ==> CellText(cell, width)[..width - 3] == cell[..width - 3]
                                   && CellText(cell, width)[width - 3..] == "..."
    ensures forall i | |cell| <= i < width :: CellText(cell, width)[i] == ' '
  {
  }

  /** Where column `i` starts in every line. */
  function ColumnAt(widths: seq<nat>, i: nat): nat
    requires i <= |widths|
  {
    2 + Sum(widths[..i]) + 3 * i
  }

  lemma {:induction false} CellsLength(row: Row, widths: seq<nat>, n: nat)
    requires 0 < n <= |row| <= |widths|
    ensures |Cells(row, widths, n)| == Sum(widths[..n]) + 3 * (n - 1)
  {
    CellFills(row[n - 1], widths[n - 1]);
    assert widths[..n][..n - 1] == widths[..n - 1];
    if n > 1 {
      CellsLength(row, widths, n - 1);
    }
  }

  lemma {:induction false} DashesLength(widths: seq<nat>, n: nat)
    requires 0 < n <= |widths|
    ensures |Dashes(widths, n)| == Sum(widths[..n]) + 3 * (n - 1)
  {
    assert widths[..n][..n - 1] == widths[..n - 1];
    if n > 1 {
      DashesLength(widths, n - 1);
    }
  }

  lemma {:induction false} SumGrows(widths: seq<nat>, i: nat, j: nat)
    requires i <= j <= |widths|
    ensures Sum(widths[..i]) <= Sum(widths[..j])
  {
    if i < j {
      assert widths[..j][..j - 1] == widths[..j - 1];
      SumGrows(widths, i, j - 1);
    }
  }

  /** A row's line is as wide as the separator if and only if the row has a cell in each
      column; a shorter row gives a shorter line. */
  lemma LineWidths(row: Row, widths: seq<nat>)
    requires 0 < |row| <= |widths|
    ensures |SeparatorLine(widths)| == Sum(widths) + Frame(|widths|)
    ensures |RowLine(row, widths)| == |SeparatorLine(widths)| <==> |row| == |widths|
    ensures |RowLine(row, widths)| <= |SeparatorLine(widths)|
  {
    CellsLength(row, widths, |row|);
    DashesLength(widths, |widths|);
    SumGrows(widths, |row|, |widths|);
    assert widths[..|widths|] == widths;
  }

  lemma LastCell(row: Row, widths: seq<nat>, i: nat)
    requires i < |row| <= |widths|
    ensures var at := ColumnAt(widths, i) - 2;
            var line := Cells(row, widths, i + 1);
            && at + widths[i] == |line| && line[at..] == CellText(row[i], widths[i])
            && (i > 0 ==> line[at - 2] == '│')
  {
    hide CellText, Sum;
    CellFills(row[i], widths[i]);
    if i > 0 {
      CellsLength(row, widths, i);
    } else {
      SumNothing();
    }
  }

  lemma SumNothing()
    ensures Sum([]) == 0
  {
  }

  lemma {:induction false} CellsExtend(row: Row, widths: seq<nat>, k: nat, n: nat)
    requires k <= n <= |row| <= |widths|
    ensures Cells(row, widths, k) <= Cells(row, widths, n)
    decreases n - k
  {
    hide CellText;
    if k < n {
      CellsExtend(row, widths, k, n - 1);
    }
  }

  lemma CellsHold(row: Row, widths: seq<nat>, n: nat, i: nat)
    requires i < n <= |row| <= |widths|
    ensures var at := ColumnAt(widths, i) - 2;
            var line := Cells(row, widths, n);
            && at + widths[i] <= |line| && line[at..at + widths[i]] == CellText(row[i], widths[i])
            && (i > 0 ==> line[at - 2] == '│')
  {
    hide CellText, Cells, Sum;
    LastCell(row, widths, i);
    CellsExtend(row, widths, i + 1, n);
    var at, short, line := ColumnAt(widths, i) - 2, Cells(row, widths, i + 1), Cells(row, widths, n);
    assert line[at..at + widths[i]] == short[at..];
  }

  lemma {:induction false} DashesHold(widths: seq<nat>, n: nat, i: nat)
    requires 0 < i < n <= |widths|
    ensures var at := ColumnAt(widths, i) - 4;
            at < |Dashes(widths, n)| && Dashes(widths, n)[at] == '┼'
  {
    if n > 1 {
      DashesLength(widths, n - 1);
    }
    assert widths[..n][..n - 1] == widths[..n - 1];
    if i < n - 1 {
      DashesHold(widths, n - 1, i);
      assert Dashes(widths, n)[..|Dashes(widths, n - 1)|] == Dashes(widths, n - 1);
    }
  }

  /** Columns align: cell `i` of any row stands at the same place of its line, filling its
      column, and the bar before it stands over the cross of the separator. */
  lemma ColumnsAlign(row: Row, widths: seq<nat>, i: nat)
    requires i < |row| <= |widths|
    ensures var at, line, rule := ColumnAt(widths, i), RowLine(row, widths), SeparatorLine(widths);
            && at + widths[i] <= |line| && line[at..at + widths[i]] == CellText(row[i], widths[i])
            && (i > 0 ==> at - 2 < |rule| && line[at - 2] == '│' && rule[at - 2] == '┼')
  {
    hide CellText;
    CellsHold(row, widths, |row|, i);
    if i > 0 {
      DashesHold(widths, |widths|, i);
    }
    var at, cells := ColumnAt(widths, i), Cells(row, widths, |row|);
    assert RowLine(row, widths)[at..at + widths[i]] == cells[at - 2..at - 2 + widths[i]];
  }

  /** Between two cells stands a bar between blanks, and the same at both ends. */
  lemma RowFrame(row: Row, widths: seq<nat>)
    requires 0 < |row| <= |widths|
    ensures var line := RowLine(row, widths);
            && line[..2] == "│ " && line[|line| - 2..] == " │"
            && forall i | 0 < i < |row| :: BarBefore(line, ColumnAt(widths, i))
  {
    hide CellText, Sum, Cells, ColumnAt;
    var line, cells := RowLine(row, widths), Cells(row, widths, |row|);
    forall i | 0 < i < |row|
      ensures BarBefore(line, ColumnAt(widths, i))
    {
      BarInCells(row, widths, i);
      CellsExtend(row, widths, i + 1, |row|);
      var at, short := ColumnAt(widths, i) - 2, Cells(row, widths, i + 1);
      assert line[at - 1..at + 2] == cells[at - 3..at] == short[at - 3..at];
    }
  }

  predicate BarBefore(line: string, at: int) {
    3 <= at <= |line| && line[at - 3..at] == " │ "
  }

  lemma BarInCells(row: Row, widths: seq<nat>, i: nat)
    requires 0 < i < |row| <= |widths|
    ensures BarBefore(Cells(row, widths, i + 1), ColumnAt(widths, i) - 2)
  {
    hide CellText, Sum;
    CellsLength(row, widths, i);
  }

  /** The rule is drawn with dashes and crosses only, and closed at both ends. */
  lemma {:induction false} DashesDrawn(widths: seq<nat>, n: nat)
    requires n <= |widths|
    ensures forall i | 0 <= i < |Dashes(widths, n)| :: Dashes(widths, n)[i] == '─' || Dashes(widths, n)[i] == '┼'
  {
    if n > 0 {
      DashesDrawn(widths, n - 1);
    }
  }

  lemma RuleFrame(widths: seq<nat>)
    ensures var rule := SeparatorLine(widths);
            && rule[..2] == "├─" && rule[|rule| - 2..] == "─┤"
            && forall i | 1 <= i < |rule| - 1 :: rule[i] == '─' || rule[i] == '┼'
  {
    hide Dashes;
    DashesDrawn(widths, |widths|);
  }

  /** The whole table: one line for each row and the separator after the first, none wider
      than the separator, and every full row exactly as wide. */
  lemma RenderedWidths(rows: seq<Row>, wrap: Option<nat>)
    requires rows != [] && HasCells(rows)
    ensures var lines, ws := Render(rows, wrap), TableWidths(rows, wrap);
            && |lines| == |rows| + 1 && lines[1] == SeparatorLine(ws)
            && forall r | 0 <= r < |rows| ::
                 var line := lines[if r == 0 then 0 else r + 1];
                 && |rows[r]| <= |ws| && line == RowLine(rows[r], ws)
                 && |line| <= |lines[1]| && (|line| == |lines[1]| <==> |rows[r]| == NumCols(rows))
  {
    hide TableWidths, RowLine, SeparatorLine;
    var ws := TableWidths(rows, wrap);
    forall r | 0 <= r < |rows|
      ensures |rows[r]| <= |ws|
      ensures |RowLine(rows[r], ws)| <= |SeparatorLine(ws)|
      ensures |RowLine(rows[r], ws)| == |SeparatorLine(ws)| <==> |rows[r]| == NumCols(rows)
    {
      NumColsBounds(rows, r);
      LineWidths(rows[r], ws);
    }
  }

  // ----- the renderer's loops -------------------------------------------------------------------

  method ColumnWidths(rows: seq<Row>) returns (widths: seq<nat>)
    ensures widths == Widths(rows)
  {
    var cols := 0;
    for r := 0 to |rows|
      invariant cols == NumCols(rows[..r])
    {
      assert rows[..r + 1][..r] == rows[..r];
      cols := if |rows[r]| > cols then |rows[r]| else cols;
    }
    assert rows[..|rows|] == rows;
    widths := seq(cols, _ => 0);
    for r := 0 to |rows|
      invariant |widths| == cols
      invariant forall i | 0 <= i < cols :: widths[i] == ColWidth(rows[..r], i)
    {
      assert rows[..r + 1][..r] == rows[..r];
      NumColsBounds(rows, r);
      for j := 0 to |rows[r]|
        invariant |widths| == cols
        invariant forall i | 0 <= i < cols :: widths[i] == ColWidth(rows[..if i < j then r + 1 else r], i)
      {
        var count := |rows[r][j]|;
        widths := widths[j := if widths[j] < count then count else widths[j]];
      }
    }
  }

  method FitWidths(widths: seq<nat>, wrap: Option<nat>) returns (ws: seq<nat>)
    requires widths != []
    ensures ws == Fitted(widths, wrap)
  {
    ws := widths;
    if wrap.Some? {
      var frame := (|widths| - 1) * 3 + 4;
      var total := TotalOf(widths);
      if total + frame > wrap.value {
        var available := if wrap.value < frame then 0 else wrap.value - frame;
        if total > 0 {
          var i := 0;
          while i < |ws|
            invariant 0 <= i <= |ws| == |widths|
            invariant forall k | 0 <= k < i :: ws[k] == Share(widths[k], available, total)
            invariant forall k | i <= k < |ws| :: ws[k] == widths[k]
          {
            var share := available * ws[i] / total;
            ws := ws[i := if share > 3 then share else 3];
            i := i + 1;
          }
        }
      }
    }
  }

  method TotalOf(widths: seq<nat>) returns (total: nat)
    ensures total == Sum(widths)
  {
    total := 0;
    for i := 0 to |widths|
      invariant total == Sum(widths[..i])
    {
      assert widths[..i + 1][..i] == widths[..i];
      total := total + widths[i];
    }
    assert widths[..|widths|] == widths;
  }

  method RenderRow(row: Row, widths: seq<nat>) returns (line: string)
    requires |row| <= |widths|
    ensures line == RowLine(row, widths)
  {
    hide CellText;
    line := "│ ";
    for i := 0 to |row|
      invariant line == "│ " + Cells(row, widths, i) + if 0 < i < |row| then " │ " else ""
    {
      line := line + CellText(row[i], widths[i]);
      if i + 1 < |row| {
        line := line + " │ ";
      }
    }
    line := line + " │";
  }

  method RenderSeparator(widths: seq<nat>) returns (line: string)
    ensures line == SeparatorLine(widths)
  {
    line := "├─";
    for i := 0 to |widths|
      invariant line == "├─" + Dashes(widths, i) + if 0 < i < |widths| then "─┼─" else ""
    {
      line := line + Repeat('─', widths[i]);
      if i + 1 < |widths| {
        line := line + "─┼─";
      }
    }
    line := line + "─┤";
  }

  method RenderTable(rows: seq<Row>, wrap: Option<nat>) returns (lines: seq<string>)
    requires HasCells(rows)
    ensures lines == Render(rows, wrap)
  {
    hide RowLine, SeparatorLine, Fitted;
    lines := [];
    if rows == [] {
      return;
    }
    NumColsBounds(rows, 0);
    var natural := ColumnWidths(rows);
    var widths := FitWidths(natural, wrap);
    assert widths == TableWidths(rows, wrap);
    for r := 0 to |rows|
      invariant |lines| == if r == 0 then 0 else r + 1
      invariant r > 0 ==> lines[1] == SeparatorLine(widths)
      invariant forall k | 0 <= k < r :: |rows[k]| <= |widths| && lines[if k == 0 then 0 else k + 1] == RowLine(rows[k], widths)
    {
      NumColsBounds(rows, r);
      var line := RenderRow(rows[r], widths);
      lines := lines + [line];
      if r == 0 {
        var rule := RenderSeparator(widths);
        lines := lines + [rule];
      }
    }
  }
}
