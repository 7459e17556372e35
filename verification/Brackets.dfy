/** Bracket matching over the rows of an editor buffer. */
module Brackets {
  import opened Text

  type Lines = seq<seq<char>>

  datatype Index = Index(row: nat, col: nat)

  /** One item of the buffer's iterator; an empty row yields one item without a character. */
  datatype Cell = Cell(value: Option<char>, at: Index)

  // ----- the row-major iteration -------------------------------------------------

  function RowCells(row: seq<char>, r: nat): (cells: seq<Cell>)
    ensures |cells| == if row == [] then 1 else |row|
  {
    if row == [] then [Cell(None, Index(r, 0))]
    else seq(|row|, c requires 0 <= c < |row| => Cell(Some(row[c]), Index(r, c)))
  }

  function CellsFrom(lines: Lines, r: nat): seq<Cell>
    requires r <= |lines|
    decreases |lines| - r
  {
    if r == |lines| then [] else RowCells(lines[r], r) + CellsFrom(lines, r + 1)
  }

  function Cells(lines: Lines): seq<Cell> { CellsFrom(lines, 0) }

  function RowLength(row: seq<char>): nat { if row == [] then 1 else |row| }

  /** Where row `r` begins, counted from row `q`. */
  function Offset(lines: Lines, q: nat, r: nat): nat
    requires q <= r <= |lines|
    decreases r - q
  {
    if q == r then 0 else RowLength(lines[q]) + Offset(lines, q + 1, r)
  }

  predicate InRange(lines: Lines, i: Index) {
    i.row < |lines| && i.col < |lines[i.row]|
  }

  function Position(lines: Lines, i: Index): nat
    requires InRange(lines, i)
  {
    Offset(lines, 0, i.row) + i.col
  }

  lemma {:induction false} CellAtOffset(lines: Lines, q: nat, i: Index)
    requires InRange(lines, i) && q <= i.row
    ensures Offset(lines, q, i.row) + i.col < |CellsFrom(lines, q)|
    ensures CellsFrom(lines, q)[Offset(lines, q, i.row) + i.col] == Cell(Some(lines[i.row][i.col]), i)
    decreases i.row - q
  {
    hide RowCells;
    if q < i.row {
      CellAtOffset(lines, q + 1, i);
      var at := Offset(lines, q + 1, i.row) + i.col;
      assert CellsFrom(lines, q)[RowLength(lines[q]) + at] == CellsFrom(lines, q + 1)[at];
    } else {
      RowCellAt(lines[q], q, i.col);
      assert CellsFrom(lines, q)[i.col] == RowCells(lines[q], q)[i.col];
    }
  }

  lemma RowCellAt(row: seq<char>, r: nat, c: nat)
    requires c < |row|
    ensures RowCells(row, r)[c] == Cell(Some(row[c]), Index(r, c))
  {
  }

  /** Every item with a character stands at its own position. */
  lemma {:induction false} CellKnowsPosition(lines: Lines, q: nat, k: nat)
    requires q <= |lines| && k < |CellsFrom(lines, q)| && CellsFrom(lines, q)[k].value.Some?
    ensures var i := CellsFrom(lines, q)[k].at;
            InRange(lines, i) && q <= i.row && Offset(lines, q, i.row) + i.col == k
    decreases |lines| - q
  {
    var n := RowLength(lines[q]);
    if k >= n {
      assert CellsFrom(lines, q)[k] == CellsFrom(lines, q + 1)[k - n];
      CellKnowsPosition(lines, q + 1, k - n);
    } else {
      assert CellsFrom(lines, q)[k] == RowCells(lines[q], q)[k];
    }
  }

  // ----- bracket pairs -----------------------------------------------------------------

  datatype Bracket = Bracket(open: char, close: char, reverse: bool)

  function BracketOf(c: char): Option<Bracket> {
    match c
    case '{' => Some(Bracket('{', '}', false))
    case '}' => Some(Bracket('{', '}', true))
    case '(' => Some(Bracket('(', ')', false))
    case ')' => Some(Bracket('(', ')', true))
    case '[' => Some(Bracket('[', ']', false))
    case ']' => Some(Bracket('[', ']', true))
    case _ => None
  }

  function Weight(b: Bracket, c: Cell): int {
    if c.value == Some(b.open) then 1 else if c.value == Some(b.close) then -1 else 0
  }

  /** Openers minus closers between two positions. */
  function Depth(b: Bracket, cells: seq<Cell>, lo: nat, hi: nat): int
    requires lo <= hi <= |cells|
    decreases hi - lo
  {
    if lo == hi then 0 else Depth(b, cells, lo, hi - 1) + Weight(b, cells[hi - 1])
  }

  /** Every closer in between has an opener before it, and none is left open. */
  ghost predicate Balanced(b: Bracket, cells: seq<Cell>, lo: nat, hi: nat)
    requires lo <= hi <= |cells|
  {
    Depth(b, cells, lo, hi) == 0 && NeverBelow(b, cells, lo, hi, 0)
  }

  /** The independent notion of a match: an opener, balanced text, its closer. */
  ghost predicate Matches(b: Bracket, cells: seq<Cell>, i: nat, j: nat) {
    && i < j < |cells|
    && cells[i].value == Some(b.open) && cells[j].value == Some(b.close)
    && Balanced(b, cells, i + 1, j)
  }

  // ----- the two scans -------------------------------------------------------------------

  function ScanForward(b: Bracket, cells: seq<Cell>, k: nat, counter: nat): Option<nat>
    requires k <= |cells|
    decreases |cells| - k
  {
    if k == |cells| then None
    else if cells[k].value == Some(b.close) then
      if counter == 0 then Some(k) else ScanForward(b, cells, k + 1, counter - 1)
    else ScanForward(b, cells, k + 1, counter + if cells[k].value == Some(b.open) then 1 else 0)
  }

  function ScanBackward(b: Bracket, cells: seq<Cell>, k: nat, counter: nat): Option<nat>
    requires k <= |cells|
    decreases k
  {
    if k == 0 then None
    else if cells[k - 1].value == Some(b.open) then
      if counter == 0 then Some(k - 1) else ScanBackward(b, cells, k - 1, counter - 1)
    else ScanBackward(b, cells, k - 1, counter + if cells[k - 1].value == Some(b.close) then 1 else 0)
  }

  function MatchAt(cells: seq<Cell>, i: nat): Option<nat>
    requires i < |cells|
  {
    if cells[i].value.None? || BracketOf(cells[i].value.value).None? then None
    else
      var b := BracketOf(cells[i].value.value).value;
      if b.reverse then ScanBackward(b, cells, i, 0) else ScanForward(b, cells, i + 1, 0)
  }

  /** `find_matching_bracket` on a buffer. */
  function FindMatch(lines: Lines, index: Index): Option<Index> {
    if !InRange(lines, index) then None
    else
      CellAtOffset(lines, 0, index);
      match MatchAt(Cells(lines), Position(lines, index))
      case None => None
      case Some(j) =>
        MatchInRange(Cells(lines), Position(lines, index));
        Some(Cells(lines)[j].at)
  }

  // ----- lemmas ------------------------------------------------------------------------------

  lemma {:induction false} DepthSplit(b: Bracket, cells: seq<Cell>, x: nat, y: nat, z: nat)
    requires x <= y <= z <= |cells|
    ensures Depth(b, cells, x, z) == Depth(b, cells, x, y) + Depth(b, cells, y, z)
    decreases z - y
  {
    if y < z {
      DepthSplit(b, cells, x, y, z - 1);
    }
  }

  /** The forward scan with `counter` brackets open stops where the depth first falls below. */
  lemma {:induction false} ForwardFinds(b: Bracket, cells: seq<Cell>, k: nat, counter: nat, j: nat)
    requires k <= |cells| && b.open != b.close
    ensures ScanForward(b, cells, k, counter) == Some(j) <==>
            && k <= j < |cells| && cells[j].value == Some(b.close)
            && Depth(b, cells, k, j) + counter == 0
            && NeverBelow(b, cells, k, j, 0 - counter)
    decreases |cells| - k
  {
    if k < |cells| {
      var w, k1 := Weight(b, cells[k]), k + 1;
      forall m | k1 <= m <= |cells|
        ensures Depth(b, cells, k, m) == w + Depth(b, cells, k1, m)
      {
        DepthSplit(b, cells, k, k1, m);
        assert Depth(b, cells, k, k) == 0;
      }
      assert Depth(b, cells, k, k1) == w;
      if counter + w >= 0 {
        ForwardFinds(b, cells, k1, counter + w, j);
      }
    }
  }

  lemma {:induction false} BackwardFinds(b: Bracket, cells: seq<Cell>, k: nat, counter: nat, i: nat)
    requires k <= |cells| && b.open != b.close
    ensures ScanBackward(b, cells, k, counter) == Some(i) <==>
            && i < k && cells[i].value == Some(b.open)
            && Depth(b, cells, i + 1, k) == counter
            && NeverAbove(b, cells, i + 1, k, counter)
    decreases k
  {
    if k > 0 {
      var w, k1 := Weight(b, cells[k - 1]), k - 1;
      forall m | 0 <= m <= k1
        ensures Depth(b, cells, m, k) == Depth(b, cells, m, k1) + w
      {
      }
      assert Depth(b, cells, k, k) == 0;
      assert Depth(b, cells, k1, k) == w;
      if counter - w >= 0 {
        BackwardFinds(b, cells, k1, counter - w, i);
      }
    }
  }

  ghost predicate NeverBelow(b: Bracket, cells: seq<Cell>, lo: nat, hi: nat, least: int)
    requires lo <= hi <= |cells|
  {
    forall m | lo <= m <= hi :: Depth(b, cells, lo, m) >= least
  }

  ghost predicate NeverAbove(b: Bracket, cells: seq<Cell>, lo: nat, hi: nat, most: int)
    requires lo <= hi <= |cells|
  {
    forall m | lo <= m <= hi :: Depth(b, cells, m, hi) <= most
  }

  lemma BalancedBackward(b: Bracket, cells: seq<Cell>, lo: nat, hi: nat)
    requires lo <= hi <= |cells| && Depth(b, cells, lo, hi) == 0
    ensures NeverBelow(b, cells, lo, hi, 0) <==> NeverAbove(b, cells, lo, hi, 0)
  {
    forall m | lo <= m <= hi
      ensures Depth(b, cells, lo, m) + Depth(b, cells, m, hi) == 0
    {
      DepthSplit(b, cells, lo, m, hi);
    }
  }

  lemma MatchInRange(cells: seq<Cell>, i: nat)
    requires i < |cells|
    ensures MatchAt(cells, i).Some? ==> MatchAt(cells, i).value < |cells|
  {
    if MatchAt(cells, i).Some? {
      var b := BracketOf(cells[i].value.value).value;
      if b.reverse {
        BackwardFinds(b, cells, i, 0, MatchAt(cells, i).value);
      } else {
        ForwardFinds(b, cells, i + 1, 0, MatchAt(cells, i).value);
      }
    }
  }

  /** The three pairs, and no other character, are brackets. */
  lemma BracketPairs(c: char)
    ensures BracketOf(c).Some? <==> c in "{}()[]"
    ensures BracketOf(c).Some? ==>
              var b := BracketOf(c).value;
              [b.open, b.close] in ["{}", "()", "[]"] && (b.reverse <==> c in "})]")
  {
    assert "{}"[0] == '{' && "()"[0] == '(' && "[]"[0] == '[';
    assert c in "{}()[]" <==> c == '{' || c == '}' || c == '(' || c == ')' || c == '[' || c == ']';
    assert c in "})]" <==> c == '}' || c == ')' || c == ']';
    assert ['{', '}'] == "{}" && ['(', ')'] == "()" && ['[', ']'] == "[]";
    assert "{}" == ["{}", "()", "[]"][0] && "()" == ["{}", "()", "[]"][1] && "[]" == ["{}", "()", "[]"][2];
  }

  lemma BracketShape(c: char)
    ensures BracketOf(c).Some? ==>
              var b := BracketOf(c).value;
              && b.open != b.close && c == (if b.reverse then b.close else b.open)
              && BracketOf(b.open) == Some(b.(reverse := false))
              && BracketOf(b.close) == Some(b.(reverse := true))
  {
  }

  /** The scans find exactly the matches: nothing else, and never nothing when there is one. */
  lemma MatchAtIff(cells: seq<Cell>, i: nat, j: nat)
    requires i < |cells|
    ensures MatchAt(cells, i) == Some(j) <==>
            exists b :: Some(b) == (if cells[i].value.Some? then BracketOf(cells[i].value.value) else None)
                        && if b.reverse then Matches(b, cells, j, i) else Matches(b, cells, i, j)
  {
    hide ScanForward, ScanBackward, BracketOf, Depth;
    if cells[i].value.Some? && BracketOf(cells[i].value.value).Some? {
      var b := BracketOf(cells[i].value.value).value;
      BracketShape(cells[i].value.value);
      if b.reverse {
        BackwardFinds(b, cells, i, 0, j);
        if j < i && Depth(b, cells, j + 1, i) == 0 {
          BalancedBackward(b, cells, j + 1, i);
        }
      } else {
        ForwardFinds(b, cells, i + 1, 0, j);
      }
    }
  }

  lemma MatchesFlip(b: Bracket, cells: seq<Cell>, i: nat, j: nat)
    ensures Matches(b, cells, i, j) == Matches(b.(reverse := !b.reverse), cells, i, j)
  {
    if i < j < |cells| {
      var lo, flipped := i + 1, b.(reverse := !b.reverse);
      forall m | lo <= m <= j
        ensures Depth(b, cells, lo, m) == Depth(flipped, cells, lo, m)
      {
        DepthFlip(b, cells, lo, m);
      }
    }
  }

  lemma {:induction false} DepthFlip(b: Bracket, cells: seq<Cell>, lo: nat, hi: nat)
    requires lo <= hi <= |cells|
    ensures Depth(b, cells, lo, hi) == Depth(b.(reverse := !b.reverse), cells, lo, hi)
    decreases hi - lo
  {
    if lo < hi {
      DepthFlip(b, cells, lo, hi - 1);
    }
  }

  lemma MatchAtSymmetric(cells: seq<Cell>, i: nat, j: nat)
    requires i < |cells| && MatchAt(cells, i) == Some(j)
    ensures j < |cells| && MatchAt(cells, j) == Some(i)
  {
    hide MatchAt, BracketOf, Matches;
    MatchAtIff(cells, i, j);
    var b :| Some(b) == (if cells[i].value.Some? then BracketOf(cells[i].value.value) else None)
             && if b.reverse then Matches(b, cells, j, i) else Matches(b, cells, i, j);
    BracketShape(cells[i].value.value);
    var c := b.(reverse := !b.reverse);
    var lo, hi := if b.reverse then j else i, if b.reverse then i else j;
    MatchesFlip(b, cells, lo, hi);
    MatchesEnds(b, cells, lo, hi);
    assert Some(c) == BracketOf(cells[j].value.value);
    MatchAtIff(cells, j, i);
  }

  lemma MatchesEnds(b: Bracket, cells: seq<Cell>, i: nat, j: nat)
    requires Matches(b, cells, i, j)
    ensures i < j < |cells| && cells[i].value == Some(b.open) && cells[j].value == Some(b.close)
  {
  }

  /** A match is the only one, of its opener and of its closer: in neither direction does a
      nearer or a farther position qualify. */
  lemma MatchUnique(b: Bracket, cells: seq<Cell>, i: nat, j: nat, k: nat)
    requires b.open != b.close && Matches(b, cells, i, j)
    ensures Matches(b, cells, i, k) ==> k == j
    ensures Matches(b, cells, k, j) ==> k == i
  {
    hide Balanced;
    if Matches(b, cells, i, k) {
      ScanFindsCloser(b, cells, i, j);
      ScanFindsCloser(b, cells, i, k);
    }
    if Matches(b, cells, k, j) {
      ScanFindsOpener(b, cells, i, j);
      ScanFindsOpener(b, cells, k, j);
    }
  }

  lemma ScanFindsCloser(b: Bracket, cells: seq<Cell>, i: nat, j: nat)
    requires b.open != b.close && Matches(b, cells, i, j)
    ensures ScanForward(b, cells, i + 1, 0) == Some(j)
  {
    ForwardFinds(b, cells, i + 1, 0, j);
  }

  lemma ScanFindsOpener(b: Bracket, cells: seq<Cell>, i: nat, j: nat)
    requires b.open != b.close && Matches(b, cells, i, j)
    ensures ScanBackward(b, cells, j, 0) == Some(i)
  {
    BackwardFinds(b, cells, j, 0, i);
    BalancedBackward(b, cells, i + 1, j);
  }

  /** The bracket found from `i` is at `j` exactly if the bracket found from `j` is at `i`. */
  lemma FindMatchSymmetric(lines: Lines, i: Index, j: Index)
    requires FindMatch(lines, i) == Some(j)
    ensures FindMatch(lines, j) == Some(i)
  {
    hide MatchAt, CellsFrom, Offset;
    var cells := Cells(lines);
    CellAtOffset(lines, 0, i);
    var p := Position(lines, i);
    var q := MatchAt(cells, p).value;
    MatchAtSymmetric(cells, p, q);
    MatchHasChar(cells, q);
    CellKnowsPosition(lines, 0, q);
    assert Position(lines, j) == q;
  }

  lemma MatchHasChar(cells: seq<Cell>, i: nat)
    requires i < |cells| && MatchAt(cells, i).Some?
    ensures cells[i].value.Some?
  {
  }

  /** The result on a buffer: the two ends form a pair with balanced text in between, and
      `None` means that no position would do. */
  lemma FindMatchIff(lines: Lines, i: Index, j: Index)
    requires InRange(lines, i) && InRange(lines, j)
    ensures FindMatch(lines, i) == Some(j) <==>
            exists b :: Some(b) == BracketOf(lines[i.row][i.col])
                        && if b.reverse then Matches(b, Cells(lines), Position(lines, j), Position(lines, i))
                           else Matches(b, Cells(lines), Position(lines, i), Position(lines, j))
  {
    hide MatchAt, CellsFrom, Offset, BracketOf, Matches;
    var cells := Cells(lines);
    CellAtOffset(lines, 0, i);
    CellAtOffset(lines, 0, j);
    var p, q := Position(lines, i), Position(lines, j);
    MatchAtIff(cells, p, q);
    if MatchAt(cells, p).Some? {
      MatchAtSymmetric(cells, p, MatchAt(cells, p).value);
      MatchHasChar(cells, MatchAt(cells, p).value);
      CellKnowsPosition(lines, 0, MatchAt(cells, p).value);
    }
  }

  // ----- the loop -------------------------------------------------------------------------------

  method FindMatchingBracket(lines: Lines, index: Index) returns (result: Option<Index>)
    ensures result == FindMatch(lines, index)
  {
    hide CellsFrom, Offset, BracketOf;
    if !InRange(lines, index) {
      return None;
    }
    CellAtOffset(lines, 0, index);
    var cells, start := Cells(lines), Position(lines, index);
    var bracket := BracketOf(lines[index.row][index.col]);
    if bracket.None? {
      return None;
    }
    MatchInRange(cells, start);
    var b := bracket.value;
    BracketShape(lines[index.row][index.col]);
    var own, other := if b.reverse then b.close else b.open, if b.reverse then b.open else b.close;
    var counter: nat := 0;
    // `k` counts the items already taken from the iterator, the bracket itself included.
    var k := 1;
    var steps := if b.reverse then start + 1 else |cells| - start;
    while k < steps
      invariant 1 <= k <= steps
      invariant MatchAt(cells, start) == if b.reverse then ScanBackward(b, cells, start + 1 - k, counter)
                                         else ScanForward(b, cells, start + k, counter)
    {
      var cell := cells[if b.reverse then start - k else start + k];
      if cell.value == Some(own) {
        counter := counter + 1;
      }
      if cell.value == Some(other) {
        if counter == 0 {
          return Some(cell.at);
        }
        counter := counter - 1;
      }
      k := k + 1;
    }
    return None;
  }
}
