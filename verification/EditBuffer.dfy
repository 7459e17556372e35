/** Inserting text into an editor buffer kept as rows, with a cursor. */
module EditBuffer {
  import opened Text

  type Lines = seq<seq<char>>

  datatype State = State(lines: Lines, row: nat, col: nat)

  /** The length of a row, zero if there is no such row. */
  function LenCol(lines: Lines, row: nat): nat {
    if row < |lines| then |lines[row]| else 0
  }

  /** `line_break`: the three cases of the source. */
  function LineBreak(s: State): State
    requires s.row <= |s.lines|
  {
    var lines :=
      if s.col == 0 then s.lines[..s.row] + [[]] + s.lines[s.row..]
      else if s.col >= LenCol(s.lines, s.row) then
        if s.row == |s.lines| then s.lines + [[]]
        else s.lines[..s.row + 1] + [[]] + s.lines[s.row + 1..]
      else
        s.lines[..s.row] + [s.lines[s.row][..s.col]] + ([s.lines[s.row][s.col..]] + s.lines[s.row + 1..]);
    State(lines, s.row + 1, 0)
  }

  /** `insert_char`.  Breaking a line beyond the end of the buffer is outside its domain. */
  function InsertChar(s: State, ch: char, skipMove: bool): State
    requires ch == '\n' ==> s.row <= |s.lines|
  {
    var lines := if |s.lines| == s.row then s.lines + [[]] else s.lines;
    if ch == '\n' then LineBreak(s.(lines := lines))
    else if s.row >= |lines| then s.(lines := lines)
    else
      var line := lines[s.row];
      var col := if s.col > |line| then SaturatingDec(|line|) else s.col;
      State(lines[s.row := line[..col] + [ch] + line[col..]], s.row, if skipMove then col else col + 1)
  }

  // ----- the newline-joined text ----------------------------------------------------

  function Flat(lines: Lines): string {
    if lines == [] then ""
    else if |lines| == 1 then lines[0]
    else lines[0] + "\n" + Flat(lines[1..])
  }

  /** Rows that come before others, and rows that come after others. */
  function Pre(rows: Lines): string {
    if rows == [] then "" else rows[0] + "\n" + Pre(rows[1..])
  }

  function Post(rows: Lines): string {
    if rows == [] then "" else "\n" + rows[0] + Post(rows[1..])
  }

  /** On a row, at or before its end; an empty buffer has one cursor position. */
  predicate InRange(s: State) {
    if s.lines == [] then s.row == 0 && s.col == 0
    else s.row < |s.lines| && s.col <= |s.lines[s.row]|
  }

  function Offset(s: State): nat
    requires InRange(s)
  {
    if s.lines == [] then 0 else |Pre(s.lines[..s.row])| + s.col
  }

  function Inserted(text: string, at: nat, more: string): string
    requires at <= |text|
  {
    text[..at] + more + text[at..]
  }

  // ----- lemmas -----------------------------------------------------------------------

  lemma {:induction false} FlatFirst(row: seq<char>, rows: Lines)
    ensures Flat([row] + rows) == row + Post(rows)
    decreases |rows|
  {
    var all := [row] + rows;
    assert all[1..] == rows;
    if rows != [] {
      assert rows == [rows[0]] + rows[1..];
      FlatFirst(rows[0], rows[1..]);
    }
  }

  lemma {:induction false} FlatParts(before: Lines, row: seq<char>, after: Lines)
    ensures Flat(before + [row] + after) == Pre(before) + row + Post(after)
    decreases |before|
  {
    var all := before + [row] + after;
    if before == [] {
      assert all == [row] + after;
      FlatFirst(row, after);
    } else {
      assert all[1..] == before[1..] + [row] + after;
      FlatParts(before[1..], row, after);
      assert before[0] + "\n" + (Pre(before[1..]) + row + Post(after)) == Pre(before) + row + Post(after);
    }
  }

  lemma {:induction false} PreSnoc(rows: Lines, row: seq<char>)
    ensures Pre(rows + [row]) == Pre(rows) + row + "\n"
  {
    if rows == [] {
      assert rows + [row] == [row];
      assert Pre([row]) == row + "\n" + Pre([row][1..]);
    } else {
      assert (rows + [row])[1..] == rows[1..] + [row];
      PreSnoc(rows[1..], row);
      assert rows[0] + "\n" + (Pre(rows[1..]) + row + "\n") == rows[0] + "\n" + Pre(rows[1..]) + row + "\n";
    }
  }

  /** A cursor splits the text as it splits the rows. */
  lemma CursorSplitsFlat(s: State)
    requires InRange(s) && s.lines != []
    ensures Offset(s) <= |Flat(s.lines)|
    ensures Flat(s.lines)[..Offset(s)] == Pre(s.lines[..s.row]) + s.lines[s.row][..s.col]
    ensures Flat(s.lines)[Offset(s)..] == s.lines[s.row][s.col..] + Post(s.lines[s.row + 1..])
  {
    hide Flat, Pre, Post;
    var before, row, after := s.lines[..s.row], s.lines[s.row], s.lines[s.row + 1..];
    assert s.lines == before + [row] + after;
    FlatParts(before, row, after);
    assert row == row[..s.col] + row[s.col..];
    assert Flat(s.lines) == (Pre(before) + row[..s.col]) + (row[s.col..] + Post(after));
  }

  /** All three cases of a line break split the row at the cursor. */
  lemma LineBreakSplitsRow(s: State)
    requires InRange(s) && s.lines != []
    ensures LineBreak(s) ==
            State(s.lines[..s.row] + [s.lines[s.row][..s.col]] + ([s.lines[s.row][s.col..]] + s.lines[s.row + 1..]),
                  s.row + 1, 0)
  {
    var row := s.lines[s.row];
    if s.col == 0 {
      assert row[..0] == [] && row[0..] == row;
      assert s.lines[s.row..] == [row] + s.lines[s.row + 1..];
    } else if s.col >= |row| {
      assert row[..s.col] == row && row[s.col..] == [];
      assert s.lines[..s.row + 1] == s.lines[..s.row] + [row];
    }
  }

  lemma BreakRefines(s: State)
    requires InRange(s) && s.lines != []
    ensures Offset(s) <= |Flat(s.lines)|
    ensures var t := LineBreak(s);
            && Flat(t.lines) == Flat(s.lines)[..Offset(s)] + ['\n'] + Flat(s.lines)[Offset(s)..]
            && InRange(t) && Offset(t) == Offset(s) + 1
  {
    hide Flat, Pre, Post, LineBreak;
    LineBreakSplitsRow(s);
    CursorSplitsFlat(s);
    var before, row, after := s.lines[..s.row], s.lines[s.row], s.lines[s.row + 1..];
    var left, right := row[..s.col], row[s.col..];
    var t := LineBreak(s);
    FlatParts(before, left, [right] + after);
    PostCons(right, after);
    assert t.lines[..t.row] == before + [left];
    PreSnoc(before, left);
    assert Pre(before) + left + ("\n" + right + Post(after)) == Pre(before) + left + ['\n'] + (right + Post(after));
  }

  lemma PostCons(row: seq<char>, rows: Lines)
    ensures Post([row] + rows) == "\n" + row + Post(rows)
  {
    assert ([row] + rows)[1..] == rows;
  }

  /** `c` is inserted on the cursor's row. */
  lemma CharRefines(s: State, ch: char, skipMove: bool)
    requires InRange(s) && s.lines != [] && ch != '\n'
    ensures Offset(s) <= |Flat(s.lines)|
    ensures var t := InsertChar(s, ch, skipMove);
            && Flat(t.lines) == Flat(s.lines)[..Offset(s)] + [ch] + Flat(s.lines)[Offset(s)..]
            && InRange(t) && Offset(t) == Offset(s) + if skipMove then 0 else 1
  {
    hide Flat, Pre, Post;
    CursorSplitsFlat(s);
    var before, row, after := s.lines[..s.row], s.lines[s.row], s.lines[s.row + 1..];
    var t := InsertChar(s, ch, skipMove);
    var row' := row[..s.col] + [ch] + row[s.col..];
    assert t.lines == before + [row'] + after;
    assert t.lines[..t.row] == before;
    FlatParts(before, row', after);
    assert Pre(before) + row' + Post(after)
        == (Pre(before) + row[..s.col]) + [ch] + (row[s.col..] + Post(after));
  }

  lemma InRangeInserts(s: State, ch: char, skipMove: bool)
    requires InRange(s)
    ensures Offset(s) <= |Flat(s.lines)|
    ensures var t := InsertChar(s, ch, skipMove);
            && Flat(t.lines) == Inserted(Flat(s.lines), Offset(s), [ch])
            && InRange(t) && t.lines != []
            && Offset(t) == Offset(s) + if skipMove && ch != '\n' then 0 else 1
  {
    hide LineBreak;
    var s1 := if s.lines == [] then State([[]], 0, 0) else s;
    assert InsertChar(s, ch, skipMove) == InsertChar(s1, ch, skipMove) by {
      if s.lines == [] {
        assert s.lines + [[]] == [[]];
      }
    }
    assert Flat(s1.lines) == Flat(s.lines) && Offset(s1) == Offset(s) by {
      assert s.lines == [] ==> s1.lines[..0] == [];
    }
    CursorSplitsFlat(s1);
    if ch == '\n' {
      BreakRefines(s1);
      BreakNotEmpty(s1);
    } else {
      CharRefines(s1, ch, skipMove);
    }
  }

  // ----- cursors outside the rows -----------------------------------------------------------

  /** Where the code really inserts: the row behind the last one is added, a line break beyond
      the end of a row goes to its end, any other character before the row's last one. */
  function Effective(s: State, ch: char): (e: State)
    requires s.row <= |s.lines|
    ensures InRange(e)
    ensures InRange(s) && s.lines != [] ==> e == s
  {
    var lines := if s.row == |s.lines| then s.lines + [[]] else s.lines;
    var len := |lines[s.row]|;
    State(lines, s.row, if s.col <= len then s.col else if ch == '\n' then len else SaturatingDec(len))
  }

  lemma EffectiveInserts(s: State, ch: char, skipMove: bool)
    requires s.row <= |s.lines|
    ensures InsertChar(s, ch, skipMove) == InsertChar(Effective(s, ch), ch, skipMove)
  {
    hide LineBreak;
    if ch == '\n' {
      var lines := if s.row == |s.lines| then s.lines + [[]] else s.lines;
      BreakAtEnd(s.(lines := lines));
    }
  }

  /** Breaking a row beyond its end is breaking it at its end. */
  lemma BreakAtEnd(s: State)
    requires s.row < |s.lines|
    ensures s.col >= |s.lines[s.row]| ==> LineBreak(s) == LineBreak(s.(col := |s.lines[s.row]|))
  {
    var before, row, after := s.lines[..s.row], s.lines[s.row], s.lines[s.row + 1..];
    if s.col > |row| == 0 {
      assert s.lines[..s.row + 1] == before + [[]] && s.lines[s.row..] == [[]] + after;
      assert before + [[]] + ([[]] + after) == before + [[]] + [[]] + after;
    }
  }

  /** The joined text of the rows with one row added. */
  lemma {:induction false} FlatAdded(lines: Lines)
    ensures Flat(lines + [[]]) == if lines == [] then "" else Flat(lines) + "\n"
  {
    if lines == [] {
      assert lines + [[]] == [[]];
    } else if |lines| == 1 {
      assert lines + [[]] == [lines[0], []] && [lines[0], []][1..] == [[]];
    } else {
      assert (lines + [[]])[1..] == lines[1..] + [[]] && (lines + [[]])[0] == lines[0];
      FlatAdded(lines[1..]);
      assert lines[0] + "\n" + (Flat(lines[1..]) + "\n") == lines[0] + "\n" + Flat(lines[1..]) + "\n";
    }
  }

  /** The text as it is when the character goes in: behind the last row a line is opened. */
  function TextBefore(s: State): string {
    if s.lines != [] && s.row == |s.lines| then Flat(s.lines) + "\n" else Flat(s.lines)
  }

  /** Inserting a character or a line break inserts that character into the joined text at
      the effective cursor, which is the cursor itself wherever that is in range, and moves
      the cursor behind it unless told not to.  Far below the rows nothing happens. */
  lemma InsertCharRefines(s: State, ch: char, skipMove: bool)
    requires ch == '\n' ==> s.row <= |s.lines|
    ensures s.row > |s.lines| ==> InsertChar(s, ch, skipMove) == s
    ensures s.row <= |s.lines| ==>
              var e, t := Effective(s, ch), InsertChar(s, ch, skipMove);
              && Flat(e.lines) == TextBefore(s) && Offset(e) <= |TextBefore(s)|
              && Flat(t.lines) == Inserted(TextBefore(s), Offset(e), [ch])
              && InRange(t) && t.lines != []
              && Offset(t) == Offset(e) + if skipMove && ch != '\n' then 0 else 1
  {
    hide Flat, Pre, LineBreak, InsertChar, Inserted;
    if s.row <= |s.lines| {
      EffectiveText(s, ch);
      EffectiveInserts(s, ch, skipMove);
      InRangeInserts(Effective(s, ch), ch, skipMove);
    } else {
      FarBelow(s, ch, skipMove);
    }
  }

  lemma EffectiveText(s: State, ch: char)
    requires s.row <= |s.lines|
    ensures Flat(Effective(s, ch).lines) == TextBefore(s)
  {
    FlatAdded(s.lines);
  }

  lemma FarBelow(s: State, ch: char, skipMove: bool)
    requires s.row > |s.lines| && ch != '\n'
    ensures InsertChar(s, ch, skipMove) == s
  {
  }

  lemma BreakNotEmpty(s: State)
    requires s.row <= |s.lines|
    ensures LineBreak(s).lines != []
  {
  }

  // ----- inserting a text ----------------------------------------------------------------

  /** Where the text can go: a line break below the rows is outside the code's domain. */
  predicate Reaches(s: State, text: string) {
    s.row <= |s.lines| || '\n' !in text
  }

  lemma ReachesOn(s: State, text: string, skipMove: bool)
    requires text != "" && Reaches(s, text)
    ensures Reaches(InsertChar(s, text[0], skipMove), text[1..])
  {
    hide Flat, Pre, InsertChar, Inserted;
    InsertCharRefines(s, text[0], skipMove);
  }

  /** The loop of `insert_str` from character `i` on.  The source compares the index of a
      character with the length in bytes. */
  function InsertFrom(s: State, text: string, i: nat): State
    requires i <= |text| && Reaches(s, text[i..])
    decreases |text| - i
  {
    if i == |text| then s
    else
      var isLast := i == SaturatingDec(ByteLen(text));
      ReachesOn(s, text[i..], isLast);
      assert text[i..][1..] == text[i + 1..];
      InsertFrom(InsertChar(s, text[i], isLast), text, i + 1)
  }

  function InsertStr(s: State, text: string): State
    requires Reaches(s, text)
  {
    assert text[0..] == text;
    InsertFrom(s, text, 0)
  }

  /** `append_str`'s loop: every character moves the cursor. */
  function AppendFrom(s: State, text: string): State
    requires Reaches(s, text)
    decreases |text|
  {
    if text == "" then s
    else
      ReachesOn(s, text, false);
      AppendFrom(InsertChar(s, text[0], false), text[1..])
  }

  /** The start of an append: behind the cursor's character, if its row has any. */
  function AppendStart(s: State): (t: State)
    ensures t.lines == s.lines && t.row == s.row
  {
    if s.lines != [] && LenCol(s.lines, s.row) > 0 then s.(col := s.col + 1) else s
  }

  function AppendStr(s: State, text: string): State
    requires Reaches(s, text)
  {
    var t := AppendFrom(AppendStart(s), text);
    t.(col := SaturatingDec(t.col))
  }

  lemma {:induction false} ByteLenBound(s: string)
    ensures ByteLen(s) >= |s|
  {
    if s != "" {
      ByteLenBound(s[1..]);
    }
  }

  lemma InsertedTwice(text: string, at: nat, c: char, more: string)
    requires at <= |text|
    ensures Inserted(Inserted(text, at, [c]), at + 1, more) == Inserted(text, at, [c] + more)
  {
    var one := Inserted(text, at, [c]);
    assert one[..at + 1] == text[..at] + [c];
    assert one[at + 1..] == text[at..];
    assert text[..at] + [c] + more + text[at..] == text[..at] + ([c] + more) + text[at..];
  }

  predicate IsAscii(s: string) {
    ByteLen(s) == |s|
  }

  /** The cursor stays on the last inserted character only when the text is ASCII and does
      not end with a line break. */
  predicate StaysOnLast(text: string) {
    text != "" && IsAscii(text) && text[|text| - 1] != '\n'
  }

  lemma {:induction false} InsertFromRefines(s: State, text: string, i: nat)
    requires InRange(s) && i <= |text|
    ensures Reaches(s, text[i..]) && Offset(s) <= |Flat(s.lines)|
    ensures var t := InsertFrom(s, text, i);
            && Flat(t.lines) == Inserted(Flat(s.lines), Offset(s), text[i..])
            && InRange(t)
            && Offset(t) == Offset(s) + (|text| - i) - if i < |text| && StaysOnLast(text) then 1 else 0
    decreases |text| - i
  {
    hide Flat, Pre, InsertChar, Inserted, ByteLen, Offset;
    ByteLenBound(text);
    InRangeInserts(s, 'x', false);
    if i == |text| {
      assert text[i..] == [];
      InsertedNothing(Flat(s.lines), Offset(s));
    } else {
      var isLast := i == SaturatingDec(ByteLen(text));
      InRangeInserts(s, text[i], isLast);
      var t := InsertChar(s, text[i], isLast);
      assert text[i..] == [text[i]] + text[i + 1..];
      InsertFromRefines(t, text, i + 1);
      if i + 1 < |text| {
        assert !isLast;
        InsertedTwice(Flat(s.lines), Offset(s), text[i], text[i + 1..]);
      } else {
        assert text[i + 1..] == [] && text[i..] == [text[i]];
        InsertedNothing(Flat(t.lines), Offset(t));
      }
    }
  }

  lemma InsertedNothing(text: string, at: nat)
    requires at <= |text|
    ensures Inserted(text, at, []) == text
  {
  }

  lemma {:induction false} InsertFarBelow(s: State, text: string, i: nat)
    requires i <= |text| && s.row > |s.lines| && Reaches(s, text[i..])
    ensures InsertFrom(s, text, i) == s
    decreases |text| - i
  {
    hide InsertChar;
    if i < |text| {
      assert text[i..][0] == text[i] && text[i..][1..] == text[i + 1..];
      FarBelow(s, text[i], i == SaturatingDec(ByteLen(text)));
      InsertFarBelow(s, text, i + 1);
    }
  }

  /** Inserting a text of any length, with any line breaks, inserts it into the joined text at
      the effective cursor. */
  lemma InsertStrRefines(s: State, text: string)
    requires Reaches(s, text)
    ensures text == "" || s.row > |s.lines| ==> InsertStr(s, text) == s
    ensures text != "" && s.row <= |s.lines| ==>
              var e, t := Effective(s, text[0]), InsertStr(s, text);
              && Offset(e) <= |TextBefore(s)|
              && Flat(t.lines) == Inserted(TextBefore(s), Offset(e), text)
              && InRange(t)
              && Offset(t) == Offset(e) + |text| - if StaysOnLast(text) then 1 else 0
  {
    hide Flat, Pre, InsertChar, Inserted, ByteLen, Effective;
    assert text[0..] == text;
    if s.row > |s.lines| {
      InsertFarBelow(s, text, 0);
    } else if text != "" {
      var e := Effective(s, text[0]);
      EffectiveText(s, text[0]);
      EffectiveInserts(s, text[0], 0 == SaturatingDec(ByteLen(text)));
      InsertFromRefines(e, text, 0);
      assert InsertStr(s, text) == InsertFrom(e, text, 0);
    }
  }

  /** The documented skip of the last move happens exactly for ASCII texts: one character
      outside ASCII leaves the cursor behind the text instead of on its last character. */
  lemma InsertStrCursor(s: State, text: string)
    requires s.row <= |s.lines| && text != "" && text[|text| - 1] != '\n'
    ensures InRange(InsertStr(s, text))
    ensures Offset(InsertStr(s, text)) == Offset(Effective(s, text[0])) + |text| - 1 <==> IsAscii(text)
  {
    hide Flat, Inserted, InRange, Offset, InsertStr, Effective;
    InsertStrRefines(s, text);
  }

  lemma {:induction false} AppendFromRefines(s: State, text: string)
    requires InRange(s)
    ensures Reaches(s, text) && Offset(s) <= |Flat(s.lines)|
    ensures var t := AppendFrom(s, text);
            && Flat(t.lines) == Inserted(Flat(s.lines), Offset(s), text)
            && InRange(t) && Offset(t) == Offset(s) + |text|
            && (text != "" ==> (t.col == 0 <==> text[|text| - 1] == '\n'))
    decreases |text|
  {
    hide Flat, Pre, InsertChar, Inserted, Offset;
    InRangeInserts(s, 'x', false);
    if text == "" {
      InsertedNothing(Flat(s.lines), Offset(s));
    } else {
      InRangeInserts(s, text[0], false);
      ColumnAfter(s, text[0]);
      AppendFromRefines(InsertChar(s, text[0], false), text[1..]);
      InsertedTwice(Flat(s.lines), Offset(s), text[0], text[1..]);
      assert text == [text[0]] + text[1..];
    }
  }

  lemma ColumnAfter(s: State, ch: char)
    requires InRange(s)
    ensures InsertChar(s, ch, false).col == 0 <==> ch == '\n'
  {
  }

  lemma {:induction false} AppendFarBelow(s: State, text: string)
    requires s.row > |s.lines| && Reaches(s, text)
    ensures AppendFrom(s, text) == s
    decreases |text|
  {
    hide InsertChar;
    if text != "" {
      FarBelow(s, text[0], false);
      AppendFarBelow(s, text[1..]);
    }
  }

  /** Appending inserts the text at the effective cursor behind the cursor's character, and
      leaves the cursor on the last appended character, or at the start of the row after a
      final line break.  With no text, or far below the rows, only the column may change. */
  lemma AppendStrRefines(s: State, text: string)
    requires Reaches(s, text)
    ensures text == "" || s.row > |s.lines| ==>
              AppendStr(s, text) == s.(col := if LenCol(s.lines, s.row) > 0 then s.col else SaturatingDec(s.col))
    ensures text != "" && s.row <= |s.lines| ==>
              var e, t := Effective(AppendStart(s), text[0]), AppendStr(s, text);
              && Offset(e) <= |TextBefore(s)|
              && Flat(t.lines) == Inserted(TextBefore(s), Offset(e), text)
              && InRange(t)
              && Offset(t) == Offset(e) + |text| - if text[|text| - 1] == '\n' then 0 else 1
  {
    hide Flat, Pre, InsertChar, Inserted, Effective;
    var a := AppendStart(s);
    if s.row > |s.lines| {
      AppendFarBelow(a, text);
    } else if text != "" {
      var e := Effective(a, text[0]);
      EffectiveText(a, text[0]);
      EffectiveInserts(a, text[0], false);
      AppendFromRefines(e, text);
      assert AppendFrom(a, text) == AppendFrom(e, text);
      BackOne(AppendFrom(e, text));
    }
  }

  lemma BackOne(t: State)
    requires InRange(t)
    ensures var u := t.(col := SaturatingDec(t.col)); InRange(u) && Offset(u) == Offset(t) - if t.col == 0 then 0 else 1
  {
    hide Pre;
  }

  // ----- the buffer, changed in place --------------------------------------------------------

  class Buffer {
    var lines: Lines
    var row: nat
    var col: nat

    ghost function St(): State
      reads this
    {
      State(lines, row, col)
    }

    constructor (lines: Lines, row: nat, col: nat)
      ensures St() == State(lines, row, col)
    {
      this.lines, this.row, this.col := lines, row, col;
    }

    method BreakLine()
      requires row <= |lines|
      modifies this
      ensures St() == LineBreak(old(St()))
    {
      if col == 0 {
        lines := lines[..row] + [[]] + lines[row..];
      } else if col >= LenCol(lines, row) {
        if row == |lines| {
          lines := lines + [[]];
        } else {
          lines := lines[..row + 1] + [[]] + lines[row + 1..];
        }
      } else {
        var rest := [lines[row][col..]] + lines[row + 1..];
        lines := lines[..row] + [lines[row][..col]];
        lines := lines + rest;
      }
      row := row + 1;
      col := 0;
    }

    method Insert(ch: char, skipMove: bool)
      requires ch == '\n' ==> row <= |lines|
      modifies this
      ensures St() == InsertChar(old(St()), ch, skipMove)
    {
      hide LineBreak;
      if |lines| == row {
        lines := lines + [[]];
      }
      if ch == '\n' {
        BreakLine();
      } else {
        if row >= |lines| {
          return;
        }
        if col > |lines[row]| {
          col := SaturatingDec(|lines[row]|);
        }
        lines := lines[row := lines[row][..col] + [ch] + lines[row][col..]];
        if !skipMove {
          col := col + 1;
        }
      }
    }

    method InsertText(text: string)
      requires Reaches(St(), text)
      modifies this
      ensures St() == InsertStr(old(St()), text)
    {
      hide InsertChar, Flat, Inserted, ByteLen, Pre;
      assert text[0..] == text;
      var i := 0;
      while i < |text|
        invariant 0 <= i <= |text|
        invariant Reaches(St(), text[i..])
        invariant InsertFrom(St(), text, i) == InsertStr(old(St()), text)
      {
        var isLast := i == SaturatingDec(ByteLen(text));
        assert text[i..][0] == text[i] && text[i..][1..] == text[i + 1..];
        ReachesOn(St(), text[i..], isLast);
        Insert(text[i], isLast);
        i := i + 1;
      }
    }

    method AppendText(text: string)
      requires Reaches(St(), text)
      modifies this
      ensures St() == AppendStr(old(St()), text)
    {
      hide InsertChar, Flat, Inserted, Pre;
      if lines != [] && LenCol(lines, row) > 0 {
        col := col + 1;
      }
      var i := 0;
      assert text[0..] == text;
      while i < |text|
        invariant 0 <= i <= |text|
        invariant Reaches(St(), text[i..])
        invariant AppendFrom(St(), text[i..]) == AppendFrom(AppendStart(old(St())), text)
      {
        assert text[i..][0] == text[i] && text[i..][1..] == text[i + 1..];
        ReachesOn(St(), text[i..], false);
        Insert(text[i], false);
        i := i + 1;
      }
      col := SaturatingDec(col);
    }
  }
}
