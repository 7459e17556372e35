/** `split_top_level_segments`: cutting a Nu command line at the semicolons that are
    outside quotes, brackets and comments. */
module NuSegments {
  import opened Text

  datatype Lex = Lex(
    paren: nat, brace: nat, bracket: nat,
    single: bool, double: bool, backtick: bool,
    escaped: bool, comment: bool)
  {
    predicate InString() { single || double || backtick }

    predicate Nested() { paren > 0 || brace > 0 || bracket > 0 }
  }

  const NEUTRAL := Lex(0, 0, 0, false, false, false, false, false)

  datatype Action = Keep | Cut | Drop

  /** One character: the next lexer state and what happens to the character. */
  function Step(l: Lex, c: char): (Lex, Action) {
    if l.comment then (if c == '\n' then l.(comment := false) else l, Drop)
    else if l.escaped then (l.(escaped := false), Keep)
    else if c == '\\' && (l.double || l.backtick) then (l.(escaped := true), Keep)
    else if c == '#' && !l.InString() && !l.Nested() then (l.(comment := true), Drop)
    else if c == '\'' && !l.double && !l.backtick then (l.(single := !l.single), Keep)
    else if c == '"' && !l.single && !l.backtick then (l.(double := !l.double), Keep)
    else if c == '`' && !l.single && !l.double then (l.(backtick := !l.backtick), Keep)
    else if l.InString() then (l, Keep)
    else if c == '{' then (l.(brace := l.brace + 1), Keep)
    else if c == '}' then (l.(brace := SaturatingDec(l.brace)), Keep)
    else if c == '(' then (l.(paren := l.paren + 1), Keep)
    else if c == ')' then (l.(paren := SaturatingDec(l.paren)), Keep)
    else if c == '[' then (l.(bracket := l.bracket + 1), Keep)
    else if c == ']' then (l.(bracket := SaturatingDec(l.bracket)), Keep)
    else if c == ';' && !l.Nested() then (l, Cut)
    else (l, Keep)
  }

  function Emit(current: string): seq<string> {
    if Trim(current) == "" then [] else [Trim(current)]
  }

  /** The segments still to come, with `current` collected so far. */
  function Scan(l: Lex, current: string, s: string): seq<string>
    decreases |s|
  {
    if s == "" then Emit(current)
    else
      var (l1, act) := Step(l, s[0]);
      match act
      case Keep => Scan(l1, current + [s[0]], s[1..])
      case Cut => Emit(current) + Scan(l1, "", s[1..])
      case Drop => Scan(l1, current, s[1..])
  }

  function Split(source: string): seq<string> { Scan(NEUTRAL, "", source) }

  function Join(segments: seq<string>): string {
    if segments == [] then ""
    else if |segments| == 1 then segments[0]
    else segments[0] + ";" + Join(segments[1..])
  }

  /** The lexer state after reading `s`. */
  function LexRun(l: Lex, s: string): Lex
    decreases |s|
  {
    if s == "" then l else LexRun(Step(l, s[0]).0, s[1..])
  }

  /** No character of `s` is cut at or dropped. */
  predicate Solid(l: Lex, s: string)
    decreases |s|
  {
    s == "" || (Step(l, s[0]).1.Keep? && Solid(Step(l, s[0]).0, s[1..]))
  }

  /** A segment: nothing to trim, to cut or to drop. */
  predicate IsSegment(s: string) {
    s != "" && IsTrimmed(s) && Solid(NEUTRAL, s)
  }

  /** A segment after which every quote and bracket is closed. */
  predicate IsClosedSegment(s: string) {
    IsSegment(s) && LexRun(NEUTRAL, s) == NEUTRAL
  }

  /** What a list of segments must satisfy: only the last may leave something open. */
  predicate IsSegmentList(segments: seq<string>) {
    && (forall i | 0 <= i < |segments| :: IsSegment(segments[i]))
    && (forall i | 0 <= i < |segments| - 1 :: IsClosedSegment(segments[i]))
  }

  /** The source without its comments. */
  function Uncommented(l: Lex, s: string): string
    decreases |s|
  {
    if s == "" then ""
    else (if Step(l, s[0]).1.Drop? then "" else [s[0]]) + Uncommented(Step(l, s[0]).0, s[1..])
  }

  /** Pieces between top-level semicolons: nothing in a piece is cut at or dropped, and before
      each joining semicolon every quote and bracket is closed. */
  predicate IsPieces(pieces: seq<string>) {
    && pieces != []
    && (forall i | 0 <= i < |pieces| :: Solid(NEUTRAL, pieces[i]))
    && (forall i | 0 <= i < |pieces| - 1 :: LexRun(NEUTRAL, pieces[i]) == NEUTRAL)
  }

  /** The pieces that are not blank, trimmed. */
  function Trimmed(pieces: seq<string>): seq<string> {
    if pieces == [] then [] else Emit(pieces[0]) + Trimmed(pieces[1..])
  }

  /** The pieces of a source, with `current` read of the first. */
  function Pieces(l: Lex, current: string, s: string): (pieces: seq<string>)
    ensures pieces != []
    decreases |s|
  {
    if s == "" then [current]
    else
      var (l1, act) := Step(l, s[0]);
      match act
      case Keep => Pieces(l1, current + [s[0]], s[1..])
      case Cut => [current] + Pieces(l1, "", s[1..])
      case Drop => Pieces(l1, current, s[1..])
  }

  // ----- lemmas --------------------------------------------------------------

  lemma {:induction false} ScanSolid(l: Lex, current: string, s: string, rest: string)
    requires Solid(l, s)
    ensures Scan(l, current, s + rest) == Scan(LexRun(l, s), current + s, rest)
    decreases |s|
  {
    hide Step, Emit;
    if s == "" {
      assert s + rest == rest && current + s == current;
    } else {
      assert (s + rest)[1..] == s[1..] + rest;
      ScanSolid(Step(l, s[0]).0, current + [s[0]], s[1..], rest);
      assert current + [s[0]] + s[1..] == current + s;
    }
  }

  lemma {:induction false} LexRunAppend(l: Lex, a: string, b: string)
    ensures LexRun(l, a + b) == LexRun(LexRun(l, a), b)
    ensures Solid(l, a + b) <==> Solid(l, a) && Solid(LexRun(l, a), b)
    decreases |a|
  {
    hide Step;
    if a == "" {
      assert a + b == b;
    } else {
      assert (a + b)[1..] == a[1..] + b;
      LexRunAppend(Step(l, a[0]).0, a[1..], b);
    }
  }

  /** Joined pieces split into what is left of them when trimmed. */
  lemma {:induction false} SplitOfPieces(pieces: seq<string>)
    requires IsPieces(pieces)
    ensures Split(Join(pieces)) == Trimmed(pieces)
    decreases |pieces|
  {
    hide Scan, Step, Solid, LexRun, Emit;
    var first, rest := pieces[0], pieces[1..];
    assert "" + first == first;
    if rest == [] {
      ScanSolid(NEUTRAL, "", first, "");
      ScanEmpty(LexRun(NEUTRAL, first), first);
      assert first + "" == first;
    } else {
      assert forall i | 0 <= i < |rest| :: rest[i] == pieces[i + 1];
      SplitOfPieces(rest);
      ScanSolid(NEUTRAL, "", first, ";" + Join(rest));
      ScanCut(first, Join(rest));
      assert Join(pieces) == first + (";" + Join(rest));
    }
  }

  lemma {:induction false} TrimmedSegments(segments: seq<string>)
    requires IsSegmentList(segments)
    ensures Trimmed(segments) == segments
  {
    hide IsTrimmed, Trim, Solid;
    if segments != [] {
      assert IsSegment(segments[0]);
      TrimOfTrimmed(segments[0]);
      assert segments == [segments[0]] + segments[1..];
      assert forall i | 0 <= i < |segments[1..]| :: segments[1..][i] == segments[i + 1];
      TrimmedSegments(segments[1..]);
    }
  }

  /** Splitting a joined segment list gives the list back. */
  lemma SplitJoin(segments: seq<string>)
    requires IsSegmentList(segments)
    ensures Split(Join(segments)) == segments
  {
    hide Scan, Solid, LexRun, IsTrimmed, Trim, Emit;
    TrimmedSegments(segments);
    if segments == [] {
      ScanEmpty(NEUTRAL, "");
      NothingEmitted();
    } else {
      forall i | 0 <= i < |segments|
        ensures Solid(NEUTRAL, segments[i])
        ensures i < |segments| - 1 ==> LexRun(NEUTRAL, segments[i]) == NEUTRAL
      {
        assert IsSegment(segments[i]);
      }
      SplitOfPieces(segments);
    }
  }

  lemma NothingEmitted()
    ensures Emit("") == []
  {
    TrimOfTrimmed("");
  }

  lemma ScanEmpty(l: Lex, current: string)
    ensures Scan(l, current, "") == Emit(current)
  {
  }

  lemma ScanCut(current: string, rest: string)
    ensures Scan(NEUTRAL, current, ";" + rest) == Emit(current) + Scan(NEUTRAL, "", rest)
  {
    hide Emit;
    assert (";" + rest)[1..] == rest;
  }

  /** Whitespace changes nothing but a pending escape. */
  lemma {:induction false} BlankRun(l: Lex, s: string)
    requires IsBlank(s) && !l.comment
    ensures Solid(l, s)
    ensures LexRun(l, s) == if s == "" then l else l.(escaped := false)
    decreases |s|
  {
    if s != "" {
      assert IsWhitespace(s[0]);
      assert forall i | 0 <= i < |s[1..]| :: s[1..][i] == s[i + 1];
      BlankRun(l.(escaped := false), s[1..]);
    }
  }

  /** A pending escape is always inside a string. */
  lemma {:induction false} EscapeInString(l: Lex, s: string)
    requires l.escaped ==> l.double || l.backtick
    requires !l.comment && Solid(l, s)
    ensures !LexRun(l, s).comment
    ensures LexRun(l, s).escaped ==> LexRun(l, s).double || LexRun(l, s).backtick
    decreases |s|
  {
    if s != "" {
      EscapeInString(Step(l, s[0]).0, s[1..]);
    }
  }

  lemma DropLeadingBlank(blank: string, t: string)
    requires IsBlank(blank) && Solid(NEUTRAL, blank + t)
    ensures Solid(NEUTRAL, t) && LexRun(NEUTRAL, blank + t) == LexRun(NEUTRAL, t)
  {
    hide Solid, LexRun, IsBlank;
    BlankRun(NEUTRAL, blank);
    LexRunAppend(NEUTRAL, blank, t);
  }

  lemma DropTrailingBlank(t: string, blank: string)
    requires IsBlank(blank) && Solid(NEUTRAL, t + blank)
    ensures Solid(NEUTRAL, t)
    ensures LexRun(NEUTRAL, t + blank) == NEUTRAL ==> LexRun(NEUTRAL, t) == NEUTRAL
  {
    hide Solid, LexRun, IsBlank;
    LexRunAppend(NEUTRAL, t, blank);
    EscapeInString(NEUTRAL, t);
    BlankRun(LexRun(NEUTRAL, t), blank);
  }

  lemma TrimKeepsSegment(current: string)
    requires Solid(NEUTRAL, current) && Trim(current) != ""
    ensures IsSegment(Trim(current))
    ensures LexRun(NEUTRAL, current) == NEUTRAL ==> IsClosedSegment(Trim(current))
  {
    hide Solid, LexRun, IsTrimmed, IsBlank, TrimmedEnd, FirstVisible;
    var k := FirstVisible(current);
    var t := current[k..];
    var n := TrimmedEnd(t);
    assert current == current[..k] + t && t == t[..n] + t[n..];
    BlankTail(t, n);
    TrimIsTrimmed(current);
    DropLeadingBlank(current[..k], t);
    DropTrailingBlank(t[..n], t[n..]);
  }

  lemma {:induction false} ScanTrimsPieces(l: Lex, current: string, s: string)
    ensures Scan(l, current, s) == Trimmed(Pieces(l, current, s))
    decreases |s|
  {
    hide Step, Emit;
    if s != "" {
      var (l1, act) := Step(l, s[0]);
      match act {
        case Keep => ScanTrimsPieces(l1, current + [s[0]], s[1..]);
        case Drop => ScanTrimsPieces(l1, current, s[1..]);
        case Cut =>
          ScanTrimsPieces(l1, "", s[1..]);
          assert ([current] + Pieces(l1, "", s[1..]))[1..] == Pieces(l1, "", s[1..]);
      }
    } else {
      assert [current][1..] == [];
      assert Emit(current) + [] == Emit(current);
    }
  }

  lemma JoinCons(first: string, rest: seq<string>)
    requires rest != []
    ensures Join([first] + rest) == first + ";" + Join(rest)
  {
    assert ([first] + rest)[1..] == rest;
  }

  lemma JoinOne(first: string)
    ensures Join([first]) == first
  {
  }

  lemma {:induction false} PiecesJoin(l: Lex, current: string, s: string)
    requires l.comment ==> l == NEUTRAL.(comment := true)
    ensures Join(Pieces(l, current, s)) == current + Uncommented(l, s)
    decreases |s|
  {
    hide Step, Join;
    if s != "" {
      StepShape(l, s[0]);
      CutAtSemicolon(l, s[0]);
      var (l1, act) := Step(l, s[0]);
      match act {
        case Keep =>
          PiecesJoin(l1, current + [s[0]], s[1..]);
          assert current + [s[0]] + Uncommented(l1, s[1..]) == current + ([s[0]] + Uncommented(l1, s[1..]));
        case Drop =>
          PiecesJoin(l1, current, s[1..]);
          assert "" + Uncommented(l1, s[1..]) == Uncommented(l1, s[1..]);
        case Cut =>
          var rest := Pieces(l1, "", s[1..]);
          PiecesJoin(l1, "", s[1..]);
          JoinCons(current, rest);
          assert current + ";" + ("" + Uncommented(l1, s[1..])) == current + ([s[0]] + Uncommented(l1, s[1..]));
      }
    } else {
      JoinOne(current);
      assert current + "" == current;
    }
  }

  lemma CutAtSemicolon(l: Lex, c: char)
    ensures Step(l, c).1.Cut? ==> c == ';'
  {
  }

  lemma {:induction false} PiecesAreSolid(l: Lex, current: string, s: string)
    requires Solid(NEUTRAL, current)
    requires LexRun(NEUTRAL, current) == l.(comment := false)
    requires l.comment ==> l == NEUTRAL.(comment := true)
    ensures IsPieces(Pieces(l, current, s))
    decreases |s|
  {
    hide Solid, LexRun, Step;
    if s != "" {
      StepShape(l, s[0]);
      var (l1, act) := Step(l, s[0]);
      match act {
        case Keep =>
          LexRunAppend(NEUTRAL, current, [s[0]]);
          OneStep(l, s[0]);
          PiecesAreSolid(l1, current + [s[0]], s[1..]);
        case Drop =>
          PiecesAreSolid(l1, current, s[1..]);
        case Cut =>
          EmptyRun();
          PiecesAreSolid(l1, "", s[1..]);
          var rest := Pieces(l1, "", s[1..]);
          assert forall i | 0 < i <= |rest| :: ([current] + rest)[i] == rest[i - 1];
      }
    }
  }

  /** The pieces are the source cut at its top-level semicolons and nowhere else. */
  ghost predicate CutsAt(source: string, pieces: seq<string>) {
    IsPieces(pieces) && Join(pieces) == Uncommented(NEUTRAL, source)
  }

  /** A split is exact: cutting the source without its comments at the semicolons outside
      quotes and brackets is possible, and in one way only as far as the segments go; they
      are the pieces trimmed, blank ones left out, and no other character is lost, added or
      moved. */
  lemma SplitIsExact(source: string)
    ensures exists pieces :: CutsAt(source, pieces)
    ensures forall pieces | CutsAt(source, pieces) :: Split(source) == Trimmed(pieces)
  {
    hide Scan, Pieces, Join, Uncommented, IsPieces, Trimmed;
    var pieces := Pieces(NEUTRAL, "", source);
    EmptyRun();
    PiecesAreSolid(NEUTRAL, "", source);
    PiecesJoin(NEUTRAL, "", source);
    assert "" + Uncommented(NEUTRAL, source) == Uncommented(NEUTRAL, source);
    assert CutsAt(source, pieces);
    ScanTrimsPieces(NEUTRAL, "", source);
    SplitOfPieces(pieces);
    forall others | CutsAt(source, others)
      ensures Split(source) == Trimmed(others)
    {
      SplitOfPieces(others);
    }
  }

  /** What is left of pieces is a segment list. */
  lemma {:induction false} TrimmedAreSegments(pieces: seq<string>)
    requires IsPieces(pieces)
    ensures IsSegmentList(Trimmed(pieces))
    decreases |pieces|
  {
    hide IsSegment, IsClosedSegment, Solid, LexRun, Trim;
    var first, rest := pieces[0], pieces[1..];
    if Trim(first) != "" {
      TrimKeepsSegment(first);
    }
    if rest == [] {
      assert Trimmed(pieces) == Emit(first) + [];
    } else {
      assert forall i | 0 <= i < |rest| :: rest[i] == pieces[i + 1];
      TrimmedAreSegments(rest);
      SegmentListCons(first, Trimmed(rest));
    }
  }

  lemma SegmentListCons(current: string, tail: seq<string>)
    requires IsSegmentList(tail)
    requires Trim(current) != "" ==> IsClosedSegment(Trim(current)) && IsSegment(Trim(current))
    ensures IsSegmentList(Emit(current) + tail)
  {
    hide IsSegment, IsClosedSegment, Trim;
    var all := Emit(current) + tail;
    if Trim(current) != "" {
      assert all[0] == Trim(current) && forall i | 0 <= i < |tail| :: all[i + 1] == tail[i];
      assert forall i | 0 < i < |all| :: all[i] == tail[i - 1];
    } else {
      assert all == tail;
    }
  }

  lemma EmptyRun()
    ensures Solid(NEUTRAL, "") && LexRun(NEUTRAL, "") == NEUTRAL
  {
  }

  lemma OneStep(l: Lex, c: char)
    ensures LexRun(l, [c]) == Step(l, c).0
    ensures Solid(l, [c]) <==> Step(l, c).1.Keep?
  {
    hide Step;
    assert [c][1..] == "";
  }

  lemma StepShape(l: Lex, c: char)
    requires l.comment ==> l == NEUTRAL.(comment := true)
    ensures var (l1, act) := Step(l, c);
            && (l1.comment ==> l1 == NEUTRAL.(comment := true))
            && (act.Keep? ==> !l.comment && !l1.comment)
            && (act.Cut? ==> l == l1 == NEUTRAL)
            && (act.Drop? ==> l.(comment := false) == l1.(comment := false) == NEUTRAL)
  {
  }

  /** Every split is a segment list. */
  lemma SplitGivesSegments(source: string)
    ensures IsSegmentList(Split(source))
  {
    hide Pieces, Trimmed, IsPieces, IsSegmentList;
    EmptyRun();
    PiecesAreSolid(NEUTRAL, "", source);
    ScanTrimsPieces(NEUTRAL, "", source);
    TrimmedAreSegments(Pieces(NEUTRAL, "", source));
  }

  /** A text is one segment exactly when splitting leaves it as it is. */
  lemma SegmentIsFixpoint(s: string)
    ensures Split(s) == [s] <==> IsSegment(s)
  {
    hide IsSegment, IsClosedSegment, Scan;
    if IsSegment(s) {
      assert IsSegmentList([s]);
      SplitJoin([s]);
    }
    SplitGivesSegments(s);
    assert Split(s) == [s] ==> IsSegment(Split(s)[0]);
  }

  /** Re-joining what was split and splitting again changes nothing, for every source. */
  lemma SplitIdempotent(source: string)
    ensures Split(Join(Split(source))) == Split(source)
  {
    SplitGivesSegments(source);
    SplitJoin(Split(source));
  }

  // ----- the loop -------------------------------------------------------------

  /** What was cut off and what the scan of the rest still yields make up the split. */
  ghost predicate Progress(source: string, segments: seq<string>, l: Lex, current: string, i: nat) {
    i <= |source| && segments + Scan(l, current, source[i..]) == Split(source)
  }

  lemma ProgressStarts(source: string)
    ensures Progress(source, [], NEUTRAL, "", 0)
  {
    assert source[0..] == source;
  }

  lemma ProgressStep(source: string, segments: seq<string>, l: Lex, current: string, i: nat)
    requires Progress(source, segments, l, current, i) && i < |source|
    ensures var (l1, act) := Step(l, source[i]);
            Progress(source, if act.Cut? then segments + Emit(current) else segments, l1,
                     if act.Keep? then current + [source[i]] else if act.Cut? then "" else current, i + 1)
  {
    hide Emit, Step;
    assert source[i..][1..] == source[i + 1..] && source[i..][0] == source[i];
  }

  lemma ProgressEnds(source: string, segments: seq<string>, l: Lex, current: string)
    requires Progress(source, segments, l, current, |source|)
    ensures segments + Emit(current) == Split(source)
  {
    assert source[|source|..] == "";
    ScanEmpty(l, current);
  }

  method SplitTopLevelSegments(source: string) returns (segments: seq<string>)
    ensures segments == Split(source)
  {
    hide Trim, Progress, Split;
    segments := [];
    var current := "";
    var parenDepth: nat, braceDepth: nat, bracketDepth: nat := 0, 0, 0;
    var singleQuoted, doubleQuoted, backtickQuoted, escaped, inComment := false, false, false, false, false;
    var i := 0;
    ProgressStarts(source);
    while i < |source|
      invariant 0 <= i <= |source|
      invariant Progress(source, segments, Lex(parenDepth, braceDepth, bracketDepth, singleQuoted, doubleQuoted,
                                               backtickQuoted, escaped, inComment), current, i)
    {
      var ch := source[i];
      ghost var l := Lex(parenDepth, braceDepth, bracketDepth, singleQuoted, doubleQuoted,
                         backtickQuoted, escaped, inComment);
      ghost var before, kept := segments, current;
      ProgressStep(source, segments, l, current, i);
      var inString := singleQuoted || doubleQuoted || backtickQuoted;
      var nested := parenDepth > 0 || braceDepth > 0 || bracketDepth > 0;
      if inComment {
        if ch == '\n' {
          inComment := false;
        }
      } else if escaped {
        current := current + [ch];
        escaped := false;
      } else if ch == '\\' && (doubleQuoted || backtickQuoted) {
        current := current + [ch];
        escaped := true;
      } else if ch == '#' && !inString && !nested {
        inComment := true;
      } else if ch == '\'' && !doubleQuoted && !backtickQuoted {
        singleQuoted := !singleQuoted;
        current := current + [ch];
      } else if ch == '"' && !singleQuoted && !backtickQuoted {
        doubleQuoted := !doubleQuoted;
        current := current + [ch];
      } else if ch == '`' && !singleQuoted && !doubleQuoted {
        backtickQuoted := !backtickQuoted;
        current := current + [ch];
      } else if ch == '{' && !inString {
        braceDepth := braceDepth + 1;
        current := current + [ch];
      } else if ch == '}' && !inString {
        braceDepth := SaturatingDec(braceDepth);
        current := current + [ch];
      } else if ch == '(' && !inString {
        parenDepth := parenDepth + 1;
        current := current + [ch];
      } else if ch == ')' && !inString {
        parenDepth := SaturatingDec(parenDepth);
        current := current + [ch];
      } else if ch == '[' && !inString {
        bracketDepth := bracketDepth + 1;
        current := current + [ch];
      } else if ch == ']' && !inString {
        bracketDepth := SaturatingDec(bracketDepth);
        current := current + [ch];
      } else if ch == ';' && !inString && !nested {
        var trimmed := Trim(current);
        if trimmed != "" {
          segments := segments + [trimmed];
        }
        current := "";
      } else {
        current := current + [ch];
      }
      assert segments == if Step(l, ch).1.Cut? then before + Emit(kept) else before;
      assert current == if Step(l, ch).1.Keep? then kept + [ch] else if Step(l, ch).1.Cut? then "" else kept;
      assert Lex(parenDepth, braceDepth, bracketDepth, singleQuoted, doubleQuoted, backtickQuoted, escaped, inComment)
          == Step(l, ch).0;
      i := i + 1;
    }
    ProgressEnds(source, segments, Lex(parenDepth, braceDepth, bracketDepth, singleQuoted, doubleQuoted,
                                       backtickQuoted, escaped, inComment), current);
    var trimmed := Trim(current);
    if trimmed != "" {
      segments := segments + [trimmed];
    }
  }
}
