/** Where a Nu command line is cut, told without the scanner: a line is a list of tokens,
    and it is cut at the semicolons that stand outside quotes and comments where no bracket
    is open. */
module NuTokens {
  import opened Text
  import opened NuSegments

  /** A character outside quotes, a closed quotation, a comment with its line end. */
  datatype Token = Plain(c: char) | Quoted(q: char, body: string) | Comment(text: string)

  /** What a line may end in: a comment without a line end, or a quote that is never closed. */
  datatype Tail = Ended | OpenComment(text: string) | OpenQuote(q: char, body: string)

  predicate IsQuote(c: char) { c == '\'' || c == '"' || c == '`' }

  /** No quote `q` in the body but escaped ones; single quotes know no escapes. */
  predicate IsBody(q: char, body: string) {
    body == "" ||
    if body[0] == '\\' && q != '\'' then |body| >= 2 && IsBody(q, body[2..])
    else body[0] != q && IsBody(q, body[1..])
  }

  /** The same, but the body may end in a lone backslash. */
  predicate IsOpenBody(q: char, body: string) {
    body == "" || (body == "\\" && q != '\'') ||
    if body[0] == '\\' && q != '\'' then |body| >= 2 && IsOpenBody(q, body[2..])
    else body[0] != q && IsOpenBody(q, body[1..])
  }

  /** How many brackets of one kind are open; a bracket that closes nothing is ignored. */
  function Depth(ts: seq<Token>, open: char, close: char): nat {
    if ts == [] then 0
    else
      var d, t := Depth(ts[..|ts| - 1], open, close), ts[|ts| - 1];
      if t == Plain(open) then d + 1 else if t == Plain(close) && d > 0 then d - 1 else d
  }

  predicate AtTop(ts: seq<Token>) {
    Depth(ts, '{', '}') == 0 && Depth(ts, '(', ')') == 0 && Depth(ts, '[', ']') == 0
  }

  /** A token that may follow `before`: a comment starts at top level only, and there a `#`
      is nothing else. */
  predicate May(before: seq<Token>, t: Token) {
    match t
    case Plain(c) => !IsQuote(c) && (c == '#' ==> !AtTop(before))
    case Quoted(q, body) => IsQuote(q) && IsBody(q, body)
    case Comment(text) => AtTop(before) && '\n' !in text
  }

  predicate Tokens(ts: seq<Token>) {
    forall i | 0 <= i < |ts| :: May(ts[..i], ts[i])
  }

  predicate MayEnd(ts: seq<Token>, tail: Tail) {
    match tail
    case Ended => true
    case OpenComment(text) => AtTop(ts) && '\n' !in text
    case OpenQuote(q, body) => IsQuote(q) && IsOpenBody(q, body)
  }

  function Shown(t: Token): string {
    match t
    case Plain(c) => [c]
    case Quoted(q, body) => [q] + body + [q]
    case Comment(text) => "#" + text + "\n"
  }

  function ShownTail(tail: Tail): string {
    match tail
    case Ended => ""
    case OpenComment(text) => "#" + text
    case OpenQuote(q, body) => [q] + body
  }

  function Show(ts: seq<Token>): string {
    if ts == [] then "" else Show(ts[..|ts| - 1]) + Shown(ts[|ts| - 1])
  }

  /** The pieces: cut at each semicolon at top level, comments left out. */
  function Cut(ts: seq<Token>): (pieces: seq<string>)
    ensures pieces != []
  {
    if ts == [] then [""]
    else
      var before, t := ts[..|ts| - 1], ts[|ts| - 1];
      if t == Plain(';') && AtTop(before) then Cut(before) + [""]
      else if t.Comment? then Cut(before)
      else Extended(Cut(before), Shown(t))
  }

  function Extended(pieces: seq<string>, more: string): (longer: seq<string>)
    requires pieces != []
    ensures longer != []
  {
    pieces[..|pieces| - 1] + [pieces[|pieces| - 1] + more]
  }

  function CutTail(pieces: seq<string>, tail: Tail): seq<string>
    requires pieces != []
  {
    if tail.OpenQuote? then Extended(pieces, ShownTail(tail)) else pieces
  }

  // ----- the scanner reads tokens -----------------------------------------------------------

  /** The scanner between two tokens. */
  function Between(ts: seq<Token>): Lex {
    NEUTRAL.(paren := Depth(ts, '(', ')'), brace := Depth(ts, '{', '}'), bracket := Depth(ts, '[', ']'))
  }

  lemma BetweenShape(ts: seq<Token>)
    ensures var l := Between(ts);
            !l.InString() && !l.escaped && !l.comment && (l.Nested() <==> !AtTop(ts))
  {
  }

  lemma DepthSnoc(ts: seq<Token>, t: Token, open: char, close: char)
    ensures Depth(ts + [t], open, close) ==
            var d := Depth(ts, open, close);
            if t == Plain(open) then d + 1 else if t == Plain(close) && d > 0 then d - 1 else d
  {
    assert (ts + [t])[..|ts|] == ts;
  }

  lemma PlainStep(ts: seq<Token>, c: char)
    requires May(ts, Plain(c))
    ensures Step(Between(ts), c) == (Between(ts + [Plain(c)]), if c == ';' && AtTop(ts) then Action.Cut else Keep)
  {
    hide Depth;
    DepthSnoc(ts, Plain(c), '(', ')');
    DepthSnoc(ts, Plain(c), '{', '}');
    DepthSnoc(ts, Plain(c), '[', ']');
  }

  lemma OtherKeeps(ts: seq<Token>, t: Token)
    requires !t.Plain?
    ensures Between(ts + [t]) == Between(ts)
  {
    hide Depth;
    DepthSnoc(ts, t, '(', ')');
    DepthSnoc(ts, t, '{', '}');
    DepthSnoc(ts, t, '[', ']');
  }

  function InQuote(l: Lex, q: char): Lex {
    l.(single := q == '\'', double := q == '"', backtick := q == '`')
  }

  predicate Outside(l: Lex) {
    !l.InString() && !l.escaped && !l.comment
  }

  lemma {:induction false} BodySolid(l: Lex, q: char, body: string)
    requires Outside(l) && IsQuote(q) && IsBody(q, body)
    ensures Solid(InQuote(l, q), body) && LexRun(InQuote(l, q), body) == InQuote(l, q)
    decreases |body|
  {
    if body != "" {
      var m := InQuote(l, q);
      if body[0] == '\\' && q != '\'' {
        assert Step(m, body[0]) == (m.(escaped := true), Keep);
        assert body[1..][1..] == body[2..];
        assert Step(m.(escaped := true), body[1]) == (m, Keep);
        BodySolid(l, q, body[2..]);
      } else {
        assert Step(m, body[0]) == (m, Keep);
        BodySolid(l, q, body[1..]);
      }
    }
  }

  lemma {:induction false} OpenBodySolid(l: Lex, q: char, body: string)
    requires Outside(l) && IsQuote(q) && IsOpenBody(q, body)
    ensures Solid(InQuote(l, q), body)
    decreases |body|
  {
    if body != "" {
      var m := InQuote(l, q);
      if body[0] == '\\' && q != '\'' {
        assert Step(m, body[0]) == (m.(escaped := true), Keep);
        if body == "\\" {
          assert body[1..] == "";
        } else {
          assert body[1..][1..] == body[2..];
          assert Step(m.(escaped := true), body[1]) == (m, Keep);
          OpenBodySolid(l, q, body[2..]);
        }
      } else {
        assert Step(m, body[0]) == (m, Keep);
        OpenBodySolid(l, q, body[1..]);
      }
    }
  }

  lemma QuoteSteps(l: Lex, q: char)
    requires Outside(l) && IsQuote(q)
    ensures Step(l, q) == (InQuote(l, q), Keep) && Step(InQuote(l, q), q) == (l, Keep)
  {
  }

  lemma QuotedSolid(l: Lex, q: char, body: string)
    requires Outside(l) && IsQuote(q) && IsBody(q, body)
    ensures Solid(l, [q] + body + [q]) && LexRun(l, [q] + body + [q]) == l
  {
    hide Step, Solid, LexRun, Outside;
    QuoteSteps(l, q);
    OneStep(l, q);
    OneStep(InQuote(l, q), q);
    BodySolid(l, q, body);
    LexRunAppend(l, [q], body);
    LexRunAppend(l, [q] + body, [q]);
  }

  lemma OpenQuoteSolid(l: Lex, q: char, body: string)
    requires Outside(l) && IsQuote(q) && IsOpenBody(q, body)
    ensures Solid(l, [q] + body)
  {
    hide Step, Solid, LexRun, Outside;
    QuoteSteps(l, q);
    OneStep(l, q);
    OpenBodySolid(l, q, body);
    LexRunAppend(l, [q], body);
  }

  lemma {:induction false} CommentSkipped(l: Lex, current: string, text: string, rest: string)
    requires '\n' !in text && l.comment
    ensures Scan(l, current, text + rest) == Scan(l, current, rest)
    decreases |text|
  {
    if text == "" {
      assert text + rest == rest;
    } else {
      assert (text + rest)[1..] == text[1..] + rest && text[0] in text;
      CommentSkipped(l, current, text[1..], rest);
    }
  }

  lemma HashStarts(l: Lex, current: string, rest: string)
    requires Outside(l) && !l.Nested()
    ensures Scan(l, current, "#" + rest) == Scan(l.(comment := true), current, rest)
  {
    assert ("#" + rest)[1..] == rest;
  }

  lemma LineEnds(l: Lex, current: string, rest: string)
    requires l.comment
    ensures Scan(l, current, "\n" + rest) == Scan(l.(comment := false), current, rest)
  {
    assert ("\n" + rest)[1..] == rest;
  }

  lemma CommentDropped(l: Lex, current: string, text: string, rest: string)
    requires Outside(l) && !l.Nested() && '\n' !in text
    ensures Scan(l, current, "#" + text + "\n" + rest) == Scan(l, current, rest)
  {
    hide Scan;
    var m := l.(comment := true);
    assert "#" + text + "\n" + rest == "#" + (text + ("\n" + rest));
    HashStarts(l, current, text + ("\n" + rest));
    CommentSkipped(m, current, text, "\n" + rest);
    LineEnds(m, current, rest);
  }

  lemma OpenCommentDropped(l: Lex, current: string, text: string)
    requires Outside(l) && !l.Nested() && '\n' !in text
    ensures Scan(l, current, "#" + text) == Scan(l, current, "")
  {
    hide Scan;
    HashStarts(l, current, text);
    assert text + "" == text;
    CommentSkipped(l.(comment := true), current, text, "");
    ScanEmpty(l, current);
    ScanEmpty(l.(comment := true), current);
  }

  lemma PlainScanned(l: Lex, current: string, c: char, rest: string)
    ensures Scan(l, current, [c] + rest) ==
            match Step(l, c).1
            case Keep => Scan(Step(l, c).0, current + [c], rest)
            case Cut => Emit(current) + Scan(Step(l, c).0, "", rest)
            case Drop => Scan(Step(l, c).0, current, rest)
  {
    hide Step, Emit;
    assert ([c] + rest)[1..] == rest && ([c] + rest)[0] == c;
  }

  lemma {:induction false} TrimmedAppend(a: seq<string>, b: seq<string>)
    ensures Trimmed(a + b) == Trimmed(a) + Trimmed(b)
  {
    hide Emit;
    if a == [] {
      assert a + b == b;
    } else {
      assert (a + b)[1..] == a[1..] + b && (a + b)[0] == a[0];
      TrimmedAppend(a[1..], b);
    }
  }

  lemma TrimmedOne(piece: string)
    ensures Trimmed([piece]) == Emit(piece)
  {
    hide Emit;
    assert [piece][1..] == [];
  }

  /** What is decided after some tokens, and the piece still growing. */
  function Decided(ts: seq<Token>): seq<string> { Trimmed(Cut(ts)[..|Cut(ts)| - 1]) }

  function Growing(ts: seq<Token>): string { Cut(ts)[|Cut(ts)| - 1] }

  lemma CutSnoc(ts: seq<Token>, t: Token)
    ensures Cut(ts + [t]) == if t == Plain(';') && AtTop(ts) then Cut(ts) + [""]
                             else if t.Comment? then Cut(ts) else Extended(Cut(ts), Shown(t))
    ensures Show(ts + [t]) == Show(ts) + Shown(t)
  {
    hide AtTop;
    assert (ts + [t])[..|ts|] == ts;
  }

  lemma Grows(ts: seq<Token>, t: Token)
    requires !t.Comment? && !(t == Plain(';') && AtTop(ts))
    ensures Decided(ts + [t]) == Decided(ts) && Growing(ts + [t]) == Growing(ts) + Shown(t)
  {
    hide AtTop, Trimmed, Cut;
    CutSnoc(ts, t);
    var ps := Cut(ts);
    assert Extended(ps, Shown(t))[..|ps| - 1] == ps[..|ps| - 1];
  }

  lemma Decides(ts: seq<Token>)
    requires AtTop(ts)
    ensures Decided(ts + [Plain(';')]) == Decided(ts) + Emit(Growing(ts)) && Growing(ts + [Plain(';')]) == ""
  {
    hide AtTop, Trimmed, Cut, Emit;
    CutSnoc(ts, Plain(';'));
    var ps := Cut(ts);
    assert (ps + [""])[..|ps|] == ps[..|ps| - 1] + [ps[|ps| - 1]];
    TrimmedAppend(ps[..|ps| - 1], [ps[|ps| - 1]]);
    TrimmedOne(ps[|ps| - 1]);
  }

  /** A token scanned: what is decided and what the scan of the rest yields stay the same. */
  ghost predicate Scanned(ts: seq<Token>, t: Token, rest: string) {
    Decided(ts) + Scan(Between(ts), Growing(ts), Shown(t) + rest)
      == Decided(ts + [t]) + Scan(Between(ts + [t]), Growing(ts + [t]), rest)
  }

  lemma PlainTokenScanned(ts: seq<Token>, c: char, rest: string)
    requires May(ts, Plain(c))
    ensures Scanned(ts, Plain(c), rest)
  {
    hide Step, Scan, Emit, AtTop, Between, May, Decided, Growing;
    PlainStep(ts, c);
    PlainScanned(Between(ts), Growing(ts), c, rest);
    if c == ';' && AtTop(ts) {
      Decides(ts);
    } else {
      Grows(ts, Plain(c));
    }
  }

  lemma QuotedTokenScanned(ts: seq<Token>, q: char, body: string, rest: string)
    requires May(ts, Quoted(q, body))
    ensures Scanned(ts, Quoted(q, body), rest)
  {
    hide Step, Scan, Solid, LexRun, AtTop, Between, IsBody, Decided, Growing;
    var l, t := Between(ts), Quoted(q, body);
    BetweenShape(ts);
    QuotedSolid(l, q, body);
    OtherKeeps(ts, t);
    ScanSolid(l, Growing(ts), Shown(t), rest);
    Grows(ts, t);
  }

  lemma CommentTokenScanned(ts: seq<Token>, text: string, rest: string)
    requires May(ts, Comment(text))
    ensures Scanned(ts, Comment(text), rest)
  {
    hide Step, Scan, Trimmed, Cut, AtTop, Between;
    var t := Comment(text);
    BetweenShape(ts);
    CutSnoc(ts, t);
    OtherKeeps(ts, t);
    CommentDropped(Between(ts), Growing(ts), text, rest);
  }

  lemma TokenScanned(ts: seq<Token>, t: Token, rest: string)
    requires May(ts, t)
    ensures Scanned(ts, t, rest)
  {
    hide Scanned, May;
    match t {
      case Plain(c) => PlainTokenScanned(ts, c, rest);
      case Quoted(q, body) => QuotedTokenScanned(ts, q, body, rest);
      case Comment(text) => CommentTokenScanned(ts, text, rest);
    }
  }

  lemma {:induction false} TokensScanned(ts: seq<Token>, rest: string)
    requires Tokens(ts)
    ensures Split(Show(ts) + rest) == Decided(ts) + Scan(Between(ts), Growing(ts), rest)
    decreases |ts|
  {
    hide Scan, May, Decided, Growing, Between, Shown;
    if ts == [] {
      assert Show(ts) + rest == rest;
      NothingYet(rest);
    } else {
      var before, t := ts[..|ts| - 1], ts[|ts| - 1];
      assert before + [t] == ts;
      assert forall i | 0 <= i < |before| :: before[..i] == ts[..i];
      assert Show(ts) + rest == Show(before) + (Shown(t) + rest);
      TokensScanned(before, Shown(t) + rest);
      TokenScanned(before, t, rest);
    }
  }

  lemma NothingYet(rest: string)
    ensures Split(rest) == Decided([]) + Scan(Between([]), Growing([]), rest)
  {
    hide Scan;
    assert Cut([])[..0] == [];
  }

  /** A line of tokens is cut at its top-level semicolons and nowhere else: the segments are
      the pieces, comments left out, trimmed, the blank ones dropped. */
  lemma SplitCutsTokens(ts: seq<Token>, tail: Tail)
    requires Tokens(ts) && MayEnd(ts, tail)
    ensures Split(Show(ts) + ShownTail(tail)) == Trimmed(CutTail(Cut(ts), tail))
  {
    hide Step, Scan, Solid, LexRun, Trimmed, Cut, Depth, Emit, AtTop, Between, Show, IsOpenBody, Tokens, Split;
    var l, ps := Between(ts), Cut(ts);
    TokensScanned(ts, ShownTail(tail));
    BetweenShape(ts);
    var last := Growing(ts);
    match tail {
      case Ended =>
      case OpenComment(text) =>
        OpenCommentDropped(l, last, text);
      case OpenQuote(q, body) =>
        OpenQuoteSolid(l, q, body);
        assert ShownTail(tail) + "" == ShownTail(tail);
        ScanSolid(l, last, ShownTail(tail), "");
        ScanEmpty(LexRun(l, ShownTail(tail)), last + ShownTail(tail));
    }
    ScanEmpty(l, last);
    var all := CutTail(ps, tail);
    assert all == ps[..|ps| - 1] + [all[|all| - 1]];
    TrimmedAppend(ps[..|ps| - 1], [all[|all| - 1]]);
    TrimmedOne(all[|all| - 1]);
  }

  // ----- every line consists of tokens -------------------------------------------------------

  /** The body of a quotation, up to its closing quote if there is one. */
  lemma {:induction false} ReadBody(q: char, s: string) returns (closed: bool, k: nat)
    requires IsQuote(q)
    ensures closed ==> k < |s| && s[k] == q && IsBody(q, s[..k])
    ensures !closed ==> IsOpenBody(q, s)
    decreases |s|
  {
    if s == "" || (s == "\\" && q != '\'') {
      closed, k := false, 0;
    } else if s[0] == '\\' && q != '\'' {
      closed, k := ReadBody(q, s[2..]);
      k := k + 2;
      if closed {
        assert s[..k][2..] == s[2..][..k - 2];
      }
    } else if s[0] == q {
      closed, k := true, 0;
    } else {
      closed, k := ReadBody(q, s[1..]);
      k := k + 1;
      if closed {
        assert s[..k][1..] == s[1..][..k - 1];
      }
    }
  }

  lemma {:induction false} ReadLine(s: string) returns (closed: bool, k: nat)
    ensures closed ==> k < |s| && s[k] == '\n' && '\n' !in s[..k]
    ensures !closed ==> '\n' !in s
  {
    closed, k := false, 0;
    if s != "" && s[0] == '\n' {
      closed := true;
    } else if s != "" {
      closed, k := ReadLine(s[1..]);
      k := k + 1;
      if closed {
        assert s[..k] == [s[0]] + s[1..][..k - 1];
      } else {
        assert s == [s[0]] + s[1..];
      }
    }
  }

  lemma TokensSnoc(ts: seq<Token>, t: Token)
    requires Tokens(ts) && May(ts, t)
    ensures Tokens(ts + [t]) && Show(ts + [t]) == Show(ts) + Shown(t)
  {
    hide May;
    assert (ts + [t])[..|ts|] == ts;
    assert forall i | 0 <= i < |ts| :: (ts + [t])[..i] == ts[..i];
  }

  lemma QuoteToken(done: seq<Token>, s: string) returns (t: Option<Token>)
    requires s != "" && IsQuote(s[0])
    ensures t.Some? ==> May(done, t.value) && t.value.Quoted? && Shown(t.value) <= s
    ensures t.None? ==> MayEnd(done, OpenQuote(s[0], s[1..]))
  {
    hide IsBody, IsOpenBody, IsQuote;
    var closed, k := ReadBody(s[0], s[1..]);
    t := None;
    if closed {
      t := Some(Quoted(s[0], s[1..][..k]));
      assert s[..k + 2] == Shown(t.value);
    }
  }

  lemma CommentToken(done: seq<Token>, s: string) returns (t: Option<Token>)
    requires s != "" && s[0] == '#' && AtTop(done)
    ensures t.Some? ==> May(done, t.value) && t.value.Comment? && Shown(t.value) <= s
    ensures t.None? ==> MayEnd(done, OpenComment(s[1..]))
  {
    hide AtTop;
    var closed, k := ReadLine(s[1..]);
    t := None;
    if closed {
      t := Some(Comment(s[1..][..k]));
      assert s[..k + 2] == Shown(t.value);
    }
  }

  /** The first token of what is left, or that it is a tail. */
  lemma FirstToken(done: seq<Token>, s: string) returns (t: Option<Token>, tail: Tail)
    ensures t.Some? ==> May(done, t.value) && Shown(t.value) <= s
    ensures t.None? ==> MayEnd(done, tail) && ShownTail(tail) == s
  {
    hide AtTop, IsBody, IsOpenBody, May, MayEnd;
    t, tail := None, Ended;
    if s == "" {
      EndedMayEnd(done);
    } else if IsQuote(s[0]) {
      t := QuoteToken(done, s);
      tail := OpenQuote(s[0], s[1..]);
    } else if s[0] == '#' && AtTop(done) {
      t := CommentToken(done, s);
      tail := OpenComment(s[1..]);
    } else {
      t := Some(Plain(s[0]));
      PlainMay(done, s[0]);
    }
  }

  lemma EndedMayEnd(done: seq<Token>)
    ensures MayEnd(done, Ended)
  {
  }

  lemma PlainMay(done: seq<Token>, c: char)
    requires !IsQuote(c) && !(c == '#' && AtTop(done))
    ensures May(done, Plain(c))
  {
  }

  lemma {:induction false} LexFrom(done: seq<Token>, s: string) returns (ts: seq<Token>, tail: Tail)
    requires Tokens(done)
    ensures Tokens(ts) && MayEnd(ts, tail) && Show(ts) + ShownTail(tail) == Show(done) + s
    decreases |s|
  {
    hide Show, Tokens, May, MayEnd, ShownTail;
    var t, last := FirstToken(done, s);
    if t.None? {
      ts, tail := done, last;
    } else {
      var n := |Shown(t.value)|;
      TokensSnoc(done, t.value);
      ts, tail := LexFrom(done + [t.value], s[n..]);
      assert Show(done) + Shown(t.value) + s[n..] == Show(done) + s;
    }
  }

  /** Every source is a line of tokens, so the cutting of tokens is all there is to a split. */
  lemma EverySourceIsTokens(source: string)
    ensures exists ts, tail :: Tokens(ts) && MayEnd(ts, tail) && Show(ts) + ShownTail(tail) == source
  {
    hide May, MayEnd;
    var ts, tail := LexFrom([], source);
    assert Show([]) + source == source;
  }

  // ----- plain cases, in the line's own characters -----------------------------------------

  /** No quote and no bracket; semicolons, hashes and backslashes are allowed. */
  predicate IsLoose(s: string) {
    forall i | 0 <= i < |s| :: s[i] !in "'\"`{}()[]"
  }

  predicate IsPair(open: char, close: char) {
    [open, close] == "{}" || [open, close] == "()" || [open, close] == "[]"
  }

  lemma {:induction false} NestedSolid(l: Lex, s: string)
    requires Outside(l) && l.Nested() && IsLoose(s)
    ensures Solid(l, s) && LexRun(l, s) == l
    decreases |s|
  {
    if s != "" {
      assert s[0] !in "'\"`{}()[]";
      assert forall i | 0 <= i < |s[1..]| :: s[1..][i] == s[i + 1];
      NestedSolid(l, s[1..]);
    }
  }

  lemma BracketSteps(open: char, close: char) returns (l: Lex)
    requires IsPair(open, close)
    ensures Step(NEUTRAL, open) == (l, Keep) && Step(l, close) == (NEUTRAL, Keep)
    ensures Outside(l) && l.Nested()
  {
    assert [open, close][0] == open && [open, close][1] == close;
    l := Step(NEUTRAL, open).0;
  }

  /** Whatever stands between two brackets of a kind belongs to one segment: `{a; b # c}`. */
  lemma BracketsHold(open: char, close: char, inner: string)
    requires IsPair(open, close) && IsLoose(inner)
    ensures Split([open] + inner + [close]) == [[open] + inner + [close]]
  {
    hide Step, Solid, LexRun, Outside, Split, IsLoose;
    var l := BracketSteps(open, close);
    assert [open, close][0] == open && [open, close][1] == close;
    OneStep(NEUTRAL, open);
    OneStep(l, close);
    NestedSolid(l, inner);
    LexRunAppend(NEUTRAL, [open], inner);
    LexRunAppend(NEUTRAL, [open] + inner, [close]);
    SegmentIsFixpoint([open] + inner + [close]);
  }

  /** So does a quotation, whatever is in it but an unescaped quote of its own kind. */
  lemma QuotesHold(q: char, body: string)
    requires IsQuote(q) && IsBody(q, body)
    ensures Split([q] + body + [q]) == [[q] + body + [q]]
  {
    hide Solid, Split;
    QuotedSolid(NEUTRAL, q, body);
    SegmentIsFixpoint([q] + body + [q]);
  }

  lemma {:induction false} FreeBody(q: char, s: string)
    requires q !in s && '\\' !in s
    ensures IsBody(q, s)
    decreases |s|
  {
    if s != "" {
      assert s[0] in s && forall c | c in s[1..] :: c in s;
      FreeBody(q, s[1..]);
    }
  }

  lemma {:induction false} EscapedInBody(q: char, a: string, c: char, b: string)
    requires q != '\'' && q !in a && '\\' !in a && IsBody(q, b)
    ensures IsBody(q, a + ['\\', c] + b)
    decreases |a|
  {
    var s := a + ['\\', c] + b;
    if a == "" {
      assert s[2..] == b;
    } else {
      assert a[0] in a && forall d | d in a[1..] :: d in a;
      assert s[1..] == a[1..] + ['\\', c] + b;
      EscapedInBody(q, a[1..], c, b);
    }
  }

  /** An escaped quote does not close a double-quoted or backticked string. */
  lemma EscapedQuoteHolds(q: char, a: string, b: string)
    requires q == '"' || q == '`'
    requires q !in a && '\\' !in a && q !in b && '\\' !in b
    ensures var s := [q] + (a + ['\\', q] + b) + [q]; Split(s) == [s]
  {
    hide IsBody, Split;
    FreeBody(q, b);
    EscapedInBody(q, a, q, b);
    QuotesHold(q, a + ['\\', q] + b);
  }

  /** Nothing in it means anything to the scanner at top level. */
  predicate IsBare(s: string) {
    IsLoose(s) && ';' !in s && '#' !in s
  }

  lemma {:induction false} BareSolid(s: string)
    requires IsBare(s)
    ensures Solid(NEUTRAL, s) && LexRun(NEUTRAL, s) == NEUTRAL
    decreases |s|
  {
    if s != "" {
      assert s[0] !in "'\"`{}()[]" && s[0] in s && forall c | c in s[1..] :: c in s;
      assert forall i | 0 <= i < |s[1..]| :: s[1..][i] == s[i + 1];
      BareSolid(s[1..]);
    }
  }

  /** A semicolon between bare texts separates them, and a comment between them vanishes. */
  lemma SemicolonSeparates(a: string, b: string, text: string)
    requires IsBare(a) && IsBare(b) && '\n' !in text
    ensures Split(a + ";" + b) == Emit(a) + Emit(b)
    ensures Split(a + ("#" + text + "\n" + b)) == Emit(a + b)
  {
    hide Step, Scan, Solid, LexRun, Emit, IsBare;
    BareSolid(a);
    BareSolid(b);
    assert b + "" == b && "" + b == b && "" + a == a;
    ScanSolid(NEUTRAL, "", b, "");
    ScanEmpty(NEUTRAL, b);
    ScanSolid(NEUTRAL, "", a, ";" + b);
    assert a + ";" + b == a + (";" + b);
    ScanCut(a, b);
    ScanSolid(NEUTRAL, "", a, "#" + text + "\n" + b);
    CommentDropped(NEUTRAL, a, text, b);
    ScanSolid(NEUTRAL, a, b, "");
    ScanEmpty(NEUTRAL, a + b);
  }
}
