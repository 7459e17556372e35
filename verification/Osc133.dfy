/** The OSC 133 shell-integration parser and the stripper that must agree with it.
    Framing: OSC is ESC ], the string terminator ST is ESC \ (ECMA-48, sections 8.3.89
    and 8.3.143); BEL is accepted as a terminator as well. */
module Osc133 {
  import opened Text

  newtype byte = b: int | 0 <= b < 256
  type bytes = seq<byte>

  const ESC: byte := 0x1B
  const BEL: byte := 0x07
  const BACKSLASH: byte := 0x5C
  const RIGHT_BRACKET: byte := 0x5D
  const SEMICOLON: byte := 0x3B
  const PARAM_BUF_CAP := 64
  /** The bytes "133;". */
  const MARK: bytes := [0x31, 0x33, 0x33, 0x3B]

  datatype Mode = Ground | Esc | OscParam | OscEsc

  datatype Event = PromptStart | CommandStart | CommandExecuted | CommandFinished(exitCode: Option<int>)

  datatype Zone = Unknown | Prompt | Input | Output

  // ----- decimal 32-bit integers ----------------------------------------------

  predicate IsI32(n: int) { -0x8000_0000 <= n < 0x8000_0000 }

  predicate IsDigit(b: byte) { 0x30 <= b <= 0x39 }

  /** The value of a digit string, most significant digit first. */
  function DigitsValue(ds: bytes): (n: nat)
    requires forall i | 0 <= i < |ds| :: IsDigit(ds[i])
  {
    if ds == [] then 0
    else
      var last := ds[|ds| - 1];
      assert IsDigit(last);
      DigitsValue(ds[..|ds| - 1]) * 10 + last as int - 0x30
  }

  /** `str::parse::<i32>`: an optional sign, at least one digit, no overflow. */
  function ParseI32(text: bytes): (r: Option<int>)
    ensures r.Some? ==> IsI32(r.value)
  {
    var negative := text != [] && text[0] == 0x2D;
    var digits := if text != [] && (text[0] == 0x2D || text[0] == 0x2B) then text[1..] else text;
    if digits == [] || exists i | 0 <= i < |digits| :: !IsDigit(digits[i]) then None
    else
      var magnitude: int := DigitsValue(digits);
      var n: int := if negative then -magnitude else magnitude;
      if IsI32(n) then Some(n) else None
  }

  function PrintNat(n: nat): (ds: bytes)
    ensures |ds| > 0 && forall i | 0 <= i < |ds| :: IsDigit(ds[i])
  {
    (if n < 10 then [] else PrintNat(n / 10)) + [(0x30 + n % 10) as byte]
  }

  function PrintI32(n: int): bytes {
    if n < 0 then [0x2D] + PrintNat(-n) else PrintNat(n)
  }

  lemma {:induction false} PrintNatValue(n: nat)
    ensures DigitsValue(PrintNat(n)) == n
  {
    var ds := PrintNat(n);
    if n >= 10 {
      PrintNatValue(n / 10);
      assert ds[..|ds| - 1] == PrintNat(n / 10);
    } else {
      assert ds[..|ds| - 1] == [];
    }
  }

  function Pow10(k: nat): nat { if k == 0 then 1 else 10 * Pow10(k - 1) }

  lemma {:induction false} PrintNatLength(n: nat, k: nat)
    requires n < Pow10(k) && k > 0
    ensures |PrintNat(n)| <= k
  {
    if n >= 10 {
      assert Pow10(1) == 10 * Pow10(0);
      PrintNatLength(n / 10, k - 1);
    }
  }

  lemma PrintParse(n: int)
    requires IsI32(n)
    ensures ParseI32(PrintI32(n)) == Some(n)
    ensures |PrintI32(n)| <= 11
  {
    hide PrintNat, DigitsValue, ParseI32;
    var m := if n < 0 then -n else n;
    PrintNatValue(m);
    SignedParses(n, PrintNat(m));
    assert [] + PrintNat(m) == PrintNat(m);
    PrintShort(n);
  }

  lemma SignedParses(n: int, digits: bytes)
    requires IsI32(n) && digits != [] && forall i | 0 <= i < |digits| :: IsDigit(digits[i])
    requires DigitsValue(digits) == if n < 0 then -n else n
    ensures ParseI32((if n < 0 then [0x2D] else []) + digits) == Some(n)
  {
    hide DigitsValue;
    var text := (if n < 0 then [0x2D] else []) + digits;
    assert n < 0 ==> text[1..] == digits;
    assert n >= 0 ==> text == digits;
    assert IsDigit(digits[0]);
  }

  lemma PrintShort(n: int)
    requires IsI32(n)
    ensures |PrintI32(n)| <= 11
  {
    hide PrintNat;
    assert Pow10(10) == 10_000_000_000 by {
      assert Pow10(5) == 100_000;
      assert Pow10(6) == 1_000_000 && Pow10(8) == 100_000_000;
    }
    PrintNatLength(if n < 0 then -n else n, 10);
  }

  // ----- the streaming parser, as a function --------------------------------------

  /** The parser between two bytes; `buf` is the filled part of the parameter buffer. */
  datatype PState = PState(mode: Mode, zone: Zone, buf: bytes)

  const START := PState(Ground, Unknown, [])

  function Decode(params: bytes): Option<Event> {
    if |params| < 5 || params[..4] != MARK then None
    else if params[4] == 0x41 then Some(PromptStart)
    else if params[4] == 0x42 then Some(CommandStart)
    else if params[4] == 0x43 then Some(CommandExecuted)
    else if params[4] == 0x44 then
      Some(CommandFinished(if |params| > 6 && params[5] == SEMICOLON then ParseI32(params[6..]) else None))
    else None
  }

  function ZoneAfter(e: Event): Zone {
    match e
    case PromptStart => Prompt
    case CommandStart => Input
    case CommandExecuted => Output
    case CommandFinished(_) => Unknown
  }

  function Dispatch(s: PState): (PState, seq<Event>) {
    match Decode(s.buf)
    case None => (s, [])
    case Some(e) => (s.(zone := ZoneAfter(e)), [e])
  }

  function PushByte(s: PState, b: byte): (PState, seq<Event>) {
    match s.mode
    case Ground => (if b == ESC then s.(mode := Esc) else s, [])
    case Esc => (if b == RIGHT_BRACKET then s.(mode := OscParam, buf := []) else s.(mode := Ground), [])
    case OscParam =>
      if b == BEL then
        var (s1, es) := Dispatch(s);
        (s1.(mode := Ground), es)
      else if b == ESC then (s.(mode := OscEsc), [])
      else (if |s.buf| < PARAM_BUF_CAP then s.(buf := s.buf + [b]) else s, [])
    case OscEsc =>
      var (s1, es) := if b == BACKSLASH then Dispatch(s) else (s, []);
      (s1.(mode := Ground), es)
  }

  function Push(s: PState, data: bytes): (PState, seq<Event>)
    decreases |data|
  {
    if data == [] then (s, [])
    else
      var (s1, es) := PushByte(s, data[0]);
      var (s2, fs) := Push(s1, data[1..]);
      (s2, es + fs)
  }

  function PushAll(s: PState, chunks: seq<bytes>): (PState, seq<Event>)
    decreases |chunks|
  {
    if chunks == [] then (s, [])
    else
      var (s1, es) := Push(s, chunks[0]);
      var (s2, fs) := PushAll(s1, chunks[1..]);
      (s2, es + fs)
  }

  /** Pushing two pieces is pushing their concatenation. */
  lemma {:induction false} PushAppend(s: PState, a: bytes, b: bytes)
    ensures Push(s, a + b) ==
            (Push(Push(s, a).0, b).0, Push(s, a).1 + Push(Push(s, a).0, b).1)
    decreases |a|
  {
    hide PushByte;
    if a == [] {
      assert a + b == b && [] + Push(s, b).1 == Push(s, b).1;
    } else {
      assert (a + b)[0] == a[0] && (a + b)[1..] == a[1..] + b;
      var s1 := PushByte(s, a[0]).0;
      PushAppend(s1, a[1..], b);
      assert PushByte(s, a[0]).1 + (Push(s1, a[1..]).1 + Push(Push(s1, a[1..]).0, b).1)
          == PushByte(s, a[0]).1 + Push(s1, a[1..]).1 + Push(Push(s1, a[1..]).0, b).1;
    }
  }

  /** However the bytes are cut into chunks, the events and the final state are the same. */
  lemma {:induction false} PushChunks(s: PState, chunks: seq<bytes>)
    ensures PushAll(s, chunks) == Push(s, Concat(chunks))
    decreases |chunks|
  {
    if chunks != [] {
      PushAppend(s, chunks[0], Concat(chunks[1..]));
      PushChunks(Push(s, chunks[0]).0, chunks[1..]);
    }
  }

  /** For arbitrary bytes: the buffer never outgrows its capacity and the zone is that
      of the last event, or the old one when there was none. */
  lemma {:induction false} PushSafe(s: PState, data: bytes)
    requires |s.buf| <= PARAM_BUF_CAP
    ensures var (t, es) := Push(s, data);
            && |t.buf| <= PARAM_BUF_CAP
            && t.zone == if es == [] then s.zone else ZoneAfter(es[|es| - 1])
    decreases |data|
  {
    hide Decode, ZoneAfter;
    if data != [] {
      PushSafe(PushByte(s, data[0]).0, data[1..]);
    }
  }

  /** BEL resynchronises: after it the parser is in the ground state whatever came before. */
  lemma BelResets(s: PState, data: bytes)
    ensures Push(s, data + [BEL]).0.mode == Ground
  {
    PushAppend(s, data, [BEL]);
    var t := Push(s, data).0;
    assert Push(t, [BEL]).0 == PushByte(t, BEL).0;
  }

  // ----- the stripper, as a function --------------------------------------------------

  predicate StartsMark(s: bytes) {
    |s| >= 6 && s[0] == ESC && s[1] == RIGHT_BRACKET && s[2..6] == MARK
  }

  /** How many bytes of `s` the terminator search consumes. */
  function SkipToTerminator(s: bytes): (n: nat)
    ensures n <= |s|
    ensures s != [] ==> n > 0
    decreases |s|
  {
    if s == [] then 0
    else if s[0] == BEL then 1
    else if s[0] == ESC && |s| > 1 && s[1] == BACKSLASH then 2
    else 1 + SkipToTerminator(s[1..])
  }

  function Strip(s: bytes): bytes
    decreases |s|
  {
    if s == [] then []
    else if StartsMark(s) then Strip(s[2..][SkipToTerminator(s[2..])..])
    else [s[0]] + Strip(s[1..])
  }

  // ----- well-formed streams ---------------------------------------------------------------

  datatype Terminator = ByBel | BySt

  /** Plain output, or one operating-system command with an arbitrary payload. */
  datatype Item = Plain(text: bytes) | Osc(payload: bytes, term: Terminator)

  predicate ValidItem(i: Item) {
    match i
    case Plain(t) => ESC !in t
    case Osc(p, _) => ESC !in p && BEL !in p
  }

  function Encode(i: Item): bytes {
    match i
    case Plain(t) => t
    case Osc(p, t) => [ESC, RIGHT_BRACKET] + p + (if t.ByBel? then [BEL] else [ESC, BACKSLASH])
  }

  function Render(items: seq<Item>): bytes {
    if items == [] then [] else Encode(items[0]) + Render(items[1..])
  }

  function Clip(p: bytes): bytes {
    if |p| <= PARAM_BUF_CAP then p else p[..PARAM_BUF_CAP]
  }

  predicate IsMark(p: bytes) { MARK <= p }

  /** What the items mean: the events of the commands in order ... */
  function EventsOf(items: seq<Item>): seq<Event> {
    if items == [] then []
    else
      (match items[0]
       case Plain(_) => []
       case Osc(p, _) => (match Decode(Clip(p)) case Some(e) => [e] case None => []))
      + EventsOf(items[1..])
  }

  /** ... and everything that is not an OSC 133 sequence. */
  function DisplayOf(items: seq<Item>): bytes {
    if items == [] then []
    else (if items[0].Osc? && IsMark(items[0].payload) then [] else Encode(items[0])) + DisplayOf(items[1..])
  }

  lemma NoEvents()
    ensures var none: seq<Event> := []; none + none == none
  {
  }

  lemma {:induction false} PushPlain(s: PState, t: bytes)
    requires s.mode == Ground && ESC !in t
    ensures Push(s, t) == (s, [])
    decreases |t|
  {
    if t != [] {
      assert t[0] in t && forall x | x in t[1..] :: x in t;
      PushPlain(s, t[1..]);
      NoEvents();
    }
  }

  lemma {:induction false} PushPayload(s: PState, p: bytes)
    requires s.mode == OscParam && |s.buf| <= PARAM_BUF_CAP
    requires ESC !in p && BEL !in p
    ensures Push(s, p) == (s.(buf := Clip(s.buf + p)), [])
    decreases |p|
  {
    hide Dispatch;
    if p == [] {
      assert s.buf + p == s.buf;
    } else {
      assert p[0] in p && forall x | x in p[1..] :: x in p;
      var s1 := PushByte(s, p[0]).0;
      assert PushByte(s, p[0]) == (s1, []);
      PushPayload(s1, p[1..]);
      NoEvents();
      if |s.buf| < PARAM_BUF_CAP {
        assert s.buf + [p[0]] + p[1..] == s.buf + p;
      } else {
        assert Clip(s.buf + p[1..]) == s.buf == Clip(s.buf + p);
      }
    }
  }

  lemma PushOsc(s: PState, p: bytes, t: Terminator)
    requires s.mode == Ground && ValidItem(Osc(p, t))
    ensures var (s', es) := Push(s, Encode(Osc(p, t)));
            && s'.mode == Ground
            && es == match Decode(Clip(p)) case Some(e) => [e] case None => []
  {
    hide Decode, Clip, Push, ZoneAfter;
    var s1 := s.(mode := OscParam, buf := []);
    var tail := if t.ByBel? then [BEL] else [ESC, BACKSLASH];
    PushAppend(s, [ESC, RIGHT_BRACKET] + p, tail);
    PushAppend(s, [ESC, RIGHT_BRACKET], p);
    PushTwo(s, ESC, RIGHT_BRACKET);
    PushPayload(s1, p);
    assert [] + p == p;
    var s2 := s1.(buf := Clip(p));
    PushOne(s2, BEL);
    PushTwo(s2, ESC, BACKSLASH);
  }

  lemma PushOne(s: PState, a: byte)
    ensures Push(s, [a]) == PushByte(s, a)
  {
    hide PushByte;
    assert [a][1..] == [];
    assert PushByte(s, a).1 + [] == PushByte(s, a).1;
  }

  lemma PushTwo(s: PState, a: byte, b: byte)
    ensures Push(s, [a, b]) == (PushByte(PushByte(s, a).0, b).0, PushByte(s, a).1 + PushByte(PushByte(s, a).0, b).1)
  {
    hide PushByte;
    assert [a, b][1..] == [b];
    PushOne(PushByte(s, a).0, b);
  }

  /** The parser returns exactly the commands' events, in order, and ends in the ground state. */
  lemma {:induction false} ParserReadsItems(s: PState, items: seq<Item>)
    requires s.mode == Ground
    requires forall i | 0 <= i < |items| :: ValidItem(items[i])
    ensures Push(s, Render(items)).0.mode == Ground
    ensures Push(s, Render(items)).1 == EventsOf(items)
    decreases |items|
  {
    hide Encode, Decode, PushByte, Clip;
    if items != [] {
      var first := items[0];
      var s1 := Push(s, Encode(first)).0;
      assert ValidItem(first);
      match first {
        case Plain(t) => assert Encode(first) == t by { PlainEncoding(t); } PushPlain(s, t);
        case Osc(p, t) => PushOsc(s, p, t);
      }
      PushAppend(s, Encode(first), Render(items[1..]));
      ParserReadsItems(s1, items[1..]);
    }
  }

  lemma PlainEncoding(t: bytes)
    ensures Encode(Plain(t)) == t
  {
  }

  lemma {:induction false} StripPlain(t: bytes, rest: bytes)
    requires ESC !in t
    ensures Strip(t + rest) == t + Strip(rest)
    decreases |t|
  {
    if t == [] {
      assert t + rest == rest;
    } else {
      assert (t + rest)[1..] == t[1..] + rest;
      StripPlain(t[1..], rest);
      assert t == [t[0]] + t[1..];
    }
  }

  lemma {:induction false} SkipPayload(p: bytes, t: Terminator, rest: bytes)
    requires ESC !in p && BEL !in p
    ensures var tail := if t.ByBel? then [BEL] else [ESC, BACKSLASH];
            SkipToTerminator(p + tail + rest) == |p| + |tail|
    decreases |p|
  {
    var tail := if t.ByBel? then [BEL] else [ESC, BACKSLASH];
    if p == [] {
      assert p + tail + rest == tail + rest;
    } else {
      assert p[0] in p && forall x | x in p[1..] :: x in p;
      assert (p + tail + rest)[1..] == p[1..] + tail + rest;
      SkipPayload(p[1..], t, rest);
    }
  }

  lemma StripMark(p: bytes, t: Terminator, rest: bytes)
    requires ValidItem(Osc(p, t)) && IsMark(p)
    ensures Strip(Encode(Osc(p, t)) + rest) == Strip(rest)
  {
    var tail := if t.ByBel? then [BEL] else [ESC, BACKSLASH];
    var s := Encode(Osc(p, t)) + rest;
    assert s == [ESC, RIGHT_BRACKET] + (p + tail + rest);
    assert s[2..] == p + tail + rest;
    assert s[2..6] == p[..4];
    SkipPayload(p, t, rest);
    assert s[2..][|p| + |tail|..] == rest;
  }

  lemma NotMarkPrefix(p: bytes, t: Terminator, rest: bytes)
    requires ValidItem(Osc(p, t)) && !IsMark(p)
    ensures !StartsMark(Encode(Osc(p, t)) + rest)
  {
    var tail := if t.ByBel? then [BEL] else [ESC, BACKSLASH];
    var s := Encode(Osc(p, t)) + rest;
    if |s| >= 6 {
      if |p| >= 4 {
        assert s[2..6] == p[..4];
        assert p == p[..4] + p[4..];
      } else {
        assert s[2 + |p|] == tail[0];
        assert s[2..6][|p|] == tail[0];
        assert MARK[|p|] != tail[0];
      }
    }
  }

  lemma StripForeign(p: bytes, t: Terminator, rest: bytes)
    requires ValidItem(Osc(p, t)) && !IsMark(p)
    ensures Strip(Encode(Osc(p, t)) + rest) == Encode(Osc(p, t)) + Strip(rest)
  {
    hide Strip, StartsMark, IsMark;
    NotMarkPrefix(p, t, rest);
    if t.ByBel? {
      ForeignByBel(p, rest);
    } else {
      ForeignBySt(p, rest);
    }
  }

  lemma ForeignByBel(p: bytes, rest: bytes)
    requires ESC !in p && !StartsMark(Encode(Osc(p, ByBel)) + rest)
    ensures Strip(Encode(Osc(p, ByBel)) + rest) == Encode(Osc(p, ByBel)) + Strip(rest)
  {
    hide Strip, StartsMark;
    var body := [RIGHT_BRACKET] + p + [BEL];
    assert Encode(Osc(p, ByBel)) == [ESC] + body;
    StripAfterEsc(body, rest);
  }

  lemma ForeignBySt(p: bytes, rest: bytes)
    requires ESC !in p && !StartsMark(Encode(Osc(p, BySt)) + rest)
    ensures Strip(Encode(Osc(p, BySt)) + rest) == Encode(Osc(p, BySt)) + Strip(rest)
  {
    hide Strip, StartsMark;
    var body, after := [RIGHT_BRACKET] + p, [ESC, BACKSLASH] + rest;
    assert Encode(Osc(p, BySt)) + rest == [ESC] + body + after;
    StripAfterEsc(body, after);
    StripSt(rest);
    assert [ESC] + body + ([ESC, BACKSLASH] + Strip(rest)) == Encode(Osc(p, BySt)) + Strip(rest);
  }

  lemma StripAfterEsc(body: bytes, rest: bytes)
    requires ESC !in body && !StartsMark([ESC] + body + rest)
    ensures Strip([ESC] + body + rest) == [ESC] + body + Strip(rest)
  {
    hide Strip, StartsMark;
    var s := [ESC] + body + rest;
    StripKeepsByte(s);
    assert s[1..] == body + rest;
    StripPlain(body, rest);
    assert [ESC] + (body + Strip(rest)) == [ESC] + body + Strip(rest);
  }

  lemma StripKeepsByte(s: bytes)
    requires s != [] && !StartsMark(s)
    ensures Strip(s) == [s[0]] + Strip(s[1..])
  {
  }

  lemma StripSt(rest: bytes)
    ensures Strip([ESC, BACKSLASH] + rest) == [ESC, BACKSLASH] + Strip(rest)
  {
    hide SkipToTerminator;
    var s := [ESC, BACKSLASH] + rest;
    assert s[1..] == [BACKSLASH] + rest && s[1..][1..] == rest;
    assert Strip(s) == [ESC] + Strip([BACKSLASH] + rest);
    assert Strip([BACKSLASH] + rest) == [BACKSLASH] + Strip(rest);
  }

  /** The stripper removes exactly the OSC 133 sequences and nothing else. */
  lemma {:induction false} StripperKeepsDisplay(items: seq<Item>)
    requires forall i | 0 <= i < |items| :: ValidItem(items[i])
    ensures Strip(Render(items)) == DisplayOf(items)
    decreases |items|
  {
    hide Strip, Encode, IsMark;
    if items == [] {
      StripEmpty();
    } else {
      var first, rest := items[0], Render(items[1..]);
      assert ValidItem(first);
      StripperKeepsDisplay(items[1..]);
      match first {
        case Plain(t) => PlainEncoding(t); StripPlain(t, rest);
        case Osc(p, t) => if IsMark(p) { StripMark(p, t, rest); } else { StripForeign(p, t, rest); }
      }
    }
  }

  lemma StripEmpty()
    ensures Strip([]) == []
  {
  }

  // ----- markers ---------------------------------------------------------------------------

  /** How a shell prints a marker. */
  function MarkerItem(e: Event, t: Terminator): Item {
    Osc(MARK + match e
               case PromptStart => [0x41]
               case CommandStart => [0x42]
               case CommandExecuted => [0x43]
               case CommandFinished(None) => [0x44]
               case CommandFinished(Some(n)) => [0x44, SEMICOLON] + PrintI32(n), t)
  }

  predicate PrintableEvent(e: Event) {
    e.CommandFinished? && e.exitCode.Some? ==> IsI32(e.exitCode.value)
  }

  lemma PrintedIsPlain(n: int)
    ensures ESC !in PrintI32(n) && BEL !in PrintI32(n)
  {
    hide PrintNat;
    var ds := PrintNat(if n < 0 then -n else n);
    assert forall i | 0 <= i < |ds| :: IsDigit(ds[i]);
  }

  /** Every marker with any 32-bit exit code survives printing, clipping and decoding. */
  lemma MarkerRoundTrip(e: Event, t: Terminator)
    requires PrintableEvent(e)
    ensures ValidItem(MarkerItem(e, t)) && IsMark(MarkerItem(e, t).payload)
    ensures Decode(Clip(MarkerItem(e, t).payload)) == Some(e)
  {
    hide PrintI32, ParseI32;
    var p := MarkerItem(e, t).payload;
    assert p[..4] == MARK;
    match e {
      case CommandFinished(Some(n)) =>
        PrintParse(n);
        PrintedIsPlain(n);
        PrintNonEmpty(n);
        assert p[6..] == PrintI32(n);
        assert p == MARK + [0x44, SEMICOLON] + PrintI32(n);
      case _ =>
    }
  }

  lemma PrintNonEmpty(n: int)
    ensures |PrintI32(n)| > 0
  {
  }

  /** A marker, or output without escape characters. */
  datatype Piece = Marker(event: Event, term: Terminator) | Text(text: bytes)

  predicate ValidPiece(p: Piece) {
    match p
    case Marker(e, _) => PrintableEvent(e)
    case Text(t) => ESC !in t
  }

  function Items(ps: seq<Piece>): (items: seq<Item>)
    ensures |items| == |ps|
  {
    if ps == [] then []
    else [match ps[0] case Marker(e, t) => MarkerItem(e, t) case Text(t) => Plain(t)] + Items(ps[1..])
  }

  function Markers(ps: seq<Piece>): seq<Event> {
    if ps == [] then [] else (if ps[0].Marker? then [ps[0].event] else []) + Markers(ps[1..])
  }

  function Outputs(ps: seq<Piece>): bytes {
    if ps == [] then [] else (if ps[0].Text? then ps[0].text else []) + Outputs(ps[1..])
  }

  lemma {:induction false} ItemsMean(ps: seq<Piece>)
    requires forall i | 0 <= i < |ps| :: ValidPiece(ps[i])
    ensures forall i | 0 <= i < |ps| :: ValidItem(Items(ps)[i])
    ensures EventsOf(Items(ps)) == Markers(ps)
    ensures DisplayOf(Items(ps)) == Outputs(ps)
    decreases |ps|
  {
    hide MarkerItem, Decode, Clip, ValidItem, IsMark, PrintableEvent;
    if ps != [] {
      assert ValidPiece(ps[0]);
      ItemsMean(ps[1..]);
      var items := Items(ps);
      assert items[1..] == Items(ps[1..]);
      match ps[0] {
        case Marker(e, t) => MarkerRoundTrip(e, t); MarkerIsOsc(e, t);
        case Text(t) => PlainEncoding(t); PlainIsValid(t);
      }
    }
  }

  lemma MarkerIsOsc(e: Event, t: Terminator)
    ensures MarkerItem(e, t).Osc?
  {
  }

  lemma PlainIsValid(t: bytes)
    requires ESC !in t
    ensures ValidItem(Plain(t))
  {
  }

  /** The zone that the last marker opens: the prompt, the input behind it, the output of the
      command; after a finished command, and before any marker, none. */
  predicate InZone(zone: Zone, markers: seq<Event>) {
    var last := if markers == [] then None else Some(markers[|markers| - 1]);
    && (zone.Prompt? <==> last == Some(PromptStart))
    && (zone.Input? <==> last == Some(CommandStart))
    && (zone.Output? <==> last == Some(CommandExecuted))
  }

  /** Parser and stripper agree: for any mix of markers and escape-free output, cut into
      chunks anywhere, pushing yields the markers and stripping yields the output. */
  lemma ParserAndStripperAgree(ps: seq<Piece>, chunks: seq<bytes>)
    requires forall i | 0 <= i < |ps| :: ValidPiece(ps[i])
    requires Concat(chunks) == Render(Items(ps))
    ensures PushAll(START, chunks).1 == Markers(ps)
    ensures PushAll(START, chunks).0.mode == Ground
    ensures InZone(PushAll(START, chunks).0.zone, Markers(ps))
    ensures Strip(Concat(chunks)) == Outputs(ps)
  {
    hide Items, Render, Push, PushAll, Concat, Strip, Markers, Outputs, EventsOf, DisplayOf, ValidItem;
    ItemsMean(ps);
    PushChunks(START, chunks);
    ParserReadsItems(START, Items(ps));
    PushSafe(START, Concat(chunks));
    StripperKeepsDisplay(Items(ps));
  }

  // ----- the parser object and the stripping loop -----------------------------------------

  class Parser {
    var state: Mode
    var zone: Zone
    var paramBuf: array<byte>
    var paramLen: nat

    ghost predicate Valid()
      reads this, paramBuf
    {
      paramBuf.Length == PARAM_BUF_CAP && paramLen <= PARAM_BUF_CAP
    }

    ghost function St(): PState
      reads this, paramBuf
      requires Valid()
    {
      PState(state, zone, paramBuf[..paramLen])
    }

    constructor ()
      ensures Valid() && fresh(paramBuf) && St() == START
    {
      state, zone, paramLen := Ground, Unknown, 0;
      paramBuf := new byte[PARAM_BUF_CAP](_ => 0);
    }

    method DispatchParams(events: seq<Event>) returns (more: seq<Event>)
      requires Valid()
      modifies this`zone
      ensures Valid() && St() == Dispatch(old(St())).0
      ensures more == events + Dispatch(old(St())).1
    {
      hide Decode;
      var event := Decode(paramBuf[..paramLen]);
      more := events;
      if event.Some? {
        zone := ZoneAfter(event.value);
        more := more + [event.value];
      }
    }

    method PushData(data: bytes) returns (events: seq<Event>)
      requires Valid()
      modifies this, paramBuf
      ensures Valid() && paramBuf == old(paramBuf)
      ensures (St(), events) == Push(old(St()), data)
    {
      hide Dispatch, PushByte;
      events := [];
      var i := 0;
      assert data[0..] == data && [] + Push(St(), data).1 == Push(St(), data).1;
      while i < |data|
        invariant 0 <= i <= |data|
        invariant Valid() && paramBuf == old(paramBuf)
        invariant Push(old(St()), data) == (Push(St(), data[i..]).0, events + Push(St(), data[i..]).1)
      {
        ghost var s := St();
        ghost var before := events;
        assert data[i..][1..] == data[i + 1..];
        events := PushOneByte(data[i], events);
        assert (St(), events) == (PushByte(s, data[i]).0, before + PushByte(s, data[i]).1);
        i := i + 1;
        assert before + (PushByte(s, data[i - 1]).1 + Push(St(), data[i..]).1)
            == events + Push(St(), data[i..]).1;
      }
      assert data[i..] == [] && events + [] == events;
    }

    method PushOneByte(byt: byte, events: seq<Event>) returns (more: seq<Event>)
      requires Valid()
      modifies this, paramBuf
      ensures Valid() && paramBuf == old(paramBuf)
      ensures St() == PushByte(old(St()), byt).0
      ensures more == events + PushByte(old(St()), byt).1
    {
      hide Decode, Dispatch;
      more := events;
      match state {
        case Ground =>
          if byt == ESC {
            state := Esc;
          }
        case Esc =>
          if byt == RIGHT_BRACKET {
            state := OscParam;
            paramLen := 0;
          } else {
            state := Ground;
          }
        case OscParam =>
          if byt == BEL {
            more := DispatchParams(events);
            state := Ground;
          } else if byt == ESC {
            state := OscEsc;
          } else if paramLen < PARAM_BUF_CAP {
            paramBuf[paramLen] := byt;
            paramLen := paramLen + 1;
            assert paramBuf[..paramLen] == old(paramBuf[..paramLen]) + [byt];
          }
        case OscEsc =>
          if byt == BACKSLASH {
            more := DispatchParams(events);
          }
          state := Ground;
      }
    }
  }

  lemma MarkAt(input: bytes, i: nat)
    requires i < |input|
    ensures StartsMark(input[i..]) <==>
            input[i] == ESC && i + 1 < |input| && input[i + 1] == RIGHT_BRACKET && MARK <= input[i + 2..]
  {
    if i + 6 <= |input| {
      assert input[i..][2..6] == input[i + 2..][..4];
    }
  }

  lemma StripSkips(input: bytes, i: nat)
    requires i < |input| && StartsMark(input[i..])
    ensures i + 2 <= |input|
    ensures var j := i + 2 + SkipToTerminator(input[i + 2..]); i < j <= |input| && Strip(input[i..]) == Strip(input[j..])
  {
    hide SkipToTerminator;
    assert input[i..][2..] == input[i + 2..];
    assert input[i + 2..][SkipToTerminator(input[i + 2..])..] == input[i + 2 + SkipToTerminator(input[i + 2..])..];
  }

  lemma StripKeeps(input: bytes, i: nat)
    requires i < |input| && !StartsMark(input[i..])
    ensures Strip(input[i..]) == [input[i]] + Strip(input[i + 1..])
  {
    hide StartsMark;
    assert input[i..][1..] == input[i + 1..];
  }

  method StripOsc133(input: bytes) returns (result: bytes)
    ensures result == Strip(input)
  {
    hide Strip, StartsMark, SkipToTerminator;
    result := [];
    var i := 0;
    assert input[0..] == input;
    while i < |input|
      invariant 0 <= i <= |input|
      invariant result + Strip(input[i..]) == Strip(input)
      decreases |input| - i
    {
      MarkAt(input, i);
      if input[i] == ESC && i + 1 < |input| && input[i + 1] == RIGHT_BRACKET && MARK <= input[i + 2..] {
        StripSkips(input, i);
        i := SkipLoop(input, i + 2);
      } else {
        StripKeeps(input, i);
        result := result + [input[i]];
        i := i + 1;
      }
    }
    assert input[i..] == [];
    StripEmpty();
  }

  method SkipLoop(input: bytes, from: nat) returns (j: nat)
    requires from <= |input|
    ensures j == from + SkipToTerminator(input[from..]) <= |input|
  {
    j := from;
    while j < |input|
      invariant from <= j <= |input|
      invariant j + SkipToTerminator(input[j..]) == from + SkipToTerminator(input[from..])
    {
      assert input[j..][1..] == input[j + 1..];
      if input[j] == BEL || (input[j] == ESC && j + 1 < |input| && input[j + 1] == BACKSLASH) {
        j := j + if input[j] == BEL then 1 else 2;
        return;
      }
      j := j + 1;
    }
  }
}
