/** Word wrapping of styled lines: slicing spans by a range of the flattened text and
    mapping wrapped ranges back to styled lines.  Text positions count characters; the
    text-wrapping library is a parameter that satisfies `WrapsOk`. */
module Wrapping {
  import opened Text

  datatype Span<S> = Span(content: string, style: S)

  datatype Line<S> = Line(spans: seq<Span<S>>, style: S)

  datatype Range = Range(start: nat, end: nat)

  /** The span boundaries in the flattened text, as `word_wrap_line` records them. */
  datatype Bound<S> = Bound(start: nat, end: nat, style: S)

  datatype Options<S> = Options(width: nat, initialIndent: Line<S>, subsequentIndent: Line<S>)

  // ----- styled text ------------------------------------------------------------

  datatype Glyph<S> = Glyph(ch: char, style: S)

  function SpanGlyphs<S>(s: Span<S>): (gs: seq<Glyph<S>>)
    ensures |gs| == |s.content|
  {
    seq(|s.content|, i requires 0 <= i < |s.content| => Glyph(s.content[i], s.style))
  }

  /** A list of spans as one styled text. */
  function Glyphs<S>(spans: seq<Span<S>>): seq<Glyph<S>> {
    if spans == [] then [] else SpanGlyphs(spans[0]) + Glyphs(spans[1..])
  }

  function FlatText<S>(spans: seq<Span<S>>): string {
    if spans == [] then "" else spans[0].content + FlatText(spans[1..])
  }

  function BoundsFrom<S>(spans: seq<Span<S>>, acc: nat): (bs: seq<Bound<S>>)
    ensures |bs| == |spans|
    decreases |spans|
  {
    if spans == [] then []
    else
      var e := acc + |spans[0].content|;
      [Bound(acc, e, spans[0].style)] + BoundsFrom(spans[1..], e)
  }

  // ----- slicing -------------------------------------------------------------------

  /** `slice_line_spans` from span `i` on, with its two early exits. */
  function SliceFrom<S>(spans: seq<Span<S>>, bounds: seq<Bound<S>>, i: nat, range: Range): seq<Span<S>>
    requires |bounds| == |spans| && i <= |spans|
    requires forall k | 0 <= k < |spans| :: bounds[k].end == bounds[k].start + |spans[k].content|
    decreases |spans| - i
  {
    if i == |spans| then []
    else
      var b := bounds[i];
      if b.end <= range.start then SliceFrom(spans, bounds, i + 1, range)
      else if b.start >= range.end then []
      else
        var lo, hi := Max(range.start, b.start), Min(range.end, b.end);
        var piece := if hi > lo then [Span(spans[i].content[lo - b.start..hi - b.start], b.style)] else [];
        if b.end >= range.end then piece else piece + SliceFrom(spans, bounds, i + 1, range)
  }

  function Slice<S>(spans: seq<Span<S>>, range: Range): seq<Span<S>> {
    BoundsMatch(spans, 0);
    SliceFrom(spans, BoundsFrom(spans, 0), 0, range)
  }

  lemma {:induction false} BoundsMatch<S>(spans: seq<Span<S>>, acc: nat)
    ensures forall k | 0 <= k < |spans| ::
              BoundsFrom(spans, acc)[k].end == BoundsFrom(spans, acc)[k].start + |spans[k].content|
    decreases |spans|
  {
    if spans != [] {
      BoundsMatch(spans[1..], acc + |spans[0].content|);
    }
  }

  /** The part of a text that a range covers; ranges may reach past the end or be empty. */
  function Covered<T>(text: seq<T>, range: Range): seq<T> {
    var hi := Min(range.end, |text|);
    if range.start < hi then text[range.start..hi] else []
  }

  lemma {:induction false} BoundsSuffix<S>(spans: seq<Span<S>>, acc: nat, i: nat)
    requires i < |spans|
    ensures BoundsFrom(spans, acc)[i].start == acc + |Glyphs(spans[..i])|
    ensures BoundsFrom(spans, acc)[i].style == spans[i].style
    decreases i
  {
    if i > 0 {
      BoundsSuffix(spans[1..], acc + |spans[0].content|, i - 1);
      assert spans[..i][1..] == spans[1..][..i - 1];
    } else {
      assert spans[..0] == [];
    }
  }

  lemma {:induction false} GlyphsAppend<S>(a: seq<Span<S>>, b: seq<Span<S>>)
    ensures Glyphs(a + b) == Glyphs(a) + Glyphs(b)
  {
    if a == [] {
      assert a + b == b;
    } else {
      assert (a + b)[1..] == a[1..] + b;
      GlyphsAppend(a[1..], b);
    }
  }

  lemma GlyphsOne<S>(s: Span<S>)
    ensures Glyphs([s]) == SpanGlyphs(s)
  {
    assert [s][1..] == [];
  }

  lemma GlyphsDrop<S>(spans: seq<Span<S>>, i: nat)
    requires i < |spans|
    ensures Glyphs(spans[i..]) == SpanGlyphs(spans[i]) + Glyphs(spans[i + 1..])
  {
    assert spans[i..][1..] == spans[i + 1..];
  }

  lemma GlyphsTake<S>(spans: seq<Span<S>>, i: nat)
    requires i < |spans|
    ensures Glyphs(spans[..i + 1]) == Glyphs(spans[..i]) + SpanGlyphs(spans[i])
  {
    hide Glyphs, SpanGlyphs;
    assert spans[..i + 1] == spans[..i] + [spans[i]];
    GlyphsAppend(spans[..i], [spans[i]]);
    GlyphsOne(spans[i]);
  }

  /** What a range takes of a text `a` that begins at position `gone`. */
  function Here<T>(a: seq<T>, gone: nat, range: Range): seq<T> {
    var lo, hi := Max(range.start, gone), Min(range.end, gone + |a|);
    if lo < hi then a[lo - gone..hi - gone] else []
  }

  /** A range in the coordinates of the text from `gone` on. */
  function Shifted(range: Range, gone: nat): Range {
    Range(Max(range.start, gone) - gone, Max(range.end, gone) - gone)
  }

  /** What the loop keeps of a span that begins at position `gone`. */
  function PieceOf<S>(content: string, style: S, gone: nat, range: Range): seq<Span<S>> {
    var lo, hi := Max(range.start, gone), Min(range.end, gone + |content|);
    if hi > lo then [Span(content[lo - gone..hi - gone], style)] else []
  }

  /** One round: the span is before the range, behind it, or gives a piece. */
  lemma SliceOne<S>(spans: seq<Span<S>>, bounds: seq<Bound<S>>, i: nat, range: Range)
    requires |bounds| == |spans| && i < |spans|
    requires forall k | 0 <= k < |spans| :: bounds[k].end == bounds[k].start + |spans[k].content|
    ensures var b, more := bounds[i], SliceFrom(spans, bounds, i + 1, range);
            SliceFrom(spans, bounds, i, range) ==
              if b.end <= range.start then more
              else if b.start >= range.end then []
              else PieceOf(spans[i].content, b.style, b.start, range) + if b.end >= range.end then [] else more
  {
    hide Max, Min;
  }

  /** The piece of a span is what the range takes of it. */
  lemma PieceIsHere<S>(s: Span<S>, gone: nat, range: Range)
    ensures Glyphs(PieceOf(s.content, s.style, gone, range)) == Here(SpanGlyphs(s), gone, range)
  {
    hide Glyphs, SpanGlyphs;
    NoGlyphs<S>();
    var lo, hi := Max(range.start, gone), Min(range.end, gone + |s.content|);
    if hi > lo {
      PieceGlyphs(s, lo - gone, hi - gone);
      GlyphsOne(Span(s.content[lo - gone..hi - gone], s.style));
    }
  }

  /** From span `i` on, a slice is what the range covers of the remaining text. */
  lemma {:induction false} SliceFromCovers<S>(spans: seq<Span<S>>, bounds: seq<Bound<S>>, i: nat, range: Range)
    requires i <= |spans| && bounds == BoundsFrom(spans, 0)
    requires forall k | 0 <= k < |spans| :: bounds[k].end == bounds[k].start + |spans[k].content|
    ensures Glyphs(SliceFrom(spans, bounds, i, range))
         == Covered(Glyphs(spans[i..]), Shifted(range, |Glyphs(spans[..i])|))
    decreases |spans| - i
  {
    hide Glyphs, SpanGlyphs, BoundsFrom, Covered, Here, Max, Min, SliceFrom, PieceOf;
    var gone := |Glyphs(spans[..i])|;
    if i == |spans| {
      NoGlyphs<S>();
      SliceNone(spans, bounds, range);
      assert spans[i..] == [];
      EmptyCovers<Glyph<S>>(Shifted(range, gone));
    } else {
      BoundsSuffix(spans, 0, i);
      GlyphsDrop(spans, i);
      GlyphsTake(spans, i);
      SliceFromCovers(spans, bounds, i + 1, range);
      var next := gone + |spans[i].content|;
      ExhaustedCovers(Glyphs(spans[i + 1..]), range, next);
      SliceOne(spans, bounds, i, range);
      PieceIsHere(spans[i], gone, range);
      NoGlyphs<S>();
      var more := SliceFrom(spans, bounds, i + 1, range);
      GlyphsAppend(PieceOf(spans[i].content, spans[i].style, gone, range), more);
      assert PieceOf(spans[i].content, spans[i].style, gone, range) + []
          == PieceOf(spans[i].content, spans[i].style, gone, range);
      HereOutside(SpanGlyphs(spans[i]), gone, range);
      CoverStep(SpanGlyphs(spans[i]), Glyphs(spans[i + 1..]), gone, range);
    }
  }

  lemma HereOutside<T>(a: seq<T>, gone: nat, range: Range)
    ensures gone + |a| <= range.start || range.end <= gone ==> Here(a, gone, range) == []
  {
  }

  lemma EmptyCovers<T>(range: Range)
    ensures Covered<T>([], range) == []
  {
  }

  lemma ExhaustedCovers<T>(text: seq<T>, range: Range, at: nat)
    ensures range.end <= at ==> Covered(text, Shifted(range, at)) == []
  {
  }

  lemma NoGlyphs<S>()
    ensures Glyphs<S>([]) == []
  {
  }

  lemma PieceGlyphs<S>(s: Span<S>, lo: nat, hi: nat)
    requires lo <= hi <= |s.content|
    ensures SpanGlyphs(Span(s.content[lo..hi], s.style)) == SpanGlyphs(s)[lo..hi]
  {
  }

  lemma {:induction false} CoverSplit<T>(a: seq<T>, rest: seq<T>, lo: nat, hi: nat)
    ensures Covered(a + rest, Range(lo, hi))
         == Covered(a, Range(lo, hi)) + Covered(rest, Shifted(Range(lo, hi), |a|))
  {
    var all, n := a + rest, |a|;
    var top := Min(hi, |all|);
    if lo >= top {
    } else if top <= n {
      assert all[lo..top] == a[lo..top];
    } else if lo >= n {
      assert all[lo..top] == rest[lo - n..top - n];
    } else {
      assert all[lo..top] == a[lo..n] + rest[0..top - n];
    }
  }

  /** Covering a text that starts with `a`: the covered part of `a`, then of the rest. */
  lemma {:induction false} CoverStep<T>(a: seq<T>, rest: seq<T>, gone: nat, range: Range)
    ensures Covered(a + rest, Shifted(range, gone))
         == Here(a, gone, range) + Covered(rest, Shifted(range, gone + |a|))
  {
    var r := Shifted(range, gone);
    CoverSplit(a, rest, r.start, r.end);
    assert Shifted(r, |a|) == Shifted(range, gone + |a|);
    assert Covered(a, r) == Here(a, gone, range);
  }

  /** Slicing by any range yields exactly that range of the flattened styled text. */
  lemma SliceCovers<S>(spans: seq<Span<S>>, range: Range)
    ensures Glyphs(Slice(spans, range)) == Covered(Glyphs(spans), range)
  {
    hide SliceFrom, BoundsFrom, SpanGlyphs;
    BoundsMatch(spans, 0);
    NoGlyphs<S>();
    assert spans[..0] == [] && spans[0..] == spans;
    SliceFromCovers(spans, BoundsFrom(spans, 0), 0, range);
  }

  // ----- wrapping ----------------------------------------------------------------------

  /** The contract of the wrapper: ranges in order, only whitespace between and around them. */
  ghost predicate WrapOkFrom(text: string, ranges: seq<Range>, at: nat)
    decreases |ranges|
  {
    && at <= |text|
    && if ranges == [] then IsBlank(text[at..])
       else
         && at <= ranges[0].start <= ranges[0].end <= |text|
         && IsBlank(text[at..ranges[0].start])
         && WrapOkFrom(text, ranges[1..], ranges[0].end)
  }

  ghost predicate WrapsOk(wrap: (string, nat) -> seq<Range>) {
    forall text, width :: WrapOkFrom(text, wrap(text, width), 0)
  }

  function Patched<S>(spans: seq<Span<S>>, patch: (S, S) -> S, style: S): (out: seq<Span<S>>)
    ensures |out| == |spans|
  {
    seq(|spans|, i requires 0 <= i < |spans| => Span(spans[i].content, patch(spans[i].style, style)))
  }

  /** One wrapped line: an indent, then the patched slice. */
  function WrappedLine<S>(line: Line<S>, indent: Line<S>, range: Range, patch: (S, S) -> S): Line<S> {
    Line(indent.spans + Patched(Slice(line.spans, range), patch, line.style), line.style)
  }

  function LeadingSpaces(s: string): (n: nat)
    ensures n <= |s| && forall i | 0 <= i < n :: s[i] == ' '
  {
    if s == "" || s[0] != ' ' then 0 else 1 + LeadingSpaces(s[1..])
  }

  function AvailableWidth<S>(width: nat, indent: Line<S>, lineWidth: Line<S> -> nat): nat {
    Max(if width > lineWidth(indent) then width - lineWidth(indent) else 0, 1)
  }

  function RestLines<S>(line: Line<S>, indent: Line<S>, base: nat, ranges: seq<Range>, patch: (S, S) -> S): seq<Line<S>>
    decreases |ranges|
  {
    if ranges == [] then []
    else
      var r := ranges[0];
      (if r.end <= r.start then []
       else [WrappedLine(line, indent, Range(r.start + base, r.end + base), patch)])
      + RestLines(line, indent, base, ranges[1..], patch)
  }

  /** `word_wrap_line`, for a wrapper, a patch of styles and a width of lines. */
  function WordWrap<S>(line: Line<S>, opts: Options<S>, wrap: (string, nat) -> seq<Range>,
                       patch: (S, S) -> S, lineWidth: Line<S> -> nat): seq<Line<S>>
  {
    var flat := FlatText(line.spans);
    var initial := wrap(flat, AvailableWidth(opts.width, opts.initialIndent, lineWidth));
    if initial == [] then [opts.initialIndent]
    else
      var first := WrappedLine(line, opts.initialIndent, initial[0], patch);
      var end := Min(initial[0].end, |flat|);
      var base := end + LeadingSpaces(flat[end..]);
      var remaining := wrap(flat[base..], AvailableWidth(opts.width, opts.subsequentIndent, lineWidth));
      [first] + RestLines(line, opts.subsequentIndent, base, remaining, patch)
  }

  // ----- content is kept ------------------------------------------------------------------

  /** The styled characters that are not whitespace, in order. */
  function Ink<S>(gs: seq<Glyph<S>>): seq<Glyph<S>> {
    if gs == [] then [] else (if IsWhitespace(gs[0].ch) then [] else [gs[0]]) + Ink(gs[1..])
  }

  function PatchedGlyphs<S>(gs: seq<Glyph<S>>, patch: (S, S) -> S, style: S): (out: seq<Glyph<S>>)
    ensures |out| == |gs|
  {
    seq(|gs|, i requires 0 <= i < |gs| => Glyph(gs[i].ch, patch(gs[i].style, style)))
  }

  /** What the wrapped lines show once their indents are removed. */
  function BodyOf<S>(lines: seq<Line<S>>, indentSpans: nat): seq<Glyph<S>> {
    if lines == [] then []
    else
      (if indentSpans <= |lines[0].spans| then Glyphs(lines[0].spans[indentSpans..]) else [])
      + BodyOf(lines[1..], indentSpans)
  }

  /** The first line with its own indent, the others with theirs. */
  function Body<S>(lines: seq<Line<S>>, opts: Options<S>): seq<Glyph<S>> {
    if lines == [] then []
    else BodyOf(lines[..1], |opts.initialIndent.spans|) + BodyOf(lines[1..], |opts.subsequentIndent.spans|)
  }

  lemma {:induction false} InkAppend<S>(a: seq<Glyph<S>>, b: seq<Glyph<S>>)
    ensures Ink(a + b) == Ink(a) + Ink(b)
  {
    if a == [] {
      assert a + b == b;
    } else {
      assert (a + b)[1..] == a[1..] + b;
      InkAppend(a[1..], b);
    }
  }

  ghost predicate SameText<S>(gs: seq<Glyph<S>>, text: string) {
    |gs| == |text| && forall i | 0 <= i < |gs| :: gs[i].ch == text[i]
  }

  lemma {:induction false} FlatIsGlyphs<S>(spans: seq<Span<S>>)
    ensures SameText(Glyphs(spans), FlatText(spans))
  {
    if spans != [] {
      FlatIsGlyphs(spans[1..]);
    }
  }

  lemma {:induction false} BlankHasNoInk<S>(gs: seq<Glyph<S>>, text: string)
    requires SameText(gs, text) && IsBlank(text)
    ensures Ink(gs) == []
    decreases |gs|
  {
    if gs != [] {
      assert IsWhitespace(text[0]);
      assert forall i | 0 <= i < |text[1..]| :: text[1..][i] == text[i + 1];
      BlankHasNoInk(gs[1..], text[1..]);
    }
  }

  lemma {:induction false} PatchedAppend<S>(a: seq<Span<S>>, patch: (S, S) -> S, style: S)
    ensures Glyphs(Patched(a, patch, style)) == PatchedGlyphs(Glyphs(a), patch, style)
  {
    if a != [] {
      assert Patched(a, patch, style)[1..] == Patched(a[1..], patch, style);
      PatchedAppend(a[1..], patch, style);
      PatchedSplit(SpanGlyphs(a[0]), Glyphs(a[1..]), patch, style);
      assert SpanGlyphs(Patched(a, patch, style)[0]) == PatchedGlyphs(SpanGlyphs(a[0]), patch, style);
    }
  }

  lemma PatchedSplit<S>(a: seq<Glyph<S>>, b: seq<Glyph<S>>, patch: (S, S) -> S, style: S)
    ensures PatchedGlyphs(a + b, patch, style) == PatchedGlyphs(a, patch, style) + PatchedGlyphs(b, patch, style)
  {
  }

  lemma PatchedCovered<S>(gs: seq<Glyph<S>>, patch: (S, S) -> S, style: S, range: Range)
    ensures PatchedGlyphs(Covered(gs, range), patch, style) == Covered(PatchedGlyphs(gs, patch, style), range)
  {
  }

  /** A wrapped line without its indent shows exactly its range of the patched text. */
  lemma LineBody<S>(line: Line<S>, indent: Line<S>, range: Range, patch: (S, S) -> S)
    ensures BodyOf([WrappedLine(line, indent, range, patch)], |indent.spans|)
         == Covered(PatchedGlyphs(Glyphs(line.spans), patch, line.style), range)
  {
    hide Glyphs, Slice, Patched, PatchedGlyphs, Covered;
    var l := WrappedLine(line, indent, range, patch);
    assert l.spans[|indent.spans|..] == Patched(Slice(line.spans, range), patch, line.style);
    SliceCovers(line.spans, range);
    PatchedAppend(Slice(line.spans, range), patch, line.style);
    PatchedCovered(Glyphs(line.spans), patch, line.style, range);
    assert [l][1..] == [];
  }

  lemma {:induction false} BodyAppend<S>(a: seq<Line<S>>, b: seq<Line<S>>, n: nat)
    ensures BodyOf(a + b, n) == BodyOf(a, n) + BodyOf(b, n)
  {
    hide Glyphs;
    if a == [] {
      assert a + b == b;
    } else {
      assert (a + b)[1..] == a[1..] + b;
      BodyAppend(a[1..], b, n);
    }
  }

  /** Skipping a blank stretch and taking a range loses no ink. */
  lemma RangeInk<S>(gs: seq<Glyph<S>>, text: string, at: nat, start: nat, end: nat)
    requires SameText(gs, text) && at <= start <= end <= |text| && IsBlank(text[at..start])
    ensures Ink(gs[at..]) == Ink(Covered(gs, Range(start, end))) + Ink(gs[end..])
  {
    hide Ink, IsBlank;
    assert gs[at..] == gs[at..start] + gs[start..end] + gs[end..];
    InkAppend(gs[at..start] + gs[start..end], gs[end..]);
    InkAppend(gs[at..start], gs[start..end]);
    BlankHasNoInk(gs[at..start], text[at..start]);
    assert Covered(gs, Range(start, end)) == gs[start..end];
    assert [] + Ink(gs[start..end]) == Ink(gs[start..end]);
  }

  lemma {:induction false} RestKeepsInk<S>(line: Line<S>, indent: Line<S>, base: nat, ranges: seq<Range>,
                                           patch: (S, S) -> S, at: nat)
    requires base <= |FlatText(line.spans)|
    requires WrapOkFrom(FlatText(line.spans)[base..], ranges, at)
    ensures var gs := PatchedGlyphs(Glyphs(line.spans), patch, line.style);
            && |gs| == |FlatText(line.spans)| && base + at <= |gs|
            && Ink(BodyOf(RestLines(line, indent, base, ranges, patch), |indent.spans|)) == Ink(gs[base + at..])
    decreases |ranges|
  {
    hide Glyphs, FlatText, Ink, IsBlank, BodyOf, Covered, WrappedLine;
    var flat := FlatText(line.spans);
    var gs := PatchedGlyphs(Glyphs(line.spans), patch, line.style);
    FlatIsGlyphs(line.spans);
    assert SameText(gs, flat);
    if ranges == [] {
      assert flat[base..][at..] == flat[base + at..];
      BlankHasNoInk(gs[base + at..], flat[base + at..]);
      EmptyBody<S>(|indent.spans|);
    } else {
      var r := ranges[0];
      RestKeepsInk(line, indent, base, ranges[1..], patch, r.end);
      assert flat[base..][at..r.start] == flat[base + at..base + r.start];
      RangeInk(gs, flat, base + at, base + r.start, base + r.end);
      var rest := RestLines(line, indent, base, ranges[1..], patch);
      if r.start < r.end {
        var l := WrappedLine(line, indent, Range(r.start + base, r.end + base), patch);
        LineBody(line, indent, Range(r.start + base, r.end + base), patch);
        BodyAppend([l], rest, |indent.spans|);
        InkAppend(BodyOf([l], |indent.spans|), BodyOf(rest, |indent.spans|));
      } else {
        assert [] + rest == rest;
        EmptyRangeCovers(gs, base + r.start);
        NoInk<S>();
        assert [] + Ink(gs[base + r.end..]) == Ink(gs[base + r.end..]);
      }
    }
  }

  lemma EmptyBody<S>(n: nat)
    ensures Ink(BodyOf<S>([], n)) == []
  {
  }

  lemma NoInk<S>()
    ensures Ink<S>([]) == []
  {
  }

  lemma EmptyRangeCovers<T>(text: seq<T>, at: nat)
    ensures Covered(text, Range(at, at)) == []
  {
  }

  /** Wrapping keeps content: without their indents the wrapped lines show every character
      that is not whitespace exactly once, in order, in its span's style patched by the
      line's style. */
  lemma WrapKeepsContent<S>(line: Line<S>, opts: Options<S>, wrap: (string, nat) -> seq<Range>,
                            patch: (S, S) -> S, lineWidth: Line<S> -> nat)
    requires WrapsOk(wrap)
    ensures Ink(Body(WordWrap(line, opts, wrap, patch, lineWidth), opts))
         == Ink(PatchedGlyphs(Glyphs(line.spans), patch, line.style))
  {
    hide Glyphs, FlatText, Ink, IsBlank, BodyOf, Covered, WrappedLine, AvailableWidth, LeadingSpaces, RestLines;
    var flat := FlatText(line.spans);
    var gs := PatchedGlyphs(Glyphs(line.spans), patch, line.style);
    FlatIsGlyphs(line.spans);
    assert SameText(gs, flat);
    var width := AvailableWidth(opts.width, opts.initialIndent, lineWidth);
    var initial := wrap(flat, width);
    assert WrapOkFrom(flat, initial, 0);
    var out := WordWrap(line, opts, wrap, patch, lineWidth);
    if initial == [] {
      assert flat[0..] == flat && out[..1] == [opts.initialIndent] && out[1..] == [];
      BlankHasNoInk(gs, flat);
      IndentOnly(opts.initialIndent, |opts.subsequentIndent.spans|);
    } else {
      var r := initial[0];
      RangeInk(gs, flat, 0, r.start, r.end);
      assert gs[0..] == gs;
      var base := r.end + LeadingSpaces(flat[r.end..]);
      SpacesAreBlank(flat, r.end);
      RangeInk(gs, flat, r.end, base, base);
      EmptyRangeCovers(gs, base);
      NoInk<S>();
      assert [] + Ink(gs[base..]) == Ink(gs[base..]);
      var width2 := AvailableWidth(opts.width, opts.subsequentIndent, lineWidth);
      assert WrapOkFrom(flat[base..], wrap(flat[base..], width2), 0);
      RestKeepsInk(line, opts.subsequentIndent, base, wrap(flat[base..], width2), patch, 0);
      LineBody(line, opts.initialIndent, r, patch);
      assert out[..1] == [WrappedLine(line, opts.initialIndent, r, patch)];
      InkAppend(BodyOf(out[..1], |opts.initialIndent.spans|), BodyOf(out[1..], |opts.subsequentIndent.spans|));
    }
  }

  /** A wrapper that keeps to the width it is given. */
  ghost predicate WrapsWithin(wrap: (string, nat) -> seq<Range>) {
    forall text, width, i | 0 <= i < |wrap(text, width)| :: Within(wrap(text, width)[i], width)
  }

  predicate Within(r: Range, width: nat) { r.end <= r.start + width }

  /** The line starts with the indent, has the style, and the text behind the indent fits
      beside it; beside an indent as wide as the line one character does. */
  ghost predicate Fits<S>(l: Line<S>, indent: Line<S>, style: S, width: nat, lineWidth: Line<S> -> nat) {
    && indent.spans <= l.spans && l.style == style
    && |Glyphs(l.spans[|indent.spans|..])| + lineWidth(indent)
         <= if lineWidth(indent) < width then width else lineWidth(indent) + 1
  }

  ghost predicate AllFit<S>(out: seq<Line<S>>, indent: Line<S>, style: S, width: nat, lineWidth: Line<S> -> nat) {
    forall k | 0 <= k < |out| :: Fits(out[k], indent, style, width, lineWidth)
  }

  /** What an indent leaves of the width, and room for one character in any case. */
  lemma AvailableIsTheRest<S>(width: nat, indent: Line<S>, lineWidth: Line<S> -> nat)
    ensures AvailableWidth(width, indent, lineWidth) + lineWidth(indent)
         == if lineWidth(indent) < width then width else lineWidth(indent) + 1
  {
  }

  lemma CoveredWithin<T>(text: seq<T>, range: Range, width: nat)
    requires Within(range, width)
    ensures |Covered(text, range)| <= width
  {
  }

  lemma PatchedLength<S>(spans: seq<Span<S>>, patch: (S, S) -> S, style: S)
    ensures |Glyphs(Patched(spans, patch, style))| == |Glyphs(spans)|
  {
    PatchedAppend(spans, patch, style);
  }

  lemma LineFits<S>(line: Line<S>, indent: Line<S>, range: Range, patch: (S, S) -> S, width: nat, lineWidth: Line<S> -> nat)
    requires Within(range, AvailableWidth(width, indent, lineWidth))
    ensures Fits(WrappedLine(line, indent, range, patch), indent, line.style, width, lineWidth)
  {
    hide Glyphs, Slice, Patched, Covered, AvailableWidth;
    AvailableIsTheRest(width, indent, lineWidth);
    var l, body := WrappedLine(line, indent, range, patch), Patched(Slice(line.spans, range), patch, line.style);
    assert l.spans[|indent.spans|..] == body;
    SliceCovers(line.spans, range);
    PatchedLength(Slice(line.spans, range), patch, line.style);
    CoveredWithin(Glyphs(line.spans), range, AvailableWidth(width, indent, lineWidth));
  }

  lemma {:induction false} RestFits<S>(line: Line<S>, indent: Line<S>, base: nat, ranges: seq<Range>, patch: (S, S) -> S,
                                       width: nat, lineWidth: Line<S> -> nat)
    requires forall i | 0 <= i < |ranges| :: Within(ranges[i], AvailableWidth(width, indent, lineWidth))
    ensures AllFit(RestLines(line, indent, base, ranges, patch), indent, line.style, width, lineWidth)
    decreases |ranges|
  {
    hide Fits, WrappedLine, AvailableWidth;
    if ranges != [] {
      var r := ranges[0];
      assert Within(Range(r.start + base, r.end + base), AvailableWidth(width, indent, lineWidth));
      LineFits(line, indent, Range(r.start + base, r.end + base), patch, width, lineWidth);
      assert forall i | 0 <= i < |ranges[1..]| :: ranges[1..][i] == ranges[i + 1];
      RestFits(line, indent, base, ranges[1..], patch, width, lineWidth);
      var rest := RestLines(line, indent, base, ranges[1..], patch);
      var out := RestLines(line, indent, base, ranges, patch);
      var n := |out| - |rest|;
      forall k | 0 <= k < |out|
        ensures Fits(out[k], indent, line.style, width, lineWidth)
      {
        if k >= n {
          assert out[k] == rest[k - n];
        } else {
          assert out[k] == WrappedLine(line, indent, Range(r.start + base, r.end + base), patch);
        }
      }
    }
  }

  /** Given a wrapper that keeps to its width, every line of a wrapped line with text fits:
      the first one beside its own indent, the others beside theirs. */
  lemma WrappedLinesFit<S>(line: Line<S>, opts: Options<S>, wrap: (string, nat) -> seq<Range>,
                           patch: (S, S) -> S, lineWidth: Line<S> -> nat)
    requires WrapsWithin(wrap)
    ensures var out := WordWrap(line, opts, wrap, patch, lineWidth);
            && out != []
            && (out == [opts.initialIndent] || Fits(out[0], opts.initialIndent, line.style, opts.width, lineWidth))
            && forall k | 1 <= k < |out| :: Fits(out[k], opts.subsequentIndent, line.style, opts.width, lineWidth)
  {
    hide Fits, WrappedLine, AvailableWidth, RestLines, FlatText, LeadingSpaces, Within;
    var flat := FlatText(line.spans);
    var initial := wrap(flat, AvailableWidth(opts.width, opts.initialIndent, lineWidth));
    if initial != [] {
      LineFits(line, opts.initialIndent, initial[0], patch, opts.width, lineWidth);
      var end := Min(initial[0].end, |flat|);
      var base := end + LeadingSpaces(flat[end..]);
      var remaining := wrap(flat[base..], AvailableWidth(opts.width, opts.subsequentIndent, lineWidth));
      RestFits(line, opts.subsequentIndent, base, remaining, patch, opts.width, lineWidth);
      var out := WordWrap(line, opts, wrap, patch, lineWidth);
      forall k | 1 <= k < |out|
        ensures Fits(out[k], opts.subsequentIndent, line.style, opts.width, lineWidth)
      {
        assert out[k] == RestLines(line, opts.subsequentIndent, base, remaining, patch)[k - 1];
      }
    }
  }

  lemma {:induction false} NoMoreSpaces(s: string)
    ensures LeadingSpaces(s) < |s| ==> s[LeadingSpaces(s)] != ' '
  {
    if s != "" && s[0] == ' ' {
      NoMoreSpaces(s[1..]);
    }
  }

  lemma SpacesAreBlank(text: string, at: nat)
    requires at <= |text|
    ensures IsBlank(text[at..at + LeadingSpaces(text[at..])])
  {
    var n := LeadingSpaces(text[at..]);
    assert forall i | 0 <= i < n :: text[at..at + n][i] == text[at..][i];
  }

  lemma IndentOnly<S>(indent: Line<S>, n: nat)
    ensures Ink(BodyOf([indent], |indent.spans|) + BodyOf([], n)) == []
  {
    assert [indent][1..] == [];
    assert indent.spans[|indent.spans|..] == [];
  }

  // ----- the loops ------------------------------------------------------------------------------

  lemma SliceNone<S>(spans: seq<Span<S>>, bounds: seq<Bound<S>>, range: Range)
    requires |bounds| == |spans|
    requires forall k | 0 <= k < |spans| :: bounds[k].end == bounds[k].start + |spans[k].content|
    ensures SliceFrom(spans, bounds, |spans|, range) == []
  {
  }

  method SliceLineSpans<S>(spans: seq<Span<S>>, bounds: seq<Bound<S>>, range: Range) returns (acc: seq<Span<S>>)
    requires |bounds| == |spans|
    requires forall k | 0 <= k < |spans| :: bounds[k].end == bounds[k].start + |spans[k].content|
    ensures acc == SliceFrom(spans, bounds, 0, range)
  {
    hide SliceFrom, PieceOf;
    acc := [];
    var i := 0;
    while i < |bounds|
      invariant 0 <= i <= |spans|
      invariant acc + SliceFrom(spans, bounds, i, range) == SliceFrom(spans, bounds, 0, range)
    {
      var b := bounds[i];
      SliceOne(spans, bounds, i, range);
      if b.end <= range.start {
        i := i + 1;
        continue;
      }
      if b.start >= range.end {
        return;
      }
      var piece := SpanPiece(spans[i].content, b, range);
      acc := acc + piece;
      if b.end >= range.end {
        return;
      }
      i := i + 1;
    }
    SliceNone(spans, bounds, range);
  }

  method SpanPiece<S>(content: string, b: Bound<S>, range: Range) returns (piece: seq<Span<S>>)
    requires b.end == b.start + |content|
    ensures piece == PieceOf(content, b.style, b.start, range)
  {
    piece := [];
    var lo, hi := Max(range.start, b.start), Min(range.end, b.end);
    if hi > lo {
      piece := [Span(content[lo - b.start..hi - b.start], b.style)];
    }
  }

  /** Flattening a line while recording its span boundaries. */
  method RecordBounds<S>(spans: seq<Span<S>>) returns (flat: string, bounds: seq<Bound<S>>)
    ensures flat == FlatText(spans) && bounds == BoundsFrom(spans, 0)
  {
    flat, bounds := "", [];
    var acc: nat, i: nat := 0, 0;
    assert spans[0..] == spans;
    while i < |spans|
      invariant i <= |spans|
      invariant flat + FlatText(spans[i..]) == FlatText(spans)
      invariant bounds + BoundsFrom(spans[i..], acc) == BoundsFrom(spans, 0)
    {
      assert spans[i..][1..] == spans[i + 1..];
      var text := spans[i].content;
      flat := flat + text;
      bounds := bounds + [Bound(acc, acc + |text|, spans[i].style)];
      acc := acc + |text|;
      i := i + 1;
    }
    assert spans[i..] == [] && flat + "" == flat && bounds + [] == bounds;
  }

  method WordWrapLine<S>(line: Line<S>, opts: Options<S>, wrap: (string, nat) -> seq<Range>,
                         patch: (S, S) -> S, lineWidth: Line<S> -> nat) returns (out: seq<Line<S>>)
    ensures out == WordWrap(line, opts, wrap, patch, lineWidth)
  {
    hide SliceFrom, Patched, AvailableWidth, LeadingSpaces, FlatText, BoundsFrom;
    var flat, bounds := RecordBounds(line.spans);
    BoundsMatch(line.spans, 0);
    var initial := wrap(flat, AvailableWidth(opts.width, opts.initialIndent, lineWidth));
    if initial == [] {
      return [opts.initialIndent];
    }
    var sliced := SliceLineSpans(line.spans, bounds, initial[0]);
    out := [Line(opts.initialIndent.spans + Patched(sliced, patch, line.style), line.style)];
    var end := Min(initial[0].end, |flat|);
    var base := end + LeadingSpaces(flat[end..]);
    var remaining := wrap(flat[base..], AvailableWidth(opts.width, opts.subsequentIndent, lineWidth));
    var i: nat := 0;
    assert remaining[0..] == remaining;
    while i < |remaining|
      invariant i <= |remaining|
      invariant out + RestLines(line, opts.subsequentIndent, base, remaining[i..], patch)
             == WordWrap(line, opts, wrap, patch, lineWidth)
    {
      var r := remaining[i];
      assert remaining[i..][1..] == remaining[i + 1..];
      ghost var before, more := out, RestLines(line, opts.subsequentIndent, base, remaining[i + 1..], patch);
      if r.start < r.end {
        sliced := SliceLineSpans(line.spans, bounds, Range(r.start + base, r.end + base));
        var wrapped := Line(opts.subsequentIndent.spans + Patched(sliced, patch, line.style), line.style);
        out := out + [wrapped];
        assert before + ([wrapped] + more) == out + more;
      } else {
        assert [] + more == more;
      }
      i := i + 1;
    }
    assert remaining[i..] == [] && out + [] == out;
  }
}
