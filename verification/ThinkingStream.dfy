/** The content-delta state machine of `run_generation`: a chunked model stream is
    cut into "thinking" text and visible text. */
module ThinkingStream {
  import opened Text

  const HOLD_BACK := 11
  const PIECE := 100

  datatype Tags = Tags(open: string, close: string)

  datatype StartDecision = NeedMoreData | Detected(contentStart: nat) | NotThinking

  datatype Message = ThinkingContent(text: string) | AgentResponse(text: string)

  /** The mutable locals of one pass over the stream; `messages` and `summarizerInput`
      are what went to the UI channel and to the thinking summarizer. */
  datatype State = State(
    allowStart: bool,
    inThinking: bool,
    pendingPrefix: string,
    buffer: string,
    heldWhitespace: string,
    responseStarted: bool,
    accumulated: string,
    messages: seq<Message>,
    summarizerInput: seq<string>)

  const INITIAL := State(true, false, "", "", "", false, "", [], [])

  function AnalyzeThinkingStart(buffer: string, openTag: string): (d: StartDecision)
    ensures d.Detected? ==> d.contentStart <= |buffer|
  {
    var start := FirstVisible(buffer);
    if start == |buffer| then NeedMoreData
    else
      var trimmed := buffer[start..];
      if openTag <= trimmed then Detected(start + |openTag|)
      else if trimmed <= openTag then NeedMoreData
      else NotThinking
  }

  /** Cutting the emitted text into pieces of at most a hundred characters. */
  function Pieces(text: string): (ps: seq<string>)
    ensures Concat(ps) == text
    decreases |text|
  {
    if text == "" then []
    else if |text| > PIECE then
      assert text == text[..PIECE] + text[PIECE..];
      [text[..PIECE]] + Pieces(text[PIECE..])
    else
      assert Concat([text]) == text + Concat<char>([]);
      [text]
  }

  function AsThinking(ps: seq<string>): seq<Message> {
    seq(|ps|, i requires 0 <= i < |ps| => ThinkingContent(ps[i]))
  }

  // ----- one delta ----------------------------------------------------------

  function OnVisible(s: State, chunk: string): State {
    if !s.responseStarted && !HasVisible(chunk) then
      s.(heldWhitespace := s.heldWhitespace + chunk)
    else
      var outbound := s.heldWhitespace + chunk;
      s.(heldWhitespace := "",
         accumulated := s.accumulated + outbound,
         messages := s.messages + [AgentResponse(outbound)],
         responseStarted := s.responseStarted || HasVisible(chunk))
  }

  function OnThinkingEnd(tags: Tags, s: State, end: nat): State
    requires end + |tags.close| <= |s.buffer|
  {
    var final := s.buffer[..end];
    var after := s.buffer[end + |tags.close|..];
    var s1 := s.(inThinking := false, buffer := "");
    var s2 := if final == "" then s1
              else s1.(messages := s.messages + [ThinkingContent(final)],
                       summarizerInput := s.summarizerInput + [final]);
    if after == "" then s2
    else if HasVisible(after) then
      var outbound := s2.heldWhitespace + after;
      s2.(heldWhitespace := "",
          accumulated := s2.accumulated + outbound,
          messages := s2.messages + [AgentResponse(outbound)],
          responseStarted := true)
    else s2.(heldWhitespace := s2.heldWhitespace + after)
  }

  function OnThinkingMore(s: State): State {
    if |s.buffer| <= HOLD_BACK then s
    else
      var cut := |s.buffer| - HOLD_BACK;
      s.(buffer := s.buffer[cut..],
         messages := s.messages + AsThinking(Pieces(s.buffer[..cut])),
         summarizerInput := s.summarizerInput + [s.buffer[..cut]])
  }

  function OnThinking(tags: Tags, s: State, chunk: string): State {
    if chunk == "" then s
    else
      var s1 := s.(buffer := s.buffer + chunk);
      match Find(s1.buffer, tags.close)
      case Some(end) => OnThinkingEnd(tags, s1, end)
      case None => OnThinkingMore(s1)
  }

  function OnContent(tags: Tags, s: State, chunk: string): State {
    if chunk == "" then s
    else if s.allowStart then
      var prefix := s.pendingPrefix + chunk;
      match AnalyzeThinkingStart(prefix, tags.open)
      case NeedMoreData => s.(pendingPrefix := prefix)
      case Detected(k) =>
        OnThinking(tags, s.(allowStart := false, inThinking := true, pendingPrefix := ""), prefix[k..])
      case NotThinking =>
        var s1 := s.(allowStart := false, pendingPrefix := "");
        if s.inThinking then OnThinking(tags, s1, prefix) else OnVisible(s1, prefix)
    else if s.inThinking then OnThinking(tags, s, chunk)
    else OnVisible(s, chunk)
  }

  /** The flush after the stream ends. */
  function Finish(s: State): State {
    var s1 := if s.pendingPrefix == "" then s
              else s.(accumulated := s.accumulated + s.pendingPrefix,
                      messages := s.messages + [AgentResponse(s.pendingPrefix)]);
    if s1.inThinking && s1.buffer != "" then
      s1.(messages := s1.messages + [ThinkingContent(s1.buffer)],
          summarizerInput := s1.summarizerInput + [s1.buffer])
    else s1
  }

  function Feed(tags: Tags, s: State, chunks: seq<string>): State
    decreases |chunks|
  {
    if chunks == [] then s else Feed(tags, OnContent(tags, s, chunks[0]), chunks[1..])
  }

  // ----- what the receivers see -----------------------------------------------

  function ThinkingOf(ms: seq<Message>): string {
    if ms == [] then ""
    else ThinkingOf(ms[..|ms| - 1]) + (if ms[|ms| - 1].ThinkingContent? then ms[|ms| - 1].text else "")
  }

  function VisibleOf(ms: seq<Message>): string {
    if ms == [] then ""
    else VisibleOf(ms[..|ms| - 1]) + (if ms[|ms| - 1].AgentResponse? then ms[|ms| - 1].text else "")
  }

  datatype Output = Output(thinking: string, visible: string)

  function OutputOf(s: State): Output {
    Output(ThinkingOf(s.messages), VisibleOf(s.messages))
  }

  /** Everything a caller observes of a whole stream delivered as `chunks`. */
  function Outcome(tags: Tags, chunks: seq<string>): Output {
    OutputOf(Finish(Feed(tags, INITIAL, chunks)))
  }

  // ----- the reference: splitting the whole text at once ------------------------

  function Split(tags: Tags, stream: string): Output {
    var k := FirstVisible(stream);
    if k < |stream| && tags.open <= stream[k..] then
      var body := stream[k + |tags.open|..];
      match Find(body, tags.close)
      case None => Output(body, "")
      case Some(e) =>
        var rest := body[e + |tags.close|..];
        Output(body[..e], if HasVisible(rest) then rest else "")
    else Output("", stream)
  }

  // ----- lemmas -----------------------------------------------------------------

  lemma MessageSnoc(ms: seq<Message>, m: Message)
    ensures ThinkingOf(ms + [m]) == ThinkingOf(ms) + (if m.ThinkingContent? then m.text else "")
    ensures VisibleOf(ms + [m]) == VisibleOf(ms) + (if m.AgentResponse? then m.text else "")
  {
    assert (ms + [m])[..|ms|] == ms;
  }

  lemma {:induction false} PiecesOutput(ms: seq<Message>, ps: seq<string>)
    ensures ThinkingOf(ms + AsThinking(ps)) == ThinkingOf(ms) + Concat(ps)
    ensures VisibleOf(ms + AsThinking(ps)) == VisibleOf(ms)
    decreases |ps|
  {
    if ps == [] {
      assert ms + AsThinking(ps) == ms;
    } else {
      var init, last := ps[..|ps| - 1], ps[|ps| - 1];
      assert ps == init + [last];
      assert ms + AsThinking(ps) == (ms + AsThinking(init)) + [ThinkingContent(last)];
      MessageSnoc(ms + AsThinking(init), ThinkingContent(last));
      PiecesOutput(ms, init);
      ConcatSnoc(init, last);
    }
  }

  /** Once the beginning of the stream is decided, more text never changes the decision. */
  lemma DecisionStable(p: string, q: string, openTag: string)
    requires !AnalyzeThinkingStart(p, openTag).NeedMoreData?
    ensures AnalyzeThinkingStart(p + q, openTag) == AnalyzeThinkingStart(p, openTag)
  {
    var k := FirstVisible(p);
    assert (p + q)[..k] == p[..k];
    FirstVisibleUnique(p + q, k);
    assert (p + q)[k..] == p[k..] + q;
    if openTag <= p[k..] {
    } else {
      var n := if |p[k..]| < |openTag| then |p[k..]| else |openTag|;
      assert p[k..][..|p[k..]|] == p[k..] && openTag[..|openTag|] == openTag;
      assert ((p + q)[k..])[..n] == p[k..][..n];
    }
  }

  lemma OccursShift(emitted: string, tail: string, needle: string, i: nat)
    ensures OccursAt(emitted + tail, needle, |emitted| + i) == OccursAt(tail, needle, i)
  {
    if i + |needle| <= |tail| {
      assert (emitted + tail)[|emitted| + i..|emitted| + i + |needle|] == tail[i..i + |needle|];
    }
  }

  lemma OccursPrefix(hay: string, more: string, needle: string, k: nat)
    requires k + |needle| <= |hay|
    ensures OccursAt(hay + more, needle, k) == OccursAt(hay, needle, k)
  {
    assert (hay + more)[k..k + |needle|] == hay[k..k + |needle|];
  }

  /** What was sent cannot be the beginning of a close tag. */
  lemma NotAcross(emitted: string, kept: string, chunk: string, close: string)
    requires |close| <= HOLD_BACK + 1 && |kept| >= HOLD_BACK && !Occurs(emitted + kept, close)
    ensures forall k: nat | k < |emitted| :: !OccursAt(emitted + (kept + chunk), close, k)
  {
    hide OccursAt;
    assert emitted + kept + chunk == emitted + (kept + chunk);
    forall k: nat | k < |emitted|
      ensures !OccursAt(emitted + (kept + chunk), close, k)
    {
      OccursPrefix(emitted + kept, chunk, close, k);
    }
  }

  /** The hold-back argument: with eleven characters kept, searching the kept tail finds
      exactly what searching everything would find. */
  lemma HoldBackFinds(emitted: string, kept: string, chunk: string, close: string)
    requires |close| <= HOLD_BACK + 1
    requires emitted == "" || (|kept| >= HOLD_BACK && !Occurs(emitted + kept, close))
    ensures Find(emitted + kept + chunk, close) ==
            match Find(kept + chunk, close)
            case Some(i) => Some(|emitted| + i)
            case None => None
  {
    hide FindFrom, OccursAt;
    var tail := kept + chunk;
    assert emitted + kept + chunk == emitted + tail;
    if emitted == "" {
      assert emitted + tail == tail;
    } else {
      NotAcross(emitted, kept, chunk, close);
      forall i: nat
        ensures OccursAt(emitted + tail, close, |emitted| + i) == OccursAt(tail, close, i)
      {
        OccursShift(emitted, tail, close, i);
      }
      match Find(tail, close)
      case Some(i) =>
        assert OccursAt(emitted + tail, close, |emitted| + i);
        forall k: nat | k < |emitted| + i
          ensures !OccursAt(emitted + tail, close, k)
        {
          if k >= |emitted| {
            assert k == |emitted| + (k - |emitted|);
            assert !OccursAt(tail, close, k - |emitted|);
          }
        }
        FindUnique(emitted + tail, close, |emitted| + i);
      case None =>
        forall k: nat
          ensures !OccursAt(emitted + tail, close, k)
        {
          if k >= |emitted| {
            assert k == |emitted| + (k - |emitted|);
            assert !OccursAt(tail, close, k - |emitted|);
          }
        }
    }
  }

  /** An opening tag that begins with whitespace is never recognised. */
  predicate NeverOpens(tags: Tags) {
    tags.open != "" && IsWhitespace(tags.open[0])
  }

  /** Between the tags: what was sent and what is held back make up the text so far. */
  ghost predicate Inside(tags: Tags, s: State, body: string) {
    && !s.allowStart && s.inThinking && s.pendingPrefix == ""
    && !s.responseStarted && s.heldWhitespace == "" && s.accumulated == ""
    && VisibleOf(s.messages) == ""
    && ThinkingOf(s.messages) + s.buffer == body
    && Concat(s.summarizerInput) == ThinkingOf(s.messages)
    && (ThinkingOf(s.messages) == "" || |s.buffer| == HOLD_BACK)
    && (body == "" || !Occurs(body, tags.close))
  }

  /** Outside the tags: leading whitespace is held until something visible arrives. */
  ghost predicate Outside(s: State, thinking: string, rest: string) {
    && !s.allowStart && !s.inThinking && s.pendingPrefix == "" && s.buffer == ""
    && ThinkingOf(s.messages) == thinking
    && Concat(s.summarizerInput) == thinking
    && s.accumulated == VisibleOf(s.messages)
    && s.responseStarted == HasVisible(rest)
    && s.heldWhitespace == (if s.responseStarted then "" else rest)
    && VisibleOf(s.messages) == (if s.responseStarted then rest else "")
  }

  /** What the state means once the text after the opening tag is `body`. */
  ghost predicate InvBody(tags: Tags, s: State, body: string) {
    if s.inThinking then Inside(tags, s, body)
    else
      && Find(body, tags.close).Some?
      && var e := Find(body, tags.close).value;
         Outside(s, body[..e], body[e + |tags.close|..])
  }

  /** What the state means after `stream` has been delivered, however it was cut. */
  ghost predicate Inv(tags: Tags, s: State, stream: string) {
    match AnalyzeThinkingStart(stream, tags.open)
    case NeedMoreData => s == INITIAL.(pendingPrefix := stream)
    case NotThinking => HasVisible(stream) && Outside(s, "", stream)
    case Detected(k) => !s.allowStart && InvBody(tags, s, stream[k..])
  }

  lemma VisibleStep(s: State, chunk: string, thinking: string, rest: string)
    requires Outside(s, thinking, rest)
    ensures Outside(OnVisible(s, chunk), thinking, rest + chunk)
  {
    hide Concat, ThinkingOf, VisibleOf, IsBlank;
    BlankAppend(rest, chunk);
    MessageSnoc(s.messages, AgentResponse(s.heldWhitespace + chunk));
    assert "" + chunk == chunk && "" + (rest + chunk) == rest + chunk;
  }

  lemma ThinkingStep(tags: Tags, s: State, body: string, chunk: string)
    requires |tags.close| <= HOLD_BACK + 1
    requires Inside(tags, s, body) && chunk != ""
    ensures InvBody(tags, OnThinking(tags, s, chunk), body + chunk)
    ensures !OnThinking(tags, s, chunk).allowStart
  {
    hide Find, FindFrom, OccursAt, Concat, ThinkingOf, VisibleOf, OnThinkingEnd, OnThinkingMore, Outside;
    var emitted := ThinkingOf(s.messages);
    HoldBackFinds(emitted, s.buffer, chunk, tags.close);
    var tail := s.buffer + chunk;
    assert body + chunk == emitted + tail;
    var s1 := s.(buffer := tail);
    match Find(tail, tags.close)
    case None =>
      ThinkingMoreStep(s1, emitted);
    case Some(i) =>
      assert (emitted + tail)[..|emitted| + i] == emitted + tail[..i];
      assert (emitted + tail)[|emitted| + i + |tags.close|..] == tail[i + |tags.close|..];
      ThinkingEndStep(tags, s1, emitted, i);
  }

  lemma ThinkingMoreStep(s: State, emitted: string)
    requires ThinkingOf(s.messages) == emitted == Concat(s.summarizerInput)
    requires emitted == "" || |s.buffer| >= HOLD_BACK
    ensures var s' := OnThinkingMore(s);
            && ThinkingOf(s'.messages) + s'.buffer == emitted + s.buffer
            && (ThinkingOf(s'.messages) == "" || |s'.buffer| == HOLD_BACK)
            && VisibleOf(s'.messages) == VisibleOf(s.messages)
            && Concat(s'.summarizerInput) == ThinkingOf(s'.messages)
            && s' == s.(buffer := s'.buffer, messages := s'.messages, summarizerInput := s'.summarizerInput)
  {
    hide Concat, ThinkingOf, VisibleOf, Pieces, AsThinking;
    if |s.buffer| > HOLD_BACK {
      var cut := |s.buffer| - HOLD_BACK;
      PiecesOutput(s.messages, Pieces(s.buffer[..cut]));
      ConcatSnoc(s.summarizerInput, s.buffer[..cut]);
      assert s.buffer == s.buffer[..cut] + s.buffer[cut..];
    }
  }

  lemma BlankEmpty()
    ensures IsBlank("")
  {
  }

  lemma ThinkingEndStep(tags: Tags, s: State, emitted: string, i: nat)
    requires i + |tags.close| <= |s.buffer|
    requires ThinkingOf(s.messages) == emitted == Concat(s.summarizerInput)
    requires VisibleOf(s.messages) == "" && s.accumulated == "" && s.heldWhitespace == ""
    requires !s.responseStarted && !s.allowStart && s.pendingPrefix == ""
    ensures Outside(OnThinkingEnd(tags, s, i), emitted + s.buffer[..i], s.buffer[i + |tags.close|..])
    ensures !OnThinkingEnd(tags, s, i).inThinking && !OnThinkingEnd(tags, s, i).allowStart
  {
    hide Concat, ThinkingOf, VisibleOf, IsBlank;
    BlankEmpty();
    var final, after := s.buffer[..i], s.buffer[i + |tags.close|..];
    assert emitted + "" == emitted && "" + after == after;
    MessageSnoc(s.messages, ThinkingContent(final));
    ConcatSnoc(s.summarizerInput, final);
    MessageSnoc(s.messages, AgentResponse("" + after));
    MessageSnoc(s.messages + [ThinkingContent(final)], AgentResponse("" + after));
  }

  lemma ContentStep(tags: Tags, s: State, stream: string, chunk: string)
    requires |tags.close| <= HOLD_BACK + 1 || NeverOpens(tags)
    requires Inv(tags, s, stream)
    ensures Inv(tags, OnContent(tags, s, chunk), stream + chunk)
  {
    hide Find, FindFrom, OccursAt, Occurs, Concat, ThinkingOf, VisibleOf, OnThinking, OnVisible,
         IsBlank, FirstVisible, AnalyzeThinkingStart;
    if chunk == "" {
      assert stream + chunk == stream;
      return;
    }
    match AnalyzeThinkingStart(stream, tags.open)
    case NeedMoreData =>
      StartStep(tags, s, stream, chunk);
    case NotThinking =>
      DecisionStable(stream, chunk, tags.open);
      VisibleStep(s, chunk, "", stream);
      BlankAppend(stream, chunk);
    case Detected(k) =>
      DecisionStable(stream, chunk, tags.open);
      NeverDetects(tags, stream);
      assert (stream + chunk)[k..] == stream[k..] + chunk;
      BodyStep(tags, s, stream[k..], chunk);
  }

  lemma BodyStep(tags: Tags, s: State, body: string, chunk: string)
    requires |tags.close| <= HOLD_BACK + 1
    requires !s.allowStart && InvBody(tags, s, body) && chunk != ""
    ensures InvBody(tags, OnContent(tags, s, chunk), body + chunk)
    ensures !OnContent(tags, s, chunk).allowStart
  {
    hide Find, FindFrom, OccursAt, Occurs, Concat, ThinkingOf, VisibleOf, OnThinking, OnVisible, IsBlank;
    if s.inThinking {
      ThinkingStep(tags, s, body, chunk);
    } else {
      var e := Find(body, tags.close).value;
      FindExtends(body, chunk, tags.close);
      VisibleStep(s, chunk, body[..e], body[e + |tags.close|..]);
      assert (body + chunk)[..e] == body[..e];
      assert (body + chunk)[e + |tags.close|..] == body[e + |tags.close|..] + chunk;
    }
  }

  lemma StartStep(tags: Tags, s: State, stream: string, chunk: string)
    requires |tags.close| <= HOLD_BACK + 1 || NeverOpens(tags)
    requires s == INITIAL.(pendingPrefix := stream) && chunk != ""
    ensures Inv(tags, OnContent(tags, s, chunk), stream + chunk)
  {
    hide Find, FindFrom, OccursAt, Concat, ThinkingOf, VisibleOf, OnThinking, OnVisible,
         IsBlank, FirstVisible, AnalyzeThinkingStart;
    var prefix := stream + chunk;
    InitMeans(tags, s.(allowStart := false, pendingPrefix := ""));
    match AnalyzeThinkingStart(prefix, tags.open)
    case NeedMoreData =>
    case NotThinking =>
      assert "" + prefix == prefix;
      VisibleStep(s.(allowStart := false, pendingPrefix := ""), prefix, "", "");
      DecidedIsVisible(prefix, tags.open);
    case Detected(k) =>
      NeverDetects(tags, prefix);
      var s1 := s.(allowStart := false, inThinking := true, pendingPrefix := "");
      assert "" + prefix[k..] == prefix[k..];
      if prefix[k..] != "" {
        ThinkingStep(tags, s1, "", prefix[k..]);
      } else {
        EmptyDelta(tags, s1);
      }
  }

  lemma EmptyDelta(tags: Tags, s: State)
    ensures OnThinking(tags, s, "") == s
  {
    hide Find;
  }

  lemma InitMeans(tags: Tags, s: State)
    requires s == INITIAL.(allowStart := false)
    ensures Outside(s, "", "")
    ensures Inside(tags, s.(inThinking := true), "")
  {
  }

  lemma DecidedIsVisible(p: string, openTag: string)
    requires AnalyzeThinkingStart(p, openTag).NotThinking?
    ensures HasVisible(p)
  {
    assert !IsWhitespace(p[FirstVisible(p)]);
  }

  lemma NeverDetects(tags: Tags, p: string)
    ensures NeverOpens(tags) ==> !AnalyzeThinkingStart(p, tags.open).Detected?
  {
    var k := FirstVisible(p);
    if k < |p| && tags.open != "" && tags.open <= p[k..] {
      assert tags.open[0] == p[k..][0];
    }
  }

  lemma FindExtends(body: string, chunk: string, close: string)
    requires Find(body, close).Some?
    ensures Find(body + chunk, close) == Find(body, close)
  {
    hide OccursAt;
    var e := Find(body, close).value;
    forall k: nat | k <= e
      ensures OccursAt(body + chunk, close, k) == OccursAt(body, close, k)
    {
      OccursPrefix(body, chunk, close, k);
    }
    FindUnique(body + chunk, close, e);
  }

  lemma {:induction false} FeedKeepsInv(tags: Tags, s: State, stream: string, chunks: seq<string>)
    requires |tags.close| <= HOLD_BACK + 1 || NeverOpens(tags)
    requires Inv(tags, s, stream)
    ensures Inv(tags, Feed(tags, s, chunks), stream + Concat(chunks))
    decreases |chunks|
  {
    hide Inv, OnContent, NeverOpens;
    if chunks == [] {
      assert stream + Concat(chunks) == stream;
    } else {
      ContentStep(tags, s, stream, chunks[0]);
      FeedKeepsInv(tags, OnContent(tags, s, chunks[0]), stream + chunks[0], chunks[1..]);
      assert stream + chunks[0] + Concat(chunks[1..]) == stream + Concat(chunks);
    }
  }

  lemma FinishMeetsSplit(tags: Tags, s: State, stream: string)
    requires Inv(tags, s, stream)
    ensures OutputOf(Finish(s)) == Split(tags, stream)
    ensures Finish(s).accumulated == Split(tags, stream).visible
    ensures Concat(Finish(s).summarizerInput) == Split(tags, stream).thinking
  {
    hide Find, FindFrom, Concat, ThinkingOf, VisibleOf, IsBlank, FirstVisible;
    MessageSnoc(s.messages, AgentResponse(s.pendingPrefix));
    MessageSnoc(s.messages, ThinkingContent(s.buffer));
    ConcatSnoc(s.summarizerInput, s.buffer);
    EmptyOutputs();
    match AnalyzeThinkingStart(stream, tags.open)
    case NeedMoreData =>
      assert "" + stream == stream;
    case NotThinking =>
    case Detected(k) =>
      var body := stream[k..];
      if s.inThinking && body == "" {
        FindInEmpty(tags.close);
      }
  }

  lemma EmptyOutputs()
    ensures ThinkingOf([]) == "" && VisibleOf([]) == "" && Concat<char>([]) == ""
  {
  }

  lemma FindInEmpty(needle: string)
    ensures Find("", needle) == if needle == "" then Some(0) else None
  {
  }

  /** The whole stream: whatever the chunks, the two texts are those of the one-shot
      split, the accumulated reply is the visible text, and the summarizer received
      exactly the thinking text. */
  lemma StreamMeetsSplit(tags: Tags, chunks: seq<string>)
    requires |tags.close| <= HOLD_BACK + 1 || NeverOpens(tags)
    ensures Outcome(tags, chunks) == Split(tags, Concat(chunks))
    ensures var f := Finish(Feed(tags, INITIAL, chunks));
            && f.accumulated == Split(tags, Concat(chunks)).visible
            && Concat(f.summarizerInput) == Split(tags, Concat(chunks)).thinking
  {
    hide Concat, Feed, Split, OutputOf, Finish, Inv;
    InvStarts(tags);
    FeedKeepsInv(tags, INITIAL, "", chunks);
    assert "" + Concat(chunks) == Concat(chunks);
    FinishMeetsSplit(tags, Feed(tags, INITIAL, chunks), Concat(chunks));
  }

  lemma InvStarts(tags: Tags)
    ensures Inv(tags, INITIAL, "")
  {
  }

  ghost predicate ChunkIndependent(tags: Tags) {
    forall a: seq<string>, b: seq<string> | Concat(a) == Concat(b) ::
      Outcome(tags, a) == Outcome(tags, b)
  }

  // ----- why eleven characters: longer close tags break it -----------------------

  function Singles(t: string): (cs: seq<string>)
    ensures Concat(cs) == t
  {
    if t == "" then [] else [[t[0]]] + Singles(t[1..])
  }

  /** Fed one character at a time, a close tag of thirteen or more characters is never seen. */
  lemma {:induction false} SinglesNeverClose(tags: Tags, s: State, t: string)
    requires |tags.close| > HOLD_BACK + 1
    requires !s.allowStart && s.inThinking && s.pendingPrefix == "" && |s.buffer| <= HOLD_BACK
    requires ThinkingOf(s.messages) == "" || |s.buffer| == HOLD_BACK
    requires Concat(s.summarizerInput) == ThinkingOf(s.messages)
    ensures ThinkingOf(Finish(Feed(tags, s, Singles(t))).messages) == ThinkingOf(s.messages) + s.buffer + t
    decreases |t|
  {
    hide Find, FindFrom, Concat, ThinkingOf, VisibleOf, OnThinkingMore, Pieces, AsThinking;
    if t == "" {
      MessageSnoc(s.messages, ThinkingContent(s.buffer));
    } else {
      var c := [t[0]];
      var s1 := s.(buffer := s.buffer + c);
      assert OnContent(tags, s, c) == OnThinkingMore(s1);
      var s2 := OnThinkingMore(s1);
      ThinkingMoreStep(s1, ThinkingOf(s.messages));
      BufferBound(s1);
      SinglesNeverClose(tags, s2, t[1..]);
      assert Singles(t) == [c] + Singles(t[1..]);
      assert Feed(tags, s, Singles(t)) == Feed(tags, s2, Singles(t[1..]));
      assert s1.buffer + t[1..] == s.buffer + t;
    }
  }

  lemma BufferBound(s: State)
    ensures |OnThinkingMore(s).buffer| <= HOLD_BACK
  {
    hide Pieces;
  }

  lemma OpeningStep(tags: Tags, body: string)
    requires !NeverOpens(tags) && body != "" && body[0] == 'x'
    ensures OnContent(tags, INITIAL, tags.open + body)
         == OnThinking(tags, INITIAL.(allowStart := false, inThinking := true), body)
  {
    hide OnThinking;
    var p := tags.open + body;
    assert !IsWhitespace(p[0]);
    FirstVisibleUnique(p, 0);
    assert p[0..] == p && tags.open <= p && p[|tags.open|..] == body;
    assert INITIAL.pendingPrefix + p == p;
  }

  lemma OnePieceCloses(tags: Tags, body: string)
    requires !NeverOpens(tags) && body == "x" + tags.close
    ensures |Outcome(tags, [tags.open + body]).thinking| <= 1
  {
    hide Find, FindFrom, Concat, ThinkingOf, VisibleOf, OnThinkingEnd, OnContent, IsBlank;
    OpeningStep(tags, body);
    OccursAtOne(body, tags.close);
    var e := Find(body, tags.close).value;
    var s := INITIAL.(allowStart := false, inThinking := true, buffer := body);
    assert INITIAL.buffer + body == body;
    EmptyOutputs();
    ThinkingEndStep(tags, s, "", e);
    assert Feed(tags, INITIAL, [tags.open + body]) == OnThinkingEnd(tags, s, e);
    assert |"" + body[..e]| == e;
  }

  lemma OccursAtOne(body: string, close: string)
    requires body == "x" + close
    ensures Find(body, close).Some? && Find(body, close).value <= 1
  {
    hide FindFrom, Find;
    assert OccursAt(body, close, 1);
  }

  lemma LongCloseTagDiffers(tags: Tags) returns (a: seq<string>, b: seq<string>)
    requires |tags.close| > HOLD_BACK + 1 && !NeverOpens(tags)
    ensures Concat(a) == Concat(b) && Outcome(tags, a) != Outcome(tags, b)
  {
    hide OnContent, Finish, ThinkingOf, VisibleOf, NeverOpens;
    var head, body := tags.open + "x", "x" + tags.close;
    a := [head] + Singles(tags.close);
    b := [tags.open + body];
    assert Concat(a) == Concat(b) by {
      ConcatAppend([head], Singles(tags.close));
      ConcatSnoc([], head);
      ConcatSnoc([], tags.open + body);
      assert [] + [head] == [head] && [] + b == b;
      assert head + tags.close == tags.open + body;
    }
    var s := INITIAL.(allowStart := false, inThinking := true, buffer := "x");
    assert OnContent(tags, INITIAL, head) == s by {
      OpeningStep(tags, "x");
      OneCharHeld(tags);
    }
    EmptyOutputs();
    SinglesNeverClose(tags, s, tags.close);
    assert a[0] == head && a[1..] == Singles(tags.close);
    assert |Outcome(tags, a).thinking| == |"" + "x" + tags.close|;
    OnePieceCloses(tags, body);
  }

  lemma OneCharHeld(tags: Tags)
    requires |tags.close| > HOLD_BACK + 1
    ensures OnThinking(tags, INITIAL.(allowStart := false, inThinking := true), "x")
         == INITIAL.(allowStart := false, inThinking := true, buffer := "x")
  {
    hide FindFrom;
    assert INITIAL.buffer + "x" == "x";
  }

  /** Exactly when the outcome does not depend on where the chunks fall. */
  lemma ChunkIndependence(tags: Tags)
    ensures ChunkIndependent(tags) <==> |tags.close| <= 12 || NeverOpens(tags)
  {
    if |tags.close| <= HOLD_BACK + 1 || NeverOpens(tags) {
      forall a: seq<string>, b: seq<string> | Concat(a) == Concat(b)
        ensures Outcome(tags, a) == Outcome(tags, b)
      {
        StreamMeetsSplit(tags, a);
        StreamMeetsSplit(tags, b);
      }
    } else {
      var a, b := LongCloseTagDiffers(tags);
    }
  }

  // ----- the order and the size of the messages ------------------------------------

  /** No thinking follows a response. */
  predicate ThinkingFirst(ms: seq<Message>) {
    forall i, j | 0 <= i < j < |ms| :: ms[i].AgentResponse? ==> !ms[j].ThinkingContent?
  }

  predicate AllThinking(ms: seq<Message>) {
    forall i | 0 <= i < |ms| :: ms[i].ThinkingContent?
  }

  /** Until the start is decided nothing is sent; until the tag closes only thinking is, and
      all of it but the last eleven characters. */
  predicate InPhase(s: State) {
    && ThinkingFirst(s.messages)
    && (s.allowStart ==> !s.inThinking && s.messages == [] && s.buffer == "")
    && (s.pendingPrefix != "" ==> s.allowStart)
    && (s.inThinking ==> AllThinking(s.messages) && |s.buffer| <= HOLD_BACK)
  }

  lemma VisiblePhase(s: State, chunk: string)
    requires InPhase(s) && !s.inThinking && !s.allowStart
    ensures InPhase(OnVisible(s, chunk))
  {
    hide IsBlank;
  }

  lemma EndPhase(tags: Tags, s: State, end: nat)
    requires end + |tags.close| <= |s.buffer|
    requires AllThinking(s.messages) && !s.allowStart && s.pendingPrefix == ""
    ensures InPhase(OnThinkingEnd(tags, s, end)) && !OnThinkingEnd(tags, s, end).inThinking
  {
    hide IsBlank;
  }

  lemma MorePhase(s: State)
    requires AllThinking(s.messages) && s.inThinking && !s.allowStart && s.pendingPrefix == ""
    ensures InPhase(OnThinkingMore(s))
  {
    hide Pieces;
  }

  lemma ThinkingPhase(tags: Tags, s: State, chunk: string)
    requires InPhase(s) && s.inThinking && !s.allowStart
    ensures InPhase(OnThinking(tags, s, chunk))
  {
    hide Find, OnThinkingEnd, OnThinkingMore, ThinkingFirst, AllThinking;
    var s1 := s.(buffer := s.buffer + chunk);
    match Find(s1.buffer, tags.close) {
      case Some(end) => EndPhase(tags, s1, end);
      case None => MorePhase(s1);
    }
  }

  lemma ContentPhase(tags: Tags, s: State, chunk: string)
    requires InPhase(s)
    ensures InPhase(OnContent(tags, s, chunk))
  {
    hide AnalyzeThinkingStart, OnThinking, OnVisible;
    if chunk != "" {
      if s.allowStart {
        var prefix := s.pendingPrefix + chunk;
        match AnalyzeThinkingStart(prefix, tags.open) {
          case NeedMoreData =>
          case Detected(k) =>
            var s1 := s.(allowStart := false, inThinking := true, pendingPrefix := "");
            FreshThinking(tags, s1, prefix[k..]);
          case NotThinking =>
            VisiblePhase(s.(allowStart := false, pendingPrefix := ""), prefix);
        }
      } else if s.inThinking {
        ThinkingPhase(tags, s, chunk);
      } else {
        VisiblePhase(s, chunk);
      }
    }
  }

  /** The first text after the opening tag. */
  lemma FreshThinking(tags: Tags, s: State, chunk: string)
    requires s.messages == [] && s.inThinking && !s.allowStart && s.pendingPrefix == ""
    requires |s.buffer| <= HOLD_BACK
    ensures InPhase(OnThinking(tags, s, chunk))
  {
    ThinkingPhase(tags, s, chunk);
  }

  lemma {:induction false} FeedPhase(tags: Tags, s: State, chunks: seq<string>)
    requires InPhase(s)
    ensures InPhase(Feed(tags, s, chunks))
    decreases |chunks|
  {
    hide InPhase, OnContent;
    if chunks != [] {
      ContentPhase(tags, s, chunks[0]);
      FeedPhase(tags, OnContent(tags, s, chunks[0]), chunks[1..]);
    }
  }

  /** For any tags and any chunks, the receivers get all thinking before any response; and
      while the close tag is awaited, all but eleven characters have been sent. */
  lemma ThinkingComesFirst(tags: Tags, chunks: seq<string>)
    ensures var s := Feed(tags, INITIAL, chunks);
            && ThinkingFirst(Finish(s).messages)
            && (s.inThinking ==> |s.buffer| <= HOLD_BACK)
  {
    hide Feed;
    FeedPhase(tags, INITIAL, chunks);
  }

  /** Long thinking is sent in pieces of exactly a hundred characters, the last one of at
      most a hundred, none empty. */
  lemma {:induction false} PiecesAreFull(text: string)
    ensures var ps := Pieces(text);
            && (forall i | 0 <= i < |ps| :: 0 < |ps[i]| <= 100)
            && (forall i | 0 <= i < |ps| - 1 :: |ps[i]| == 100)
            && (text == "" <==> ps == [])
    decreases |text|
  {
    if |text| > PIECE {
      PiecesAreFull(text[PIECE..]);
    }
  }

  // ----- the loop's locals, updated in place ---------------------------------------

  class ContentStream {
    const tags: Tags
    var allowThinkingStart: bool
    var inThinking: bool
    var pendingPrefix: string
    var thinkingBuffer: string
    var pendingAgentResponsePrefix: string
    var finalResponseStarted: bool
    var accumulatedContent: string
    var sent: seq<Message>
    var summarized: seq<string>

    constructor (tags: Tags)
      ensures this.tags == tags && St() == INITIAL
    {
      this.tags := tags;
      allowThinkingStart, inThinking, finalResponseStarted := true, false, false;
      pendingPrefix, thinkingBuffer, pendingAgentResponsePrefix, accumulatedContent := "", "", "", "";
      sent, summarized := [], [];
    }

    ghost function St(): State
      reads this
    {
      State(allowThinkingStart, inThinking, pendingPrefix, thinkingBuffer, pendingAgentResponsePrefix,
            finalResponseStarted, accumulatedContent, sent, summarized)
    }

    /** The emission loop: a hundred characters at a time. */
    method SendThinking(toSend: string)
      modifies this`sent
      ensures sent == old(sent) + AsThinking(Pieces(toSend))
    {
      hide Concat;
      var remaining := toSend;
      ghost var done := [];
      while remaining != ""
        invariant sent == old(sent) + AsThinking(done)
        invariant done + Pieces(remaining) == Pieces(toSend)
        decreases |remaining|
      {
        ghost var before := done;
        if |remaining| > PIECE {
          sent := sent + [ThinkingContent(remaining[..PIECE])];
          done := done + [remaining[..PIECE]];
          remaining := remaining[PIECE..];
        } else {
          sent := sent + [ThinkingContent(remaining)];
          done := done + [remaining];
          remaining := "";
        }
        assert AsThinking(done) == AsThinking(before) + [ThinkingContent(done[|done| - 1])];
        assert done + Pieces(remaining) == before + ([done[|done| - 1]] + Pieces(remaining));
      }
      assert done + Pieces("") == done;
    }

    /** The close tag was found at `end`. */
    method CloseThinking(end: nat)
      requires end + |tags.close| <= |thinkingBuffer|
      modifies this
      ensures St() == OnThinkingEnd(tags, old(St()), end)
    {
      hide IsBlank;
      inThinking := false;
      var finalThinking := thinkingBuffer[..end];
      if finalThinking != "" {
        sent := sent + [ThinkingContent(finalThinking)];
        summarized := summarized + [finalThinking];
      }
      var afterThink := thinkingBuffer[end + |tags.close|..];
      if afterThink != "" {
        if HasVisible(afterThink) {
          var outbound := pendingAgentResponsePrefix + afterThink;
          pendingAgentResponsePrefix := "";
          accumulatedContent := accumulatedContent + outbound;
          sent := sent + [AgentResponse(outbound)];
          finalResponseStarted := true;
        } else {
          pendingAgentResponsePrefix := pendingAgentResponsePrefix + afterThink;
        }
      }
      thinkingBuffer := "";
    }

    /** No close tag yet: send all but the last eleven characters. */
    method KeepThinking()
      modifies this
      ensures St() == OnThinkingMore(old(St()))
    {
      hide Pieces, AsThinking;
      if |thinkingBuffer| > HOLD_BACK {
        var keepFrom := |thinkingBuffer| - HOLD_BACK;
        var toSend := thinkingBuffer[..keepFrom];
        SendThinking(toSend);
        summarized := summarized + [toSend];
        thinkingBuffer := thinkingBuffer[keepFrom..];
      }
    }

    method ProcessThinking(chunk: string)
      modifies this
      ensures St() == OnThinking(tags, old(St()), chunk)
    {
      hide FindFrom, IsBlank, OnThinkingEnd, OnThinkingMore;
      if chunk == "" {
        return;
      }
      thinkingBuffer := thinkingBuffer + chunk;
      var found := Find(thinkingBuffer, tags.close);
      if found.Some? {
        CloseThinking(found.value);
      } else {
        KeepThinking();
      }
    }

    method ProcessVisible(chunk: string)
      modifies this
      ensures St() == OnVisible(old(St()), chunk)
    {
      var chunkHasVisible := HasVisible(chunk);
      if !finalResponseStarted && !chunkHasVisible {
        pendingAgentResponsePrefix := pendingAgentResponsePrefix + chunk;
        return;
      }
      var outbound := pendingAgentResponsePrefix + chunk;
      pendingAgentResponsePrefix := "";
      accumulatedContent := accumulatedContent + outbound;
      sent := sent + [AgentResponse(outbound)];
      if chunkHasVisible {
        finalResponseStarted := true;
      }
    }

    method ContentDelta(content: string)
      modifies this
      ensures St() == OnContent(tags, old(St()), content)
    {
      if content == "" {
        return;
      }
      var chunk, processAsThinking := content, inThinking;
      if allowThinkingStart {
        pendingPrefix := pendingPrefix + chunk;
        match AnalyzeThinkingStart(pendingPrefix, tags.open)
        case NeedMoreData =>
          return;
        case Detected(contentStart) =>
          allowThinkingStart, inThinking, processAsThinking := false, true, true;
          chunk := pendingPrefix[contentStart..];
          pendingPrefix := "";
        case NotThinking =>
          allowThinkingStart := false;
          chunk := pendingPrefix;
          pendingPrefix := "";
      }
      if processAsThinking {
        ProcessThinking(chunk);
      } else {
        ProcessVisible(chunk);
      }
    }

    method EndOfStream()
      modifies this
      ensures St() == Finish(old(St()))
    {
      if pendingPrefix != "" {
        accumulatedContent := accumulatedContent + pendingPrefix;
        sent := sent + [AgentResponse(pendingPrefix)];
      }
      if inThinking && thinkingBuffer != "" {
        sent := sent + [ThinkingContent(thinkingBuffer)];
        summarized := summarized + [thinkingBuffer];
      }
    }
  }

  /** One whole generation over a fresh stream. */
  method RunGeneration(tags: Tags, chunks: seq<string>) returns (output: Output, reply: string)
    ensures |tags.close| <= HOLD_BACK + 1 ==>
              output == Split(tags, Concat(chunks)) && reply == output.visible
    ensures output == Outcome(tags, chunks)
  {
    var stream := new ContentStream(tags);
    var i := 0;
    while i < |chunks|
      invariant 0 <= i <= |chunks|
      invariant stream.tags == tags
      invariant Feed(tags, stream.St(), chunks[i..]) == Feed(tags, INITIAL, chunks)
    {
      stream.ContentDelta(chunks[i]);
      i := i + 1;
    }
    stream.EndOfStream();
    output := Output(ThinkingOf(stream.sent), VisibleOf(stream.sent));
    reply := stream.accumulatedContent;
    if |tags.close| <= HOLD_BACK + 1 {
      StreamMeetsSplit(tags, chunks);
    }
  }
}
