/** The thinking summarizer: text is buffered, jobs run concurrently and answer over a
    channel, and a counter of pending jobs decides when a flush may return. */
module Summarizer {
  import opened Text

  datatype Job = Job(text: string, tokens: nat, chunks: nat)

  datatype Summary = Summary(text: string, tokens: nat, chunks: nat)

  /** The summarizer's fields.  The channel is its queue of unread messages together with
      the jobs that hold its sending end; replacing the channel forgets both. */
  datatype State = State(
    buffer: string,
    tokenCount: nat,
    chunkCount: nat,
    summaries: seq<Summary>,
    lastSent: nat,
    threshold: nat,
    pending: nat,
    inFlight: seq<Job>,
    queue: seq<Option<Summary>>)

  function Init(threshold: nat): State {
    State("", 0, 0, [], 0, threshold, 0, [], [])
  }

  function Spawn(s: State): State {
    if s.buffer == "" || s.tokenCount == 0 then s
    else s.(inFlight := s.inFlight + [Job(s.buffer, s.tokenCount, s.chunkCount)],
            pending := s.pending + 1,
            buffer := "", tokenCount := 0, chunkCount := 0)
  }

  function Receive(s: State, pending: nat): State
    requires s.queue != []
  {
    s.(pending := pending,
       queue := s.queue[1..],
       summaries := s.summaries + if s.queue[0].Some? then [s.queue[0].value] else [])
  }

  function Drain(s: State): State
    decreases |s.queue|
  {
    if s.queue == [] then s else Drain(Receive(s, SaturatingDec(s.pending)))
  }

  function Add(s: State, chunk: string): State {
    var s0 := Drain(s);
    var s1 := s0.(buffer := s0.buffer + chunk, chunkCount := s0.chunkCount + 1);
    var s2 := s1.(tokenCount := ByteLen(s1.buffer) / 4);
    if s2.tokenCount >= s2.threshold then Spawn(s2) else s2
  }

  /** Job number `index` (modulo the jobs there are) answers with a text, or fails. */
  datatype Completion = Completion(index: nat, answer: Option<string>)

  function Complete(s: State, c: Completion): State {
    if s.inFlight == [] then s
    else
      var i := c.index % |s.inFlight|;
      s.(inFlight := s.inFlight[..i] + s.inFlight[i + 1..],
         queue := s.queue + [Answer(s.inFlight[i], c.answer)])
  }

  function Answer(j: Job, answer: Option<string>): Option<Summary> {
    match answer
    case None => None
    case Some(t) => Some(Summary(t, j.tokens, j.chunks))
  }

  /** Blocking receives until nothing is pending.  When the queue is empty some running
      job answers next: which one and what is up to `schedule`.  With neither a message
      nor a job left the wait would never end. */
  function WaitAll(s: State, schedule: nat -> Completion, k: nat): State
    decreases s.pending, |s.inFlight|, 1
  {
    if s.pending == 0 then s
    else if s.queue != [] then WaitAll(Receive(s, s.pending - 1), schedule, k)
    else if s.inFlight != [] then
      WaitAll(Complete(s, schedule(k)), schedule, k + 1)
    else s
  }

  function Flush(s: State, schedule: nat -> Completion): State {
    var s0 := Drain(s);
    var s1 := if s0.buffer != "" && s0.tokenCount > 0 then Spawn(s0) else s0;
    WaitAll(s1, schedule, 0)
  }

  function GetNew(s: State): (State, seq<Summary>) {
    var s0 := Drain(s);
    (s0.(lastSent := |s0.summaries|), if s0.lastSent <= |s0.summaries| then s0.summaries[s0.lastSent..] else [])
  }

  function Clear(s: State): State {
    Init(s.threshold)
  }

  // ----- every interleaving --------------------------------------------------------

  datatype Action =
    | DoAdd(chunk: string)
    | DoFlush(schedule: nat -> Completion)
    | DoGetNew
    | DoClear
    | DoComplete(completion: Completion)

  /** What happened since the last clear: the chunks fed in, the jobs spawned, the jobs
      that answered with their messages in order of arrival, and what callers received. */
  datatype World = World(
    s: State,
    fed: seq<string>,
    spawned: seq<Job>,
    finished: seq<Job>,
    arrived: seq<Option<Summary>>,
    returned: seq<Summary>)

  function Start(threshold: nat): World {
    World(Init(threshold), [], [], [], [], [])
  }

  function NoteSpawn(w: World, before: State): World {
    if before.buffer == "" || before.tokenCount == 0 then w
    else w.(spawned := w.spawned + [Job(before.buffer, before.tokenCount, before.chunkCount)])
  }

  function NoteComplete(w: World, c: Completion): World {
    if w.s.inFlight == [] then w
    else
      var j := w.s.inFlight[c.index % |w.s.inFlight|];
      w.(s := Complete(w.s, c), finished := w.finished + [j], arrived := w.arrived + [Answer(j, c.answer)])
  }

  function AddWorld(w: World, chunk: string): World {
    var s0 := Drain(w.s);
    var s2 := s0.(buffer := s0.buffer + chunk, chunkCount := s0.chunkCount + 1,
                  tokenCount := ByteLen(s0.buffer + chunk) / 4);
    var w1 := w.(s := s2, fed := w.fed + [chunk]);
    if s2.tokenCount >= s2.threshold then SpawnWorld(w1) else w1
  }

  function SpawnWorld(w: World): World {
    NoteSpawn(w, w.s).(s := Spawn(w.s))
  }

  function WaitWorld(w: World, schedule: nat -> Completion, k: nat): World
    decreases w.s.pending, |w.s.inFlight|, 1
  {
    if w.s.pending == 0 then w
    else if w.s.queue != [] then WaitWorld(w.(s := Receive(w.s, w.s.pending - 1)), schedule, k)
    else if w.s.inFlight != [] then WaitWorld(NoteComplete(w, schedule(k)), schedule, k + 1)
    else w
  }

  function Next(w: World, a: Action): World {
    match a
    case DoAdd(chunk) => AddWorld(w, chunk)
    case DoFlush(schedule) =>
      var w0 := w.(s := Drain(w.s));
      WaitWorld(SpawnWorld(w0), schedule, 0)
    case DoGetNew =>
      var (s, news) := GetNew(w.s);
      w.(s := s, returned := w.returned + news)
    case DoClear => Start(w.s.threshold)
    case DoComplete(c) => NoteComplete(w, c)
  }

  function Run(w: World, actions: seq<Action>): World
    decreases |actions|
  {
    if actions == [] then w else Run(Next(w, actions[0]), actions[1..])
  }

  function Texts(jobs: seq<Job>): seq<string> {
    seq(|jobs|, i requires 0 <= i < |jobs| => jobs[i].text)
  }

  function Successes(ms: seq<Option<Summary>>): seq<Summary> {
    if ms == [] then []
    else (if ms[0].Some? then [ms[0].value] else []) + Successes(ms[1..])
  }

  function ChunkSum(jobs: seq<Job>): nat {
    if jobs == [] then 0 else ChunkSum(jobs[..|jobs| - 1]) + jobs[|jobs| - 1].chunks
  }

  /** The counter is exact. */
  ghost predicate Counted(s: State) {
    && s.pending == |s.inFlight| + |s.queue|
    && s.tokenCount == ByteLen(s.buffer) / 4
    && s.lastSent <= |s.summaries|
  }

  /** No text is lost: what the jobs took plus what is buffered is what was fed. */
  ghost predicate TextKept(w: World) {
    && Concat(Texts(w.spawned)) + w.s.buffer == Concat(w.fed)
    && ChunkSum(w.spawned) + w.s.chunkCount == |w.fed|
    && forall i | 0 <= i < |w.spawned| ::
         w.spawned[i].text != "" && w.spawned[i].tokens == ByteLen(w.spawned[i].text) / 4 > 0
  }

  /** Every job answers at most once, and its message carries its own counts. */
  ghost predicate JobsTracked(w: World) {
    && multiset(w.spawned) == multiset(w.finished) + multiset(w.s.inFlight)
    && |w.arrived| == |w.finished|
    && forall i | 0 <= i < |w.arrived| :: w.arrived[i].Some? ==>
         w.arrived[i].value.tokens == w.finished[i].tokens && w.arrived[i].value.chunks == w.finished[i].chunks
  }

  /** Every successful answer is handed out at most once, in order of arrival. */
  ghost predicate InOrder(w: World) {
    && w.s.lastSent <= |w.s.summaries|
    && Successes(w.arrived) == w.s.summaries + Successes(w.s.queue)
    && w.returned == w.s.summaries[..w.s.lastSent]
  }

  ghost predicate Inv(w: World) {
    Counted(w.s) && TextKept(w) && JobsTracked(w) && InOrder(w)
  }

  // ----- lemmas ------------------------------------------------------------------------

  lemma {:induction false} SuccessesAppend(a: seq<Option<Summary>>, b: seq<Option<Summary>>)
    ensures Successes(a + b) == Successes(a) + Successes(b)
  {
    if a == [] {
      assert a + b == b;
    } else {
      assert (a + b)[1..] == a[1..] + b && (a + b)[0] == a[0];
      SuccessesAppend(a[1..], b);
      var first := if a[0].Some? then [a[0].value] else [];
      assert Successes(a + b) == first + Successes((a + b)[1..]);
      assert first + (Successes(a[1..]) + Successes(b)) == first + Successes(a[1..]) + Successes(b);
    }
  }

  /** Receiving one message keeps every invariant; the subtraction does not saturate. */
  lemma ReceiveKeeps(w: World)
    requires Inv(w) && w.s.queue != []
    ensures w.s.pending > 0
    ensures Inv(w.(s := Receive(w.s, w.s.pending - 1)))
  {
    hide Concat, Texts, ChunkSum, ByteLen;
    var s, q := w.s, w.s.queue;
    var got := if q[0].Some? then [q[0].value] else [];
    assert Successes(q) == got + Successes(q[1..]);
    assert (s.summaries + got)[..s.lastSent] == s.summaries[..s.lastSent];
    assert s.summaries + (got + Successes(q[1..])) == s.summaries + got + Successes(q[1..]);
  }

  lemma {:induction false} DrainKeeps(w: World)
    requires Inv(w)
    ensures Inv(w.(s := Drain(w.s)))
    ensures Drain(w.s) == w.s.(queue := [], pending := |w.s.inFlight|,
                               summaries := w.s.summaries + Successes(w.s.queue))
    decreases |w.s.queue|
  {
    hide Inv, Successes;
    if w.s.queue == [] {
      DrainNothing(w);
    } else {
      ReceiveKeeps(w);
      var w1 := w.(s := Receive(w.s, w.s.pending - 1));
      DrainKeeps(w1);
      SuccessesStep(w.s.queue, w.s.summaries);
    }
  }

  lemma SuccessesStep(q: seq<Option<Summary>>, before: seq<Summary>)
    requires q != []
    ensures before + Successes(q)
         == (before + if q[0].Some? then [q[0].value] else []) + Successes(q[1..])
  {
  }

  lemma DrainNothing(w: World)
    requires Inv(w) && w.s.queue == []
    ensures w.s.pending == |w.s.inFlight| && w.s.summaries + Successes(w.s.queue) == w.s.summaries
    ensures w.(s := w.s) == w
  {
    hide Concat, Texts, ByteLen, JobsTracked, TextKept;
  }

  lemma TextsSnoc(jobs: seq<Job>, j: Job)
    ensures Concat(Texts(jobs + [j])) == Concat(Texts(jobs)) + j.text
    ensures ChunkSum(jobs + [j]) == ChunkSum(jobs) + j.chunks
  {
    hide Concat;
    assert Texts(jobs + [j]) == Texts(jobs) + [j.text];
    ConcatSnoc(Texts(jobs), j.text);
    assert (jobs + [j])[..|jobs|] == jobs;
  }

  lemma SpawnKeeps(w: World)
    requires Inv(w)
    ensures Inv(SpawnWorld(w))
    ensures SpawnWorld(w).s.tokenCount == 0 || w.s.buffer == ""
  {
    hide Concat, Texts, ChunkSum, ByteLen, Successes;
    var s := w.s;
    if s.buffer != "" && s.tokenCount > 0 {
      var j := Job(s.buffer, s.tokenCount, s.chunkCount);
      TextsSnoc(w.spawned, j);
      EmptyBytes();
      assert multiset(w.spawned + [j]) == multiset(w.spawned) + multiset{j};
      assert multiset(s.inFlight + [j]) == multiset(s.inFlight) + multiset{j};
      assert Concat(Texts(w.spawned)) + s.buffer + "" == Concat(Texts(w.spawned)) + s.buffer;
    }
  }

  lemma EmptyBytes()
    ensures ByteLen("") == 0
  {
  }

  lemma CompleteTracks(w: World, c: Completion)
    requires JobsTracked(w)
    ensures JobsTracked(NoteComplete(w, c))
  {
    var s := w.s;
    if s.inFlight != [] {
      var i := c.index % |s.inFlight|;
      var j := s.inFlight[i];
      assert s.inFlight == s.inFlight[..i] + [j] + s.inFlight[i + 1..];
      assert multiset(s.inFlight) == multiset(s.inFlight[..i] + s.inFlight[i + 1..]) + multiset{j};
      assert multiset(w.finished + [j]) == multiset(w.finished) + multiset{j};
    }
  }

  lemma CompleteOrders(w: World, c: Completion)
    requires InOrder(w)
    ensures InOrder(NoteComplete(w, c))
  {
    hide Successes;
    var s := w.s;
    if s.inFlight != [] {
      var m := Answer(s.inFlight[c.index % |s.inFlight|], c.answer);
      SuccessesAppend(w.arrived, [m]);
      SuccessesAppend(s.queue, [m]);
      assert s.summaries + (Successes(s.queue) + Successes([m]))
          == (s.summaries + Successes(s.queue)) + Successes([m]);
    }
  }

  lemma CompleteKeeps(w: World, c: Completion)
    requires Inv(w)
    ensures Inv(NoteComplete(w, c))
    ensures NoteComplete(w, c).s.pending == w.s.pending
  {
    hide Concat, Texts, ChunkSum, ByteLen, JobsTracked, InOrder;
    CompleteTracks(w, c);
    CompleteOrders(w, c);
  }

  lemma AddKeeps(w: World, chunk: string)
    requires Inv(w)
    ensures Inv(AddWorld(w, chunk))
  {
    hide Drain, Concat, Texts, ChunkSum, ByteLen, Successes;
    DrainKeeps(w);
    var w0 := w.(s := Drain(w.s));
    ConcatSnoc(w.fed, chunk);
    var s2 := w0.s.(buffer := w0.s.buffer + chunk, chunkCount := w0.s.chunkCount + 1,
                    tokenCount := ByteLen(w0.s.buffer + chunk) / 4);
    var w1 := w.(s := s2, fed := w.fed + [chunk]);
    assert Concat(Texts(w.spawned)) + (w0.s.buffer + chunk) == Concat(Texts(w.spawned)) + w0.s.buffer + chunk;
    SpawnKeeps(w1);
  }

  /** A flush always terminates with nothing pending, in flight or unread: the blocked
      branch of the wait is never taken. */
  lemma {:induction false} WaitKeeps(w: World, schedule: nat -> Completion, k: nat)
    requires Inv(w)
    ensures var w' := WaitWorld(w, schedule, k);
            && Inv(w')
            && w'.s.pending == 0 && w'.s.inFlight == [] && w'.s.queue == []
            && w'.s.buffer == w.s.buffer && w'.s.tokenCount == w.s.tokenCount
            && w'.fed == w.fed && w'.spawned == w.spawned
    decreases w.s.pending, |w.s.inFlight|, 1
  {
    hide TextKept, JobsTracked, InOrder;
    if w.s.pending > 0 {
      if w.s.queue != [] {
        ReceiveKeeps(w);
        WaitKeeps(w.(s := Receive(w.s, w.s.pending - 1)), schedule, k);
      } else {
        CompleteKeeps(w, schedule(k));
        WaitKeeps(NoteComplete(w, schedule(k)), schedule, k + 1);
      }
    }
  }

  lemma FlushKeeps(w: World, schedule: nat -> Completion)
    requires Inv(w)
    ensures var w' := Next(w, DoFlush(schedule));
            && Inv(w')
            && w'.s.pending == 0 && w'.s.inFlight == [] && w'.s.queue == []
            && w'.s.tokenCount == 0 && ByteLen(w'.s.buffer) < 4
            && w'.fed == w.fed
  {
    hide TextKept, JobsTracked, InOrder, Drain, ByteLen, WaitWorld;
    DrainKeeps(w);
    var w0 := w.(s := Drain(w.s));
    SpawnKeeps(w0);
    WaitKeeps(SpawnWorld(w0), schedule, 0);
    EmptyBytes();
  }

  lemma GetNewKeeps(w: World)
    requires Inv(w)
    ensures Inv(Next(w, DoGetNew))
  {
    hide Drain, Concat, Texts, ChunkSum, ByteLen, Successes, JobsTracked, TextKept;
    DrainKeeps(w);
    var s0 := Drain(w.s);
    assert s0.summaries[..s0.lastSent] + s0.summaries[s0.lastSent..] == s0.summaries[..|s0.summaries|];
    var w1 := Next(w, DoGetNew);
    TextKeptSame(w.(s := s0), w1);
  }

  lemma TextKeptSame(a: World, b: World)
    requires TextKept(a) && JobsTracked(a)
    requires b == a.(s := b.s, returned := b.returned)
    requires b.s.buffer == a.s.buffer && b.s.chunkCount == a.s.chunkCount && b.s.inFlight == a.s.inFlight
    ensures TextKept(b) && JobsTracked(b)
  {
    hide Concat, Texts, ChunkSum, ByteLen;
  }

  lemma StartHolds(threshold: nat)
    ensures Inv(Start(threshold))
  {
    assert Texts([]) == [];
  }

  lemma NextKeeps(w: World, a: Action)
    requires Inv(w)
    ensures Inv(Next(w, a))
  {
    hide Inv, AddWorld, NoteComplete, GetNew, WaitWorld, Drain, SpawnWorld;
    match a {
      case DoAdd(chunk) => AddKeeps(w, chunk);
      case DoFlush(schedule) => FlushKeeps(w, schedule);
      case DoGetNew => GetNewKeeps(w);
      case DoClear => StartHolds(w.s.threshold);
      case DoComplete(c) => CompleteKeeps(w, c);
    }
  }

  /** Over every sequence of adds, flushes, reads, clears and job answers. */
  lemma {:induction false} EveryRunKeeps(w: World, actions: seq<Action>)
    requires Inv(w)
    ensures Inv(Run(w, actions))
    decreases |actions|
  {
    hide Inv, Next;
    if actions != [] {
      NextKeeps(w, actions[0]);
      EveryRunKeeps(Next(w, actions[0]), actions[1..]);
    }
  }

  function Apply(s: State, a: Action): State {
    match a
    case DoAdd(chunk) => Add(s, chunk)
    case DoFlush(schedule) => Flush(s, schedule)
    case DoGetNew => GetNew(s).0
    case DoClear => Clear(s)
    case DoComplete(c) => Complete(s, c)
  }

  lemma {:induction false} WaitFollows(w: World, schedule: nat -> Completion, k: nat)
    ensures WaitWorld(w, schedule, k).s == WaitAll(w.s, schedule, k)
    decreases w.s.pending, |w.s.inFlight|
  {
    if w.s.pending > 0 {
      if w.s.queue != [] {
        WaitFollows(w.(s := Receive(w.s, w.s.pending - 1)), schedule, k);
      } else if w.s.inFlight != [] {
        WaitFollows(NoteComplete(w, schedule(k)), schedule, k + 1);
      }
    }
  }

  /** The bookkeeping only observes: the state component moves as the object does. */
  lemma WorldFollowsObject(w: World, a: Action)
    ensures Next(w, a).s == Apply(w.s, a)
  {
    hide Drain, ByteLen, WaitWorld, WaitAll;
    match a {
      case DoFlush(schedule) =>
        WaitFollows(SpawnWorld(w.(s := Drain(w.s))), schedule, 0);
      case _ =>
    }
  }

  /** Everything together, from a new summarizer. */
  lemma RunsAreSafe(threshold: nat, actions: seq<Action>)
    ensures var w := Run(Start(threshold), actions);
            && w.s.pending == |w.s.inFlight| + |w.s.queue|
            && Concat(Texts(w.spawned)) + w.s.buffer == Concat(w.fed)
            && w.returned <= Successes(w.arrived)
            && multiset(w.finished) <= multiset(w.spawned)
  {
    hide Run, Concat, Texts, Successes, ByteLen, ChunkSum;
    StartHolds(threshold);
    EveryRunKeeps(Start(threshold), actions);
    var w := Run(Start(threshold), actions);
    assert Successes(w.arrived)[..w.s.lastSent] == w.s.summaries[..w.s.lastSent];
  }

  /** A flush at any point of any run returns with nothing outstanding. */
  lemma FlushIsFinal(threshold: nat, actions: seq<Action>, schedule: nat -> Completion)
    ensures var w := Next(Run(Start(threshold), actions), DoFlush(schedule));
            && w.s.pending == 0 && w.s.inFlight == [] && w.s.queue == []
            && w.s.tokenCount == 0 && ByteLen(w.s.buffer) < 4
            && multiset(w.finished) == multiset(w.spawned)
            && w.s.summaries == Successes(w.arrived)
  {
    hide Run, Next, Concat, Texts, ByteLen, ChunkSum, Drain;
    StartHolds(threshold);
    EveryRunKeeps(Start(threshold), actions);
    FlushKeeps(Run(Start(threshold), actions), schedule);
    var w := Next(Run(Start(threshold), actions), DoFlush(schedule));
    assert Successes(w.s.queue) == [];
  }

  /** A read at any point of any run returns exactly the successful answers that have arrived
      and were not returned before, in order of arrival. */
  lemma ReadReturnsTheRest(threshold: nat, actions: seq<Action>)
    ensures var w := Run(Start(threshold), actions);
            var w' := Next(w, DoGetNew);
            && w'.arrived == w.arrived && w'.returned == Successes(w.arrived)
            && w.returned <= Successes(w.arrived)
            && GetNew(w.s).1 == Successes(w.arrived)[|w.returned|..]
  {
    hide Run, Concat, Texts, ByteLen, ChunkSum, Drain, Successes, JobsTracked, TextKept;
    StartHolds(threshold);
    EveryRunKeeps(Start(threshold), actions);
    RunsAreSafe(threshold, actions);
    var w := Run(Start(threshold), actions);
    DrainKeeps(w);
    var all := w.s.summaries + Successes(w.s.queue);
    assert w.returned == all[..w.s.lastSent] && all[..|all|] == all;
    assert w.returned + all[w.s.lastSent..] == all;
  }

  /** A flush followed by a read has returned every successful answer of every job spawned
      since the last clear, each exactly once. */
  lemma FlushThenReadReturnsAll(threshold: nat, actions: seq<Action>, schedule: nat -> Completion)
    ensures var w := Next(Next(Run(Start(threshold), actions), DoFlush(schedule)), DoGetNew);
            && w.returned == Successes(w.arrived)
            && multiset(w.finished) == multiset(w.spawned) && |w.arrived| == |w.spawned|
  {
    hide Run, Next, GetNew, Concat, Texts, ByteLen, ChunkSum, Drain, Successes, TextKept, InOrder, Counted;
    var flush := DoFlush(schedule);
    RunSnoc(Start(threshold), actions, flush);
    ReadReturnsTheRest(threshold, actions + [flush]);
    FlushIsFinal(threshold, actions, schedule);
    StartHolds(threshold);
    EveryRunKeeps(Start(threshold), actions + [flush]);
    var w := Run(Start(threshold), actions + [flush]);
    ReadObserves(w);
    assert |multiset(w.finished)| == |multiset(w.spawned)|;
  }

  lemma ReadObserves(w: World)
    ensures var w' := Next(w, DoGetNew);
            w'.finished == w.finished && w'.spawned == w.spawned && w'.arrived == w.arrived
  {
    hide GetNew;
  }

  lemma {:induction false} RunSnoc(w: World, actions: seq<Action>, a: Action)
    ensures Run(w, actions + [a]) == Next(Run(w, actions), a)
    decreases |actions|
  {
    hide Next;
    if actions == [] {
      assert Run(w, [a]) == Run(Next(w, a), [a][1..]);
    } else {
      assert (actions + [a])[1..] == actions[1..] + [a] && (actions + [a])[0] == actions[0];
      RunSnoc(Next(w, actions[0]), actions[1..], a);
    }
  }

  /** A job is spawned by a chunk exactly when the buffered text reaches the threshold: it
      takes the whole text, and the buffer starts anew. */
  lemma AddSpawnsAtThreshold(w: World, chunk: string)
    requires Inv(w)
    ensures var text := w.s.buffer + chunk;
            var tokens, chunks := ByteLen(text) / 4, w.s.chunkCount + 1;
            var w' := Next(w, DoAdd(chunk));
            if tokens > 0 && tokens >= w.s.threshold then
              w'.spawned == w.spawned + [Job(text, tokens, chunks)]
              && w'.s.buffer == "" && w'.s.tokenCount == 0 && w'.s.chunkCount == 0
            else
              w'.spawned == w.spawned
              && w'.s.buffer == text && w'.s.tokenCount == tokens && w'.s.chunkCount == chunks
  {
    hide Drain, ByteLen, Inv;
    DrainKeeps(w);
    EmptyBytes();
  }

  /** An answer arrives with the text it was given and the counts of its job; a failed job
      arrives as a failure. */
  lemma AnswersArrive(w: World, i: nat, answer: Option<string>)
    requires i < |w.s.inFlight|
    ensures var j, w' := w.s.inFlight[i], Next(w, DoComplete(Completion(i, answer)));
            && w'.finished == w.finished + [j]
            && w'.arrived == w.arrived
                 + [if answer.Some? then Some(Summary(answer.value, j.tokens, j.chunks)) else None]
            && w'.s.inFlight == w.s.inFlight[..i] + w.s.inFlight[i + 1..]
  {
    hide Answer;
    SmallRemainder(i, |w.s.inFlight|);
    AnswerIs(w.s.inFlight[i], answer);
  }

  lemma AnswerIs(j: Job, answer: Option<string>)
    ensures Answer(j, answer) == if answer.Some? then Some(Summary(answer.value, j.tokens, j.chunks)) else None
  {
  }

  lemma SmallRemainder(i: nat, n: nat)
    requires i < n
    ensures i % n == i
  {
  }

  // ----- the object ---------------------------------------------------------------------

  class ThinkingSummarizer {
    var buffer: string
    var tokenCount: nat
    var chunkCount: nat
    var summaries: seq<Summary>
    var lastSentCount: nat
    const tokenThreshold: nat
    var pendingJobs: nat
    // The current channel: jobs holding its sending end, and its unread messages.
    var inFlight: seq<Job>
    var channel: seq<Option<Summary>>

    ghost function St(): State
      reads this
    {
      State(buffer, tokenCount, chunkCount, summaries, lastSentCount, tokenThreshold, pendingJobs, inFlight, channel)
    }

    constructor (threshold: nat)
      ensures St() == Init(threshold)
    {
      tokenThreshold := threshold;
      buffer, tokenCount, chunkCount := "", 0, 0;
      summaries, lastSentCount, pendingJobs := [], 0, 0;
      inFlight, channel := [], [];
    }

    /** A background job finishing: its one message goes to the channel. */
    method JobAnswers(c: Completion)
      modifies this
      ensures St() == Complete(old(St()), c)
    {
      if inFlight != [] {
        var i := c.index % |inFlight|;
        channel := channel + [Answer(inFlight[i], c.answer)];
        inFlight := inFlight[..i] + inFlight[i + 1..];
      }
    }

    method SpawnSummaryJob()
      modifies this
      ensures St() == Spawn(old(St()))
    {
      if buffer == "" || tokenCount == 0 {
        return;
      }
      inFlight := inFlight + [Job(buffer, tokenCount, chunkCount)];
      pendingJobs := pendingJobs + 1;
      buffer := "";
      tokenCount := 0;
      chunkCount := 0;
    }

    method DrainReadySummaries()
      modifies this
      ensures St() == Drain(old(St()))
    {
      while channel != []
        invariant Drain(St()) == Drain(old(St()))
        decreases |channel|
      {
        var message := channel[0];
        channel := channel[1..];
        pendingJobs := SaturatingDec(pendingJobs);
        assert summaries + [] == summaries;
        if message.Some? {
          summaries := summaries + [message.value];
        }
      }
    }

    method AddThinkingChunk(chunk: string)
      modifies this
      ensures St() == Add(old(St()), chunk)
    {
      hide Drain, ByteLen;
      DrainReadySummaries();
      buffer := buffer + chunk;
      chunkCount := chunkCount + 1;
      tokenCount := ByteLen(buffer) / 4;
      if tokenCount >= tokenThreshold {
        SpawnSummaryJob();
      }
    }

    method WaitForAllSummaries(schedule: nat -> Completion)
      requires Counted(St())
      modifies this
      ensures St() == WaitAll(old(St()), schedule, 0)
      ensures pendingJobs == 0 && inFlight == [] && channel == []
    {
      hide ByteLen;
      ghost var k: nat := 0;
      var i: nat := 0;
      while pendingJobs > 0
        invariant i == k
        invariant pendingJobs == |inFlight| + |channel|
        invariant WaitAll(St(), schedule, k) == WaitAll(old(St()), schedule, 0)
        decreases pendingJobs, |inFlight|
      {
        if channel == [] {
          JobAnswers(schedule(i));
          i, k := i + 1, k + 1;
        } else {
          var message := channel[0];
          channel := channel[1..];
          pendingJobs := pendingJobs - 1;
          assert summaries + [] == summaries;
          if message.Some? {
            summaries := summaries + [message.value];
          }
        }
      }
    }

    method FlushAll(schedule: nat -> Completion)
      requires Counted(St())
      modifies this
      ensures St() == Flush(old(St()), schedule)
      ensures pendingJobs == 0 && inFlight == [] && channel == [] && tokenCount == 0
    {
      hide ByteLen, WaitAll;
      CountedDrain(St());
      DrainReadySummaries();
      if buffer != "" && tokenCount > 0 {
        SpawnSummaryJob();
      }
      EmptyBytes();
      ghost var s := St();
      WaitForAllSummaries(schedule);
      WaitKeepsTokens(s, schedule, 0);
    }

    method GetNewSummaries() returns (news: seq<Summary>)
      modifies this
      ensures (St(), news) == GetNew(old(St()))
      ensures summaries == old(summaries) + Successes(old(channel)) && channel == [] && lastSentCount == |summaries|
      ensures old(lastSentCount) <= |summaries| ==> news == summaries[old(lastSentCount)..]
    {
      hide Drain, Successes;
      DrainReadsAll(St());
      DrainReadySummaries();
      news := if lastSentCount <= |summaries| then summaries[lastSentCount..] else [];
      lastSentCount := |summaries|;
    }

    method ClearAll()
      modifies this
      ensures St() == Clear(old(St()))
    {
      buffer, tokenCount, chunkCount := "", 0, 0;
      summaries, lastSentCount, pendingJobs := [], 0, 0;
      inFlight, channel := [], [];
    }
  }

  lemma {:induction false} DrainReadsAll(s: State)
    ensures Drain(s).summaries == s.summaries + Successes(s.queue)
    ensures Drain(s).queue == [] && Drain(s).lastSent == s.lastSent
    decreases |s.queue|
  {
    hide Successes;
    if s.queue != [] {
      DrainReadsAll(Receive(s, SaturatingDec(s.pending)));
      SuccessesStep(s.queue, s.summaries);
    } else {
      NoSuccesses();
      assert s.summaries + [] == s.summaries;
    }
  }

  lemma NoSuccesses()
    ensures Successes([]) == []
  {
  }

  lemma {:induction false} CountedDrain(s: State)
    requires Counted(s)
    ensures Counted(Drain(s))
    ensures Drain(s).buffer == s.buffer && Drain(s).tokenCount == s.tokenCount
    decreases |s.queue|
  {
    hide ByteLen;
    if s.queue != [] {
      CountedDrain(Receive(s, SaturatingDec(s.pending)));
    }
  }

  lemma {:induction false} WaitKeepsTokens(s: State, schedule: nat -> Completion, k: nat)
    ensures WaitAll(s, schedule, k).tokenCount == s.tokenCount
    ensures WaitAll(s, schedule, k).buffer == s.buffer
    decreases s.pending, |s.inFlight|
  {
    if s.pending > 0 {
      if s.queue != [] {
        WaitKeepsTokens(Receive(s, s.pending - 1), schedule, k);
      } else if s.inFlight != [] {
        WaitKeepsTokens(Complete(s, schedule(k)), schedule, k + 1);
      }
    }
  }
}
