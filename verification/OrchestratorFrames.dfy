/** What every reachable state keeps about its frames: progress, history, conservation
    under commands, and what becomes of a cancelled frame. */
module OrchestratorFrames {
  import opened Text
  import opened Specs
  import opened Orchestrator
  import OrchestratorOrder
  import opened OrchestratorTurns

  // ----- progress of one frame -----------------------------------------------------

  ghost predicate FreshSpec(s: SpecSheet) {
    forall i | 0 <= i < |s.steps| :: s.steps[i].status == Pending
  }

  function CompletedCount(steps: seq<SpecStep>): nat {
    if steps == [] then 0 else (if steps[0].status.Completed? then 1 else 0) + CompletedCount(steps[1..])
  }

  predicate Settled(s: StepStatus) { s.Completed? || s.Failed? }

  /** `f` is what became of the submitted spec `origin`: the steps before its index are
      settled, the later ones untouched, the history grew by one entry per completed step. */
  ghost predicate Evolved(origin: SpecSheet, f: Frame) {
    && f.spec.id == origin.id
    && OrchestratorOrder.SameShape(origin, f.spec)
    && f.idx <= |f.spec.steps|
    && (forall i | 0 <= i < f.idx :: Settled(f.spec.steps[i].status))
    && (forall i | f.idx <= i < |f.spec.steps| :: f.spec.steps[i].status == Pending)
    && HistoryItems(origin.history) <= HistoryItems(f.spec.history)
    && |HistoryItems(f.spec.history)| == |HistoryItems(origin.history)| + CompletedCount(f.spec.steps)
  }

  ghost predicate Descends(sources: set<SpecSheet>, f: Frame) {
    exists o :: o in sources && Evolved(o, f)
  }

  /** The specs that an outcome or a command can bring in. */
  ghost predicate AttemptFrom(sources: set<SpecSheet>, a: Attempt) {
    a.Ran? && a.task.subSpec.Some? ==> a.task.subSpec.value in sources
  }

  ghost predicate CommandFrom(sources: set<SpecSheet>, c: Command) {
    c.InjectSplit? ==> c.childSpec in sources
  }

  ghost predicate BatchFrom(sources: set<SpecSheet>, batch: seq<Command>) {
    forall i | 0 <= i < |batch| :: CommandFrom(sources, batch[i])
  }

  ghost predicate WorldFrom(sources: set<SpecSheet>, s: State) {
    && (forall o | o in sources :: FreshSpec(o))
    && (forall i | 0 <= i < |s.agents| :: AttemptFrom(sources, s.agents[i]))
    && (forall i | 0 <= i < |s.inbox| :: BatchFrom(sources, s.inbox[i]))
  }

  ghost predicate FramesDescend(sources: set<SpecSheet>, s: State) {
    && (forall i | 0 <= i < |s.stack| :: Descends(sources, s.stack[i]))
    && (s.pendingResume.Some? ==> Descends(sources, s.pendingResume.value) && !s.pendingResume.value.Exhausted())
  }

  ghost predicate Inv(sources: set<SpecSheet>, s: State) {
    WorldFrom(sources, s) && FramesDescend(sources, s)
  }

  lemma {:induction false} CountUpdate(steps: seq<SpecStep>, i: nat, step: SpecStep)
    requires i < |steps|
    ensures CompletedCount(steps[i := step]) + (if steps[i].status.Completed? then 1 else 0)
         == CompletedCount(steps) + (if step.status.Completed? then 1 else 0)
  {
    if i == 0 {
      assert steps[0 := step][1..] == steps[1..];
    } else {
      assert steps[i := step][1..] == steps[1..][i - 1 := step];
      CountUpdate(steps[1..], i - 1, step);
    }
  }

  lemma {:induction false} CountPending(steps: seq<SpecStep>)
    requires forall i | 0 <= i < |steps| :: steps[i].status == Pending
    ensures CompletedCount(steps) == 0
  {
    if steps != [] {
      CountPending(steps[1..]);
    }
  }

  lemma FreshDescends(sources: set<SpecSheet>, o: SpecSheet, prefix: string)
    requires o in sources && FreshSpec(o)
    ensures Descends(sources, Frame(o, 0, prefix))
  {
    CountPending(o.steps);
    assert Evolved(o, Frame(o, 0, prefix));
  }

  /** Rewriting the current step without settling it. */
  lemma RewriteStep(o: SpecSheet, f: Frame, g: Frame, step: SpecStep)
    requires Evolved(o, f) && !f.Exhausted()
    requires step.status == Pending && OrchestratorOrder.SameStep(f.Step(), step)
    requires g == f.(spec := f.spec.(steps := f.spec.steps[f.idx := step]))
    ensures Evolved(o, g)
  {
    hide CompletedCount, HistoryItems;
    CountUpdate(f.spec.steps, f.idx, step);
  }

  /** Settling the current step and moving on. */
  lemma SettleStep(o: SpecSheet, f: Frame, g: Frame, step: SpecStep)
    requires Evolved(o, f) && !f.Exhausted()
    requires Settled(step.status) && OrchestratorOrder.SameStep(f.Step(), step)
    requires g.idx == f.idx + 1 && g.spec.id == f.spec.id
    requires g.spec.steps == f.spec.steps[f.idx := step]
    requires step.status.Completed? ==>
               |HistoryItems(g.spec.history)| == |HistoryItems(f.spec.history)| + 1
               && HistoryItems(f.spec.history) <= HistoryItems(g.spec.history)
    requires step.status.Failed? ==> g.spec.history == f.spec.history
    ensures Evolved(o, g)
  {
    hide CompletedCount, HistoryItems;
    CountUpdate(f.spec.steps, f.idx, step);
  }

  lemma PushesDescend(sources: set<SpecSheet>, f: Frame, a: Attempt)
    requires Descends(sources, f) && !f.Exhausted() && a.Ran?
    requires AttemptFrom(sources, a) && forall o | o in sources :: FreshSpec(o)
    ensures forall i | 0 <= i < |Pushes(SetStatus(f, InProgress), a)| ::
              Descends(sources, Pushes(SetStatus(f, InProgress), a)[i])
  {
    hide Descends, Evolved, FreshSpec, HistoryItems, AppendHistory, Compose;
    var g := SetStatus(f, InProgress);
    var ps := Pushes(g, a);
    var o := Origin(sources, f);
    if a.task.subSpec.Some? {
      FreshDescends(sources, a.task.subSpec.value, f.StepPrefix());
    }
    match FateOf(g.Step(), a) {
      case Splits(child) =>
        RewriteStep(o, f, ps[0], f.Step().(status := Pending, subSpec := Some(child)));
        Descending(sources, o, ps[0]);
      case Retries =>
        RewriteStep(o, f, ps[0], f.Step().(status := Pending));
        Descending(sources, o, ps[0]);
      case TaskFails =>
        SettleStep(o, f, ps[0], f.Step().(status := Failed));
        Descending(sources, o, ps[0]);
      case Succeeds(_) =>
        var h := Succeeded(g, a);
        SettleStep(o, f, h, h.spec.steps[f.idx]);
        Descending(sources, o, h);
      case _ =>
    }
  }

  lemma Origin(sources: set<SpecSheet>, f: Frame) returns (o: SpecSheet)
    requires Descends(sources, f)
    ensures o in sources && Evolved(o, f)
  {
    o :| o in sources && Evolved(o, f);
  }

  lemma Descending(sources: set<SpecSheet>, o: SpecSheet, f: Frame)
    requires o in sources && Evolved(o, f)
    ensures Descends(sources, f)
  {
  }

  lemma SuspendedDescends(sources: set<SpecSheet>, f: Frame)
    requires Descends(sources, f) && !f.Exhausted()
    ensures Descends(sources, SetStatus(SetStatus(f, InProgress), Pending))
    ensures !SetStatus(SetStatus(f, InProgress), Pending).Exhausted()
    ensures Descends(sources, SetStatus(f, Pending))
  {
    hide Descends, Evolved;
    var o := Origin(sources, f);
    var step := f.Step().(status := Pending);
    var g := SetStatus(f, Pending);
    RewriteStep(o, f, g, step);
    Descending(sources, o, g);
    assert SetStatus(SetStatus(f, InProgress), Pending) == g;
  }

  lemma ResumedDescends(sources: set<SpecSheet>, f: Frame, message: string)
    requires Descends(sources, f) && !f.Exhausted()
    ensures Descends(sources, AddNote(SetStatus(f, Pending), message))
  {
    hide Descends, Evolved, IsBlank, TrimEnd;
    SuspendedDescends(sources, f);
    var g := SetStatus(f, Pending);
    if !IsBlank(message) {
      var o := Origin(sources, g);
      var h := AddNote(g, message);
      RewriteStep(o, g, h, h.spec.steps[f.idx]);
      Descending(sources, o, h);
    }
  }

  // ----- the invariant over every run -------------------------------------------------------

  lemma CommandKeeps(sources: set<SpecSheet>, s: State, c: Command)
    requires Inv(sources, s) && CommandFrom(sources, c)
    ensures Inv(sources, ApplyCommand(s, c))
  {
    hide Descends, AddNote, SetStatus, Compose, FreshSpec, AttemptFrom, BatchFrom;
    match c {
      case InjectSplit(stepIndex, child) =>
        var t := ApplyCommand(s, c);
        FreshDescends(sources, child, t.stack[|s.stack|].prefix);
      case ResumeStep(prefix, message) =>
        if s.pendingResume.Some? {
          ResumedDescends(sources, s.pendingResume.value, message);
        }
      case _ =>
    }
  }

  lemma {:induction false} BatchKeeps(sources: set<SpecSheet>, s: State, batch: seq<Command>)
    requires Inv(sources, s) && BatchFrom(sources, batch)
    ensures Inv(sources, ApplyBatch(s, batch).0)
    decreases |batch|
  {
    hide Inv, ApplyCommand, CommandFrom;
    if batch != [] {
      assert CommandFrom(sources, batch[0]);
      CommandKeeps(sources, s, batch[0]);
      if !batch[0].Abort? {
        BatchKeeps(sources, ApplyCommand(s, batch[0]), batch[1..]);
      }
    }
  }

  lemma {:induction false} ConcatFrom(sources: set<SpecSheet>, inbox: seq<seq<Command>>)
    requires forall i | 0 <= i < |inbox| :: BatchFrom(sources, inbox[i])
    ensures BatchFrom(sources, Concat(inbox))
    decreases |inbox|
  {
    hide CommandFrom;
    if inbox != [] {
      assert BatchFrom(sources, inbox[0]);
      assert forall i | 0 <= i < |inbox[1..]| :: inbox[1..][i] == inbox[i + 1];
      ConcatFrom(sources, inbox[1..]);
    }
  }

  lemma PolledDescends(sources: set<SpecSheet>, s: State, t: State)
    requires Inv(sources, s)
    ensures FramesDescend(sources, Polled(s, t))
  {
    hide ApplyBatch, FramesDescend, BatchFrom, FreshSpec, AttemptFrom;
    if |t.inbox| <= |s.inbox| {
      ConcatFrom(sources, s.inbox[..|s.inbox| - |t.inbox|]);
    } else {
      ConcatFrom(sources, []);
    }
    BatchKeeps(sources, s, ReadBy(s, t));
  }

  lemma WorldAfter(sources: set<SpecSheet>, s: State, t: State)
    requires WorldFrom(sources, s)
    requires |t.inbox| <= |s.inbox| && s.inbox[|s.inbox| - |t.inbox|..] == t.inbox
    requires t.agents == s.agents || (s.agents != [] && t.agents == s.agents[1..])
    ensures WorldFrom(sources, t)
  {
    hide FreshSpec, AttemptFrom, BatchFrom;
  }

  lemma PutBackDescends(sources: set<SpecSheet>, s: State, f: Frame)
    requires WorldFrom(sources, s) && Descends(sources, f)
    requires FramesDescend(sources, Polled(s, Turn(s, f).s))
    ensures FramesDescend(sources, Turn(s, f).s)
  {
    hide Descends, Turn, Polled, FreshSpec, BatchFrom, SetStatus, Pushes;
    TurnPutsBack(s, f);
    if Suspends(s, f) {
      SuspendedDescends(sources, f);
    } else if Works(s, f) {
      assert AttemptFrom(sources, s.agents[0]);
      PushesDescend(sources, f, s.agents[0]);
    }
  }

  lemma {:induction false} AfterKeeps(sources: set<SpecSheet>, s: State, n: nat)
    requires Inv(sources, s)
    ensures Inv(sources, After(s, n))
    decreases n
  {
    hide WorldFrom, Descends, Turn;
    if n > 0 && s.stack != [] {
      var rest, f := Pop(s), Top(s);
      assert Descends(sources, s.stack[|s.stack| - 1]);
      WorldSame(sources, s, rest);
      var t := Turn(rest, f);
      TurnPutsBack(rest, f);
      TurnAgents(rest, f);
      PolledDescends(sources, rest, t.s);
      PutBackDescends(sources, rest, f);
      WorldAfter(sources, rest, t.s);
      if t.Continue? {
        AfterKeeps(sources, t.s, n - 1);
      }
    }
  }

  lemma WorldSame(sources: set<SpecSheet>, s: State, t: State)
    requires WorldFrom(sources, s) && t.agents == s.agents && t.inbox == s.inbox
    ensures WorldFrom(sources, t)
  {
    hide FreshSpec, AttemptFrom, BatchFrom;
  }

  /** In every reachable state, whatever the commands: each frame on the stack or pending
      comes from a submitted spec, has only settled steps before its index and none in
      progress, and its history grew by exactly its completed steps. */
  lemma ReachableFramesProgress(spec: SpecSheet, inbox: seq<seq<Command>>, agents: seq<Attempt>,
                                sources: set<SpecSheet>, n: nat)
    requires spec in sources && WorldFrom(sources, Init(spec, inbox, agents))
    ensures FramesDescend(sources, After(Init(spec, inbox, agents), n))
  {
    hide After, Descends, WorldFrom;
    var s := Init(spec, inbox, agents);
    FreshSource(sources, s, spec);
    FreshDescends(sources, spec, "");
    AfterKeeps(sources, s, n);
  }

  lemma FreshSource(sources: set<SpecSheet>, s: State, o: SpecSheet)
    requires WorldFrom(sources, s) && o in sources
    ensures FreshSpec(o)
  {
    hide FreshSpec, AttemptFrom, BatchFrom;
  }

  // ----- conservation under commands ----------------------------------------------------------

  /** What a command must not lose: which spec, where it stands, its settled steps, its history. */
  datatype Key = Key(id: string, idx: nat, prefix: string, settled: seq<SpecStep>, rest: nat, history: History)

  function KeyOf(f: Frame): Key {
    var k := if f.Exhausted() then |f.spec.steps| else f.idx;
    Key(f.spec.id, f.idx, f.prefix, f.spec.steps[..k], |f.spec.steps| - k, f.spec.history)
  }

  function Keys(stack: seq<Frame>): multiset<Key> {
    if stack == [] then multiset{} else Keys(stack[..|stack| - 1]) + multiset{KeyOf(stack[|stack| - 1])}
  }

  function PendingKeys(p: Option<Frame>): multiset<Key> {
    if p.Some? then multiset{KeyOf(p.value)} else multiset{}
  }

  /** Every frame the orchestrator still holds, the one in hand aside. */
  function Held(s: State): multiset<Key> {
    Keys(s.stack) + PendingKeys(s.pendingResume)
  }

  lemma KeysSnoc(stack: seq<Frame>, f: Frame)
    ensures Keys(stack + [f]) == Keys(stack) + multiset{KeyOf(f)}
  {
    assert (stack + [f])[..|stack|] == stack;
  }

  lemma NotesKeepKey(f: Frame, status: StepStatus, message: string)
    ensures KeyOf(SetStatus(f, status)) == KeyOf(f)
    ensures KeyOf(AddNote(SetStatus(f, status), message)) == KeyOf(f)
  {
    hide IsBlank, TrimEnd;
    if !f.Exhausted() {
      var g := SetStatus(f, status);
      assert g.spec.steps[..f.idx] == f.spec.steps[..f.idx];
      var h := AddNote(g, message);
      assert h.spec.steps[..f.idx] == f.spec.steps[..f.idx];
    }
  }

  /** The frame a command adds. */
  function Injected(s: State, c: Command): multiset<Key> {
    if c.InjectSplit? then multiset{KeyOf(Top(ApplyCommand(s, c)))} else multiset{}
  }

  function InjectedBy(s: State, batch: seq<Command>): multiset<Key>
    decreases |batch|
  {
    if batch == [] || batch[0].Abort? then multiset{}
    else Injected(s, batch[0]) + InjectedBy(ApplyCommand(s, batch[0]), batch[1..])
  }

  lemma InjectConserves(s: State, c: Command)
    requires c.InjectSplit?
    ensures Held(ApplyCommand(s, c)) == Held(s) + Injected(s, c)
  {
    hide Keys, KeyOf, Compose;
    KeysSnoc(s.stack, Top(ApplyCommand(s, c)));
  }

  lemma ResumeConserves(s: State, c: Command)
    requires c.ResumeStep?
    ensures Held(ApplyCommand(s, c)) == Held(s)
  {
    hide Keys, KeyOf, AddNote, SetStatus;
    if s.pendingResume.Some? && s.pendingResume.value.prefix == c.prefix {
      var f := s.pendingResume.value;
      NotesKeepKey(f, Pending, c.message);
      KeysSnoc(s.stack, AddNote(SetStatus(f, Pending), c.message));
    }
  }

  lemma FramesHold(s: State, t: State)
    requires SameFrames(s, t)
    ensures Held(t) == Held(s)
  {
  }

  lemma CommandConserves(s: State, c: Command)
    ensures Held(ApplyCommand(s, c)) == Held(s) + Injected(s, c)
  {
    hide Held, KeyOf, AddNote, SetStatus, Compose, RerunEvents;
    if c.InjectSplit? {
      InjectConserves(s, c);
    } else if c.ResumeStep? {
      ResumeConserves(s, c);
    } else {
      FramesHold(s, ApplyCommand(s, c));
    }
  }

  /** No sequence of commands loses or duplicates a frame, or moves its index: a batch adds
      exactly the injected specs. */
  lemma {:induction false} BatchConserves(s: State, batch: seq<Command>)
    ensures Held(ApplyBatch(s, batch).0) == Held(s) + InjectedBy(s, batch)
    decreases |batch|
  {
    hide Held, ApplyCommand, Injected;
    if batch != [] {
      CommandConserves(s, batch[0]);
      if batch[0].Abort? {
        NothingInjected(s);
      } else {
        BatchConserves(ApplyCommand(s, batch[0]), batch[1..]);
      }
    }
  }

  lemma NothingInjected(s: State)
    ensures Injected(s, Abort) == multiset{}
  {
  }

  /** Cancelling the step in hand keeps its frame exactly when no other frame is pending:
      a second cancellation overwrites, and so loses, the first one. */
  lemma SuspendConserves(s: State, f: Frame)
    requires !f.Exhausted()
    ensures Held(Suspend(s, f)) == Held(s) + multiset{KeyOf(f)} <==> s.pendingResume.None?
    ensures Suspend(s, f).stack == s.stack && Suspend(s, f).pendingResume.Some?
    ensures KeyOf(Suspend(s, f).pendingResume.value) == KeyOf(f)
  {
    hide Keys, KeyOf, SetStatus, Compose;
    NotesKeepKey(f, Pending, "");
    var before, after := Held(s), Held(Suspend(s, f));
    assert |after| == |Keys(s.stack)| + 1;
    assert |before + multiset{KeyOf(f)}| == |Keys(s.stack)| + |PendingKeys(s.pendingResume)| + 1;
  }

  // ----- conservation over whole runs -------------------------------------------------------------

  lemma {:induction false} KeysAppend(a: seq<Frame>, b: seq<Frame>)
    ensures Keys(a + b) == Keys(a) + Keys(b)
    decreases |b|
  {
    hide KeyOf;
    if b == [] {
      assert a + b == a;
    } else {
      var n := |b| - 1;
      assert (a + b)[..|a + b| - 1] == a + b[..n];
      KeysAppend(a, b[..n]);
    }
  }

  /** What comes back of the frame in hand: itself when suspended, what its outcome pushes
      when its step ran, nothing when it had no step left or the run stops. */
  function Returned(s: State, f: Frame): multiset<Key> {
    TurnPutsBack(s, f);
    if Suspends(s, f) then multiset{KeyOf(f)}
    else if Works(s, f) then Keys(Pushes(SetStatus(f, InProgress), s.agents[0]))
    else multiset{}
  }

  /** The specs injected by the commands that a turn reads. */
  function InjectedDuring(s: State, f: Frame): multiset<Key> {
    InjectedBy(s, ReadBy(s, Turn(s, f).s))
  }

  /** The turn suspends its frame while another one is pending. */
  predicate Overwrites(s: State, f: Frame) {
    Suspends(s, f) && Polled(s, Turn(s, f).s).pendingResume.Some?
  }

  /** One turn, with any commands and any outcome: everything held stays held, the injected
      specs and what comes back of the frame in hand are added, and nothing else; exactly
      unless the turn suspends its frame while another one is pending. */
  lemma TurnConserves(s: State, f: Frame)
    ensures Held(Turn(s, f).s) == Held(s) + InjectedDuring(s, f) + Returned(s, f) <==> !Overwrites(s, f)
  {
    hide Turn, Keys, KeyOf, SetStatus, Pushes, ApplyBatch, InjectedBy, Works, Suspends;
    TurnPutsBack(s, f);
    var t := Turn(s, f).s;
    var m := Polled(s, t);
    BatchConserves(s, ReadBy(s, t));
    if Suspends(s, f) {
      NotExhausted(s, f);
      NotesKeepKey(f, InProgress, "");
      NotesKeepKey(SetStatus(f, InProgress), Pending, "");
      SizesDiffer(s, f, m, t);
    } else if Works(s, f) {
      KeysAppend(m.stack, Pushes(SetStatus(f, InProgress), s.agents[0]));
    }
  }

  lemma NotExhausted(s: State, f: Frame)
    requires Suspends(s, f)
    ensures !f.Exhausted() && Turn(s, f).Continue?
  {
  }

  lemma SizesDiffer(s: State, f: Frame, m: State, t: State)
    requires t.stack == m.stack && t.pendingResume.Some? && KeyOf(t.pendingResume.value) == KeyOf(f)
    ensures Held(t) == Held(m) + multiset{KeyOf(f)} <==> m.pendingResume.None?
  {
    hide Keys, KeyOf;
    assert |Held(t)| == |Keys(m.stack)| + 1;
    assert |Held(m) + multiset{KeyOf(f)}| == |Keys(m.stack)| + |PendingKeys(m.pendingResume)| + 1;
  }

  /** No turn of the run suspends its frame while another one is pending. */
  predicate OneAtATime(s: State, n: nat)
    decreases n
  {
    n == 0 || s.stack == [] ||
    var t := Turn(Pop(s), Top(s));
    !Overwrites(Pop(s), Top(s)) && (t.Continue? ==> OneAtATime(t.s, n - 1))
  }

  /** The frames a run takes in hand, and those it gains: injected specs and what comes back
      of each frame. */
  function Flow(s: State, n: nat): (multiset<Key>, multiset<Key>)
    decreases n
  {
    if n == 0 || s.stack == [] then (multiset{}, multiset{})
    else
      var t := Turn(Pop(s), Top(s));
      var (taken, gained) := if t.Continue? then Flow(t.s, n - 1) else (multiset{}, multiset{});
      (multiset{KeyOf(Top(s))} + taken, InjectedDuring(Pop(s), Top(s)) + Returned(Pop(s), Top(s)) + gained)
  }

  /** Over any number of turns, whatever the commands, the account balances: what is held
      and was taken in hand is what was held and what came in.  No pause, resume, cancel or
      mismatched resume-step creates, loses or moves a frame. */
  lemma {:induction false} RunConserves(s: State, n: nat)
    requires OneAtATime(s, n)
    ensures Held(After(s, n)) + Flow(s, n).0 == Held(s) + Flow(s, n).1
    decreases n
  {
    hide Held, Turn, Returned, InjectedDuring, Overwrites, KeyOf;
    if n > 0 && s.stack != [] {
      PopTakes(s);
      TurnConserves(Pop(s), Top(s));
      var t := Turn(Pop(s), Top(s));
      var came := InjectedDuring(Pop(s), Top(s)) + Returned(Pop(s), Top(s));
      assert came + multiset{} == came;
      if t.Continue? {
        RunConserves(t.s, n - 1);
        var (taken, gained) := Flow(t.s, n - 1);
        Balance(Held(After(s, n)), taken, Held(t.s), gained, Held(Pop(s)), came, multiset{KeyOf(Top(s))});
      }
    }
  }

  lemma Balance(end: multiset<Key>, taken: multiset<Key>, mid: multiset<Key>, gained: multiset<Key>,
                rest: multiset<Key>, came: multiset<Key>, top: multiset<Key>)
    requires end + taken == mid + gained && mid == rest + came
    ensures end + (top + taken) == (rest + top) + (came + gained)
  {
    assert end + (top + taken) == (end + taken) + top;
  }

  lemma PopTakes(s: State)
    requires s.stack != []
    ensures Held(s) == Held(Pop(s)) + multiset{KeyOf(Top(s))}
  {
    hide KeyOf;
  }

  // ----- what becomes of a cancelled frame ------------------------------------------------------

  /** The state after a cancellation of `f`, with what will be read from then on. */
  function Cancelled(s: State, f: Frame, inbox: seq<seq<Command>>): State
    requires !f.Exhausted()
  {
    Suspend(s, f).(inbox := inbox)
  }

  /** Polls that find nothing, then one that finds the matching resume-step. */
  function ResumeAfter(idle: nat, prefix: string, message: string, rest: seq<seq<Command>>): seq<seq<Command>> {
    seq(idle, _ => []) + [[ResumeStep(prefix, message)]] + rest
  }

  /** The suspended frame as a resume-step puts it back. */
  function Revived(f: Frame, message: string): Frame {
    AddNote(SetStatus(SetStatus(f, Pending), Pending), message)
  }

  lemma RevivedKeeps(f: Frame, message: string)
    requires !f.Exhausted()
    ensures var g := Revived(f, message); KeyOf(g) == KeyOf(f) && !g.Exhausted() && g.Step().status == Pending
  {
    hide KeyOf, IsBlank, TrimEnd;
    NotesKeepKey(f, Pending, "");
    NotesKeepKey(SetStatus(f, Pending), Pending, message);
  }

  /** The resume-step on its own. */
  lemma ResumeRevives(s: State, f: Frame, message: string)
    requires s.pendingResume == Some(SetStatus(f, Pending))
    ensures ApplyBatch(s, [ResumeStep(f.prefix, message)])
         == (Emit(s.(pendingResume := None, paused := false, stack := s.stack + [Revived(f, message)]), [Resumed]), false)
  {
    hide AddNote;
    assert [ResumeStep(f.prefix, message)][1..] == [];
  }

  /** Idle polls change nothing but the inbox. */
  lemma {:induction false} IdleTurn(s: State, f: Frame, message: string, idle: nat, rest: seq<seq<Command>>)
    requires s.paused && s.pendingResume == Some(SetStatus(f, Pending))
    requires s.inbox == ResumeAfter(idle, f.prefix, message, rest)
    ensures !Poll(s).1
    ensures Wait(Poll(s).0) == Go(Emit(s.(pendingResume := None, paused := false, inbox := rest,
                                          stack := s.stack + [Revived(f, message)]), [Resumed]))
    decreases idle
  {
    hide ApplyBatch, Revived, SetStatus;
    var s1 := s.(inbox := s.inbox[1..]);
    if idle == 0 {
      assert s.inbox[0] == [ResumeStep(f.prefix, message)] && s.inbox[1..] == rest;
      ResumeRevives(s1, f, message);
    } else {
      assert s.inbox[0] == [] && s.inbox[1..] == ResumeAfter(idle - 1, f.prefix, message, rest);
      NoCommands(s1);
      IdleTurn(s1, f, message, idle - 1, rest);
    }
  }

  lemma NoCommands(s: State)
    ensures ApplyBatch(s, []) == (s, false)
  {
  }

  /** Cancel with a frame below, then resume with the pending frame's prefix, however many
      polls later: within one turn the frame is back, its index, settled steps and history
      as they were, its step pending again, and the scheduler runs; but the frame below,
      already in hand, runs its own next step first. */
  lemma CancelThenResume(s: State, f: Frame, idle: nat, message: string, rest: seq<seq<Command>>)
    requires !f.Exhausted() && s.stack != []
    ensures var t := Cancelled(s, f, ResumeAfter(idle, f.prefix, message, rest));
            var g := Revived(f, message);
            && KeyOf(g) == KeyOf(f) && !g.Exhausted() && g.Step().status == Pending
            && var u := Emit(Pop(t).(pendingResume := None, paused := false, inbox := rest,
                                     stack := Pop(s).stack + [g]), [Resumed]);
               && Turn(Pop(t), Top(t)) == (if Top(s).Exhausted() then Continue(u) else Execute(u, Top(s)))
               && u.stack <= After(t, 1).stack
  {
    hide KeyOf, SetStatus, Execute, Poll, Wait, Compose, Revived;
    RevivedKeeps(f, message);
    var t := Cancelled(s, f, ResumeAfter(idle, f.prefix, message, rest));
    assert Top(t) == Top(s) && Pop(t).stack == Pop(s).stack;
    IdleTurn(Pop(t), f, message, idle, rest);
    var u := Wait(Poll(Pop(t)).0).s;
    if !Top(s).Exhausted() {
      ExecutePushes(u, Top(s));
    }
    assert After(t, 1) == Turn(Pop(t), Top(t)).s by {
      AfterOne(t);
    }
  }

  lemma AfterOne(s: State)
    requires s.stack != []
    ensures After(s, 1) == Turn(Pop(s), Top(s)).s
  {
    hide Turn;
    var t := Turn(Pop(s), Top(s));
    assert t.Continue? ==> After(t.s, 0) == t.s;
  }

  lemma ExecutePushes(s: State, f: Frame)
    requires !f.Exhausted()
    ensures s.stack <= Execute(s, f).s.stack
  {
    hide Execute, SetStatus, Pushes, ApplyBatch;
    var m, aborted := ExecuteEnds(s, f);
    BatchPushes(s, ReadBy(s, m));
  }

  /** A frame with the key is on the stack. */
  ghost predicate OnStack(stack: seq<Frame>, k: Key) {
    exists i | 0 <= i < |stack| :: KeyOf(stack[i]) == k
  }

  /** A cancelled frame can come back if and only if another frame lies below it.  Without
      one the run completes at once with the frame still pending, and no command that comes
      later is read, not even the matching resume-step. */
  lemma CancelledComesBack(s: State, f: Frame)
    requires !f.Exhausted()
    ensures (exists inbox, n: nat :: OnStack(After(Cancelled(s, f, inbox), n).stack, KeyOf(f))) <==> s.stack != []
    ensures s.stack == [] ==> forall inbox ::
              var (t, r) := Run(Cancelled(s, f, inbox));
              r == Done && t.inbox == inbox && t.pendingResume.Some? && KeyOf(t.pendingResume.value) == KeyOf(f)
  {
    hide KeyOf, SetStatus, Turn;
    NotesKeepKey(f, Pending, "");
    if s.stack == [] {
      forall inbox, n: nat
        ensures !OnStack(After(Cancelled(s, f, inbox), n).stack, KeyOf(f))
      {
      }
    } else {
      var inbox := ResumeAfter(0, f.prefix, "", []);
      CancelThenResume(s, f, 0, "", []);
      var stack := After(Cancelled(s, f, inbox), 1).stack;
      assert KeyOf(stack[|s.stack| - 1]) == KeyOf(f);
      assert OnStack(After(Cancelled(s, f, inbox), 1).stack, KeyOf(f));
    }
  }

  /** So whenever the last frame's step is cancelled, by whatever command or outcome, and the
      commands read up to then inject and resume nothing, the run reports completion with
      that frame pending and every later command unread; the root spec's own steps are of
      this kind. */
  lemma LastCancellationCompletes(s: State)
    requires |s.stack| == 1 && Suspends(Pop(s), Top(s)) && Tame(ReadBy(s, Turn(Pop(s), Top(s)).s))
    ensures var (t, r) := Run(s);
            && r == Done && t.events != [] && t.events[|t.events| - 1] == AllCompleted
            && t.pendingResume.Some? && KeyOf(t.pendingResume.value) == KeyOf(Top(s))
            && |t.inbox| <= |s.inbox| && s.inbox[|s.inbox| - |t.inbox|..] == t.inbox
  {
    hide KeyOf, SetStatus, Turn, ApplyBatch, Suspends, Run, Tame, ReadBy;
    NotExhausted(Pop(s), Top(s));
    TurnPutsBack(Pop(s), Top(s));
    assert Pop(s).stack == [];
    TameBatch(Pop(s), ReadBy(s, Turn(Pop(s), Top(s)).s));
    SameReading(s, Turn(Pop(s), Top(s)).s);
    NotesKeepKey(Top(s), InProgress, "");
    NotesKeepKey(SetStatus(Top(s), InProgress), Pending, "");
    CompletesAfter(s);
  }

  lemma SameReading(s: State, t: State)
    requires s.stack != []
    ensures ReadBy(s, t) == ReadBy(Pop(s), t)
  {
  }

  lemma CompletesAfter(s: State)
    requires s.stack != [] && Turn(Pop(s), Top(s)).Continue? && Turn(Pop(s), Top(s)).s.stack == []
    ensures Run(s) == (Emit(Turn(Pop(s), Top(s)).s, [AllCompleted]), Done)
  {
    hide Turn;
    TurnUses(Pop(s), Top(s));
  }

  /** For every spec: if the first execution comes back cancelled and nothing is commanded,
      the run completes without a completed step, the remaining outcomes unused. */
  lemma CompletedWhilePending(spec: SpecSheet, a: Attempt, rest: seq<Attempt>)
    requires spec.steps != [] && a.Ran? && a.task.state.Cancelled?
    ensures var (t, r) := Run(Init(spec, [], [a] + rest));
            && r == Done && t.agents == rest && t.pendingResume.Some?
            && KeyOf(t.pendingResume.value) == KeyOf(Frame(spec, 0, ""))
            && t.events == [StepStatusChanged(spec.steps[0].index, spec.steps[0].index, InProgress),
                            StepCancelled(spec.steps[0].index), AllCompleted]
  {
    hide KeyOf;
    var s := Init(spec, [], [a] + rest);
    var f := Frame(spec, 0, "");
    assert Top(s) == f && Pop(s).stack == [];
    var s0 := Pop(s);
    assert Poll(s0) == (s0, false) && Wait(s0) == Go(s0);
    assert ([a] + rest)[1..] == rest;
    var s1 := Emit(s0, [StepStatusChanged(f.StepPrefix(), f.Step().index, InProgress)]).(agents := rest);
    assert Poll(s1) == (s1, false);
    var s2 := Suspend(s1, SetStatus(f, InProgress));
    assert Turn(s0, f) == Continue(s2);
    assert Run(s) == Run(s2) && Run(s2) == (Emit(s2, [AllCompleted]), Done);
    NotesKeepKey(f, InProgress, "");
    NotesKeepKey(SetStatus(f, InProgress), Pending, "");
  }

  /** A resume that names another prefix changes nothing. */
  lemma MismatchedResume(s: State, prefix: string, message: string)
    ensures s.pendingResume.Some? && s.pendingResume.value.prefix != prefix <==>
            s.pendingResume.Some? && ApplyCommand(s, ResumeStep(prefix, message)) == s
  {
    hide AddNote, SetStatus;
    var t := ApplyCommand(s, ResumeStep(prefix, message));
    assert s.pendingResume.Some? && s.pendingResume.value.prefix == prefix ==> t.pendingResume.None?;
  }

  /** `StepCancelled` announces the step's own prefix, but a resume is matched against the
      prefix of its spec: answering an announcement resumes the step only if that spec is
      the root and the step's index is the empty string. */
  lemma AnnouncedPrefixResumes(s: State, f: Frame, message: string)
    requires !f.Exhausted()
    ensures Suspend(s, f).events == s.events + [StepCancelled(f.StepPrefix())]
    ensures ApplyCommand(Suspend(s, f), ResumeStep(f.StepPrefix(), message)) != Suspend(s, f)
       <==> f.prefix == "" && f.Step().index == ""
  {
    hide KeyOf, IsBlank, TrimEnd, AddNote;
    MismatchedResume(Suspend(s, f), f.StepPrefix(), message);
    assert f.StepPrefix() == f.prefix <==> f.prefix == "" && f.Step().index == "" by {
      if f.prefix != "" {
        assert |f.StepPrefix()| > |f.prefix|;
      }
    }
    assert SetStatus(f, Pending).prefix == f.prefix;
  }
}
