/** The discipline of the event stream, over every run and every sequence of commands. */
module OrchestratorTrace {
  import opened Text
  import opened Specs
  import opened Orchestrator

  predicate IsStart(e: Event) { e.StepStatusChanged? && e.status.InProgress? }

  /** The event that settles a started step. */
  predicate IsOutcome(e: Event) {
    || (e.StepStatusChanged? && !e.status.InProgress?)
    || e.StepCancelled?
    || (e.ChildSpecPushed? && e.origin.BySplit?)
  }

  predicate IsCompletion(e: Event) { e.StepStatusChanged? && e.status.Completed? }

  predicate IsClosing(e: Event) { e.ChannelClosed? }

  function Count(p: Event -> bool, es: seq<Event>): nat {
    if es == [] then 0 else (if p(es[0]) then 1 else 0) + Count(p, es[1..])
  }

  /** The state of an observer: no step running, a step running (its channel closed or not),
      after an abort, after the end, or an event out of place. */
  datatype Watch = Idle | Busy(prefix: string, closed: bool) | Over | Finished | Bad

  function Observe(w: Watch, e: Event): Watch {
    match w
    case Bad => Bad
    case Over => Bad
    case Finished => Bad
    case Idle =>
      if IsStart(e) then Busy(e.prefix, false)
      else if IsOutcome(e) || e.ChannelClosed? then Bad
      else if e.Aborted? then Over
      else if e.AllCompleted? then Finished
      else Idle
    case Busy(p, closed) =>
      if IsStart(e) || e.AllCompleted? then Bad
      else if e.StepStatusChanged? then (if e.prefix == p && closed == e.status.Completed? then Idle else Bad)
      else if e.StepCancelled? then (if e.prefix == p && !closed then Idle else Bad)
      else if IsOutcome(e) then (if closed then Bad else Idle)
      else if e.ChannelClosed? then (if closed then Bad else Busy(p, true))
      else if e.Aborted? then (if closed then Bad else Over)
      else w
  }

  function Watched(w: Watch, es: seq<Event>): Watch
    decreases |es|
  {
    if es == [] then w else Watched(Observe(w, es[0]), es[1..])
  }

  lemma {:induction false} WatchedAppend(w: Watch, a: seq<Event>, b: seq<Event>)
    ensures Watched(w, a + b) == Watched(Watched(w, a), b)
    decreases |a|
  {
    hide Observe;
    if a == [] {
      assert a + b == b;
    } else {
      assert (a + b)[1..] == a[1..] + b;
      WatchedAppend(Observe(w, a[0]), a[1..], b);
    }
  }

  lemma {:induction false} BadStaysBad(es: seq<Event>)
    ensures Watched(Bad, es) == Bad
  {
    if es != [] {
      BadStaysBad(es[1..]);
    }
  }

  function View(s: State): Watch { Watched(Idle, s.events) }

  lemma EmitView(s: State, es: seq<Event>)
    ensures View(Emit(s, es)) == Watched(View(s), es)
  {
    hide Watched;
    WatchedAppend(Idle, s.events, es);
  }

  lemma WatchOne(w: Watch, e: Event)
    ensures Watched(w, [e]) == Observe(w, e)
  {
    hide Observe;
    assert [e][1..] == [];
  }

  /** Between polls the observer is idle, or watches a step whose channel is still open. */
  predicate Open(w: Watch) {
    w == Idle || (w.Busy? && !w.closed)
  }

  /** The events a command adds. */
  function CommandEvents(s: State, c: Command): seq<Event> {
    match c
    case Pause => [Event.Paused]
    case Resume => [Resumed]
    case Abort => [Aborted]
    case SetPauseFlag(_) => []
    case RerunVerifiers(verdict) => if s.lastVerified.Some? then RerunEvents(s.lastVerified.value, verdict) else []
    case InjectSplit(stepIndex, child) => [ChildSpecPushed(stepIndex, child.id, |child.steps|, ByInject)]
    case CancelStep(_) => []
    case ResumeStep(prefix, _) =>
      if s.pendingResume.None? || s.pendingResume.value.prefix == prefix then [Resumed] else []
  }

  lemma CommandEmits(s: State, c: Command)
    ensures ApplyCommand(s, c).events == s.events + CommandEvents(s, c)
  {
    hide AddNote, SetStatus, Compose, RerunEvents;
  }

  lemma CommandEventsView(w: Watch, s: State, c: Command)
    requires Open(w)
    ensures Watched(w, CommandEvents(s, c)) == if c.Abort? then Over else w
  {
    hide Watched;
    var es := CommandEvents(s, c);
    if es == [] {
      WatchedNothing(w);
    } else if |es| == 1 {
      WatchOne(w, es[0]);
    } else {
      assert es == [es[0]] + [es[1]];
      WatchedAppend(w, [es[0]], [es[1]]);
      WatchOne(w, es[0]);
      WatchOne(w, es[1]);
    }
  }

  lemma WatchedNothing(w: Watch)
    ensures Watched(w, []) == w
  {
  }

  lemma CommandView(s: State, c: Command)
    requires Open(View(s))
    ensures View(ApplyCommand(s, c)) == if c.Abort? then Over else View(s)
  {
    hide View, ApplyCommand, CommandEvents;
    CommandEmits(s, c);
    EmitView(s, CommandEvents(s, c));
    CommandEventsView(View(s), s, c);
    SameEvents(ApplyCommand(s, c), Emit(s, CommandEvents(s, c)));
  }

  lemma SameEvents(a: State, b: State)
    requires a.events == b.events
    ensures View(a) == View(b)
  {
  }

  lemma {:induction false} BatchView(s: State, batch: seq<Command>)
    requires Open(View(s))
    ensures View(ApplyBatch(s, batch).0) == if ApplyBatch(s, batch).1 then Over else View(s)
    decreases |batch|
  {
    hide View, ApplyCommand;
    if batch != [] {
      CommandView(s, batch[0]);
      if !batch[0].Abort? {
        BatchView(ApplyCommand(s, batch[0]), batch[1..]);
      }
    }
  }

  lemma PollView(s: State)
    requires Open(View(s))
    ensures View(Poll(s).0) == if Poll(s).1 then Over else View(s)
  {
    hide View, ApplyBatch;
    if s.inbox != [] {
      SameEvents(s, s.(inbox := s.inbox[1..]));
      BatchView(s.(inbox := s.inbox[1..]), s.inbox[0]);
    }
  }

  lemma {:induction false} WaitView(s: State)
    requires View(s) == Idle
    ensures View(Wait(s).s) == if Wait(s).Stop? && Wait(s).result.AbortedRun? then Over else Idle
    ensures Wait(s).Stop? ==> Wait(s).result.AbortedRun? || Wait(s).result.Blocked?
    decreases |s.inbox|
  {
    hide View, Poll;
    if s.paused && s.inbox != [] {
      PollView(s);
      PollUses(s);
      if !Poll(s).1 {
        WaitView(Poll(s).0);
      }
    }
  }

  lemma ReviewView(p: string, step: SpecStep, a: Attempt)
    requires a.Ran?
    ensures FateOf(step, a).Retries? || FateOf(step, a).VerifierRejects? ==>
              Watched(Busy(p, false), ReviewEvents(step, a)) == Busy(p, false)
    ensures FateOf(step, a).Succeeds? ==>
              Watched(Busy(p, false), ReviewEvents(step, a)) == Busy(p, true)
  {
    var es := ReviewEvents(step, a);
    WatchOne(Busy(p, false), es[0]);
    assert es == [es[0]] + es[1..];
    WatchedAppend(Busy(p, false), [es[0]], es[1..]);
    if |es| >= 2 {
      WatchOne(Busy(p, false), es[1]);
      assert es[1..] == [es[1]] + es[2..];
      WatchedAppend(Busy(p, false), [es[1]], es[2..]);
      if |es| == 3 {
        assert es[2..] == [es[2]];
        WatchOne(Busy(p, false), es[2]);
      }
    }
  }

  lemma ResolutionView(f: Frame, a: Attempt)
    requires !f.Exhausted() && a.Ran? && !FateOf(f.Step(), a).NoSummary?
    ensures Watched(Busy(f.StepPrefix(), false), Resolution(f, a)) == Idle
  {
    hide Watched, ReviewEvents, FateOf, Compose;
    var p, fate := f.StepPrefix(), FateOf(f.Step(), a);
    var r, es := ReviewEvents(f.Step(), a), Resolution(f, a);
    if fate.Retries? || fate.Succeeds? || fate.VerifierRejects? {
      var last := es[|es| - 1];
      assert es == r + [last];
      WatchedAppend(Busy(p, false), r, [last]);
      ReviewView(p, f.Step(), a);
      WatchOne(Busy(p, fate.Succeeds?), last);
    } else {
      WatchOne(Busy(p, false), es[0]);
    }
  }

  /** What each way of leaving a turn means to the observer. */
  predicate LeavesWell(t: Iteration) {
    match t
    case Continue(s) => View(s) == Idle
    case Halt(s, AbortedRun) => View(s) == Over
    case Halt(s, Blocked) => View(s) == Idle
    case Halt(s, Errored) => Open(View(s))
    case Halt(_, Done) => false
  }

  lemma SuspendView(s: State, f: Frame)
    requires !f.Exhausted() && View(s) == Busy(f.StepPrefix(), false)
    ensures View(Suspend(s, f)) == Idle
  {
    hide View, SetStatus, Compose;
    var s1 := s.(pendingResume := Some(SetStatus(f, Pending)), paused := true);
    SameEvents(s, s1);
    EmitView(s1, [StepCancelled(f.StepPrefix())]);
    WatchOne(View(s), StepCancelled(f.StepPrefix()));
  }

  lemma SettleView(s: State, f: Frame, a: Attempt)
    requires !f.Exhausted() && a.Ran? && View(s) == Busy(f.StepPrefix(), false)
    ensures LeavesWell(Settle(s, f, a))
  {
    hide View, Pushes, Resolution, FateOf, Compose;
    if FateOf(f.Step(), a).Cancels? {
      SuspendView(s, f);
    } else if !FateOf(f.Step(), a).NoSummary? {
      var s1 := s.(stack := s.stack + Pushes(f, a), lastVerified := LastVerified(s.lastVerified, f.Step(), a));
      SameEvents(s, s1);
      EmitView(s1, Resolution(f, a));
      ResolutionView(f, a);
    }
  }

  lemma ExecuteView(s: State, f: Frame)
    requires !f.Exhausted() && View(s) == Idle
    ensures LeavesWell(Execute(s, f))
  {
    hide View, Poll, Settle, Suspend, Compose;
    var p := f.StepPrefix();
    var g := SetStatus(f, InProgress);
    assert !g.Exhausted() && g.StepPrefix() == p;
    var start := StepStatusChanged(p, f.Step().index, InProgress);
    var s1 := Emit(s, [start]);
    EmitView(s, [start]);
    WatchOne(Idle, start);
    SameEvents(s1, s1.(cancelPrefix := None));
    if s1.cancelPrefix == Some(p) {
      SuspendView(s1.(cancelPrefix := None), g);
    } else if s1.agents != [] && s1.agents[0].Ran? {
      var s0 := s1.(agents := s1.agents[1..]);
      SameEvents(s1, s0);
      PollView(s0);
      var s2 := Poll(s0).0;
      SameEvents(s2, s2.(cancelPrefix := None));
      if !Poll(s0).1 {
        if s2.cancelPrefix == Some(p) {
          SuspendView(s2.(cancelPrefix := None), g);
        } else {
          SettleView(s2, g, s1.agents[0]);
        }
      }
    }
  }

  lemma TurnView(s: State, f: Frame)
    requires View(s) == Idle
    ensures LeavesWell(Turn(s, f))
  {
    hide View, Poll, Wait, Execute;
    PollView(s);
    if !Poll(s).1 {
      WaitView(Poll(s).0);
      if Wait(Poll(s).0).Go? && !f.Exhausted() {
        ExecuteView(Wait(Poll(s).0).s, f);
      }
    }
  }

  /** How a whole run looks to the observer. */
  lemma {:induction false} RunView(s: State)
    requires View(s) == Idle
    ensures var (t, r) := Run(s);
            match r
            case Done => View(t) == Finished
            case AbortedRun => View(t) == Over
            case Blocked => View(t) == Idle
            case Errored => Open(View(t))
    decreases |s.agents|, |s.inbox|, |s.stack|
  {
    hide View, Turn;
    if s.stack == [] {
      EmitView(s, [AllCompleted]);
      WatchOne(Idle, AllCompleted);
    } else {
      TurnUses(Pop(s), Top(s));
      SameEvents(s, Pop(s));
      TurnView(Pop(s), Top(s));
      var t := Turn(Pop(s), Top(s));
      if t.Continue? {
        RunView(t.s);
      }
    }
  }

  // ----- what the observer's state says about the events -----------------------------------

  function Indicator(b: bool): nat { if b then 1 else 0 }

  /** The running totals that every state of the observer stands for. */
  lemma {:induction false} WatchedCounts(w: Watch, es: seq<Event>)
    requires Watched(w, es) != Bad
    ensures var v := Watched(w, es);
            && Count(IsClosing, es) + Indicator(w.Busy? && w.closed)
               == Count(IsCompletion, es) + Indicator(v.Busy? && v.closed)
            && (v != Over ==> Count(IsStart, es) + Indicator(w.Busy?) == Count(IsOutcome, es) + Indicator(v.Busy?))
            && (v == Over ==> Count(IsOutcome, es) <= Count(IsStart, es) + Indicator(w.Busy?) <= Count(IsOutcome, es) + 1)
    decreases |es|
  {
    if es != [] {
      BadStaysBad(es[1..]);
      WatchedCounts(Observe(w, es[0]), es[1..]);
    }
  }

  /** A settling event names the step that was started last, and closes it as it should. */
  ghost predicate SettlesLast(es: seq<Event>, j: nat)
    requires j < |es|
  {
    exists i: nat :: i < j && IsStart(es[i]) && StartBefore(es, i, j)
  }

  /** `i` starts a step, nothing starts or settles between, `j` speaks of the same step, and
      a channel was closed between, once, only if `j` completes the step: a retried, failed,
      split or cancelled step closes none. */
  ghost predicate StartBefore(es: seq<Event>, i: nat, j: nat) {
    && i < j < |es|
    && IsStart(es[i])
    && (forall k | i < k < j :: !IsStart(es[k]) && !IsOutcome(es[k]))
    && (es[j].StepStatusChanged? ==> es[j].prefix == es[i].prefix)
    && (es[j].StepCancelled? ==> es[j].prefix == es[i].prefix)
    && Count(IsClosing, es[i + 1..j]) == Indicator(IsCompletion(es[j]))
  }

  lemma {:induction false} LastStart(es: seq<Event>)
    requires Watched(Idle, es).Busy?
    ensures exists i: nat :: i < |es| && Starts(es, i)
    decreases |es|
  {
    hide Count;
    if es != [] {
      var init, e := es[..|es| - 1], es[|es| - 1];
      assert es == init + [e];
      WatchedAppend(Idle, init, [e]);
      WatchOne(Watched(Idle, init), e);
      if IsStart(e) {
        assert es[|es|..] == [];
        CountNothing(IsClosing);
        assert Starts(es, |es| - 1);
      } else {
        LastStart(init);
        var i: nat :| i < |init| && Starts(init, i);
        assert es[i] == init[i];
        assert forall k | i < k < |init| :: es[k] == init[k];
        assert es[i + 1..] == init[i + 1..] + [e];
        CountSnoc(IsClosing, init[i + 1..], e);
        assert Starts(es, i);
      }
    }
  }

  /** `i` started the step that the observer still watches. */
  ghost predicate Starts(es: seq<Event>, i: nat)
    requires Watched(Idle, es).Busy? && i < |es|
  {
    && IsStart(es[i]) && es[i].prefix == Watched(Idle, es).prefix
    && (forall k | i < k < |es| :: !IsStart(es[k]) && !IsOutcome(es[k]))
    && Count(IsClosing, es[i + 1..]) == Indicator(Watched(Idle, es).closed)
  }

  lemma CountNothing(p: Event -> bool)
    ensures Count(p, []) == 0
  {
  }

  lemma {:induction false} CountSnoc(p: Event -> bool, es: seq<Event>, e: Event)
    ensures Count(p, es + [e]) == Count(p, es) + Indicator(p(e))
  {
    if es == [] {
      assert [] + [e] == [e] && [e][1..] == [];
    } else {
      assert (es + [e])[1..] == es[1..] + [e];
      CountSnoc(p, es[1..], e);
    }
  }

  lemma OutcomeSettlesLast(es: seq<Event>, j: nat)
    requires Watched(Idle, es) != Bad && j < |es| && IsOutcome(es[j])
    ensures SettlesLast(es, j)
  {
    hide Count;
    assert es == es[..j] + es[j..] && es[j..] == [es[j]] + es[j + 1..];
    WatchedAppend(Idle, es[..j], es[j..]);
    WatchedAppend(Watched(Idle, es[..j]), [es[j]], es[j + 1..]);
    WatchOne(Watched(Idle, es[..j]), es[j]);
    BadStaysBad(es[j + 1..]);
    LastStart(es[..j]);
    var i: nat :| i < j && Starts(es[..j], i);
    assert es[..j][i + 1..] == es[i + 1..j];
    assert forall k | i < k < j :: es[k] == es[..j][k];
    assert StartBefore(es, i, j);
  }

  /** In every prefix of the events at most one step is unsettled; every settling event
      settles the step started last, which nothing settled before, and only a completed step
      had its channel closed, once. */
  lemma OneStepAtATime(spec: SpecSheet, inbox: seq<seq<Command>>, agents: seq<Attempt>)
    ensures var es := Run(Init(spec, inbox, agents)).0.events;
            && (forall n: nat | n <= |es| ::
                  Count(IsOutcome, es[..n]) <= Count(IsStart, es[..n]) <= Count(IsOutcome, es[..n]) + 1)
            && (forall j: nat | j < |es| && IsOutcome(es[j]) :: SettlesLast(es, j))
  {
    hide Run, Count, Watched, SettlesLast;
    var s := Init(spec, inbox, agents);
    NothingWatched(s);
    RunView(s);
    var es := Run(s).0.events;
    assert Watched(Idle, es) != Bad;
    forall n: nat | n <= |es|
      ensures Count(IsOutcome, es[..n]) <= Count(IsStart, es[..n]) <= Count(IsOutcome, es[..n]) + 1
    {
      assert es == es[..n] + es[n..];
      WatchedAppend(Idle, es[..n], es[n..]);
      BadStaysBad(es[n..]);
      WatchedCounts(Idle, es[..n]);
    }
    forall j: nat | j < |es| && IsOutcome(es[j])
      ensures SettlesLast(es, j)
    {
      OutcomeSettlesLast(es, j);
    }
  }

  lemma NothingWatched(s: State)
    requires s.events == []
    ensures View(s) == Idle
  {
  }

  /** On every run that returns Ok: as many channel closings as completed steps, and, unless
      aborted, every started step was settled. */
  lemma OkRunsClose(spec: SpecSheet, inbox: seq<seq<Command>>, agents: seq<Attempt>)
    ensures var (t, r) := Run(Init(spec, inbox, agents));
            r.Done? || r.AbortedRun? ==>
              && Count(IsClosing, t.events) == Count(IsCompletion, t.events)
              && (r.Done? ==> Count(IsStart, t.events) == Count(IsOutcome, t.events))
  {
    hide Run, Count, Watched;
    var s := Init(spec, inbox, agents);
    NothingWatched(s);
    RunView(s);
    if Run(s).1.Done? || Run(s).1.AbortedRun? {
      WatchedCounts(Idle, Run(s).0.events);
    }
  }

  /** Nothing at all is emitted after an abort. */
  lemma AbortIsLast(spec: SpecSheet, inbox: seq<seq<Command>>, agents: seq<Attempt>, j: nat)
    requires j < |Run(Init(spec, inbox, agents)).0.events|
    requires Run(Init(spec, inbox, agents)).0.events[j].Aborted?
    ensures j + 1 == |Run(Init(spec, inbox, agents)).0.events|
    ensures Run(Init(spec, inbox, agents)).1.AbortedRun?
  {
    hide Run, Watched;
    var s := Init(spec, inbox, agents);
    NothingWatched(s);
    RunView(s);
    var es := Run(s).0.events;
    assert es == es[..j] + es[j..] && es[j..] == [es[j]] + es[j + 1..];
    WatchedAppend(Idle, es[..j], es[j..]);
    var w := Watched(Idle, es[..j]);
    WatchedAppend(w, [es[j]], es[j + 1..]);
    WatchOne(w, es[j]);
    BadStaysBad(es[j + 1..]);
    AfterOver(es[j + 1..]);
  }

  lemma AfterOver(es: seq<Event>)
    ensures Watched(Over, es) == if es == [] then Over else Bad
  {
    if es != [] {
      BadStaysBad(es[1..]);
    }
  }
}
