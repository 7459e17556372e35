/** Without control commands the explicit stack is a depth-first traversal. */
module OrchestratorOrder {
  import opened Text
  import opened Specs
  import opened Orchestrator

  // ----- the reference traversal ------------------------------------------------

  /** The events of a traversal, the outcomes not used, and whether it ran to its end. */
  datatype Walk = Walk(events: seq<Event>, agents: seq<Attempt>, complete: bool)

  /** What an execution of a step announces: its start, then what became of the task. */
  function Visit(p: string, step: SpecStep, a: Attempt): seq<Event>
    requires a.Ran?
  {
    var i, t, id := step.index, a.task, a.task.id;
    [StepStatusChanged(p, i, InProgress)] +
    if t.state.Cancelled? then
      [StepCancelled(p)]
    else if t.state.Submitted? && t.subSpec.Some? then
      [ChildSpecPushed(i, t.subSpec.value.id, |t.subSpec.value.steps|, BySplit)]
    else if t.state.TaskFailed? then
      [StepStatusChanged(p, i, Failed)]
    else if !t.hasSummary then
      []
    else if !step.requiresVerification then
      [SummaryUpdated(Summary(id, Passed)), ChannelClosed(id), StepStatusChanged(p, i, Completed)]
    else if !a.summarized then
      [SummaryUpdated(Summary(id, Rejected)), VerifierFailed(Summary(id, Rejected)), StepStatusChanged(p, i, Pending)]
    else
      [SummaryUpdated(Summary(id, Unverified))] +
      match a.verdict
      case Verified =>
        [SummaryUpdated(Summary(id, Passed)), ChannelClosed(id), StepStatusChanged(p, i, Completed)]
      case NeedsRevision =>
        [SummaryUpdated(Summary(id, Rejected)), VerifierFailed(Summary(id, Rejected)), StepStatusChanged(p, i, Pending)]
      case VerdictFailed =>
        [SummaryUpdated(Summary(id, Rejected)), VerifierFailed(Summary(id, Rejected)), StepStatusChanged(p, i, Failed)]
  }

  function Then(first: Walk, second: Walk): Walk {
    second.(events := first.events + second.events)
  }

  /** The recursive traversal of `spec` from step `idx`, decided on the outcome itself: a split
      runs its child and then the same step again; a failed task moves on; a failed summarizer
      or a verdict asking for revision repeats the step; a rejecting verdict abandons this spec
      only; otherwise the step is completed, and its child, if any, runs before the next step.
      A cancelled task and one without a summary end the traversal. */
  function Traverse(spec: SpecSheet, idx: nat, prefix: string, agents: seq<Attempt>): (w: Walk)
    ensures |w.agents| <= |agents|
    decreases |agents|
  {
    if idx >= |spec.steps| then Walk([], agents, true)
    else
      var step := spec.steps[idx];
      var p := Compose(prefix, step.index);
      if agents == [] || agents[0].AgentError? then
        Walk([StepStatusChanged(p, step.index, InProgress)], agents, false)
      else
        var a, t, rest := agents[0], agents[0].task, agents[1..];
        var here := Walk(Visit(p, step, a), rest, true);
        if t.state.Cancelled? then here.(complete := false)
        else if t.state.Submitted? && t.subSpec.Some? then
          var below := Traverse(t.subSpec.value, 0, p, rest);
          if below.complete then Then(here, Then(below, Traverse(spec, idx, prefix, below.agents)))
          else Then(here, below)
        else if t.state.TaskFailed? then Then(here, Traverse(spec, idx + 1, prefix, rest))
        else if !t.hasSummary then here.(complete := false)
        else if step.requiresVerification && (!a.summarized || a.verdict.NeedsRevision?) then
          Then(here, Traverse(spec, idx, prefix, rest))
        else if step.requiresVerification && a.verdict.VerdictFailed? then here
        else if t.subSpec.None? then Then(here, Traverse(spec, idx + 1, prefix, rest))
        else
          var below := Traverse(t.subSpec.value, 0, p, rest);
          if below.complete then Then(here, Then(below, Traverse(spec, idx + 1, prefix, below.agents)))
          else Then(here, below)
  }

  /** The frames of a stack, top first. */
  function TraverseStack(stack: seq<Frame>, agents: seq<Attempt>): Walk
    decreases |stack|
  {
    if stack == [] then Walk([AllCompleted], agents, true)
    else
      var f := stack[|stack| - 1];
      var top := Traverse(f.spec, f.idx, f.prefix, agents);
      if top.complete then Then(top, TraverseStack(stack[..|stack| - 1], top.agents)) else top
  }

  // ----- the traversal sees only the shape of a spec -----------------------------------

  predicate SameStep(a: SpecStep, b: SpecStep) {
    a.index == b.index && a.requiresVerification == b.requiresVerification
  }

  /** Same steps up to status, notes, recorded children and history. */
  predicate SameShape(a: SpecSheet, b: SpecSheet) {
    |a.steps| == |b.steps| && forall i | 0 <= i < |a.steps| :: SameStep(a.steps[i], b.steps[i])
  }

  lemma {:induction false} TraverseShape(a: SpecSheet, b: SpecSheet, idx: nat, prefix: string, agents: seq<Attempt>)
    requires SameShape(a, b)
    ensures Traverse(a, idx, prefix, agents) == Traverse(b, idx, prefix, agents)
    decreases |agents|
  {
    hide FateOf, Visit, Compose, Then;
    if idx < |a.steps| && agents != [] && agents[0].Ran? {
      var sa, sb := a.steps[idx], b.steps[idx];
      assert SameStep(sa, sb);
      var p := Compose(prefix, sa.index);
      VisitShape(p, sa, sb, agents[0]);
      hide Traverse;
      TraverseStep(Frame(a, idx, prefix), agents);
      TraverseStep(Frame(b, idx, prefix), agents);
      match FateOf(sa, agents[0]) {
        case Splits(child) =>
          TraverseShape(a, b, idx, prefix, Traverse(child, 0, p, agents[1..]).agents);
        case Retries => TraverseShape(a, b, idx, prefix, agents[1..]);
        case TaskFails => TraverseShape(a, b, idx + 1, prefix, agents[1..]);
        case Succeeds(None) => TraverseShape(a, b, idx + 1, prefix, agents[1..]);
        case Succeeds(Some(child)) =>
          TraverseShape(a, b, idx + 1, prefix, Traverse(child, 0, p, agents[1..]).agents);
        case _ =>
      }
    } else if idx < |a.steps| {
      assert SameStep(a.steps[idx], b.steps[idx]);
    }
  }

  lemma VisitShape(p: string, a: SpecStep, b: SpecStep, att: Attempt)
    requires SameStep(a, b) && att.Ran?
    ensures Visit(p, a, att) == Visit(p, b, att) && FateOf(a, att) == FateOf(b, att)
  {
  }

  // ----- the loop, when no command ever arrives ----------------------------------------------

  predicate Quiet(s: State) {
    && s.inbox == [] && !s.paused && s.cancelPrefix.None? && s.pendingResume.None?
    && forall i | 0 <= i < |s.agents| :: NotCancelled(s.agents[i])
  }

  predicate NotCancelled(a: Attempt) {
    a.Ran? ==> !a.task.state.Cancelled?
  }

  /** One quiet turn on a frame with a step left. */
  lemma QuietTurn(s: State, f: Frame)
    requires Quiet(s) && !f.Exhausted()
    ensures s.agents == [] || s.agents[0].AgentError? ==>
              Turn(s, f) == Halt(Emit(s, [StepStatusChanged(f.StepPrefix(), f.Step().index, InProgress)]), Errored)
    ensures s.agents != [] && s.agents[0].Ran? ==>
              var a := s.agents[0];
              var s' := Emit(s.(agents := s.agents[1..]), Visit(f.StepPrefix(), f.Step(), a));
              Turn(s, f) == if FateOf(f.Step(), a).NoSummary? then Halt(s', Errored)
                            else Continue(s'.(stack := s.stack + Pushes(SetStatus(f, InProgress), a),
                                              lastVerified := LastVerified(s.lastVerified, f.Step(), a)))
  {
    hide FateOf, ReviewEvents, Pushes, Compose;
    var g := SetStatus(f, InProgress);
    assert SameStep(f.Step(), g.Step()) && f.StepPrefix() == g.StepPrefix();
    assert Wait(s) == Go(s) && Poll(s) == (s, false);
    if s.agents != [] && s.agents[0].Ran? {
      var a := s.agents[0];
      assert NotCancelled(a);
      VisitShape(f.StepPrefix(), f.Step(), g.Step(), a);
      FateNotCancelled(f.Step(), a);
      var s1 := Emit(s, [StepStatusChanged(f.StepPrefix(), f.Step().index, InProgress)]).(agents := s.agents[1..]);
      assert Poll(s1) == (s1, false);
      assert Execute(s, f) == Settle(s1, g, a);
      VisitIsResolution(g, a);
      assert s.events + ([StepStatusChanged(f.StepPrefix(), f.Step().index, InProgress)] + Resolution(g, a))
          == s1.events + Resolution(g, a);
      assert s.events + [StepStatusChanged(f.StepPrefix(), f.Step().index, InProgress)] == s1.events;
    }
  }

  lemma FateNotCancelled(step: SpecStep, a: Attempt)
    requires a.Ran? && NotCancelled(a)
    ensures !FateOf(step, a).Cancels?
  {
  }

  lemma VisitIsResolution(f: Frame, a: Attempt)
    requires !f.Exhausted() && a.Ran?
    ensures Visit(f.StepPrefix(), f.Step(), a)
         == [StepStatusChanged(f.StepPrefix(), f.Step().index, InProgress)] + Resolution(f, a)
  {
    hide Compose;
  }

  lemma StackSnoc(stack: seq<Frame>, f: Frame, agents: seq<Attempt>)
    ensures var top := Traverse(f.spec, f.idx, f.prefix, agents);
            TraverseStack(stack + [f], agents) ==
            if top.complete then Then(top, TraverseStack(stack, top.agents)) else top
  {
    hide Traverse, Then;
    assert (stack + [f])[..|stack|] == stack;
  }

  lemma ThenEnds(a: Walk, b: Walk)
    ensures Then(a, b).complete == b.complete && Then(a, b).agents == b.agents
  {
  }

  lemma ThenAssoc(a: Walk, b: Walk, c: Walk)
    ensures Then(a, Then(b, c)) == Then(Then(a, b), c)
  {
  }

  /** Walking the frames that a step pushed, then the stack, is finishing that frame's
      traversal, then the stack. */
  lemma PushedContinues(stack: seq<Frame>, f: Frame, agents: seq<Attempt>)
    requires !f.Exhausted() && agents != [] && agents[0].Ran?
    requires !FateOf(f.Step(), agents[0]).NoSummary? && !FateOf(f.Step(), agents[0]).Cancels?
    ensures var here := Walk(Visit(f.StepPrefix(), f.Step(), agents[0]), agents[1..], true);
            TraverseStack(stack + [f], agents)
            == Then(here, TraverseStack(stack + Pushes(SetStatus(f, InProgress), agents[0]), agents[1..]))
  {
    hide FateOf, Visit, Traverse, TraverseStack, AppendHistory, Then, Compose;
    var a, rest := agents[0], agents[1..];
    var g := SetStatus(f, InProgress);
    var p := f.StepPrefix();
    var here := Walk(Visit(p, f.Step(), a), rest, true);
    VisitShape(p, f.Step(), g.Step(), a);
    StackSnoc(stack, f, agents);
    TraverseStep(f, agents);
    var ps := Pushes(g, a);
    match FateOf(f.Step(), a) {
      case Splits(child) =>
        assert SameShape(ps[0].spec, f.spec);
        assert stack + ps == stack + [ps[0]] + [ps[1]];
        ChildThenParent(stack, f, f.idx, ps[0], ps[1], here, rest);
        var below := Traverse(child, 0, p, rest);
        var more := Traverse(f.spec, f.idx, f.prefix, below.agents);
        ThenEnds(below, more);
        ThenEnds(here, Then(below, more));
        ThenEnds(here, below);
      case Retries =>
        OneContinues(stack, f, f.idx, ps[0], here, rest);
        ThenEnds(here, Traverse(f.spec, f.idx, f.prefix, rest));
      case TaskFails =>
        OneContinues(stack, f, f.idx + 1, ps[0], here, rest);
        ThenEnds(here, Traverse(f.spec, f.idx + 1, f.prefix, rest));
      case Succeeds(follow) =>
        var kept := if f.idx + 1 < |f.spec.steps| then [Succeeded(g, a)] else [];
        if follow.None? {
          SucceedContinues(stack, f, g, a, here, rest);
          ThenEnds(here, Traverse(f.spec, f.idx + 1, f.prefix, rest));
          assert ps == kept + [] == kept;
        } else {
          var below := Traverse(follow.value, 0, p, rest);
          var more := Traverse(f.spec, f.idx + 1, f.prefix, below.agents);
          SucceedWithChild(stack, f, g, a, Frame(follow.value, 0, p), here, rest);
          ThenEnds(below, more);
          ThenEnds(here, Then(below, more));
          ThenEnds(here, below);
          assert stack + ps == stack + kept + [Frame(follow.value, 0, p)];
        }
      case VerifierRejects =>
        assert stack + ps == stack;
      case _ =>
    }
  }

  /** One step of the reference, by its fate. */
  lemma TraverseStep(f: Frame, agents: seq<Attempt>)
    requires !f.Exhausted() && agents != [] && agents[0].Ran?
    ensures var p := f.StepPrefix();
            var here := Walk(Visit(p, f.Step(), agents[0]), agents[1..], true);
            Traverse(f.spec, f.idx, f.prefix, agents) ==
              match FateOf(f.Step(), agents[0])
              case Splits(child) =>
                var below := Traverse(child, 0, p, here.agents);
                if below.complete then Then(here, Then(below, Traverse(f.spec, f.idx, f.prefix, below.agents)))
                else Then(here, below)
              case Retries => Then(here, Traverse(f.spec, f.idx, f.prefix, here.agents))
              case TaskFails => Then(here, Traverse(f.spec, f.idx + 1, f.prefix, here.agents))
              case Succeeds(None) => Then(here, Traverse(f.spec, f.idx + 1, f.prefix, here.agents))
              case Succeeds(Some(child)) =>
                var below := Traverse(child, 0, p, here.agents);
                if below.complete then Then(here, Then(below, Traverse(f.spec, f.idx + 1, f.prefix, below.agents)))
                else Then(here, below)
              case VerifierRejects => here
              case _ => here.(complete := false)
  {
    hide Visit, Compose, Then;
  }

  /** One frame `g` of the shape of `f` at `idx` was pushed. */
  lemma OneContinues(stack: seq<Frame>, f: Frame, idx: nat, g: Frame, here: Walk, agents: seq<Attempt>)
    requires SameShape(g.spec, f.spec) && g.idx == idx && g.prefix == f.prefix
    ensures var more := Traverse(f.spec, idx, f.prefix, agents);
            Then(here, TraverseStack(stack + [g], agents)) ==
            if more.complete then Then(Then(here, more), TraverseStack(stack, more.agents)) else Then(here, more)
  {
    hide Traverse, TraverseStack;
    TraverseShape(g.spec, f.spec, idx, f.prefix, agents);
    StackSnoc(stack, g, agents);
  }

  lemma SucceedContinues(stack: seq<Frame>, f: Frame, g: Frame, a: Attempt, here: Walk, agents: seq<Attempt>)
    requires !f.Exhausted() && a.Ran? && g == SetStatus(f, InProgress)
    ensures var more := Traverse(f.spec, f.idx + 1, f.prefix, agents);
            var kept := if f.idx + 1 < |f.spec.steps| then [Succeeded(g, a)] else [];
            Then(here, TraverseStack(stack + kept, agents)) ==
            if more.complete then Then(Then(here, more), TraverseStack(stack, more.agents)) else Then(here, more)
  {
    hide TraverseStack, AppendHistory;
    if f.idx + 1 < |f.spec.steps| {
      OneContinues(stack, f, f.idx + 1, Succeeded(g, a), here, agents);
    } else {
      assert stack + [] == stack;
      assert here.events + [] == here.events;
    }
  }

  lemma ChildThenParent(stack: seq<Frame>, f: Frame, idx: nat, g: Frame, child: Frame, here: Walk, agents: seq<Attempt>)
    requires SameShape(g.spec, f.spec) && g.idx == idx && g.prefix == f.prefix
    ensures var below := Traverse(child.spec, child.idx, child.prefix, agents);
            var more := Traverse(f.spec, idx, f.prefix, below.agents);
            Then(here, TraverseStack(stack + [g] + [child], agents)) ==
            if !below.complete then Then(here, below)
            else if more.complete then
              Then(Then(here, Then(below, more)), TraverseStack(stack, more.agents))
            else Then(here, Then(below, more))
  {
    hide Traverse, TraverseStack, Then;
    var below := Traverse(child.spec, child.idx, child.prefix, agents);
    var more := Traverse(f.spec, idx, f.prefix, below.agents);
    StackSnoc(stack + [g], child, agents);
    OneContinues(stack, f, idx, g, Then(here, below), below.agents);
    ThenAssoc(here, below, more);
    ThenAssoc(here, below, TraverseStack(stack + [g], below.agents));
  }

  lemma SucceedWithChild(stack: seq<Frame>, f: Frame, g: Frame, a: Attempt, child: Frame, here: Walk, agents: seq<Attempt>)
    requires !f.Exhausted() && a.Ran? && g == SetStatus(f, InProgress)
    ensures var kept := if f.idx + 1 < |f.spec.steps| then [Succeeded(g, a)] else [];
            var below := Traverse(child.spec, child.idx, child.prefix, agents);
            var more := Traverse(f.spec, f.idx + 1, f.prefix, below.agents);
            Then(here, TraverseStack(stack + kept + [child], agents)) ==
            if !below.complete then Then(here, below)
            else if more.complete then
              Then(Then(here, Then(below, more)), TraverseStack(stack, more.agents))
            else Then(here, Then(below, more))
  {
    hide Traverse, TraverseStack, Then, Succeeded;
    var kept := if f.idx + 1 < |f.spec.steps| then [Succeeded(g, a)] else [];
    var below := Traverse(child.spec, child.idx, child.prefix, agents);
    StackSnoc(stack + kept, child, agents);
    SucceedContinues(stack, f, g, a, Then(here, below), below.agents);
    ThenAssoc(here, below, Traverse(f.spec, f.idx + 1, f.prefix, below.agents));
    ThenAssoc(here, below, TraverseStack(stack + kept, below.agents));
  }

  /** The explicit-stack loop produces exactly the events of the recursive traversal. */
  lemma {:induction false} RunIsTraversal(s: State)
    requires Quiet(s)
    ensures var w := TraverseStack(s.stack, s.agents);
            && Run(s).0.events == s.events + w.events
            && Run(s).1 == if w.complete then Done else Errored
    decreases |s.agents|, |s.inbox|, |s.stack|
  {
    hide FateOf, Visit, Pushes, Traverse, TraverseStack, SetStatus, Turn, Then;
    if s.stack == [] {
      EmptyStack(s.agents);
    } else {
      var f, below := Top(s), Pop(s);
      assert s.stack == below.stack + [f];
      StackSnoc(below.stack, f, s.agents);
      TurnUses(below, f);
      if f.Exhausted() {
        ExhaustedTurn(below, f);
        TraverseEnd(f, s.agents, below.stack);
        RunIsTraversal(below);
      } else {
        QuietTurn(below, f);
        if s.agents == [] || s.agents[0].AgentError? || FateOf(f.Step(), s.agents[0]).NoSummary? {
          TraverseBroken(f, s.agents);
        } else {
          var a := s.agents[0];
          FateNotCancelled(f.Step(), a) by { assert NotCancelled(a); }
          var here := Visit(f.StepPrefix(), f.Step(), a);
          var s' := Turn(below, f).s;
          PushedContinues(below.stack, f, s.agents);
          assert forall i | 0 <= i < |s'.agents| :: s'.agents[i] == s.agents[i + 1];
          RunIsTraversal(s');
          ThenEvents(Walk(here, s.agents[1..], true), TraverseStack(s'.stack, s'.agents), s.events);
        }
      }
    }
  }

  lemma ThenEvents(a: Walk, b: Walk, before: seq<Event>)
    ensures before + Then(a, b).events == before + a.events + b.events
    ensures Then(a, b).complete == b.complete
  {
  }

  lemma EmptyStack(agents: seq<Attempt>)
    ensures TraverseStack([], agents) == Walk([AllCompleted], agents, true)
  {
  }

  lemma ExhaustedTurn(s: State, f: Frame)
    requires Quiet(s) && f.Exhausted()
    ensures Turn(s, f) == Continue(s)
  {
  }

  lemma TraverseEnd(f: Frame, agents: seq<Attempt>, stack: seq<Frame>)
    requires f.Exhausted()
    ensures var top := Traverse(f.spec, f.idx, f.prefix, agents);
            top.complete && Then(top, TraverseStack(stack, top.agents)) == TraverseStack(stack, agents)
  {
    hide TraverseStack;
    assert [] + TraverseStack(stack, agents).events == TraverseStack(stack, agents).events;
  }

  lemma TraverseBroken(f: Frame, agents: seq<Attempt>)
    requires !f.Exhausted()
    requires agents == [] || agents[0].AgentError? || FateOf(f.Step(), agents[0]).NoSummary?
    ensures var top := Traverse(f.spec, f.idx, f.prefix, agents);
            && !top.complete
            && top.events == if agents == [] || agents[0].AgentError?
                             then [StepStatusChanged(f.StepPrefix(), f.Step().index, InProgress)]
                             else Visit(f.StepPrefix(), f.Step(), agents[0])
  {
    hide Visit, Compose;
  }
}
