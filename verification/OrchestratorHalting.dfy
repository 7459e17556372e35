/** Without control commands the loop ends when retries, splits and children do. */
module OrchestratorHalting {
  import opened Text
  import opened Specs
  import opened Orchestrator
  import opened OrchestratorOrder
  import opened OrchestratorTurns

  /** The steps left on the stack. */
  function Work(stack: seq<Frame>): nat {
    if stack == [] then 0
    else
      var f := stack[|stack| - 1];
      Work(stack[..|stack| - 1]) + if f.Exhausted() then 0 else |f.spec.steps| - f.idx
  }

  /** By how much an outcome of a step adds work: a retry repeats the step, a split repeats it
      and brings a child, a success may bring a child. */
  function Growth(step: SpecStep, a: Attempt): nat
    requires a.Ran?
  {
    match FateOf(step, a)
    case Splits(child) => 1 + |child.steps|
    case Retries => 1
    case Succeeds(Some(child)) => |child.steps|
    case _ => 0
  }

  function TurnGrowth(s: State, f: Frame): nat {
    if Works(s, f) && s.agents != [] && s.agents[0].Ran? then Growth(f.Step(), s.agents[0]) else 0
  }

  /** What the retries, splits and children that really happen in a run add. */
  function RunGrowth(s: State): nat
    decreases |s.agents|, |s.inbox|, |s.stack|
  {
    if s.stack == [] then 0
    else
      TurnUses(Pop(s), Top(s));
      var t := Turn(Pop(s), Top(s));
      TurnGrowth(Pop(s), Top(s)) + if t.Continue? then RunGrowth(t.s) else 0
  }

  lemma WorkSnoc(stack: seq<Frame>, f: Frame)
    ensures Work(stack + [f]) == Work(stack) + if f.Exhausted() then 0 else |f.spec.steps| - f.idx
  {
    assert (stack + [f])[..|stack|] == stack;
  }

  lemma PushesWork(stack: seq<Frame>, f: Frame, a: Attempt)
    requires !f.Exhausted() && a.Ran? && !SetStatus(f, InProgress).Exhausted()
    ensures var w := Work(stack + Pushes(SetStatus(f, InProgress), a));
            w + 1 <= Work(stack + [f]) + Growth(f.Step(), a)
  {
    hide Work, AppendHistory, Compose;
    WorkSnoc(stack, f);
    var g := SetStatus(f, InProgress);
    VisitShape("", f.Step(), g.Step(), a);
    var ps := Pushes(g, a);
    if ps == [] {
      assert stack + ps == stack;
    } else if |ps| == 1 {
      assert ps == [ps[0]];
      WorkSnoc(stack, ps[0]);
    } else {
      assert stack + ps == stack + [ps[0]] + [ps[1]];
      WorkSnoc(stack, ps[0]);
      WorkSnoc(stack + [ps[0]], ps[1]);
    }
  }

  /** A turn that uses an outcome uses up work, or what it gains. */
  lemma TurnWork(s: State, f: Frame)
    requires s.inbox == []
    ensures var t := Turn(s, f);
            && t.s.inbox == []
            && (if |t.s.agents| < |s.agents| then 1 else 0) + (if t.Continue? then Work(t.s.stack) else 0)
               <= Work(s.stack + [f]) + TurnGrowth(s, f)
  {
    hide Turn, Work, Growth, Pushes, SetStatus, Polled, Suspends;
    TurnPutsBack(s, f);
    TurnAgents(s, f);
    var t := Turn(s, f);
    TamePolled(s, t.s);
    WorkSnoc(s.stack, f);
    if Works(s, f) {
      PushesWork(s.stack, f, s.agents[0]);
    }
  }

  /** However it ends, a run uses at most as many outcomes as it has steps and its retries,
      splits and children add. */
  lemma {:induction false} UsesBounded(s: State)
    requires s.inbox == []
    ensures |s.agents| <= |Run(s).0.agents| + Work(s.stack) + RunGrowth(s)
    decreases |s.agents|, |s.inbox|, |s.stack|
  {
    hide Turn, Work, TurnGrowth;
    if s.stack != [] {
      var rest, f := Pop(s), Top(s);
      assert s.stack == rest.stack + [f];
      TurnUses(rest, f);
      TurnWork(rest, f);
      TurnAgents(rest, f);
      var t := Turn(rest, f);
      if t.Continue? {
        UsesBounded(t.s);
      }
    }
  }

  /** A run that leaves an outcome unused does not depend on how many more there are. */
  lemma {:induction false} MoreUnused(s: State, more: seq<Attempt>)
    requires s.inbox == [] && Run(s).0.agents != []
    ensures Run(s.(agents := s.agents + more)) == (Run(s).0.(agents := Run(s).0.agents + more), Run(s).1)
    decreases |s.agents|, |s.inbox|, |s.stack|
  {
    hide Turn;
    var s' := s.(agents := s.agents + more);
    if s.stack == [] {
      assert Run(s') == (Emit(s', [AllCompleted]), Done);
    } else {
      var rest, f := Pop(s), Top(s);
      TurnUses(rest, f);
      TurnUses(Pop(s'), f);
      TurnWork(rest, f);
      var t := Turn(rest, f);
      if t.Continue? {
        MoreUnused(t.s, more);
        RunUses(t.s);
      }
      TurnMore(rest, f, more);
      assert Pop(s') == rest.(agents := rest.agents + more) && Top(s') == f;
    }
  }

  lemma {:induction false} RunUses(s: State)
    ensures |Run(s).0.agents| <= |s.agents|
    decreases |s.agents|, |s.inbox|, |s.stack|
  {
    hide Turn;
    if s.stack != [] {
      TurnUses(Pop(s), Top(s));
      TurnAgents(Pop(s), Top(s));
      var t := Turn(Pop(s), Top(s));
      if t.Continue? {
        RunUses(t.s);
      }
    }
  }

  lemma TurnMore(s: State, f: Frame, more: seq<Attempt>)
    requires s.inbox == [] && Turn(s, f).s.agents != []
    ensures var t := Turn(s, f);
            var u := t.s.(agents := t.s.agents + more);
            Turn(s.(agents := s.agents + more), f) == if t.Continue? then Continue(u) else Halt(u, t.result)
  {
    hide SetStatus, Pushes, FateOf, ReviewEvents, LastVerified, Compose;
    TurnAgents(s, f);
    var s' := s.(agents := s.agents + more);
    assert Poll(s) == (s, false) && Poll(s') == (s', false);
    assert (s.agents + more)[0] == s.agents[0];
    assert (s.agents + more)[1..] == s.agents[1..] + more;
    if !f.Exhausted() && !s.paused {
      var e := StepStatusChanged(f.StepPrefix(), f.Step().index, InProgress);
      var s2 := Emit(s, [e]).(agents := s.agents[1..]);
      var s2' := Emit(s', [e]).(agents := (s.agents + more)[1..]);
      assert Poll(s2) == (s2, false) && Poll(s2') == (s2', false);
    }
  }

  function Prefix(oracle: nat -> Attempt, n: nat): seq<Attempt> {
    seq(n, i requires 0 <= i < n => oracle(i))
  }

  /** Whatever the outcomes, errors, missing summaries and cancellations among them: if the
      retries, splits and children that really happen add a bounded amount of work, some
      finite number of outcomes ends the run, and more would change nothing. */
  lemma BoundedGrowthHalts(spec: SpecSheet, oracle: nat -> Attempt, bound: nat)
    requires forall m: nat :: RunGrowth(Init(spec, [], Prefix(oracle, m))) <= bound
    ensures exists m: nat :: EndsBy(spec, oracle, m)
  {
    hide Run, RunGrowth, EndsAlike;
    var m := |spec.steps| + bound + 1;
    var s := Init(spec, [], Prefix(oracle, m));
    UsesBounded(s);
    RootWork(spec);
    assert Run(s).0.agents != [];
    forall n: nat | m <= n
      ensures EndsAlike(spec, oracle, m, n)
    {
      var k := n - m;
      var more := seq(k, i requires 0 <= i < k => oracle(m + i));
      assert Prefix(oracle, m + k) == Prefix(oracle, m) + more;
      MoreUnused(s, more);
      Alike(spec, oracle, m, k, more);
    }
    assert EndsBy(spec, oracle, m);
  }

  /** The run has ended before it needs outcome `m`. */
  ghost predicate EndsBy(spec: SpecSheet, oracle: nat -> Attempt, m: nat) {
    forall n: nat | m <= n :: EndsAlike(spec, oracle, m, n)
  }

  /** The run on `n` outcomes is the run on `m`. */
  ghost predicate EndsAlike(spec: SpecSheet, oracle: nat -> Attempt, m: nat, n: nat) {
    var (t, r) := Run(Init(spec, [], Prefix(oracle, m)));
    var (u, r') := Run(Init(spec, [], Prefix(oracle, n)));
    u.events == t.events && r' == r && t.agents != [] && u.agents != []
  }

  lemma Alike(spec: SpecSheet, oracle: nat -> Attempt, m: nat, k: nat, more: seq<Attempt>)
    requires Prefix(oracle, m + k) == Prefix(oracle, m) + more
    requires var s := Init(spec, [], Prefix(oracle, m));
             Run(s).0.agents != []
             && Run(s.(agents := s.agents + more)) == (Run(s).0.(agents := Run(s).0.agents + more), Run(s).1)
    ensures EndsAlike(spec, oracle, m, m + k)
  {
    hide Run, Prefix;
  }

  lemma RootWork(spec: SpecSheet)
    ensures Work([Frame(spec, 0, "")]) == |spec.steps|
  {
    WorkSnoc([], Frame(spec, 0, ""));
    assert [] + [Frame(spec, 0, "")] == [Frame(spec, 0, "")];
  }

  // ----- running to completion ----------------------------------------------------------------

  /** An outcome the loop can go on with, whatever the step. */
  predicate Usable(a: Attempt) {
    a.Ran? && a.task.hasSummary && !a.task.state.Cancelled?
  }

  lemma UsableHasSummary(step: SpecStep, a: Attempt)
    requires Usable(a)
    ensures !FateOf(step, a).NoSummary? && !FateOf(step, a).Cancels?
  {
  }

  lemma QuietWorks(s: State, f: Frame)
    requires Quiet(s) && !f.Exhausted() && s.agents != [] && Usable(s.agents[0])
    ensures Works(s, f)
  {
    hide Turn, FateOf, Pushes, SetStatus, LastVerified, Compose;
    var a := s.agents[0];
    QuietTurn(s, f);
    UsableHasSummary(f.Step(), a);
    LastEvent(f, a, Turn(s, f).s, s.events);
  }

  lemma LastEvent(f: Frame, a: Attempt, t: State, before: seq<Event>)
    requires !f.Exhausted() && a.Ran? && !FateOf(f.Step(), a).NoSummary? && !FateOf(f.Step(), a).Cancels?
    requires t.events == before + Visit(f.StepPrefix(), f.Step(), a)
    ensures t.events != [] && !t.events[|t.events| - 1].StepCancelled?
  {
    hide Compose;
  }

  /** With usable outcomes for the steps left and for everything that retries, splits and
      children add, the loop runs to its end. */
  lemma {:induction false} EnoughOutcomesFinish(s: State)
    requires Quiet(s)
    requires forall i | 0 <= i < |s.agents| :: Usable(s.agents[i])
    requires |s.agents| >= Work(s.stack) + RunGrowth(s)
    ensures Run(s).1 == Done
    decreases |s.agents|, |s.inbox|, |s.stack|
  {
    hide FateOf, Visit, Pushes, SetStatus, Turn, Growth, Work, Works;
    if s.stack != [] {
      var f, below := Top(s), Pop(s);
      assert s.stack == below.stack + [f];
      WorkSnoc(below.stack, f);
      TurnUses(below, f);
      if f.Exhausted() {
        ExhaustedTurn(below, f);
        EnoughOutcomesFinish(below);
      } else {
        assert s.agents != [];
        var a := s.agents[0];
        assert Usable(a);
        QuietTurn(below, f);
        UsableHasSummary(f.Step(), a);
        QuietWorks(below, f);
        var s' := Turn(below, f).s;
        PushedWork(below, f);
        assert forall i | 0 <= i < |s'.agents| :: s'.agents[i] == s.agents[i + 1];
        EnoughOutcomesFinish(s');
      }
    }
  }

  lemma PushedWork(s: State, f: Frame)
    requires Quiet(s) && !f.Exhausted() && s.agents != [] && Usable(s.agents[0])
    ensures Turn(s, f).Continue? ==> Work(Turn(s, f).s.stack) + 1 <= Work(s.stack + [f]) + Growth(f.Step(), s.agents[0])
  {
    hide Turn, FateOf, Visit, Pushes, SetStatus, Growth, Work;
    QuietTurn(s, f);
    UsableHasSummary(f.Step(), s.agents[0]);
    StatusKeepsStep(f, InProgress);
    PushesWork(s.stack, f, s.agents[0]);
  }

  /** For an unbounded supply of usable outcomes whose retries, splits and children add a
      bounded amount of work, some finite number of executions completes the whole run. */
  lemma FiniteGrowthCompletes(spec: SpecSheet, oracle: nat -> Attempt, bound: nat)
    requires forall i: nat :: Usable(oracle(i))
    requires forall m: nat :: RunGrowth(Init(spec, [], Prefix(oracle, m))) <= bound
    ensures exists m: nat :: Run(Init(spec, [], Prefix(oracle, m))).1 == Done
  {
    hide RunGrowth, Run;
    var m := |spec.steps| + bound;
    var agents := Prefix(oracle, m);
    var s := Init(spec, [], agents);
    RootWork(spec);
    forall i | 0 <= i < |agents|
      ensures Usable(agents[i]) && NotCancelled(agents[i])
    {
      assert Usable(oracle(i));
    }
    EnoughOutcomesFinish(s);
  }
}
