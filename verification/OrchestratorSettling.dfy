/** What one finished execution does to the frames and the events, outcome by outcome. */
module OrchestratorSettling {
  import opened Text
  import opened Specs
  import opened Orchestrator

  /** The frame at step `idx`, its current step replaced by `step`. */
  function Revised(f: Frame, step: SpecStep, idx: nat): Frame
    requires !f.Exhausted()
  {
    Frame(f.spec.(steps := f.spec.steps[f.idx := step]), idx, f.prefix)
  }

  /** The loop goes on with these frames pushed and these events sent; no control field moves. */
  ghost predicate Leaves(s: State, t: Iteration, frames: seq<Frame>, events: seq<Event>) {
    && t.Continue?
    && t.s.stack == s.stack + frames && t.s.events == s.events + events
    && t.s == s.(stack := t.s.stack, events := t.s.events, lastVerified := t.s.lastVerified)
  }

  /** A cancelled task: nothing is pushed, the run pauses, and the frame waits at the same step. */
  lemma CancelledWaits(s: State, f: Frame, a: Attempt)
    requires !f.Exhausted() && a.Ran? && a.task.state.Cancelled?
    ensures Settle(s, f, a) == Continue(
              s.(pendingResume := Some(Revised(f, f.Step().(status := Pending), f.idx)), paused := true,
                 events := s.events + [StepCancelled(f.StepPrefix())]))
  {
  }

  /** A split: the same step stays below, pending, and the child runs from its first step. */
  lemma SplitRunsChild(s: State, f: Frame, a: Attempt)
    requires !f.Exhausted() && a.Ran? && a.task.state.Submitted? && a.task.subSpec.Some?
    ensures var child := a.task.subSpec.value;
            Leaves(s, Settle(s, f, a),
                   [Revised(f, f.Step().(status := Pending, subSpec := Some(child)), f.idx),
                    Frame(child, 0, f.StepPrefix())],
                   [ChildSpecPushed(f.Step().index, child.id, |child.steps|, BySplit)])
  {
    hide Compose;
  }

  /** A failed task: announced, and the next step is up. */
  lemma FailureMovesOn(s: State, f: Frame, a: Attempt)
    requires !f.Exhausted() && a.Ran? && a.task.state.TaskFailed?
    ensures Leaves(s, Settle(s, f, a), [Revised(f, f.Step().(status := Failed), f.idx + 1)],
                   [StepStatusChanged(f.StepPrefix(), f.Step().index, Failed)])
  {
  }

  /** A task that reaches the review. */
  predicate Reviewed(a: Attempt) {
    && a.Ran? && a.task.hasSummary
    && !a.task.state.Cancelled? && !a.task.state.TaskFailed?
    && !(a.task.state.Submitted? && a.task.subSpec.Some?)
  }

  /** Without a summary the run ends with an error, and nothing is pushed. */
  lemma NoSummaryStops(s: State, f: Frame, a: Attempt)
    requires !f.Exhausted() && a.Ran? && !a.task.hasSummary
    requires Reviewed(a.(task := a.task.(hasSummary := true)))
    ensures Settle(s, f, a) == Halt(s, Errored)
  {
  }

  /** A failed summarizer or a verdict that asks for revision: the same step again, pending. */
  lemma RevisionRepeats(s: State, f: Frame, a: Attempt)
    requires !f.Exhausted() && Reviewed(a) && f.Step().requiresVerification
    requires !a.summarized || a.verdict.NeedsRevision?
    ensures var rejected := Summary(a.task.id, Rejected);
            Leaves(s, Settle(s, f, a), [Revised(f, f.Step().(status := Pending), f.idx)],
                   (if a.summarized then [SummaryUpdated(Summary(a.task.id, Unverified))] else [])
                   + [SummaryUpdated(rejected), VerifierFailed(rejected),
                      StepStatusChanged(f.StepPrefix(), f.Step().index, Pending)])
    ensures Settle(s, f, a).s.lastVerified == if a.summarized then Some(a.task.id) else s.lastVerified
  {
    hide Compose;
  }

  /** A rejecting verdict: announced, and nothing of this spec is pushed any more. */
  lemma RejectionAbandons(s: State, f: Frame, a: Attempt)
    requires !f.Exhausted() && Reviewed(a) && f.Step().requiresVerification
    requires a.summarized && a.verdict.VerdictFailed?
    ensures var rejected := Summary(a.task.id, Rejected);
            Leaves(s, Settle(s, f, a), [],
                   [SummaryUpdated(Summary(a.task.id, Unverified)), SummaryUpdated(rejected), VerifierFailed(rejected),
                    StepStatusChanged(f.StepPrefix(), f.Step().index, Failed)])
    ensures Settle(s, f, a).s.lastVerified == Some(a.task.id)
  {
    hide Compose;
  }

  /** A step completed, by its verdict or because it needs none: its frame goes on with the
      next step if there is one, with the summary in its history, and its child runs first. */
  lemma SuccessMovesOn(s: State, f: Frame, a: Attempt)
    requires !f.Exhausted() && Reviewed(a)
    requires f.Step().requiresVerification ==> a.summarized && a.verdict.Verified?
    ensures var t, child, id := Settle(s, f, a), a.task.subSpec, a.task.id;
            var done := f.Step().(status := Completed, subSpec := if child.Some? then child else f.Step().subSpec);
            var next := Revised(f, done, f.idx + 1);
            Leaves(s, t,
                   (if f.idx + 1 < |f.spec.steps|
                    then [next.(spec := next.spec.(history := AppendHistory(f.spec.history, Summary(id, Passed))))]
                    else [])
                   + (if child.Some? then [Frame(child.value, 0, f.StepPrefix())] else []),
                   (if f.Step().requiresVerification then [SummaryUpdated(Summary(id, Unverified))] else [])
                   + [SummaryUpdated(Summary(id, Passed)), ChannelClosed(id),
                      StepStatusChanged(f.StepPrefix(), f.Step().index, Completed)])
    ensures Settle(s, f, a).s.lastVerified == if f.Step().requiresVerification then Some(a.task.id) else s.lastVerified
  {
    hide Compose, AppendHistory;
  }
}
