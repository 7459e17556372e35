/** What the control commands achieve: a pause holds, a resume releases, a cancellation hits
    the step it names and no other, an injected spec runs before what lies below. */
module OrchestratorControl {
  import opened Text
  import opened Specs
  import opened Orchestrator
  import opened OrchestratorTurns
  import OrchestratorFrames

  // ----- pausing -----------------------------------------------------------------------

  predicate Unpauses(c: Command) {
    c.Resume? || c.ResumeStep? || c.Abort? || c == SetPauseFlag(false)
  }

  predicate NoneUnpauses(batch: seq<Command>) {
    forall i | 0 <= i < |batch| :: !Unpauses(batch[i])
  }

  predicate Pauses(c: Command) {
    c.Pause? || c == SetPauseFlag(true)
  }

  /** Of the commands that pause or may release, the last one pauses. */
  predicate EndsPaused(paused: bool, batch: seq<Command>)
    decreases |batch|
  {
    if batch == [] then paused
    else
      var last := batch[|batch| - 1];
      Pauses(last) || (!Unpauses(last) && EndsPaused(paused, batch[..|batch| - 1]))
  }

  predicate NoAbort(batch: seq<Command>) {
    forall i | 0 <= i < |batch| :: !batch[i].Abort?
  }

  lemma {:induction false} PausedBatch(s: State, batch: seq<Command>)
    requires s.paused && NoneUnpauses(batch)
    ensures ApplyBatch(s, batch).0.paused && !ApplyBatch(s, batch).1
    decreases |batch|
  {
    hide AddNote, SetStatus, Compose, RerunEvents;
    if batch != [] {
      assert !Unpauses(batch[0]);
      assert forall i | 0 <= i < |batch[1..]| :: batch[1..][i] == batch[i + 1];
      PausedBatch(ApplyCommand(s, batch[0]), batch[1..]);
    }
  }

  lemma {:induction false} BatchRuns(s: State, batch: seq<Command>)
    requires NoAbort(batch)
    ensures !ApplyBatch(s, batch).1
    decreases |batch|
  {
    hide ApplyCommand;
    if batch != [] {
      assert forall j | 0 <= j < |batch[1..]| :: batch[1..][j] == batch[j + 1];
      BatchRuns(ApplyCommand(s, batch[0]), batch[1..]);
    }
  }

  lemma {:induction false} BatchPauses(s: State, batch: seq<Command>)
    requires EndsPaused(s.paused, batch) && NoAbort(batch)
    ensures ApplyBatch(s, batch).0.paused && !ApplyBatch(s, batch).1
    decreases |batch|
  {
    hide ApplyCommand;
    if batch != [] {
      var init, last := batch[..|batch| - 1], batch[|batch| - 1];
      assert batch == init + [last];
      BatchRuns(s, init);
      BatchAppend(s, init, [last]);
      var t := ApplyBatch(s, init).0;
      assert !last.Abort?;
      OneCommand(t, last);
      PauseTakes(t, last);
      if !Pauses(last) {
        BatchPauses(s, init);
      }
    }
  }

  lemma PauseTakes(s: State, c: Command)
    ensures Pauses(c) || (s.paused && !Unpauses(c)) ==> ApplyCommand(s, c).paused
  {
    hide AddNote, SetStatus, Compose, RerunEvents;
  }

  lemma {:induction false} BatchEvents(s: State, batch: seq<Command>)
    ensures s.events <= ApplyBatch(s, batch).0.events
    ensures forall i | |s.events| <= i < |ApplyBatch(s, batch).0.events| :: !ApplyBatch(s, batch).0.events[i].StepStatusChanged?
    decreases |batch|
  {
    hide AddNote, SetStatus, Compose;
    if batch != [] && !batch[0].Abort? {
      BatchEvents(ApplyCommand(s, batch[0]), batch[1..]);
    }
  }

  /** No step is announced between `s` and `t`. */
  ghost predicate NoStepBetween(s: State, t: State) {
    s.events <= t.events && forall i | |s.events| <= i < |t.events| :: !t.events[i].StepStatusChanged?
  }

  lemma {:induction false} WaitHolds(s: State)
    requires s.paused && forall i | 0 <= i < |s.inbox| :: NoneUnpauses(s.inbox[i])
    ensures Wait(s).Stop? && Wait(s).result.Blocked? && NoStepBetween(s, Wait(s).s)
    ensures Wait(s).s.agents == s.agents && Wait(s).s.inbox == []
    decreases |s.inbox|
  {
    hide ApplyBatch, NoneUnpauses;
    if s.inbox != [] {
      var s1 := s.(inbox := s.inbox[1..]);
      PausedBatch(s1, s.inbox[0]);
      BatchEvents(s1, s.inbox[0]);
      PollUses(s);
      WaitHolds(Poll(s).0);
    }
  }

  /** Once a pause is read, nothing runs until a command releases it: the loop reads every
      batch there is, starts no step and uses no outcome. */
  lemma PauseHolds(s: State, f: Frame)
    requires s.inbox != [] && NoAbort(s.inbox[0]) && EndsPaused(s.paused, s.inbox[0])
    requires forall i | 1 <= i < |s.inbox| :: NoneUnpauses(s.inbox[i])
    ensures var t := Turn(s, f);
            && t.Halt? && t.result.Blocked? && NoStepBetween(s, t.s)
            && t.s.agents == s.agents && t.s.inbox == []
  {
    hide ApplyBatch, NoneUnpauses, EndsPaused, Wait, Execute;
    var s1 := s.(inbox := s.inbox[1..]);
    BatchPauses(s1, s.inbox[0]);
    BatchEvents(s1, s.inbox[0]);
    PollUses(s);
    WaitHolds(Poll(s).0);
  }

  lemma {:induction false} WaitReleases(s: State, idle: nat, rest: seq<seq<Command>>)
    requires s.paused && s.inbox == seq(idle, _ => []) + [[Command.Resume]] + rest
    ensures !Poll(s).1 && Wait(Poll(s).0) == Go(Emit(s.(paused := false, inbox := rest), [Resumed]))
    decreases idle
  {
    var s1 := s.(inbox := s.inbox[1..]);
    if idle == 0 {
      assert s.inbox[0] == [Command.Resume] && s.inbox[1..] == rest;
      ResumeOnly(s1);
    } else {
      assert s.inbox[0] == [] && s.inbox[1..] == seq(idle - 1, _ => []) + [[Command.Resume]] + rest;
      WaitReleases(s1, idle - 1, rest);
    }
  }

  /** A resume releases it, however many empty polls later: the frame in hand goes on as if
      the loop had never waited. */
  lemma ResumeReleases(s: State, f: Frame, idle: nat, rest: seq<seq<Command>>)
    requires s.paused && s.inbox == seq(idle, _ => []) + [[Command.Resume]] + rest
    ensures var u := Emit(s.(paused := false, inbox := rest), [Resumed]);
            Turn(s, f) == if f.Exhausted() then Continue(u) else Execute(u, f)
  {
    hide Poll, Wait, Execute;
    WaitReleases(s, idle, rest);
  }

  lemma ResumeOnly(s: State)
    ensures ApplyBatch(s, [Command.Resume]) == (Emit(s.(paused := false), [Resumed]), false)
  {
    assert [Command.Resume][1..] == [];
  }

  // ----- cancelling ----------------------------------------------------------------------

  /** The step named by the last cancellation read. */
  function LastCancel(before: Option<string>, batch: seq<Command>): Option<string>
    decreases |batch|
  {
    if batch == [] then before
    else
      var last := batch[|batch| - 1];
      if last.CancelStep? then Some(last.prefix) else LastCancel(before, batch[..|batch| - 1])
  }

  /** Commands that neither stop nor hold the loop. */
  predicate Passing(batch: seq<Command>) {
    forall i | 0 <= i < |batch| :: !batch[i].Abort? && !batch[i].Pause? && !batch[i].SetPauseFlag?
  }

  lemma {:induction false} PassingBatch(s: State, batch: seq<Command>)
    requires Passing(batch) && !s.paused
    ensures var (t, aborted) := ApplyBatch(s, batch);
            !aborted && !t.paused && t.cancelPrefix == LastCancel(s.cancelPrefix, batch)
    decreases |batch|
  {
    hide ApplyCommand;
    if batch != [] {
      var init, last := batch[..|batch| - 1], batch[|batch| - 1];
      assert batch == init + [last];
      PassingBatch(s, init);
      BatchAppend(s, init, [last]);
      var t := ApplyBatch(s, init).0;
      OneCommand(t, last);
      assert !last.Abort? && !last.Pause? && !last.SetPauseFlag?;
      CommandCancels(t, last);
    }
  }

  lemma OneCommand(s: State, c: Command)
    requires !c.Abort?
    ensures ApplyBatch(s, [c]) == (ApplyCommand(s, c), false)
  {
    hide ApplyCommand;
    assert [c][1..] == [];
  }

  lemma CommandCancels(s: State, c: Command)
    requires !c.Pause? && !c.SetPauseFlag? && !s.paused
    ensures !ApplyCommand(s, c).paused
    ensures ApplyCommand(s, c).cancelPrefix == if c.CancelStep? then Some(c.prefix) else s.cancelPrefix
  {
    hide AddNote, SetStatus, Compose, RerunEvents;
  }

  /** A cancellation hits the step it names and no other.  Of the commands read before the
      step (`b0`) and while it ran (`b1`), the last cancellation counts: the step is set
      aside if it is named, or if its task came back cancelled, and in no other case; named
      before it started, it is not executed at all.  A cancellation that hit is used up. */
  lemma CancellationIsNamed(s: State, f: Frame, b0: seq<Command>, b1: seq<Command>, rest: seq<seq<Command>>)
    requires !s.paused && !f.Exhausted() && s.inbox == [b0, b1] + rest && Passing(b0) && Passing(b1)
    requires s.agents != [] && s.agents[0].Ran?
    ensures var p := Some(f.StepPrefix());
            var early := LastCancel(s.cancelPrefix, b0) == p;
            var late := LastCancel(LastCancel(s.cancelPrefix, b0), b1) == p;
            && (Suspends(s, f) <==> early || late || s.agents[0].task.state.Cancelled?)
            && (Turn(s, f).s.agents == if early then s.agents else s.agents[1..])
            && Turn(s, f).s.cancelPrefix == if early || late then None else LastCancel(LastCancel(s.cancelPrefix, b0), b1)
  {
    hide ApplyBatch, LastCancel, Passing, Settle, SetStatus, Compose;
    var s1 := s.(inbox := [b1] + rest);
    assert s.inbox[0] == b0 && s.inbox[1..] == [b1] + rest;
    PassingBatch(s1, b0);
    var t := ApplyBatch(s1, b0).0;
    PollUses(s);
    assert Turn(s, f) == Execute(t, f);
    StatusKeepsStep(f, InProgress);
    var g := SetStatus(f, InProgress);
    var u := Emit(t, [StepStatusChanged(f.StepPrefix(), f.Step().index, InProgress)]);
    if t.cancelPrefix == Some(f.StepPrefix()) {
      SuspendedLast(u.(cancelPrefix := None), g);
    } else {
      var v := u.(agents := u.agents[1..], inbox := rest);
      assert u.inbox[0] == b1 && u.inbox[1..] == rest;
      PassingBatch(v, b1);
      PollUses(u.(agents := u.agents[1..]));
      var w := ApplyBatch(v, b1).0;
      SuspendedLast(w.(cancelPrefix := None), g);
      SettleSuspends(w, g, s.agents[0]);
    }
  }

  lemma SuspendedLast(s: State, f: Frame)
    requires !f.Exhausted()
    ensures var t := Suspend(s, f);
            && t.events != [] && t.events[|t.events| - 1].StepCancelled?
            && t.agents == s.agents && t.cancelPrefix == s.cancelPrefix
  {
    hide SetStatus, Compose;
  }

  lemma SettleSuspends(s: State, f: Frame, a: Attempt)
    requires !f.Exhausted() && a.Ran?
    ensures var t := Settle(s, f, a);
            && t.s.agents == s.agents && t.s.cancelPrefix == s.cancelPrefix
            && (t.Continue? && t.s.events != [] && t.s.events[|t.s.events| - 1].StepCancelled?
                <==> a.task.state.Cancelled?)
  {
    hide SetStatus, Pushes, Compose, ReviewEvents;
  }

  // ----- injecting -----------------------------------------------------------------------

  /** An injected spec goes on top of what lies below the frame in hand, named under it,
      and stays below whatever else the turn pushes. */
  lemma InjectedOnTop(s: State, f: Frame, stepIndex: string, child: SpecSheet, rest: seq<seq<Command>>)
    requires !s.paused && s.inbox == [[InjectSplit(stepIndex, child)]] + rest
    ensures var prefix := if s.stack == [] || Top(s).prefix == "" then stepIndex
                          else Top(s).prefix + "." + stepIndex;
            s.stack + [Frame(child, 0, prefix)] <= Turn(s, f).s.stack
  {
    hide Execute;
    var c, s1 := InjectSplit(stepIndex, child), s.(inbox := rest);
    assert s.inbox[0] == [c] && s.inbox[1..] == rest;
    OneCommand(s1, c);
    var t := ApplyCommand(s1, c);
    assert Poll(s) == (t, false) && Wait(t) == Go(t);
    if !f.Exhausted() {
      OrchestratorFrames.ExecutePushes(t, f);
    }
  }

  // ----- resuming and rerunning -------------------------------------------------------------

  /** The message of a resume-step that matches is added to the waiting step's instructions,
      unless it is blank; nothing else of the frame changes but the status. */
  lemma ResumeCarriesNote(s: State, f: Frame, message: string)
    requires s.pendingResume == Some(f) && !f.Exhausted()
    ensures var t := ApplyCommand(s, ResumeStep(f.prefix, message));
            var note := if IsBlank(message) then f.Step().instructions
                        else TrimEnd(f.Step().instructions) + "\n\nUser note: " + message;
            && t.pendingResume.None? && !t.paused
            && t.stack == s.stack + [Frame(f.spec.(steps := f.spec.steps[f.idx :=
                                       f.Step().(status := Pending, instructions := note)]), f.idx, f.prefix)]
  {
    hide IsBlank, TrimEnd;
    var g := SetStatus(f, Pending);
    assert g.Step().instructions == f.Step().instructions;
    assert AddNote(g, message).spec.steps == f.spec.steps[f.idx := AddNote(g, message).Step()];
  }

  /** Rerunning the verifier reports its answer about the task verified last, and changes
      nothing; with no verification yet it does nothing. */
  lemma RerunReports(s: State, verdict: Verdict)
    ensures var t := ApplyCommand(s, RerunVerifiers(verdict));
            if s.lastVerified.None? then t == s
            else
              var id := s.lastVerified.value;
              t == s.(events := s.events +
                match verdict
                case Verified => [SummaryUpdated(Summary(id, Passed))]
                case _ => [SummaryUpdated(Summary(id, Rejected)), VerifierFailed(Summary(id, Rejected))])
  {
  }
}
