/** What one turn of the loop does to the frames: the commands it reads, applied in order,
    and then what its outcome puts back. */
module OrchestratorTurns {
  import opened Text
  import opened Specs
  import opened Orchestrator

  /** The state at the head of the loop after `n` turns (or where the run stopped). */
  function After(s: State, n: nat): State
    decreases n
  {
    if n == 0 || s.stack == [] then s
    else
      var t := Turn(Pop(s), Top(s));
      if t.Continue? then After(t.s, n - 1) else t.s
  }

  // ----- the commands read -------------------------------------------------------------

  /** The commands read on the way from `s` to `t`. */
  function ReadBy(s: State, t: State): seq<Command> {
    if |t.inbox| <= |s.inbox| then Concat(s.inbox[..|s.inbox| - |t.inbox|]) else []
  }

  /** `s` with those commands applied: its frames are those of `t` before the outcome of a step. */
  function Polled(s: State, t: State): State {
    ApplyBatch(s, ReadBy(s, t)).0
  }

  predicate SameFrames(s: State, t: State) {
    s.stack == t.stack && s.pendingResume == t.pendingResume
  }

  /** `t` follows from `s` by polling alone, `aborted` or not. */
  ghost predicate Reads(s: State, t: State, aborted: bool) {
    && |t.inbox| <= |s.inbox| && s.inbox[|s.inbox| - |t.inbox|..] == t.inbox
    && SameFrames(Polled(s, t), t) && ApplyBatch(s, ReadBy(s, t)).1 == aborted
  }

  lemma {:induction false} BatchAppend(s: State, a: seq<Command>, b: seq<Command>)
    ensures ApplyBatch(s, a + b)
         == if ApplyBatch(s, a).1 then ApplyBatch(s, a) else ApplyBatch(ApplyBatch(s, a).0, b)
    decreases |a|
  {
    hide ApplyCommand;
    if a == [] {
      assert a + b == b;
    } else {
      assert (a + b)[1..] == a[1..] + b && (a + b)[0] == a[0];
      if !a[0].Abort? {
        BatchAppend(ApplyCommand(s, a[0]), a[1..], b);
      }
    }
  }

  /** Commands see only the frames. */
  lemma {:induction false} BatchSame(s: State, t: State, batch: seq<Command>)
    requires SameFrames(s, t)
    ensures SameFrames(ApplyBatch(s, batch).0, ApplyBatch(t, batch).0)
    ensures ApplyBatch(s, batch).1 == ApplyBatch(t, batch).1
    decreases |batch|
  {
    hide ApplyCommand;
    if batch != [] {
      CommandSame(s, t, batch[0]);
      if !batch[0].Abort? {
        BatchSame(ApplyCommand(s, batch[0]), ApplyCommand(t, batch[0]), batch[1..]);
      }
    }
  }

  lemma CommandSame(s: State, t: State, c: Command)
    requires SameFrames(s, t)
    ensures SameFrames(ApplyCommand(s, c), ApplyCommand(t, c))
  {
    hide AddNote, SetStatus, Compose;
  }

  lemma ReadsNothing(s: State, t: State)
    requires SameFrames(s, t) && t.inbox == s.inbox
    ensures Reads(s, t, false)
  {
    assert s.inbox[..0] == [];
  }

  lemma ReadsThen(s: State, t: State, u: State, aborted: bool)
    requires Reads(s, t, false) && Reads(t, u, aborted)
    ensures Reads(s, u, aborted)
  {
    hide ApplyBatch;
    var k, n := |s.inbox| - |t.inbox|, |s.inbox| - |u.inbox|;
    assert s.inbox[..n] == s.inbox[..k] + t.inbox[..n - k];
    assert s.inbox[n..] == s.inbox[k..][n - k..];
    ConcatAppend(s.inbox[..k], t.inbox[..n - k]);
    BatchAppend(s, ReadBy(s, t), ReadBy(t, u));
    BatchSame(Polled(s, t), t, ReadBy(t, u));
  }

  lemma PollReads(s: State)
    ensures Reads(s, Poll(s).0, Poll(s).1)
  {
    hide ApplyBatch;
    PollUses(s);
    if s.inbox == [] {
      ReadsNothing(s, s);
    } else {
      var s1 := s.(inbox := s.inbox[1..]);
      assert s.inbox[..1] == [s.inbox[0]];
      ConcatOne(s.inbox[0]);
      BatchSame(s, s1, s.inbox[0]);
    }
  }

  lemma ConcatOne(batch: seq<Command>)
    ensures Concat([batch]) == batch
  {
    assert [batch][1..] == [];
  }

  lemma {:induction false} WaitReads(s: State)
    ensures Reads(s, Wait(s).s, Wait(s).Stop? && Wait(s).result.AbortedRun?)
    decreases |s.inbox|
  {
    hide Reads, Poll;
    if !s.paused || s.inbox == [] {
      ReadsNothing(s, s);
    } else {
      PollUses(s);
      PollReads(s);
      if !Poll(s).1 {
        WaitReads(Poll(s).0);
        ReadsThen(s, Poll(s).0, Wait(s).s, Wait(s).Stop? && Wait(s).result.AbortedRun?);
      }
    }
  }

  // ----- what a turn puts back -------------------------------------------------------------

  /** The turn cancels its step and keeps the frame for a resume. */
  predicate Suspends(s: State, f: Frame) {
    var t := Turn(s, f);
    !f.Exhausted() && t.Continue? && t.s.events != [] && t.s.events[|t.s.events| - 1].StepCancelled?
  }

  /** The turn runs its step to an outcome that the loop goes on with. */
  predicate Works(s: State, f: Frame) {
    !f.Exhausted() && Turn(s, f).Continue? && !Suspends(s, f)
  }

  /** How `t` follows from the polled state `m` when the step of `f` ends. */
  predicate Ends(m: State, f: Frame, agents: seq<Attempt>, t: Iteration)
    requires !f.Exhausted()
  {
    if t.Halt? then SameFrames(m, t.s)
    else
      && t.s.events != []
      && if t.s.events[|t.s.events| - 1].StepCancelled? then
           t.s.stack == m.stack && t.s.paused
           && t.s.pendingResume == Some(SetStatus(SetStatus(f, InProgress), Pending))
         else
           && agents != [] && agents[0].Ran? && !SetStatus(f, InProgress).Exhausted()
           && t.s.stack == m.stack + Pushes(SetStatus(f, InProgress), agents[0])
           && t.s.pendingResume == m.pendingResume
  }

  lemma StatusKeepsStep(f: Frame, status: StepStatus)
    requires !f.Exhausted()
    ensures var g := SetStatus(f, status); !g.Exhausted() && g.StepPrefix() == f.StepPrefix()
  {
  }

  lemma SettleEnds(s: State, f: Frame, agents: seq<Attempt>)
    requires !f.Exhausted() && agents != [] && agents[0].Ran? && !SetStatus(f, InProgress).Exhausted()
    ensures Ends(s, f, agents, Settle(s, SetStatus(f, InProgress), agents[0]))
  {
    hide SetStatus, Pushes, FateOf, ReviewEvents, LastVerified, Compose;
  }

  /** An execution polls at most once, and then ends. */
  lemma ExecuteEnds(s: State, f: Frame) returns (m: State, aborted: bool)
    requires !f.Exhausted()
    ensures Reads(s, m, aborted) && m.inbox == Execute(s, f).s.inbox
    ensures Ends(m, f, s.agents, Execute(s, f))
  {
    hide Reads, Poll, SetStatus, Pushes, FateOf, Settle, Compose;
    StatusKeepsStep(f, InProgress);
    var p, g := f.StepPrefix(), SetStatus(f, InProgress);
    var s1 := Emit(s, [StepStatusChanged(p, f.Step().index, InProgress)]);
    m, aborted := s1, false;
    ReadsNothing(s, s1);
    if s1.cancelPrefix != Some(p) && s1.agents != [] && s1.agents[0].Ran? {
      var s2 := s1.(agents := s1.agents[1..]);
      ReadsNothing(s, s2);
      PollReads(s2);
      m, aborted := Poll(s2).0, Poll(s2).1;
      ReadsThen(s, s2, m, aborted);
      if !aborted && m.cancelPrefix != Some(p) {
        SettleEnds(m, f, s.agents);
        SettleReads(m, g, s.agents[0]);
      }
    }
  }

  lemma SettleReads(s: State, f: Frame, a: Attempt)
    requires !f.Exhausted() && a.Ran?
    ensures Settle(s, f, a).s.inbox == s.inbox
  {
    hide SetStatus, Pushes, FateOf, Resolution, LastVerified, Compose;
  }

  /** How a turn follows from the polled state `m`. */
  predicate TurnEnds(m: State, f: Frame, agents: seq<Attempt>, t: Iteration) {
    if f.Exhausted() then SameFrames(m, t.s) else Ends(m, f, agents, t)
  }

  lemma TurnReads(s: State, f: Frame) returns (m: State)
    ensures exists aborted :: Reads(s, m, aborted)
    ensures m.inbox == Turn(s, f).s.inbox && TurnEnds(m, f, s.agents, Turn(s, f))
  {
    hide Reads, Ends, Poll, Wait, Execute;
    PollReads(s);
    m := Poll(s).0;
    if Poll(s).1 {
      HaltEnds(m, f, s.agents, Turn(s, f));
    } else {
      var w := Wait(m);
      var stopped := w.Stop? && w.result.AbortedRun?;
      WaitReads(m);
      ReadsThen(s, m, w.s, stopped);
      PollUses(s);
      WaitUses(m);
      m := w.s;
      if w.Stop? {
        HaltEnds(m, f, s.agents, Turn(s, f));
      } else if !f.Exhausted() {
        var aborted;
        m, aborted := ExecuteEnds(w.s, f);
        ReadsThen(s, w.s, m, aborted);
      }
    }
  }

  lemma HaltEnds(m: State, f: Frame, agents: seq<Attempt>, t: Iteration)
    requires t.Halt? && SameFrames(m, t.s)
    ensures TurnEnds(m, f, agents, t)
  {
  }

  /** A turn applies the commands it reads to the frames below; then a suspended frame is
      pending, and a step that ran puts back what its outcome pushes; a frame without a step
      left, or of a run that stops, is not put back. */
  lemma TurnPutsBack(s: State, f: Frame)
    ensures var t := Turn(s, f).s;
            var m := Polled(s, t);
            && |t.inbox| <= |s.inbox| && s.inbox[|s.inbox| - |t.inbox|..] == t.inbox
            && (Suspends(s, f) ==> t.stack == m.stack && t.paused
                                   && t.pendingResume == Some(SetStatus(SetStatus(f, InProgress), Pending)))
            && (Works(s, f) ==> s.agents != [] && s.agents[0].Ran? && !SetStatus(f, InProgress).Exhausted()
                                && t.stack == m.stack + Pushes(SetStatus(f, InProgress), s.agents[0])
                                && t.pendingResume == m.pendingResume)
            && (!Suspends(s, f) && !Works(s, f) ==> SameFrames(m, t))
  {
    hide Turn, SetStatus, Pushes, ApplyBatch;
    var m := TurnReads(s, f);
    assert ReadBy(s, m) == ReadBy(s, Turn(s, f).s);
  }

  lemma TurnAgents(s: State, f: Frame)
    ensures var t := Turn(s, f).s; t.agents == s.agents || (s.agents != [] && t.agents == s.agents[1..])
    ensures f.Exhausted() ==> Turn(s, f).s.agents == s.agents
  {
    hide Poll, Wait, SetStatus, Pushes, FateOf, Resolution, LastVerified, Compose;
    PollUses(s);
    WaitUses(Poll(s).0);
    var s1 := Wait(Poll(s).0).s;
    if !f.Exhausted() && s1.agents != [] {
      PollUses(Emit(s1, [StepStatusChanged(f.StepPrefix(), f.Step().index, InProgress)]).(agents := s1.agents[1..]));
    }
  }

  // ----- commands only push ----------------------------------------------------------------

  lemma {:induction false} BatchPushes(s: State, batch: seq<Command>)
    ensures s.stack <= ApplyBatch(s, batch).0.stack
    decreases |batch|
  {
    hide AddNote, SetStatus, Compose;
    if batch != [] && !batch[0].Abort? {
      BatchPushes(ApplyCommand(s, batch[0]), batch[1..]);
    }
  }

  /** Neither an injection nor a resume-step. */
  predicate Tame(batch: seq<Command>) {
    forall i | 0 <= i < |batch| :: !batch[i].InjectSplit? && !batch[i].ResumeStep?
  }

  predicate AllTame(inbox: seq<seq<Command>>) {
    forall i | 0 <= i < |inbox| :: Tame(inbox[i])
  }

  lemma {:induction false} TameConcat(inbox: seq<seq<Command>>)
    requires AllTame(inbox)
    ensures Tame(Concat(inbox))
    decreases |inbox|
  {
    if inbox != [] {
      assert Tame(inbox[0]);
      assert forall i | 0 <= i < |inbox[1..]| :: inbox[1..][i] == inbox[i + 1];
      TameConcat(inbox[1..]);
    }
  }

  lemma {:induction false} TameBatch(s: State, batch: seq<Command>)
    requires Tame(batch)
    ensures SameFrames(ApplyBatch(s, batch).0, s)
    decreases |batch|
  {
    if batch != [] && !batch[0].Abort? {
      assert forall i | 0 <= i < |batch[1..]| :: batch[1..][i] == batch[i + 1];
      TameBatch(ApplyCommand(s, batch[0]), batch[1..]);
    }
  }

  lemma TamePolled(s: State, t: State)
    requires AllTame(s.inbox)
    ensures SameFrames(Polled(s, t), s)
  {
    hide ApplyBatch, SameFrames, Tame;
    if |t.inbox| <= |s.inbox| {
      TameConcat(s.inbox[..|s.inbox| - |t.inbox|]);
      TameBatch(s, ReadBy(s, t));
    } else {
      TameNothing(s);
    }
  }

  lemma TameNothing(s: State)
    ensures SameFrames(ApplyBatch(s, []).0, s)
  {
  }
}
