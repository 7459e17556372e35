/** The explicit-stack scheduler over nested specs. */
module Orchestrator {
  import opened Text
  import opened Specs

  /** A spec, the step to run next and the prefix of the spec. */
  datatype Frame = Frame(spec: SpecSheet, idx: nat, prefix: string) {
    predicate Exhausted() { idx >= |spec.steps| }

    function Step(): SpecStep requires !Exhausted() { spec.steps[idx] }

    function StepPrefix(): string requires !Exhausted() { Compose(prefix, Step().index) }
  }

  /** The orchestrator's fields (of the last verification only its task), with what the outside world will still deliver: the batches
      of commands found at successive polls and the outcomes of successive executions. */
  datatype State = State(
    stack: seq<Frame>,
    pendingResume: Option<Frame>,
    cancelPrefix: Option<string>,
    paused: bool,
    lastVerified: Option<string>,
    events: seq<Event>,
    inbox: seq<seq<Command>>,
    agents: seq<Attempt>)

  datatype Result = Done | AbortedRun | Errored | Blocked

  function Init(spec: SpecSheet, inbox: seq<seq<Command>>, agents: seq<Attempt>): State {
    State([Frame(spec, 0, "")], None, None, false, None, [], inbox, agents)
  }

  function Emit(s: State, es: seq<Event>): State {
    s.(events := s.events + es)
  }

  function SetStatus(f: Frame, status: StepStatus): Frame {
    if f.Exhausted() then f
    else f.(spec := f.spec.(steps := f.spec.steps[f.idx := f.Step().(status := status)]))
  }

  // ----- commands -----------------------------------------------------------

  function AddNote(f: Frame, message: string): Frame {
    if f.Exhausted() || IsBlank(message) then f
    else
      var noted := TrimEnd(f.Step().instructions) + "\n\nUser note: " + message;
      f.(spec := f.spec.(steps := f.spec.steps[f.idx := f.Step().(instructions := noted)]))
  }

  /** Unlike the first verification, a rerun closes no channel. */
  function RerunEvents(id: string, verdict: Verdict): seq<Event> {
    if verdict.Verified? then [SummaryUpdated(Summary(id, Passed))]
    else [SummaryUpdated(Summary(id, Rejected)), VerifierFailed(Summary(id, Rejected))]
  }

  function ApplyCommand(s: State, c: Command): State {
    match c
    case Pause => Emit(s.(paused := true), [Event.Paused])
    case Resume => Emit(s.(paused := false), [Resumed])
    case Abort => Emit(s, [Aborted])
    case SetPauseFlag(value) => s.(paused := value)
    case RerunVerifiers(verdict) =>
      if s.lastVerified.Some? then Emit(s, RerunEvents(s.lastVerified.value, verdict)) else s
    case InjectSplit(stepIndex, child) =>
      var prefix := if s.stack == [] then stepIndex else Compose(s.stack[|s.stack| - 1].prefix, stepIndex);
      Emit(s.(stack := s.stack + [Frame(child, 0, prefix)]),
           [ChildSpecPushed(stepIndex, child.id, |child.steps|, ByInject)])
    case CancelStep(prefix) => s.(cancelPrefix := Some(prefix))
    case ResumeStep(prefix, message) =>
      match s.pendingResume
      case None => Emit(s.(paused := false), [Resumed])
      case Some(f) =>
        if f.prefix == prefix then
          Emit(s.(pendingResume := None, paused := false,
                  stack := s.stack + [AddNote(SetStatus(f, Pending), message)]), [Resumed])
        else s
  }

  /** The commands of one poll, up to an abort. */
  function ApplyBatch(s: State, batch: seq<Command>): (State, bool)
    decreases |batch|
  {
    if batch == [] then (s, false)
    else if batch[0].Abort? then (ApplyCommand(s, Abort), true)
    else ApplyBatch(ApplyCommand(s, batch[0]), batch[1..])
  }

  function Poll(s: State): (State, bool) {
    if s.inbox == [] then (s, false) else ApplyBatch(s.(inbox := s.inbox[1..]), s.inbox[0])
  }

  datatype Waited = Go(s: State) | Stop(s: State, result: Result)

  /** `wait_while_paused`: polls until no longer paused. */
  function Wait(s: State): Waited
    decreases |s.inbox|
  {
    if !s.paused then Go(s)
    else if s.inbox == [] then Stop(s, Blocked)
    else
      var (s1, aborted) := Poll(s);
      PollUses(s);
      if aborted then Stop(s1, AbortedRun) else Wait(s1)
  }

  lemma {:induction false} BatchUses(s: State, batch: seq<Command>)
    ensures ApplyBatch(s, batch).0.inbox == s.inbox && ApplyBatch(s, batch).0.agents == s.agents
    decreases |batch|
  {
    hide IsBlank, TrimEnd;
    if batch != [] && !batch[0].Abort? {
      BatchUses(ApplyCommand(s, batch[0]), batch[1..]);
    }
  }

  lemma PollUses(s: State)
    ensures Poll(s).0.agents == s.agents
    ensures s.inbox == [] ==> Poll(s) == (s, false)
    ensures s.inbox != [] ==> Poll(s).0.inbox == s.inbox[1..]
  {
    hide ApplyBatch;
    if s.inbox != [] {
      BatchUses(s.(inbox := s.inbox[1..]), s.inbox[0]);
    }
  }

  lemma {:induction false} WaitUses(s: State)
    ensures Wait(s).s.agents == s.agents && |Wait(s).s.inbox| <= |s.inbox|
    ensures |Wait(s).s.inbox| == |s.inbox| ==> Wait(s).s == s
    decreases |s.inbox|
  {
    hide Poll;
    if s.paused && s.inbox != [] {
      PollUses(s);
      if !Poll(s).1 {
        WaitUses(Poll(s).0);
      }
    }
  }

  // ----- one step --------------------------------------------------------------

  /** What an execution means for the step, in the order the loop decides it. */
  datatype Fate =
    | Cancels
    | Splits(child: SpecSheet)
    | TaskFails
    | NoSummary
    | Retries
    | Succeeds(follow: Option<SpecSheet>)
    | VerifierRejects

  function FateOf(step: SpecStep, a: Attempt): Fate
    requires a.Ran?
  {
    if a.task.state.Cancelled? then Cancels
    else if a.task.state.Submitted? && a.task.subSpec.Some? then Splits(a.task.subSpec.value)
    else if a.task.state.TaskFailed? then TaskFails
    else if !a.task.hasSummary then NoSummary
    else if !step.requiresVerification then Succeeds(a.task.subSpec)
    else if !a.summarized || a.verdict.NeedsRevision? then Retries
    else if a.verdict.Verified? then Succeeds(a.task.subSpec)
    else VerifierRejects
  }

  /** The events of summarizing and verifying, before the disposition. */
  function ReviewEvents(step: SpecStep, a: Attempt): seq<Event>
    requires a.Ran?
  {
    var id := a.task.id;
    if !step.requiresVerification then
      [SummaryUpdated(Summary(id, Passed)), ChannelClosed(id)]
    else if !a.summarized then
      [SummaryUpdated(Summary(id, Rejected)), VerifierFailed(Summary(id, Rejected))]
    else
      [SummaryUpdated(Summary(id, Unverified))] +
      if a.verdict.Verified? then
        [SummaryUpdated(Summary(id, Passed)), ChannelClosed(id)]
      else
        [SummaryUpdated(Summary(id, Rejected)), VerifierFailed(Summary(id, Rejected))]
  }

  /** The verification that a rerun repeats, after the review of `a`. */
  function LastVerified(last: Option<string>, step: SpecStep, a: Attempt): Option<string>
    requires a.Ran?
  {
    match FateOf(step, a)
    case Retries => if a.summarized then Some(a.task.id) else last
    case Succeeds(_) => if step.requiresVerification then Some(a.task.id) else last
    case VerifierRejects => Some(a.task.id)
    case _ => last
  }

  function Suspend(s: State, f: Frame): State
    requires !f.Exhausted()
  {
    Emit(s.(pendingResume := Some(SetStatus(f, Pending)), paused := true), [StepCancelled(f.StepPrefix())])
  }

  /** The frame after its step succeeded: marked, its summary in the history, its child recorded. */
  function Succeeded(f: Frame, a: Attempt): Frame
    requires !f.Exhausted() && a.Ran?
  {
    var step := f.Step().(status := Completed,
                          subSpec := if a.task.subSpec.Some? then a.task.subSpec else f.Step().subSpec);
    f.(idx := f.idx + 1,
       spec := f.spec.(steps := f.spec.steps[f.idx := step],
                       history := AppendHistory(f.spec.history, Summary(a.task.id, Passed))))
  }

  /** The frames pushed, bottom first, and the events, when the step ended as `fate`. */
  function Pushes(f: Frame, a: Attempt): seq<Frame>
    requires !f.Exhausted() && a.Ran?
  {
    match FateOf(f.Step(), a)
    case Splits(child) =>
      var waiting := f.Step().(status := Pending, subSpec := Some(child));
      [f.(spec := f.spec.(steps := f.spec.steps[f.idx := waiting])), Frame(child, 0, f.StepPrefix())]
    case TaskFails => [SetStatus(f, Failed).(idx := f.idx + 1)]
    case Retries => [SetStatus(f, Pending)]
    case Succeeds(child) =>
      (if f.idx + 1 < |f.spec.steps| then [Succeeded(f, a)] else [])
      + (if child.Some? then [Frame(child.value, 0, f.StepPrefix())] else [])
    case _ => []
  }

  function Resolution(f: Frame, a: Attempt): seq<Event>
    requires !f.Exhausted() && a.Ran?
  {
    var p, i := f.StepPrefix(), f.Step().index;
    match FateOf(f.Step(), a)
    case Cancels => [StepCancelled(p)]
    case Splits(child) => [ChildSpecPushed(i, child.id, |child.steps|, BySplit)]
    case TaskFails => [StepStatusChanged(p, i, Failed)]
    case NoSummary => []
    case Retries => ReviewEvents(f.Step(), a) + [StepStatusChanged(p, i, Pending)]
    case Succeeds(_) => ReviewEvents(f.Step(), a) + [StepStatusChanged(p, i, Completed)]
    case VerifierRejects => ReviewEvents(f.Step(), a) + [StepStatusChanged(p, i, Failed)]
  }

  datatype Iteration = Continue(s: State) | Halt(s: State, result: Result)

  /** The frame in hand `f`, its step already marked in progress, was executed with outcome `a`. */
  function Settle(s: State, f: Frame, a: Attempt): Iteration
    requires !f.Exhausted() && a.Ran?
  {
    match FateOf(f.Step(), a)
    case Cancels => Continue(Suspend(s, f))
    case NoSummary => Halt(s, Errored)
    case _ =>
      Continue(Emit(s.(stack := s.stack + Pushes(f, a), lastVerified := LastVerified(s.lastVerified, f.Step(), a)),
                    Resolution(f, a)))
  }

  /** From the start of a step to its outcome. */
  function Execute(s: State, f: Frame): Iteration
    requires !f.Exhausted()
  {
    var p := f.StepPrefix();
    var g := SetStatus(f, InProgress);
    var s1 := Emit(s, [StepStatusChanged(p, f.Step().index, InProgress)]);
    if s1.cancelPrefix == Some(p) then Continue(Suspend(s1.(cancelPrefix := None), g))
    else if s1.agents == [] || s1.agents[0].AgentError? then Halt(s1, Errored)
    else
      var a := s1.agents[0];
      var (s2, aborted) := Poll(s1.(agents := s1.agents[1..]));
      if aborted then Halt(s2, AbortedRun)
      else if s2.cancelPrefix == Some(p) then Continue(Suspend(s2.(cancelPrefix := None), g))
      else Settle(s2, g, a)
  }

  /** One turn of the loop, `f` popped: poll, wait while paused, run the step. */
  function Turn(s: State, f: Frame): Iteration {
    var (s1, aborted) := Poll(s);
    if aborted then Halt(s1, AbortedRun)
    else
      match Wait(s1)
      case Stop(s2, r) => Halt(s2, r)
      case Go(s2) => if f.Exhausted() then Continue(s2) else Execute(s2, f)
  }

  function Pop(s: State): State
    requires s.stack != []
  {
    s.(stack := s.stack[..|s.stack| - 1])
  }

  function Top(s: State): Frame
    requires s.stack != []
  {
    s.stack[|s.stack| - 1]
  }

  /** Every turn uses up something the outside world delivers, or the stack shrinks. */
  lemma ExecuteUses(s: State, f: Frame)
    requires !f.Exhausted()
    ensures var t := Execute(s, f);
            t.Continue? ==>
              && |t.s.inbox| <= |s.inbox|
              && (|t.s.agents| < |s.agents| || (t.s.agents == s.agents && t.s.stack == s.stack && t.s.inbox == s.inbox))
  {
    hide Poll, Pushes, Resolution, FateOf, SetStatus;
    if s.agents != [] {
      var s1 := Emit(s, [StepStatusChanged(f.StepPrefix(), f.Step().index, InProgress)]);
      PollUses(s1.(agents := s1.agents[1..]));
    }
  }

  lemma TurnUses(s: State, f: Frame)
    ensures var t := Turn(s, f);
            t.Continue? ==>
              && |t.s.inbox| <= |s.inbox|
              && (|t.s.agents| < |s.agents|
                  || (t.s.agents == s.agents && (|t.s.inbox| < |s.inbox| || t.s.stack == s.stack)))
  {
    hide Poll, Wait, Execute;
    PollUses(s);
    var s1 := Poll(s).0;
    WaitUses(s1);
    if Wait(s1).Go? && !f.Exhausted() {
      ExecuteUses(Wait(s1).s, f);
    }
  }

  function Run(s: State): (State, Result)
    decreases |s.agents|, |s.inbox|, |s.stack|
  {
    if s.stack == [] then (Emit(s, [AllCompleted]), Done)
    else
      TurnUses(Pop(s), Top(s));
      match Turn(Pop(s), Top(s))
      case Halt(s1, r) => (s1, r)
      case Continue(s1) => Run(s1)
  }

  // ----- the object -----------------------------------------------------------------

  class Scheduler {
    var stack: seq<Frame>
    var pendingResume: Option<Frame>
    var cancelPrefix: Option<string>
    var paused: bool
    var lastVerified: Option<string>
    var events: seq<Event>
    var inbox: seq<seq<Command>>
    var agents: seq<Attempt>

    ghost function St(): State
      reads this
    {
      State(stack, pendingResume, cancelPrefix, paused, lastVerified, events, inbox, agents)
    }

    constructor (spec: SpecSheet, inbox: seq<seq<Command>>, agents: seq<Attempt>)
      ensures St() == Init(spec, inbox, agents)
    {
      stack, pendingResume, cancelPrefix, paused, lastVerified, events := [Frame(spec, 0, "")], None, None, false, None, [];
      this.inbox, this.agents := inbox, agents;
    }

    method EmitEvent(e: Event)
      modifies this`events
      ensures events == old(events) + [e]
    {
      events := events + [e];
    }

    method ProcessCommands() returns (aborted: bool)
      modifies this
      ensures (St(), aborted) == Poll(old(St()))
    {
      hide AddNote, SetStatus;
      if inbox == [] {
        return false;
      }
      var commands := inbox[0];
      inbox := inbox[1..];
      var i := 0;
      while i < |commands|
        invariant 0 <= i <= |commands|
        invariant ApplyBatch(St(), commands[i..]) == Poll(old(St()))
      {
        assert commands[i..][1..] == commands[i + 1..];
        if commands[i].Abort? {
          EmitEvent(Aborted);
          return true;
        }
        Handle(commands[i]);
        i := i + 1;
      }
      return false;
    }

    method Handle(command: Command)
      requires !command.Abort?
      modifies this
      ensures St() == ApplyCommand(old(St()), command)
    {
      hide AddNote, SetStatus;
      match command {
        case Pause =>
          paused := true;
          EmitEvent(Event.Paused);
        case Resume =>
          paused := false;
          EmitEvent(Resumed);
        case SetPauseFlag(value) =>
          paused := value;
        case InjectSplit(stepIndex, childSpec) =>
          var prefix := if stack == [] then stepIndex else Compose(stack[|stack| - 1].prefix, stepIndex);
          stack := stack + [Frame(childSpec, 0, prefix)];
          EmitEvent(ChildSpecPushed(stepIndex, childSpec.id, |childSpec.steps|, ByInject));
        case RerunVerifiers(verdict) =>
          if lastVerified.Some? {
            RerunLastVerifier(lastVerified.value, verdict);
          }
        case CancelStep(prefix) =>
          cancelPrefix := Some(prefix);
        case ResumeStep(prefix, message) =>
          if pendingResume.Some? {
            var f := pendingResume.value;
            if f.prefix == prefix {
              pendingResume := None;
              f := SetStatus(f, Pending);
              f := AddNote(f, message);
              stack := stack + [f];
              paused := false;
              EmitEvent(Resumed);
            }
          } else {
            paused := false;
            EmitEvent(Resumed);
          }
        case Abort =>
          assert false;
      }
    }

    method RerunLastVerifier(id: string, verdict: Verdict)
      modifies this`events
      ensures events == old(events) + RerunEvents(id, verdict)
    {
      if verdict.Verified? {
        EmitEvent(SummaryUpdated(Summary(id, Passed)));
      } else {
        EmitEvent(SummaryUpdated(Summary(id, Rejected)));
        EmitEvent(VerifierFailed(Summary(id, Rejected)));
      }
    }

    method WaitWhilePaused() returns (result: Option<Result>)
      modifies this
      ensures var w := Wait(old(St()));
              St() == w.s && result == if w.Go? then None else Some(w.result)
    {
      hide Poll;
      while paused
        invariant Wait(St()) == Wait(old(St()))
        decreases |inbox|
      {
        PollUses(St());
        if inbox == [] {
          return Some(Blocked);
        }
        var aborted := ProcessCommands();
        if aborted {
          return Some(AbortedRun);
        }
      }
      return None;
    }

    method Suspended(frame: Frame)
      requires !frame.Exhausted()
      modifies this
      ensures St() == Suspend(old(St()), frame)
    {
      hide SetStatus;
      pendingResume := Some(SetStatus(frame, Pending));
      EmitEvent(StepCancelled(frame.StepPrefix()));
      paused := true;
    }

    /** `verify_and_feedback`, with the summarizer in front of it: the disposition and the events. */
    method Review(step: SpecStep, a: Attempt) returns (retry: bool, success: bool)
      requires a.Ran?
      modifies this`events, this`lastVerified
      ensures events == old(events) + ReviewEvents(step, a)
      ensures lastVerified == if step.requiresVerification && a.summarized then Some(a.task.id) else old(lastVerified)
      ensures retry <==> step.requiresVerification && (!a.summarized || a.verdict.NeedsRevision?)
      ensures success <==> !step.requiresVerification || (a.summarized && a.verdict.Verified?)
    {
      var id := a.task.id;
      if !step.requiresVerification {
        EmitEvent(SummaryUpdated(Summary(id, Passed)));
        EmitEvent(ChannelClosed(id));
        return false, true;
      }
      if !a.summarized {
        EmitEvent(SummaryUpdated(Summary(id, Rejected)));
        EmitEvent(VerifierFailed(Summary(id, Rejected)));
        return true, false;
      }
      EmitEvent(SummaryUpdated(Summary(id, Unverified)));
      lastVerified := Some(id);
      match a.verdict {
        case Verified =>
          EmitEvent(SummaryUpdated(Summary(id, Passed)));
          EmitEvent(ChannelClosed(id));
          return false, true;
        case NeedsRevision =>
          EmitEvent(SummaryUpdated(Summary(id, Rejected)));
          EmitEvent(VerifierFailed(Summary(id, Rejected)));
          return true, false;
        case VerdictFailed =>
          EmitEvent(SummaryUpdated(Summary(id, Rejected)));
          EmitEvent(VerifierFailed(Summary(id, Rejected)));
          return false, false;
      }
    }

    /** The disposition of a reviewed step. */
    method SettleReviewed(frame: Frame, a: Attempt)
      requires !frame.Exhausted() && a.Ran?
      requires var fate := FateOf(frame.Step(), a); fate.Retries? || fate.Succeeds? || fate.VerifierRejects?
      modifies this
      ensures St() == Settle(old(St()), frame, a).s
    {
      hide SetStatus, Succeeded, ReviewEvents, Compose;
      var prefix, step := frame.StepPrefix(), frame.Step();
      var retry, success := Review(step, a);
      if retry {
        EmitEvent(StepStatusChanged(prefix, step.index, Pending));
        stack := stack + [SetStatus(frame, Pending)];
      } else if success {
        EmitEvent(StepStatusChanged(prefix, step.index, Completed));
        if frame.idx + 1 < |frame.spec.steps| {
          stack := stack + [Succeeded(frame, a)];
        }
        if a.task.subSpec.Some? {
          stack := stack + [Frame(a.task.subSpec.value, 0, prefix)];
        }
      } else {
        EmitEvent(StepStatusChanged(prefix, step.index, Failed));
      }
    }

    /** Everything after a finished execution; `None` means the loop goes on. */
    method SettleTask(frame: Frame, a: Attempt) returns (result: Option<Result>)
      requires !frame.Exhausted() && a.Ran?
      modifies this
      ensures var t := Settle(old(St()), frame, a);
              St() == t.s && result == if t.Continue? then None else Some(t.result)
    {
      hide SetStatus, Succeeded, ReviewEvents, Compose;
      var prefix, step := frame.StepPrefix(), frame.Step();
      if a.task.state.Cancelled? {
        Suspended(frame);
        return None;
      }
      if a.task.state.Submitted? && a.task.subSpec.Some? {
        var child := a.task.subSpec.value;
        var waiting := step.(status := Pending, subSpec := Some(child));
        EmitEvent(ChildSpecPushed(step.index, child.id, |child.steps|, BySplit));
        stack := stack + [frame.(spec := frame.spec.(steps := frame.spec.steps[frame.idx := waiting]))];
        stack := stack + [Frame(child, 0, prefix)];
        return None;
      }
      if a.task.state.TaskFailed? {
        EmitEvent(StepStatusChanged(prefix, step.index, Failed));
        stack := stack + [SetStatus(frame, Failed).(idx := frame.idx + 1)];
        return None;
      }
      if !a.task.hasSummary {
        return Some(Errored);
      }
      SettleReviewed(frame, a);
      return None;
    }

    method ExecuteStep(frame: Frame) returns (result: Option<Result>)
      requires !frame.Exhausted()
      modifies this
      ensures var t := Execute(old(St()), frame);
              St() == t.s && result == if t.Continue? then None else Some(t.result)
    {
      hide Poll, Settle;
      var prefix := frame.StepPrefix();
      EmitEvent(StepStatusChanged(prefix, frame.Step().index, InProgress));
      var running := SetStatus(frame, InProgress);
      if cancelPrefix == Some(prefix) {
        cancelPrefix := None;
        Suspended(running);
        return None;
      }
      if agents == [] || agents[0].AgentError? {
        return Some(Errored);
      }
      var a := agents[0];
      agents := agents[1..];
      var aborted := ProcessCommands();
      if aborted {
        return Some(AbortedRun);
      }
      if cancelPrefix == Some(prefix) {
        cancelPrefix := None;
        Suspended(running);
        return None;
      }
      result := SettleTask(running, a);
    }

    method RunLoop() returns (result: Result)
      modifies this
      ensures (St(), result) == Run(old(St()))
    {
      hide Poll, Wait, Execute;
      while stack != []
        invariant Run(St()) == Run(old(St()))
        decreases |agents|, |inbox|, |stack|
      {
        TurnUses(Pop(St()), Top(St()));
        var frame := stack[|stack| - 1];
        stack := stack[..|stack| - 1];
        var aborted := ProcessCommands();
        if aborted {
          return AbortedRun;
        }
        var stopped := WaitWhilePaused();
        if stopped.Some? {
          return stopped.value;
        }
        if frame.idx < |frame.spec.steps| {
          stopped := ExecuteStep(frame);
          if stopped.Some? {
            return stopped.value;
          }
        }
      }
      EmitEvent(AllCompleted);
      return Done;
    }
  }
}
