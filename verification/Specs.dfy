/** Spec sheets, tasks, commands and events: what the orchestrator works on. */
module Specs {
  import opened Text

  datatype StepStatus = Pending | InProgress | Completed | Failed

  datatype SpecStep = SpecStep(
    index: string,
    instructions: string,
    requiresVerification: bool,
    status: StepStatus,
    subSpec: Option<SpecSheet>)

  datatype VerificationStatus = Unverified | Passed | Rejected

  datatype Summary = Summary(taskId: string, verification: VerificationStatus)

  /** The `history` entry of a spec's metadata: missing, an array, or something else. */
  datatype History = Absent | Items(items: seq<Entry>) | Other(value: string)

  datatype Entry = OfTask(summary: Summary) | Foreign(value: string)

  datatype SpecSheet = SpecSheet(id: string, steps: seq<SpecStep>, history: History)

  datatype TaskState =
    Submitted | Working | InputRequired | TaskCompleted | TaskFailed | Cancelled | TaskRejected | AuthRequired

  datatype Task = Task(id: string, state: TaskState, subSpec: Option<SpecSheet>, hasSummary: bool)

  datatype Verdict = Verified | NeedsRevision | VerdictFailed

  /** One execution of a step: the agent call fails, or it returns a task; `summarized` and
      `verdict` are what the summarizer and the verifier would answer about it. */
  datatype Attempt = AgentError | Ran(task: Task, summarized: bool, verdict: Verdict)

  datatype Command =
    | Pause
    | Resume
    | Abort
    | InjectSplit(stepIndex: string, childSpec: SpecSheet)
    | CancelStep(prefix: string)
    | ResumeStep(prefix: string, message: string)
    /** Run the verifier again on what it saw last; `verdict` is what it would answer. */
    | RerunVerifiers(verdict: Verdict)
    /** The control handle writes the shared pause flag directly, without an event. */
    | SetPauseFlag(value: bool)

  datatype PushOrigin = BySplit | ByInject

  datatype Event =
    | StepStatusChanged(prefix: string, index: string, status: StepStatus)
    | SummaryUpdated(summary: Summary)
    | VerifierFailed(summary: Summary)
    | ChildSpecPushed(parentIndex: string, childId: string, count: nat, origin: PushOrigin)
    | ChannelClosed(taskId: string)
    | Paused
    | Resumed
    | Aborted
    | StepCancelled(prefix: string)
    | AllCompleted

  /** The items of a history, a lone value counting as one. */
  function HistoryItems(h: History): seq<Entry> {
    match h
    case Absent => []
    case Items(items) => items
    case Other(v) => [Foreign(v)]
  }

  function AppendHistory(h: History, s: Summary): (h': History)
    ensures HistoryItems(h') == HistoryItems(h) + [OfTask(s)]
  {
    match h
    case Absent => Items([OfTask(s)])
    case Items(items) => Items(items + [OfTask(s)])
    case Other(v) => Items([Foreign(v), OfTask(s)])
  }

  function Compose(prefix: string, index: string): string {
    if prefix == "" then index else prefix + "." + index
  }
}
