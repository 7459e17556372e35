/** The one shell session that agents share: policy rotation, replay journal and the retry
    loop of a journalled command.  A session is known by its number; spawning, restoring and
    sending are given their outcomes from outside. */
module ShellSession {
  import opened Text

  datatype Policy = DangerFullAccess | ReadOnly | WorkspaceWrite(roots: seq<string>)

  datatype Shell = Posix | ManagedNu

  /** A session of the manager and the commands that ran in it. */
  datatype Session = Session(policy: Policy, alive: bool, ran: seq<string>)

  /** What a request read before it went to spawn a session. */
  datatype Plan = Plan(policy: Policy, replay: seq<string>)

  /** `plan` is set while a request holds the lock on `current`. */
  datatype State = State(shell: Shell, current: Option<nat>, effective: Policy, pending: Policy,
                         background: bool, replay: seq<string>, sessions: seq<Session>, plan: Option<Plan>)

  function Initial(shell: Shell, policy: Policy): State {
    State(shell, None, policy, policy, false, [], [], None)
  }

  predicate Alive(s: State, id: nat) {
    id < |s.sessions| && s.sessions[id].alive
  }

  function Kill(s: State, id: nat): State {
    if id < |s.sessions| then s.(sessions := s.sessions[id := s.sessions[id].(alive := false)]) else s
  }

  // ----- requesting a session ------------------------------------------------------------

  datatype Answer = Granted(id: nat) | Refused | Waiting

  /** A dead session is forgotten, and its background processes with it. */
  function DropDead(s: State): State {
    if s.current.Some? && !Alive(s, s.current.value) then s.(current := None, background := false) else s
  }

  /** The first half of a request, up to the point where it spawns a session.  `vanishes`
      says that the old session is gone by the time it is terminated. */
  function Begin(s0: State, vanishes: bool): (State, Answer) {
    var s := DropDead(s0);
    var plan := Some(Plan(s.pending, s.replay));
    if s.current.Some? && !s.background && s.effective != s.pending then
      if vanishes then (Kill(s, s.current.value), Refused)
      else (Kill(s, s.current.value).(current := None, plan := plan), Waiting)
    else if s.current.None? || s.background then (s.(plan := plan), Waiting)
    else (s, Granted(s.current.value))
  }

  /** How spawning goes: a session that cannot be restored stays with the manager. */
  datatype Spawn = NotCreated | RestoreFails(after: nat) | Restored

  /** What restoring runs in the new session: managed Nu is restored structurally. */
  function Replayed(shell: Shell, replay: seq<string>): seq<string> {
    if shell.Posix? then replay else []
  }

  function Finish(s: State, spawn: Spawn): (State, Answer)
    requires s.plan.Some?
  {
    var replayed := Replayed(s.shell, s.plan.value.replay);
    match spawn
    case NotCreated => (s.(plan := None), Refused)
    case RestoreFails(after) =>
      var done := if after <= |replayed| then replayed[..after] else replayed;
      (s.(plan := None, sessions := s.sessions + [Session(s.plan.value.policy, true, done)]), Refused)
    case Restored =>
      (s.(plan := None, sessions := s.sessions + [Session(s.plan.value.policy, true, replayed)],
          current := Some(|s.sessions|), effective := s.plan.value.policy),
       Granted(|s.sessions|))
  }

  function Request(s: State, vanishes: bool, spawn: Spawn): (State, Answer) {
    var (t, answer) := Begin(s, vanishes);
    if answer.Waiting? then Finish(t, spawn) else (t, answer)
  }

  // ----- running and journalling a command ------------------------------------------------

  function Send(s: State, id: nat, command: string): State {
    if Alive(s, id) then s.(sessions := s.sessions[id := s.sessions[id].(ran := s.sessions[id].ran + [command])])
    else s
  }

  /** A snapshot of the session replaces the continuity state, and the journal goes on. */
  function Sync(s: State, id: nat, replayed: Option<string>, ok: bool): (State, bool) {
    if !ok || !Alive(s, id) then (s, false)
    else if s.shell.ManagedNu? then (s.(replay := []), true)
    else if replayed.Some? then (s.(replay := s.replay + [replayed.value]), true)
    else (s, true)
  }

  /** Clear the current session, or only if it is the given one. */
  function Clear(s: State, only: Option<nat>): State {
    if only.None? || s.current == only then s.(current := None) else s
  }

  // ----- any interleaving of callers ---------------------------------------------------------

  /** What happens around the callers. */
  datatype Change = SetPolicy(policy: Policy) | SetBackground(on: bool) | Dies(id: nat)

  datatype Step =
    | Around(change: Change)
    | BeginRequest(vanishes: bool)
    | FinishRequest(spawn: Spawn)
    | SendCommand(id: nat, command: string)
    | SyncFrom(id: nat, replayed: Option<string>, ok: bool)
    | ClearCurrent(only: Option<nat>)

  function Apply(s: State, change: Change): State {
    match change
    case SetPolicy(policy) => s.(pending := policy)
    case SetBackground(on) => s.(background := on)
    case Dies(id) => Kill(s, id)
  }

  /** A step that needs the lock of a request under way does nothing. */
  function Next(s: State, step: Step): State {
    match step
    case Around(change) => Apply(s, change)
    case BeginRequest(vanishes) => if s.plan.Some? then s else Begin(s, vanishes).0
    case FinishRequest(spawn) => if s.plan.None? then s else Finish(s, spawn).0
    case SendCommand(id, command) => Send(s, id, command)
    case SyncFrom(id, replayed, ok) => Sync(s, id, replayed, ok).0
    case ClearCurrent(only) => if s.plan.Some? then s else Clear(s, only)
  }

  function Run(s: State, steps: seq<Step>): State
    decreases |steps|
  {
    if steps == [] then s else Run(Next(s, steps[0]), steps[1..])
  }

  /** The recorded session was spawned under the effective policy. */
  predicate Sound(s: State) {
    && (s.current.Some? ==> s.current.value < |s.sessions| && s.sessions[s.current.value].policy == s.effective)
    && (s.shell.ManagedNu? ==> s.replay == [] && (s.plan.Some? ==> s.plan.value.replay == []))
  }

  lemma StepIsSound(s: State, step: Step)
    requires Sound(s)
    ensures Sound(Next(s, step))
  {
  }

  lemma {:induction false} RunsAreSound(s: State, steps: seq<Step>)
    requires Sound(s)
    ensures Sound(Run(s, steps))
    decreases |steps|
  {
    hide Sound, Next;
    if steps != [] {
      StepIsSound(s, steps[0]);
      RunsAreSound(Next(s, steps[0]), steps[1..]);
    }
  }

  lemma SoundFromTheStart(shell: Shell, policy: Policy, steps: seq<Step>)
    ensures Sound(Run(Initial(shell, policy), steps))
  {
    RunsAreSound(Initial(shell, policy), steps);
  }

  /** Sessions are never dropped from the manager's numbering and keep their policy; the dead
      stay dead. */
  ghost predicate Extends(s: State, t: State) {
    |s.sessions| <= |t.sessions| && s.shell == t.shell
    && forall id | 0 <= id < |s.sessions| ::
         t.sessions[id].policy == s.sessions[id].policy && (t.sessions[id].alive ==> s.sessions[id].alive)
  }

  lemma {:induction false} RunsExtend(s: State, steps: seq<Step>)
    ensures Extends(s, Run(s, steps))
    decreases |steps|
  {
    if steps != [] {
      assert Extends(s, Next(s, steps[0]));
      RunsExtend(Next(s, steps[0]), steps[1..]);
    }
  }

  ghost predicate NoFinish(steps: seq<Step>) {
    forall k | 0 <= k < |steps| :: !steps[k].FinishRequest?
  }

  /** A request keeps what it read until it ends, whatever other callers do. */
  lemma {:induction false} PlanStays(s: State, steps: seq<Step>)
    requires s.plan.Some? && NoFinish(steps)
    ensures Run(s, steps).plan == s.plan
    decreases |steps|
  {
    if steps != [] {
      PlanStays(Next(s, steps[0]), steps[1..]);
    }
  }

  ghost predicate SpawnedUnder(s: State, id: nat, policy: Policy) {
    && Alive(s, id) && s.sessions[id].policy == policy
    && s.current == Some(id) && s.effective == policy
  }

  /** Every successful request hands back a live session spawned under the policy that was
      pending when the request read it, whatever happens before the request and while it
      spawns: policy changes, deaths, background flags, failed spawns, other callers. */
  lemma GrantedUnderItsPolicy(shell: Shell, policy: Policy, before: seq<Step>, vanishes: bool, during: seq<Step>, spawn: Spawn)
    requires Run(Initial(shell, policy), before).plan.None? && NoFinish(during)
    ensures var s := Run(Initial(shell, policy), before);
            var (b, answer) := Begin(s, vanishes);
            && (answer.Granted? ==> SpawnedUnder(b, answer.id, s.pending) && b.plan.None?)
            && (answer.Waiting? ==>
                  var t := Run(b, during);
                  t.plan.Some?
                  && var (u, last) := Finish(t, spawn);
                     && (last.Granted? <==> spawn.Restored?)
                     && (last.Granted? ==> SpawnedUnder(u, last.id, s.pending)))
  {
    hide Run;
    var s := Run(Initial(shell, policy), before);
    SoundFromTheStart(shell, policy, before);
    var (b, answer) := Begin(s, vanishes);
    if answer.Waiting? {
      PlanStays(b, during);
    }
  }

  /** A failed request leaves no session recorded that does not match the effective policy,
      and the next request recovers: it is granted if its spawn works and the old session
      does not vanish under it. */
  lemma RequestsRecover(s: State, vanishes: bool, spawn: Spawn)
    requires Sound(s) && s.plan.None?
    ensures var (t, answer) := Request(s, vanishes, spawn);
            && Sound(t) && t.plan.None? && !answer.Waiting?
            && (answer.Granted? ==> SpawnedUnder(t, answer.id, s.pending))
            && (!answer.Granted? ==> Request(t, false, Restored).1.Granted?)
  {
    hide Sound, Request, SpawnedUnder;
    RequestAnswers(s, vanishes, spawn);
    RequestWorks(Request(s, vanishes, spawn).0);
  }

  lemma RequestAnswers(s: State, vanishes: bool, spawn: Spawn)
    requires Sound(s) && s.plan.None?
    ensures var (t, answer) := Request(s, vanishes, spawn);
            && Sound(t) && t.plan.None? && !answer.Waiting?
            && (answer.Granted? ==> SpawnedUnder(t, answer.id, s.pending))
  {
    hide Replayed;
  }

  lemma RequestWorks(s: State)
    requires s.plan.None?
    ensures Request(s, false, Restored).1.Granted?
  {
  }

  /** Once granted, the next request answers at once with the same session, exactly if no
      background process is recorded; with one recorded, every request spawns. */
  lemma RequestsSettle(s: State, vanishes: bool, spawn: Spawn)
    requires Sound(s) && s.plan.None? && Request(s, vanishes, spawn).1.Granted?
    ensures var (t, answer) := Request(s, vanishes, spawn);
            && (Begin(t, false) == (t, answer) <==> !t.background)
            && (t.background ==> Begin(t, false).1.Waiting?)
  {
  }

  // ----- the journal --------------------------------------------------------------------------

  /** The replay commands of the syncs that succeed in a run, in order. */
  function Synced(s: State, steps: seq<Step>): seq<string>
    decreases |steps|
  {
    if steps == [] then []
    else
      var here :=
        match steps[0]
        case SyncFrom(id, Some(command), true) => if Alive(s, id) then [command] else []
        case _ => [];
      here + Synced(Next(s, steps[0]), steps[1..])
  }

  /** In a POSIX shell the journal is exactly the successfully synced replay commands, in
      order, over any interleaving: rotations, deaths, retries and failures neither drop nor
      repeat one. */
  lemma {:induction false} JournalIsSynced(s: State, steps: seq<Step>)
    requires s.shell.Posix?
    ensures Run(s, steps).replay == s.replay + Synced(s, steps)
    decreases |steps|
  {
    if steps != [] {
      JournalIsSynced(Next(s, steps[0]), steps[1..]);
      StepJournals(s, steps[0]);
      assert Synced(s, steps) == Synced(s, [steps[0]]) + Synced(Next(s, steps[0]), steps[1..]) by {
        assert Synced(Next(s, steps[0]), []) == [];
      }
      assert s.replay + (Synced(s, [steps[0]]) + Synced(Next(s, steps[0]), steps[1..])) == Next(s, steps[0]).replay + Synced(Next(s, steps[0]), steps[1..]);
    }
  }

  lemma StepJournals(s: State, step: Step)
    requires s.shell.Posix?
    ensures Next(s, step).shell.Posix?
    ensures Next(s, step).replay == s.replay + Synced(s, [step])
  {
    assert Synced(Next(s, step), []) == [];
  }

  // ----- one caller: the loop of a journalled command ---------------------------------------

  /** How running the command in the session goes. */
  datatype Exec =
    | SendFails
    | OtherFailure
    | Approval(granted: Option<bool>)
    | Ran(timedOut: bool, snapshot: bool)

  /** One turn of the loop, with what happens around it first. */
  datatype Attempt = Attempt(around: seq<Change>, vanishes: bool, spawn: Spawn, exec: Exec)

  /** `Unsynced` is a command that timed out and whose session was retired. */
  datatype Outcome = SyncedIn(id: nat) | Unsynced(id: nat) | Failed | Error | Unfinished

  function Changes(s: State, around: seq<Change>): (t: State)
    ensures t == s.(pending := t.pending, background := t.background, sessions := t.sessions)
    decreases |around|
  {
    if around == [] then s else Changes(Apply(s, around[0]), around[1..])
  }

  function Execute(s: State, command: string, replay: bool, retried: bool, script: seq<Attempt>): (State, Outcome)
    decreases |script|
  {
    if script == [] then (s, Unfinished)
    else
      var a := script[0];
      var (t, answer) := Request(Changes(s, a.around), a.vanishes, a.spawn);
      if !answer.Granted? then (t, Error)
      else
        match a.exec
        case Ran(timedOut, snapshot) => Conclude(t, answer.id, command, replay, timedOut, snapshot)
        case SendFails =>
          if retried then (t, Failed)
          else Execute(Clear(Kill(t, answer.id), None), command, replay, true, script[1..])
        case Approval(Some(true)) => Execute(t, command, replay, retried, script[1..])
        case Approval(Some(false)) => (t, Failed)
        case Approval(None) => (t, Error)
        case OtherFailure => (t, Failed)
  }

  function Conclude(t: State, id: nat, command: string, replay: bool, timedOut: bool, snapshot: bool): (State, Outcome) {
    var (u, synced) := Sync(Send(t, id, command), id, if replay then Some(command) else None, snapshot);
    if synced then (u, SyncedIn(id))
    else if timedOut then (Clear(Kill(u, id), Some(id)), Unsynced(id))
    else (u, Error)
  }

  predicate Subsequence(a: seq<string>, b: seq<string>)
    decreases |b|
  {
    || a == []
    || (b != [] && ((a[|a| - 1] == b[|b| - 1] && Subsequence(a[..|a| - 1], b[..|b| - 1]))
                    || Subsequence(a, b[..|b| - 1])))
  }

  /** The recorded session has run the whole journal, in order. */
  predicate Remembers(s: State) {
    s.shell.Posix? && s.current.Some? && s.current.value < |s.sessions| ==>
      Subsequence(s.replay, s.sessions[s.current.value].ran)
  }

  lemma {:induction false} SubsequenceOfItself(a: seq<string>)
    ensures Subsequence(a, a)
    decreases |a|
  {
    if a != [] {
      SubsequenceOfItself(a[..|a| - 1]);
    }
  }

  lemma SubsequenceGrows(a: seq<string>, b: seq<string>, c: string)
    requires Subsequence(a, b)
    ensures Subsequence(a, b + [c])
    ensures Subsequence(a + [c], b + [c])
  {
    assert (b + [c])[..|b|] == b;
    assert (a + [c])[..|a|] == a;
  }

  lemma {:induction false} ChangesKeep(s: State, around: seq<Change>)
    requires Sound(s) && Remembers(s)
    ensures Sound(Changes(s, around)) && Remembers(Changes(s, around))
    decreases |around|
  {
    hide Subsequence;
    if around != [] {
      ChangesKeep(Apply(s, around[0]), around[1..]);
    }
  }

  lemma RequestKeeps(s: State, vanishes: bool, spawn: Spawn)
    requires Sound(s) && Remembers(s) && s.plan.None?
    ensures var t := Request(s, vanishes, spawn).0;
            Sound(t) && Remembers(t) && t.plan.None? && t.replay == s.replay && t.pending == s.pending && t.shell == s.shell
  {
    hide Subsequence;
    SubsequenceOfItself(s.replay);
  }

  /** The entry a command adds to the journal. */
  function Entry(s: State, outcome: Outcome, command: string, replay: bool): seq<string> {
    if outcome.SyncedIn? && replay && s.shell.Posix? then [command] else []
  }

  /** The command ran, last, in a session of the pending policy. */
  predicate RanUnderPolicy(s: State, id: nat, command: string) {
    && id < |s.sessions| && s.sessions[id].policy == s.pending
    && s.sessions[id].ran != [] && s.sessions[id].ran[|s.sessions[id].ran| - 1] == command
  }

  ghost predicate Executed(s: State, t: State, outcome: Outcome, command: string, replay: bool) {
    && Sound(t) && Remembers(t) && t.plan.None? && t.shell == s.shell
    && t.replay == s.replay + Entry(s, outcome, command, replay)
    && (outcome.SyncedIn? || outcome.Unsynced? ==> RanUnderPolicy(t, outcome.id, command))
  }

  lemma ConcludeKeeps(t: State, id: nat, command: string, replay: bool, timedOut: bool, snapshot: bool)
    requires Sound(t) && Remembers(t) && t.plan.None? && SpawnedUnder(t, id, t.pending)
    ensures var (u, outcome) := Conclude(t, id, command, replay, timedOut, snapshot);
            Executed(t, u, outcome, command, replay)
  {
    hide Sound, Remembers, Subsequence, Sync, Send, SpawnedUnder, RanUnderPolicy;
    var entry := if replay then Some(command) else None;
    var sent := Send(t, id, command);
    SendKeeps(t, id, command);
    var (u, synced) := Sync(sent, id, entry, snapshot);
    SyncKeeps(t, id, command, entry, snapshot);
    RetireRecorded(u, id, command);
  }

  /** A command sent, its sync still to come: the longer journal is run as well. */
  ghost predicate Sent(t: State, sent: State, id: nat, command: string) {
    && Sound(sent) && Remembers(sent) && RanUnderPolicy(sent, id, command)
    && sent == t.(sessions := sent.sessions) && sent.current == Some(id)
    && (t.shell.Posix? ==> Subsequence(t.replay + [command], sent.sessions[id].ran))
  }

  lemma SendKeeps(t: State, id: nat, command: string)
    requires Sound(t) && Remembers(t) && SpawnedUnder(t, id, t.pending)
    ensures Sent(t, Send(t, id, command), id, command)
  {
    hide Subsequence;
    if t.shell.Posix? {
      SubsequenceGrows(t.replay, t.sessions[id].ran, command);
    }
  }

  lemma SyncKeeps(t: State, id: nat, command: string, entry: Option<string>, snapshot: bool)
    requires Sent(t, Send(t, id, command), id, command) && (entry.None? || entry == Some(command))
    ensures var sent := Send(t, id, command);
            var (u, synced) := Sync(sent, id, entry, snapshot);
            && Sound(u) && Remembers(u) && RanUnderPolicy(u, id, command)
            && u.plan == t.plan && u.shell == t.shell
            && u.replay == t.replay + if synced && entry.Some? && t.shell.Posix? then [command] else []
  {
    hide Subsequence, Send;
  }

  lemma RetireRecorded(u: State, id: nat, command: string)
    requires Sound(u) && Remembers(u) && RanUnderPolicy(u, id, command)
    ensures var v := Clear(Kill(u, id), Some(id));
            && Sound(v) && Remembers(v) && RanUnderPolicy(v, id, command)
            && v.plan == u.plan && v.replay == u.replay && v.shell == u.shell
  {
    hide Subsequence;
  }

  /** A journalled command, through any number of approvals and the one retry after a failed
      send, is in the journal once if its session was synced after it and not at all
      otherwise, ran under the policy then pending, and leaves a session that has run the
      whole journal in order. */
  lemma {:induction false} ExecuteKeeps(s: State, command: string, replay: bool, retried: bool, script: seq<Attempt>)
    requires Sound(s) && Remembers(s) && s.plan.None?
    ensures var (t, outcome) := Execute(s, command, replay, retried, script);
            Executed(s, t, outcome, command, replay)
    decreases |script|
  {
    hide Sound, Remembers, Request, Changes, Conclude, RanUnderPolicy, SpawnedUnder;
    if script != [] {
      var a := script[0];
      var s1 := Changes(s, a.around);
      ChangesKeep(s, a.around);
      RequestKeeps(s1, a.vanishes, a.spawn);
      RequestsRecover(s1, a.vanishes, a.spawn);
      var (t, answer) := Request(s1, a.vanishes, a.spawn);
      if answer.Granted? {
        match a.exec
        case Ran(timedOut, snapshot) =>
          ConcludeKeeps(t, answer.id, command, replay, timedOut, snapshot);
        case SendFails =>
          if !retried {
            RetireKeeps(t, answer.id);
            ExecuteKeeps(Clear(Kill(t, answer.id), None), command, replay, true, script[1..]);
          }
        case Approval(Some(true)) =>
          ExecuteKeeps(t, command, replay, retried, script[1..]);
        case _ =>
      }
    }
  }

  lemma RetireKeeps(t: State, id: nat)
    requires Sound(t) && Remembers(t)
    ensures var u := Clear(Kill(t, id), None);
            Sound(u) && Remembers(u) && u.plan == t.plan && u.replay == t.replay && u.shell == t.shell
  {
  }

  datatype Job = Job(command: string, replay: bool, script: seq<Attempt>)

  /** A caller's commands, one after the other, with the journal entries they make. */
  function RunJobs(s: State, jobs: seq<Job>): (State, seq<string>)
    decreases |jobs|
  {
    if jobs == [] then (s, [])
    else
      var (t, outcome) := Execute(s, jobs[0].command, jobs[0].replay, false, jobs[0].script);
      var (u, entries) := RunJobs(t, jobs[1..]);
      (u, Entry(s, outcome, jobs[0].command, jobs[0].replay) + entries)
  }

  /** Over any sequence of commands the journal is the synced ones in order, and whichever
      session is recorded in the end, after any number of rotations, has run all of it. */
  lemma {:induction false} ShellRemembers(s: State, jobs: seq<Job>)
    requires Sound(s) && Remembers(s) && s.plan.None?
    ensures var (t, entries) := RunJobs(s, jobs);
            Sound(t) && Remembers(t) && t.plan.None? && t.replay == s.replay + entries
    decreases |jobs|
  {
    hide Sound, Remembers, Execute, Entry, RanUnderPolicy;
    if jobs != [] {
      var j := jobs[0];
      ExecuteKeeps(s, j.command, j.replay, false, j.script);
      var (t, outcome) := Execute(s, j.command, j.replay, false, j.script);
      ShellRemembers(t, jobs[1..]);
      var entry, entries := Entry(s, outcome, j.command, j.replay), RunJobs(t, jobs[1..]).1;
      assert s.replay + entry + entries == s.replay + (entry + entries);
    }
  }

  // ----- several callers: when the recorded session has run the journal ------------------------

  lemma {:induction false} SubsequenceFits(a: seq<string>, b: seq<string>)
    requires Subsequence(a, b)
    ensures |a| <= |b|
    ensures |a| == |b| ==> a == b
    decreases |b|
  {
    if a != [] {
      if a[|a| - 1] == b[|b| - 1] && Subsequence(a[..|a| - 1], b[..|b| - 1]) {
        SubsequenceFits(a[..|a| - 1], b[..|b| - 1]);
        assert a == a[..|a| - 1] + [a[|a| - 1]] && b == b[..|b| - 1] + [b[|b| - 1]];
      } else {
        SubsequenceFits(a, b[..|b| - 1]);
      }
    }
  }

  lemma {:induction false} SubsequenceExtends(a: seq<string>, b: seq<string>, more: seq<string>)
    requires Subsequence(a, b)
    ensures Subsequence(a, b + more)
    decreases |more|
  {
    hide Subsequence;
    if more == [] {
      assert b + more == b;
    } else {
      var n := |more| - 1;
      SubsequenceExtends(a, b, more[..n]);
      SubsequenceGrows(a, b + more[..n], more[n]);
      assert b + more[..n] + [more[n]] == b + more;
    }
  }

  /** A longer subsequence ends at some place behind the shorter one. */
  lemma {:induction false} SubsequenceEnds(a: seq<string>, c: string, b: seq<string>) returns (p: nat)
    requires Subsequence(a + [c], b)
    ensures p < |b| && b[p] == c && Subsequence(a, b[..p])
    decreases |b|
  {
    var n := |b| - 1;
    assert (a + [c])[..|a|] == a;
    if b[n] == c && Subsequence(a, b[..n]) {
      p := n;
    } else {
      p := SubsequenceEnds(a, c, b[..n]);
      assert b[..n][..p] == b[..p];
    }
  }

  /** `recent` is what ran after the earliest point at which `ran` contained the journal. */
  ghost predicate CaughtUp(replay: seq<string>, ran: seq<string>, recent: seq<string>) {
    |recent| <= |ran| && ran[|ran| - |recent|..] == recent && Caught(replay, ran[..|ran| - |recent|])
  }

  /** A shortest list of commands that contains the journal. */
  ghost predicate Caught(replay: seq<string>, caught: seq<string>) {
    Subsequence(replay, caught) && (caught != [] ==> !Subsequence(replay, caught[..|caught| - 1]))
  }

  lemma CaughtThen(replay: seq<string>, caught: seq<string>, recent: seq<string>)
    requires Caught(replay, caught)
    ensures CaughtUp(replay, caught + recent, recent)
  {
    hide Caught;
    var ran := caught + recent;
    assert ran[..|ran| - |recent|] == caught && ran[|ran| - |recent|..] == recent;
  }

  lemma CaughtNow(replay: seq<string>, ran: seq<string>, recent: seq<string>, c: string)
    requires CaughtUp(replay, ran, recent) && c !in recent
    ensures Caught(replay + [c], ran + [c])
  {
    hide Subsequence, CaughtUp;
    assert (ran + [c])[..|ran|] == ran;
    RecentIff(replay, ran, recent, c);
    SubsequenceGrows(replay, ran, c);
  }

  lemma RecentIsContained(replay: seq<string>, ran: seq<string>, recent: seq<string>, c: string)
    requires CaughtUp(replay, ran, recent)
    ensures Subsequence(replay, ran)
    ensures c in recent ==> Subsequence(replay + [c], ran)
  {
    hide Subsequence;
    var caught := ran[..|ran| - |recent|];
    assert ran == caught + recent;
    SubsequenceExtends(replay, caught, recent);
    if c in recent {
      var i :| 0 <= i < |recent| && recent[i] == c;
      var before := caught + recent[..i];
      SubsequenceExtends(replay, caught, recent[..i]);
      SubsequenceGrows(replay, before, c);
      SubsequenceExtends(replay + [c], before + [c], recent[i + 1..]);
      assert before + [c] + recent[i + 1..] == ran;
    }
  }

  lemma ContainedIsRecent(replay: seq<string>, ran: seq<string>, recent: seq<string>, c: string)
    requires CaughtUp(replay, ran, recent) && Subsequence(replay + [c], ran)
    ensures c in recent
  {
    hide Subsequence;
    var caught := ran[..|ran| - |recent|];
    var p := SubsequenceEnds(replay, c, ran);
    assert p < |caught| ==> caught[..p] == ran[..p];
    if p < |caught| {
      NotBefore(replay, caught, p);
    }
    assert p >= |caught| ==> recent[p - |caught|] == c;
  }

  lemma NotBefore(replay: seq<string>, caught: seq<string>, p: nat)
    requires Caught(replay, caught) && p < |caught|
    ensures !Subsequence(replay, caught[..p])
  {
    hide Subsequence;
    PrefixExtends(replay, caught[..|caught| - 1], p);
    assert caught[..|caught| - 1][..p] == caught[..p];
  }

  lemma PrefixExtends(a: seq<string>, b: seq<string>, p: nat)
    requires p <= |b|
    ensures Subsequence(a, b[..p]) ==> Subsequence(a, b)
  {
    hide Subsequence;
    assert b[..p] + b[p..] == b;
    if Subsequence(a, b[..p]) {
      SubsequenceExtends(a, b[..p], b[p..]);
    }
  }

  /** A caught-up session contains the longer journal exactly if the new entry ran since. */
  lemma RecentIff(replay: seq<string>, ran: seq<string>, recent: seq<string>, c: string)
    requires CaughtUp(replay, ran, recent)
    ensures Subsequence(replay, ran)
    ensures Subsequence(replay + [c], ran) <==> c in recent
  {
    hide Subsequence, CaughtUp;
    RecentIsContained(replay, ran, recent, c);
    if Subsequence(replay + [c], ran) {
      ContainedIsRecent(replay, ran, recent, c);
    }
  }

  function CutAfter(recent: seq<string>, c: string): seq<string> {
    if recent == [] then [] else if recent[0] == c then recent[1..] else CutAfter(recent[1..], c)
  }

  lemma {:induction false} CutSplits(recent: seq<string>, c: string) returns (i: nat)
    requires c in recent
    ensures i < |recent| && recent[i] == c && c !in recent[..i] && CutAfter(recent, c) == recent[i + 1..]
  {
    if recent[0] == c {
      i := 0;
    } else {
      i := CutSplits(recent[1..], c);
      assert recent[..i + 1] == [recent[0]] + recent[1..][..i];
      assert recent[1..][i + 1..] == recent[i + 2..];
      i := i + 1;
    }
  }

  lemma SyncCatchesUp(replay: seq<string>, ran: seq<string>, recent: seq<string>, c: string)
    requires CaughtUp(replay, ran, recent) && c in recent
    ensures CaughtUp(replay + [c], ran, CutAfter(recent, c))
  {
    hide Caught, CutAfter;
    var caught := ran[..|ran| - |recent|];
    var i := CutSplits(recent, c);
    CaughtThen(replay, caught, recent[..i]);
    CaughtNow(replay, caught + recent[..i], recent[..i], c);
    CaughtThen(replay + [c], caught + recent[..i] + [c], recent[i + 1..]);
    assert ran == caught + recent[..i] + [c] + recent[i + 1..];
  }

  lemma SendCatchesUp(replay: seq<string>, ran: seq<string>, recent: seq<string>, c: string)
    requires CaughtUp(replay, ran, recent)
    ensures CaughtUp(replay, ran + [c], recent + [c])
  {
    hide Subsequence;
    var caught := ran[..|ran| - |recent|];
    assert (ran + [c])[..|caught|] == caught;
    assert (ran + [c])[|caught|..] == ran[|caught|..] + [c];
  }

  lemma RestoreCatchesUp(replay: seq<string>)
    ensures CaughtUp(replay, replay, [])
  {
    hide Subsequence;
    SubsequenceOfItself(replay);
    assert replay[..|replay|] == replay && replay[|replay|..] == [];
    if replay != [] && Subsequence(replay, replay[..|replay| - 1]) {
      SubsequenceFits(replay, replay[..|replay| - 1]);
    }
  }

  /** What a caller could keep beside the journal: the commands sent to the recorded session
      since it caught up with the journal. */
  function Follow(s: State, recent: seq<string>, step: Step): seq<string> {
    match step
    case SendCommand(id, command) => if s.current == Some(id) && Alive(s, id) then recent + [command] else recent
    case SyncFrom(id, Some(command), true) => if Alive(s, id) then CutAfter(recent, command) else recent
    case FinishRequest(Restored) => if s.plan.Some? then [] else recent
    case _ => recent
  }

  /** A sync journals a command sent to the recorded session since it caught up, and nothing
      was journalled between a request's start and the session it spawns. */
  predicate Guard(s: State, recent: seq<string>, step: Step) {
    match step
    case SyncFrom(id, Some(command), true) => Alive(s, id) && s.current.Some? ==> command in recent
    case FinishRequest(Restored) => s.plan.Some? ==> s.replay == s.plan.value.replay
    case _ => true
  }

  predicate Guarded(s: State, recent: seq<string>, steps: seq<Step>)
    decreases |steps|
  {
    steps == [] || (Guard(s, recent, steps[0]) && Guarded(Next(s, steps[0]), Follow(s, recent, steps[0]), steps[1..]))
  }

  /** A request under way cloned a beginning of the journal. */
  predicate PlanBehind(s: State) {
    s.plan.Some? ==> s.plan.value.replay <= s.replay
  }

  ghost predicate Tracks(s: State, recent: seq<string>) {
    && s.shell.Posix? && Sound(s) && PlanBehind(s)
    && (s.current.Some? ==> CaughtUp(s.replay, s.sessions[s.current.value].ran, recent))
  }

  lemma TracksRemembers(s: State, recent: seq<string>)
    requires Tracks(s, recent)
    ensures Remembers(s)
  {
    hide Subsequence, CaughtUp;
    if s.current.Some? {
      RecentIff(s.replay, s.sessions[s.current.value].ran, recent, "");
    }
  }

  /** A sync leaves a recorded session that has run the journal exactly if it journals a
      command sent to that session since it caught up. */
  lemma SyncKeepsMemory(s: State, recent: seq<string>, id: nat, command: string)
    requires Tracks(s, recent) && Alive(s, id)
    ensures Remembers(Sync(s, id, Some(command), true).0) <==> s.current.None? || command in recent
  {
    hide Subsequence, CaughtUp;
    if s.current.Some? {
      RecentIff(s.replay, s.sessions[s.current.value].ran, recent, command);
    }
  }

  /** A rotation records a session that has run the journal exactly if nothing was journalled
      since the request read it. */
  lemma RotationKeepsMemory(s: State)
    requires s.shell.Posix? && PlanBehind(s) && s.plan.Some?
    ensures Remembers(Finish(s, Restored).0) <==> s.replay == s.plan.value.replay
  {
    hide Subsequence;
    SubsequenceOfItself(s.replay);
    if Subsequence(s.replay, s.plan.value.replay) {
      SubsequenceFits(s.replay, s.plan.value.replay);
    }
  }

  lemma StepTracks(s: State, recent: seq<string>, step: Step)
    requires Tracks(s, recent) && Guard(s, recent, step)
    ensures Tracks(Next(s, step), Follow(s, recent, step))
  {
    hide CaughtUp, CutAfter, Sound;
    StepIsSound(s, step);
    SoundMeans(s);
    match step
    case SendCommand(id, command) =>
      if s.current == Some(id) {
        SendCatchesUp(s.replay, s.sessions[id].ran, recent, command);
      }
    case SyncFrom(id, Some(command), true) =>
      if s.current.Some? && Alive(s, id) {
        SyncCatchesUp(s.replay, s.sessions[s.current.value].ran, recent, command);
      }
    case FinishRequest(Restored) => RestoreCatchesUp(s.replay);
    case _ =>
  }

  lemma SoundMeans(s: State)
    requires Sound(s)
    ensures s.current.Some? ==> s.current.value < |s.sessions|
  {
  }

  /** A step keeps the memory exactly if it meets its guard. */
  lemma StepRemembers(s: State, recent: seq<string>, step: Step)
    requires Tracks(s, recent)
    ensures Remembers(Next(s, step)) <==> Guard(s, recent, step)
  {
    hide CaughtUp, Subsequence, CutAfter, Follow, Tracks, Remembers, Sync, Finish;
    if Guard(s, recent, step) {
      StepTracks(s, recent, step);
      TracksRemembers(Next(s, step), Follow(s, recent, step));
    } else {
      TracksMeans(s, recent);
      match step
      case SyncFrom(id, Some(command), true) => SyncKeepsMemory(s, recent, id, command);
      case FinishRequest(Restored) => RotationKeepsMemory(s);
      case _ =>
    }
  }

  lemma TracksMeans(s: State, recent: seq<string>)
    requires Tracks(s, recent)
    ensures s.shell.Posix? && PlanBehind(s)
  {
  }

  /** At every moment of the run the recorded session has run the whole journal. */
  ghost predicate AlwaysRemembers(s: State, steps: seq<Step>) {
    forall n: nat | n <= |steps| :: Remembers(Run(s, steps[..n]))
  }

  lemma AlwaysFirst(s: State, steps: seq<Step>)
    requires steps != []
    ensures AlwaysRemembers(s, steps) <==> Remembers(s) && AlwaysRemembers(Next(s, steps[0]), steps[1..])
  {
    hide Next, Remembers;
    assert steps[..0] == [];
    forall n: nat | n < |steps|
      ensures Run(s, steps[..n + 1]) == Run(Next(s, steps[0]), steps[1..][..n])
    {
      assert steps[..n + 1][1..] == steps[1..][..n];
    }
    if AlwaysRemembers(s, steps) {
      assert Remembers(Run(s, steps[..0]));
      forall n: nat | n <= |steps[1..]|
        ensures Remembers(Run(Next(s, steps[0]), steps[1..][..n]))
      {
        assert Remembers(Run(s, steps[..n + 1]));
      }
    }
    if Remembers(s) && AlwaysRemembers(Next(s, steps[0]), steps[1..]) {
      forall n: nat | n <= |steps|
        ensures Remembers(Run(s, steps[..n]))
      {
        if n > 0 {
          assert Remembers(Run(Next(s, steps[0]), steps[1..][..n - 1]));
        }
      }
    }
  }

  lemma {:induction false} TrackedRunRemembers(s: State, recent: seq<string>, steps: seq<Step>)
    requires Tracks(s, recent)
    ensures AlwaysRemembers(s, steps) <==> Guarded(s, recent, steps)
    decreases |steps|
  {
    hide Tracks, Remembers, AlwaysRemembers, Next, Follow, Guard;
    TracksRemembers(s, recent);
    if steps == [] {
      AlwaysNothing(s);
    } else {
      AlwaysFirst(s, steps);
      StepRemembers(s, recent, steps[0]);
      if Guard(s, recent, steps[0]) {
        StepTracks(s, recent, steps[0]);
        TrackedRunRemembers(Next(s, steps[0]), Follow(s, recent, steps[0]), steps[1..]);
      } else {
        AlwaysNow(Next(s, steps[0]), steps[1..]);
      }
    }
  }

  lemma AlwaysNothing(s: State)
    ensures AlwaysRemembers(s, []) <==> Remembers(s)
  {
    hide Remembers;
    AlwaysNow(s, []);
  }

  lemma AlwaysNow(s: State, steps: seq<Step>)
    ensures AlwaysRemembers(s, steps) ==> Remembers(s)
  {
    hide Remembers;
    assert steps[..0] == [];
    assert Run(s, []) == s;
    assert AlwaysRemembers(s, steps) ==> Remembers(Run(s, steps[..0]));
  }

  /** In every interleaving of callers over a POSIX shell: the recorded session has at every
      moment run the whole journal, in order, if and only if every sync journals a command
      sent to the recorded session since it caught up, and nothing is journalled between a
      request's start and its spawned session. */
  lemma MemoryIsGuarded(policy: Policy, steps: seq<Step>)
    ensures AlwaysRemembers(Initial(Posix, policy), steps) <==> Guarded(Initial(Posix, policy), [], steps)
  {
    TrackedRunRemembers(Initial(Posix, policy), [], steps);
  }

  /** Callers that sync only into the recorded session, only what they sent there since, and
      never while a request is under way. */
  predicate Careful(s: State, recent: seq<string>, steps: seq<Step>)
    decreases |steps|
  {
    steps == []
    || (&& (match steps[0]
            case SyncFrom(id, Some(command), true) => s.current == Some(id) && s.plan.None? && command in recent
            case _ => true)
        && Careful(Next(s, steps[0]), Follow(s, recent, steps[0]), steps[1..]))
  }

  lemma {:induction false} CarefulIsGuarded(s: State, recent: seq<string>, steps: seq<Step>)
    requires Careful(s, recent, steps) && s.shell.Posix?
    requires s.plan.Some? ==> s.plan.value.replay == s.replay
    ensures Guarded(s, recent, steps)
    decreases |steps|
  {
    hide Follow;
    if steps != [] {
      CarefulIsGuarded(Next(s, steps[0]), Follow(s, recent, steps[0]), steps[1..]);
    }
  }

  lemma CarefulCallersRemember(policy: Policy, steps: seq<Step>)
    requires Careful(Initial(Posix, policy), [], steps)
    ensures AlwaysRemembers(Initial(Posix, policy), steps)
  {
    CarefulIsGuarded(Initial(Posix, policy), [], steps);
    MemoryIsGuarded(policy, steps);
  }

  /** A caller whose session is replaced between its command and its sync leaves a recorded
      session without that command. */
  lemma InterleavingForgets(policy: Policy, command: string)
    ensures var steps := [BeginRequest(false), FinishRequest(Restored), SendCommand(0, command),
                          Around(SetBackground(true)), BeginRequest(false), FinishRequest(Restored),
                          SyncFrom(0, Some(command), true)];
            var s := Run(Initial(Posix, policy), steps);
            s.current == Some(1) && s.replay == [command] && !Remembers(s)
  {
    var steps := [BeginRequest(false), FinishRequest(Restored), SendCommand(0, command),
                  Around(SetBackground(true)), BeginRequest(false), FinishRequest(Restored),
                  SyncFrom(0, Some(command), true)];
    hide Next, Remembers;
    var s0 := Initial(Posix, policy);
    var s1 := Next(s0, steps[0]);
    var s2 := Next(s1, steps[1]);
    var s3 := Next(s2, steps[2]);
    var s4 := Next(s3, steps[3]);
    var s5 := Next(s4, steps[4]);
    var s6 := Next(s5, steps[5]);
    assert steps[0..] == steps;
    RunFirst(s0, steps, 0);
    RunFirst(s1, steps, 1);
    RunFirst(s2, steps, 2);
    RunFirst(s3, steps, 3);
    RunFirst(s4, steps, 4);
    RunFirst(s5, steps, 5);
    RunFirst(s6, steps, 6);
    CommandSent(policy, command);
    SyncAfterRotation(policy, command);
  }

  lemma CommandSent(policy: Policy, command: string)
    ensures Next(Next(Next(Initial(Posix, policy), BeginRequest(false)), FinishRequest(Restored)), SendCommand(0, command))
         == State(Posix, Some(0), policy, policy, false, [], [Session(policy, true, [command])], None)
  {
    assert [] + [command] == [command];
  }

  lemma SyncAfterRotation(policy: Policy, command: string)
    ensures var s := State(Posix, Some(0), policy, policy, false, [], [Session(policy, true, [command])], None);
            var t := Next(Next(Next(Next(s, Around(SetBackground(true))), BeginRequest(false)), FinishRequest(Restored)),
                          SyncFrom(0, Some(command), true));
            t.current == Some(1) && t.replay == [command] && !Remembers(t)
  {
    assert [] + [command] == [command];
  }

  lemma RunFirst(s: State, steps: seq<Step>, k: nat)
    requires k < |steps|
    ensures Run(s, steps[k..]) == Run(Next(s, steps[k]), steps[k + 1..])
  {
    assert steps[k..][0] == steps[k] && steps[k..][1..] == steps[k + 1..];
  }

  // ----- the shared object -------------------------------------------------------------------

  class GlobalState {
    const shell: Shell
    var shellSessionId: Option<nat>
    var effective: Policy
    var pending: Policy
    var background: bool
    var replayCommands: seq<string>
    var manager: seq<Session>

    ghost function St(): State
      reads this
    {
      State(shell, shellSessionId, effective, pending, background, replayCommands, manager, None)
    }

    constructor (shell: Shell, policy: Policy)
      ensures St() == Initial(shell, policy)
    {
      this.shell := shell;
      shellSessionId := None;
      effective, pending, background := policy, policy, false;
      replayCommands, manager := [], [];
    }

    method TerminateSession(id: nat)
      modifies this`manager
      ensures St() == Kill(old(St()), id)
    {
      if id < |manager| {
        manager := manager[id := manager[id].(alive := false)];
      }
    }

    /** Spawn a session and restore it from the snapshot. */
    method SpawnWithSnapshot(policy: Policy, snapshot: seq<string>, spawn: Spawn) returns (id: Option<nat>)
      modifies this`manager
      ensures var s := old(St()).(plan := Some(Plan(policy, snapshot)));
              && manager == Finish(s, spawn).0.sessions
              && id == (if spawn.Restored? then Some(|old(manager)|) else None)
    {
      var replayed := if shell == Posix then snapshot else [];
      match spawn
      case NotCreated => id := None;
      case RestoreFails(after) =>
        manager := manager + [Session(policy, true, if after <= |replayed| then replayed[..after] else replayed)];
        id := None;
      case Restored =>
        id := Some(|manager|);
        manager := manager + [Session(policy, true, replayed)];
    }

    method GetOrCreateShellSession(vanishes: bool, spawn: Spawn) returns (answer: Answer)
      modifies this
      ensures (St(), answer) == Request(old(St()), vanishes, spawn)
      ensures !answer.Waiting?
    {
      if shellSessionId.Some? && !(shellSessionId.value < |manager| && manager[shellSessionId.value].alive) {
        shellSessionId := None;
        background := false;
      }
      var hasBackground, pendingPolicy, snapshot := background, pending, replayCommands;
      if shellSessionId.Some? {
        if !hasBackground && effective != pendingPolicy {
          TerminateSession(shellSessionId.value);
          if vanishes {
            return Refused;
          }
          shellSessionId := None;
          var id := SpawnWithSnapshot(pendingPolicy, snapshot, spawn);
          if id.None? {
            return Refused;
          }
          shellSessionId := id;
          effective := pendingPolicy;
          return Granted(id.value);
        }
      }
      if shellSessionId.None? || hasBackground {
        var id := SpawnWithSnapshot(pendingPolicy, snapshot, spawn);
        if id.None? {
          return Refused;
        }
        shellSessionId := id;
        effective := pendingPolicy;
      }
      return Granted(shellSessionId.value);
    }

    method SyncContinuityState(id: nat, replayed: Option<string>, snapshot: bool) returns (ok: bool)
      modifies this`replayCommands
      ensures (St(), ok) == Sync(old(St()), id, replayed, snapshot)
    {
      ok := snapshot && id < |manager| && manager[id].alive;
      if ok {
        if shell == ManagedNu {
          replayCommands := [];
        } else if replayed.Some? {
          replayCommands := replayCommands + [replayed.value];
        }
      }
    }

    /** What other parts of the program change meanwhile. */
    method Elapse(around: seq<Change>)
      modifies this`pending, this`background, this`manager
      ensures St() == Changes(old(St()), around)
    {
      var i := 0;
      while i < |around|
        invariant 0 <= i <= |around|
        invariant Changes(St(), around[i..]) == Changes(old(St()), around)
      {
        ghost var rest := around[i..];
        match around[i] {
          case SetPolicy(policy) => pending := policy;
          case SetBackground(on) => background := on;
          case Dies(id) => TerminateSession(id);
        }
        i := i + 1;
        assert rest[1..] == around[i..];
      }
    }

    method RunInSession(id: nat, command: string)
      modifies this`manager
      ensures St() == Send(old(St()), id, command)
    {
      if id < |manager| && manager[id].alive {
        manager := manager[id := manager[id].(ran := manager[id].ran + [command])];
      }
    }

    method ExecuteReplayState(command: string, replay: bool, script: seq<Attempt>) returns (outcome: Outcome)
      modifies this
      ensures (St(), outcome) == Execute(old(St()), command, replay, false, script)
    {
      hide Request, Changes, Sync, Send;
      var retried := false;
      var i := 0;
      while i < |script|
        invariant 0 <= i <= |script|
        invariant Execute(St(), command, replay, retried, script[i..]) == Execute(old(St()), command, replay, false, script)
      {
        var a := script[i];
        ghost var rest := script[i..];
        assert rest[0] == a && rest[1..] == script[i + 1..];
        Elapse(a.around);
        var answer := GetOrCreateShellSession(a.vanishes, a.spawn);
        if !answer.Granted? {
          return Error;
        }
        var id := answer.id;
        match a.exec {
          case Ran(timedOut, snapshot) =>
            RunInSession(id, command);
            var synced := SyncContinuityState(id, if replay then Some(command) else None, snapshot);
            if synced {
              return SyncedIn(id);
            }
            if timedOut {
              TerminateSession(id);
              if shellSessionId == Some(id) {
                shellSessionId := None;
              }
              return Unsynced(id);
            }
            return Error;
          case SendFails =>
            if retried {
              return Failed;
            }
            retried := true;
            TerminateSession(id);
            shellSessionId := None;
          case Approval(granted) =>
            if granted.None? {
              return Error;
            }
            if !granted.value {
              return Failed;
            }
          case OtherFailure => return Failed;
        }
        i := i + 1;
      }
      return Unfinished;
    }
  }
}
