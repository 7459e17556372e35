/** What one request and one journalled command do, case by case. */
module ShellCalls {
  import opened Text
  import opened ShellSession

  /** The first half of a request.  A dead session is forgotten with its background flag.  A
      live one is answered at once if its policy is the pending one; it is terminated if not,
      unless a background process is recorded, which it survives while a new session is
      spawned.  No other session is touched. */
  lemma RotationIsExact(s: State, vanishes: bool)
    requires s.plan.None? && s.current.Some?
    ensures var id, (t, answer) := s.current.value, Begin(s, vanishes);
            && (answer.Waiting? <==> t.plan == Some(Plan(s.pending, s.replay)))
            && |t.sessions| == |s.sessions|
            && (forall other | 0 <= other < |s.sessions| && other != id :: t.sessions[other] == s.sessions[other])
            && (if !Alive(s, id) then
                  answer.Waiting? && t.current.None? && !t.background && t.sessions == s.sessions
                else if s.background then
                  answer.Waiting? && t.current == Some(id) && t.background && t.sessions == s.sessions
                else if s.effective == s.pending then
                  answer == Granted(id) && t == s
                else
                  !Alive(t, id) && answer == if vanishes then Refused else Waiting)
  {
  }

  /** A spawned session starts with the journal the request read, and nothing else: replayed in
      a POSIX shell, restored structurally in managed Nu.  A failed spawn records none. */
  lemma SpawnRestores(s: State, spawn: Spawn)
    requires s.plan.Some?
    ensures var (t, answer) := Finish(s, spawn);
            && s.sessions <= t.sessions && t.plan.None?
            && (spawn.Restored? ==>
                  && answer == Granted(|s.sessions|) && t.current == Some(|s.sessions|)
                  && t.sessions == s.sessions + [Session(s.plan.value.policy, true,
                                                         if s.shell.Posix? then s.plan.value.replay else [])])
            && (!spawn.Restored? ==> answer == Refused && t.current == s.current && t.effective == s.effective)
  {
  }

  /** A command that ran but could not be synced: after a timeout its session is retired, and
      otherwise it stays. */
  lemma UnsyncedIsRetired(t: State, id: nat, command: string, replay: bool, timedOut: bool)
    requires Alive(t, id) && t.current == Some(id)
    ensures var (u, outcome) := Conclude(t, id, command, replay, timedOut, false);
            && u.replay == t.replay
            && (timedOut ==> outcome == Unsynced(id) && u.current.None? && !Alive(u, id))
            && (!timedOut ==> outcome == Error && u.current == Some(id) && Alive(u, id))
            && |u.sessions| == |t.sessions| && u.sessions[id].ran == t.sessions[id].ran + [command]
  {
  }

  /** What the loop of a journalled command goes on after. */
  predicate GoesOn(e: Exec) { e.SendFails? || e == Approval(Some(true)) }

  function SendFailures(script: seq<Attempt>): nat {
    if script == [] then 0 else (if script[0].exec.SendFails? then 1 else 0) + SendFailures(script[1..])
  }

  /** Attempt `k` runs the command and syncs it: everything before was an approval, or the one
      failed send that is retried. */
  predicate SyncsAt(script: seq<Attempt>, retried: bool, k: nat) {
    && k < |script| && script[k].exec.Ran? && script[k].exec.snapshot
    && (forall i | 0 <= i < k :: GoesOn(script[i].exec))
    && SendFailures(script[..k]) <= if retried then 0 else 1
  }

  predicate SessionsWork(script: seq<Attempt>) {
    forall i | 0 <= i < |script| :: script[i].spawn.Restored? && !script[i].vanishes
  }

  lemma SyncsLater(script: seq<Attempt>, retried: bool, later: bool)
    requires script != [] && GoesOn(script[0].exec)
    requires script[0].exec.SendFails? ==> !retried && later
    requires !script[0].exec.SendFails? ==> later == retried
    ensures (exists k: nat :: SyncsAt(script, retried, k)) <==> exists k: nat :: SyncsAt(script[1..], later, k)
  {
    hide GoesOn;
    var rest := script[1..];
    forall k: nat | k > 0
      ensures SyncsAt(script, retried, k) <==> SyncsAt(rest, later, k - 1)
    {
      if k < |script| {
        assert script[..k][1..] == rest[..k - 1];
        assert forall i | 1 <= i < k :: script[i] == rest[i - 1];
        assert (forall i | 0 <= i < k :: GoesOn(script[i].exec)) <==> (forall i | 0 <= i < k - 1 :: GoesOn(rest[i].exec)) by {
          assert forall i | 0 <= i < k - 1 :: rest[i] == script[i + 1];
        }
      }
    }
    if k: nat :| SyncsAt(rest, later, k) {
      assert SyncsAt(script, retried, k + 1);
    }
    NotAtOnce(script, retried);
    if k: nat :| SyncsAt(script, retried, k) {
      assert SyncsAt(rest, later, k - 1);
    }
  }

  lemma NotAtOnce(script: seq<Attempt>, retried: bool)
    requires script != [] && GoesOn(script[0].exec)
    ensures !SyncsAt(script, retried, 0)
  {
  }

  lemma {:induction false} FailedOnce(script: seq<Attempt>, retried: bool)
    requires script != [] && (!GoesOn(script[0].exec) || (script[0].exec.SendFails? && retried)) && !script[0].exec.Ran?
    ensures forall k: nat :: !SyncsAt(script, retried, k)
  {
    forall k: nat ensures !SyncsAt(script, retried, k) {
      if 0 < k < |script| {
        assert script[..k][0] == script[0];
        assert script[0].exec.SendFails? ==> SendFailures(script[..k]) >= 1;
      }
    }
  }

  lemma ConcludeSyncs(t: State, id: nat, command: string, replay: bool, timedOut: bool, snapshot: bool)
    requires Alive(t, id)
    ensures Conclude(t, id, command, replay, timedOut, snapshot).1.SyncedIn? <==> snapshot
  {
  }

  lemma RanDecides(script: seq<Attempt>, retried: bool)
    requires script != [] && script[0].exec.Ran?
    ensures (exists k: nat :: SyncsAt(script, retried, k)) <==> script[0].exec.snapshot
  {
    assert script[..0] == [];
    assert script[0].exec.snapshot ==> SyncsAt(script, retried, 0);
    forall k: nat | k > 0 ensures !SyncsAt(script, retried, k) {
    }
  }

  /** As long as sessions can be had, a journalled command is synced if and only if it runs and
      its snapshot works before anything refuses it: approvals are answered any number of
      times, a failed send is retried once, by a new session, and a second one gives up. */
  lemma {:induction false} CommandIsRetriedOnce(s: State, command: string, replay: bool, retried: bool, script: seq<Attempt>)
    requires Sound(s) && s.plan.None? && SessionsWork(script)
    ensures Execute(s, command, replay, retried, script).1.SyncedIn? <==> exists k: nat :: SyncsAt(script, retried, k)
    decreases |script|
  {
    hide Sound, Request, Changes, Conclude, SyncsAt, GoesOn;
    if script == [] {
      NoAttempt(retried);
    } else {
      var a, rest := script[0], script[1..];
      assert forall i | 0 <= i < |rest| :: rest[i] == script[i + 1];
      var s1 := Changes(s, a.around);
      ChangesStaySound(s, a.around);
      RequestAnswers(s1, a.vanishes, a.spawn);
      RequestWorks(s1);
      var (t, answer) := Request(s1, a.vanishes, a.spawn);
      match a.exec {
        case Ran(timedOut, snapshot) =>
          ConcludeSyncs(t, answer.id, command, replay, timedOut, snapshot);
          RanDecides(script, retried);
        case SendFails =>
          if retried {
            FailedOnce(script, retried);
          } else {
            RetireSound(t, answer.id);
            CommandIsRetriedOnce(Clear(Kill(t, answer.id), None), command, replay, true, rest);
            GoesOnAfter(a.exec);
            SyncsLater(script, retried, true);
          }
        case Approval(Some(true)) =>
          CommandIsRetriedOnce(t, command, replay, retried, rest);
          GoesOnAfter(a.exec);
          SyncsLater(script, retried, retried);
        case _ =>
          GoesOnAfter(a.exec);
          FailedOnce(script, retried);
      }
    }
  }

  lemma NoAttempt(retried: bool)
    ensures forall k: nat :: !SyncsAt([], retried, k)
  {
  }

  lemma GoesOnAfter(e: Exec)
    ensures GoesOn(e) <==> e.SendFails? || e == Approval(Some(true))
  {
  }

  lemma {:induction false} ChangesStaySound(s: State, around: seq<Change>)
    requires Sound(s)
    ensures Sound(Changes(s, around)) && Changes(s, around).plan == s.plan
    decreases |around|
  {
    if around != [] {
      ChangesStaySound(Apply(s, around[0]), around[1..]);
    }
  }

  lemma RetireSound(t: State, id: nat)
    requires Sound(t)
    ensures var u := Clear(Kill(t, id), None); Sound(u) && u.plan == t.plan
  {
  }
}
