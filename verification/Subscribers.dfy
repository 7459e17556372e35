/** The subscribers of each task's event stream.  A subscriber is known by its number, which
    stands for the random identifier and the sender stored under it. */
module Subscribers {

  type Streams = map<string, set<nat>>

  /** A broadcast under way: the targets it took from the table and how far it is. */
  datatype Broadcast = Broadcast(task: string, targets: set<nat>, waiting: set<nat>,
                                 delivered: set<nat>, failed: set<nat>, pruned: bool)

  /** `owner[id]` is the task that `id` subscribed to.  A receiver that is closed stays
      closed; `cleaned` are those whose clean-up has run; `removed` were removed by hand. */
  datatype State = State(streams: Streams, owner: seq<string>, closed: set<nat>, cleaned: set<nat>,
                         removed: set<nat>, sends: seq<Broadcast>)

  const INITIAL := State(map[], [], {}, {}, {}, [])

  /** Subscribers leave a task's table, and an empty table leaves the streams. */
  function Drop(streams: Streams, task: string, ids: set<nat>): Streams {
    if task !in streams then streams
    else if streams[task] - ids == {} then streams - {task}
    else streams[task := streams[task] - ids]
  }

  function Table(streams: Streams, task: string): set<nat> {
    if task in streams then streams[task] else {}
  }

  /** Every part of the protocol that runs under one lock, and the receivers' side. */
  datatype Step =
    | Register(task: string)
    | Close(id: nat)
    | CleanUp(id: nat)
    | Remove(task: string, id: nat)
    | BeginSend(task: string)
    | Deliver(send: nat, id: nat)
    | Prune(send: nat)

  /** A step that is not enabled changes nothing. */
  function Next(s: State, step: Step): State {
    match step
    case Register(task) =>
      s.(streams := s.streams[task := Table(s.streams, task) + {|s.owner|}], owner := s.owner + [task])
    case Close(id) => if id < |s.owner| then s.(closed := s.closed + {id}) else s
    case CleanUp(id) =>
      if id < |s.owner| && id in s.closed && id !in s.cleaned then
        s.(streams := Drop(s.streams, s.owner[id], {id}), cleaned := s.cleaned + {id})
      else s
    case Remove(task, id) =>
      s.(streams := Drop(s.streams, task, {id}),
         removed := if id < |s.owner| && s.owner[id] == task then s.removed + {id} else s.removed)
    case BeginSend(task) =>
      var targets := Table(s.streams, task);
      s.(sends := s.sends + [Broadcast(task, targets, targets, {}, {}, false)])
    case Deliver(send, id) =>
      if send < |s.sends| && id in s.sends[send].waiting then
        var b := s.sends[send];
        var b' := if id in s.closed then b.(waiting := b.waiting - {id}, failed := b.failed + {id})
                  else b.(waiting := b.waiting - {id}, delivered := b.delivered + {id});
        s.(sends := s.sends[send := b'])
      else s
    case Prune(send) =>
      if send < |s.sends| && s.sends[send].waiting == {} && !s.sends[send].pruned then
        var b := s.sends[send];
        s.(streams := if b.failed == {} then s.streams else Drop(s.streams, b.task, b.failed),
           sends := s.sends[send := b.(pruned := true)])
      else s
  }

  function Run(s: State, steps: seq<Step>): State
    decreases |steps|
  {
    if steps == [] then s else Run(Next(s, steps[0]), steps[1..])
  }

  predicate Present(s: State, id: nat) {
    id < |s.owner| && id in Table(s.streams, s.owner[id])
  }

  // ----- what every run keeps ---------------------------------------------------------------

  /** No task has an empty table, and a table holds only subscribers of its task that were
      not removed. */
  ghost predicate TablesTidy(s: State) {
    && (forall task | task in s.streams :: s.streams[task] != {})
    && (forall task, id: nat {:trigger id in s.streams[task]} | task in s.streams && id in s.streams[task] ::
          id < |s.owner| && s.owner[id] == task && id !in s.removed && id !in s.cleaned)
  }

  /** An open subscriber that was not removed is in its table. */
  ghost predicate OpenPresent(s: State) {
    forall id | 0 <= id < |s.owner| && id !in s.closed && id !in s.removed :: Present(s, id)
  }

  ghost predicate BroadcastTidy(s: State, b: Broadcast) {
    && b.targets == b.waiting + b.delivered + b.failed
    && b.waiting !! b.delivered && b.waiting !! b.failed && b.delivered !! b.failed
    && b.failed <= s.closed
    && (forall id: nat | id in b.targets :: id < |s.owner| && s.owner[id] == b.task)
    && (b.pruned ==> b.waiting == {} && forall id: nat | id in b.failed :: !Present(s, id))
  }

  ghost predicate Tidy(s: State) {
    && TablesTidy(s) && OpenPresent(s)
    && (forall k | 0 <= k < |s.sends| :: BroadcastTidy(s, s.sends[k]))
    && s.cleaned <= s.closed
    && (forall id: nat | id in s.closed :: id < |s.owner|)
    && (forall id: nat | id in s.removed :: id < |s.owner|)
  }

  lemma TableStaysInTask(s: State, task: string)
    requires TablesTidy(s)
    ensures forall id: nat | id in Table(s.streams, task) :: Present(s, id) && s.owner[id] == task
  {
    forall id: nat | id in Table(s.streams, task)
      ensures Present(s, id) && s.owner[id] == task
    {
      assert task in s.streams && id in s.streams[task];
    }
  }

  lemma DropShrinks(s: State, task: string, ids: set<nat>, t: State)
    requires TablesTidy(s) && t.streams == Drop(s.streams, task, ids) && t.owner == s.owner
    ensures forall task' :: Table(t.streams, task') == if task' == task then Table(s.streams, task) - ids else Table(s.streams, task')
    ensures forall task' | task' in t.streams :: t.streams[task'] != {} && t.streams[task'] <= Table(s.streams, task')
    ensures forall id | 0 <= id < |s.owner| :: Present(t, id) <==> Present(s, id) && !(s.owner[id] == task && id in ids)
  {
  }

  lemma RegisterKeeps(s: State, task: string)
    requires Tidy(s)
    ensures Tidy(Next(s, Register(task)))
  {
    var t := Next(s, Register(task));
    TableStaysInTask(s, task);
    forall task', id: nat | task' in t.streams && id in t.streams[task']
      ensures id < |t.owner| && t.owner[id] == task' && id !in t.removed && id !in t.cleaned
    {
      assert task' != task || id != |s.owner| ==> task' in s.streams && id in s.streams[task'];
    }
    forall id | 0 <= id < |s.owner|
      ensures Present(t, id) <==> Present(s, id)
    {
    }
  }

  lemma CleanUpKeeps(s: State, id: nat)
    requires Tidy(s)
    ensures Tidy(Next(s, CleanUp(id)))
  {
    hide Drop, Table, Present;
    var t := Next(s, CleanUp(id));
    if id < |s.owner| && id in s.closed && id !in s.cleaned {
      DropShrinks(s, s.owner[id], {id}, t);
      DropTidy(s, s.owner[id], {id}, t);
    }
  }

  /** Tables stay tidy when subscribers are dropped that the new state counts as removed or
      cleaned up. */
  lemma DropTidy(s: State, task: string, ids: set<nat>, t: State)
    requires TablesTidy(s) && t.streams == Drop(s.streams, task, ids) && t.owner == s.owner
    requires forall id: nat | id in t.removed && id !in s.removed :: id in ids && id < |s.owner| && s.owner[id] == task
    requires forall id: nat | id in t.cleaned && id !in s.cleaned :: id in ids && id < |s.owner| && s.owner[id] == task
    ensures TablesTidy(t)
  {
    DropShrinks(s, task, ids, t);
    forall task', id: nat | task' in t.streams && id in t.streams[task']
      ensures id < |t.owner| && t.owner[id] == task' && id !in t.removed && id !in t.cleaned
    {
      assert id in Table(t.streams, task') && id in Table(s.streams, task');
      TableStaysInTask(s, task');
      assert task' in s.streams && id in s.streams[task'];
    }
  }

  lemma RemoveKeeps(s: State, task: string, id: nat)
    requires Tidy(s)
    ensures Tidy(Next(s, Remove(task, id)))
  {
    hide Drop, Table, Present;
    var t := Next(s, Remove(task, id));
    DropShrinks(s, task, {id}, t);
    DropTidy(s, task, {id}, t);
  }

  lemma SendKeeps(s: State, task: string)
    requires Tidy(s)
    ensures Tidy(Next(s, BeginSend(task)))
  {
    TableStaysInTask(s, task);
  }

  lemma DeliverKeeps(s: State, send: nat, id: nat)
    requires Tidy(s)
    ensures Tidy(Next(s, Deliver(send, id)))
  {
  }

  lemma PruneKeeps(s: State, send: nat)
    requires Tidy(s)
    ensures Tidy(Next(s, Prune(send)))
  {
    hide Drop, Table, Present;
    var t := Next(s, Prune(send));
    if send < |s.sends| && s.sends[send].waiting == {} && !s.sends[send].pruned {
      var b := s.sends[send];
      if b.failed == {} {
        assert forall id | 0 <= id < |s.owner| :: Present(t, id) <==> Present(s, id) by {
          PresentByTables(s, t);
        }
      } else {
        DropShrinks(s, b.task, b.failed, t);
        DropTidy(s, b.task, b.failed, t);
      }
    }
  }

  lemma PresentByTables(s: State, t: State)
    requires s.streams == t.streams && s.owner == t.owner
    ensures forall id: nat :: Present(s, id) <==> Present(t, id)
  {
  }

  lemma CloseKeeps(s: State, id: nat)
    requires Tidy(s)
    ensures Tidy(Next(s, Close(id)))
  {
    hide Present;
    var t := Next(s, Close(id));
    PresentByTables(s, t);
    assert forall other: nat | other in t.closed :: other in s.closed || (other == id && id < |s.owner|);
    assert s.closed <= t.closed;
    forall k | 0 <= k < |t.sends|
      ensures BroadcastTidy(t, t.sends[k])
    {
      assert BroadcastTidy(s, s.sends[k]);
    }
    assert TablesTidy(t);
    assert OpenPresent(t);
  }

  lemma StepKeeps(s: State, step: Step)
    requires Tidy(s)
    ensures Tidy(Next(s, step))
  {
    hide Next, Tidy;
    match step
    case Register(task) => RegisterKeeps(s, task);
    case Close(id) => CloseKeeps(s, id);
    case CleanUp(id) => CleanUpKeeps(s, id);
    case Remove(task, id) => RemoveKeeps(s, task, id);
    case BeginSend(task) => SendKeeps(s, task);
    case Deliver(send, id) => DeliverKeeps(s, send, id);
    case Prune(send) => PruneKeeps(s, send);
  }

  /** Under every interleaving: no empty table, tables that hold only their own task's
      subscribers, every open subscriber not removed still present, and every broadcast
      accounting for each of its targets once. */
  lemma {:induction false} RunsAreTidy(s: State, steps: seq<Step>)
    requires Tidy(s)
    ensures Tidy(Run(s, steps))
    decreases |steps|
  {
    hide Next, Tidy;
    if steps != [] {
      StepKeeps(s, steps[0]);
      RunsAreTidy(Next(s, steps[0]), steps[1..]);
    }
  }

  lemma TidyFromTheStart(steps: seq<Step>)
    ensures Tidy(Run(INITIAL, steps))
  {
    RunsAreTidy(INITIAL, steps);
  }

  /** A subscriber that has gone from its table never comes back. */
  lemma {:induction false} GoneForGood(s: State, steps: seq<Step>, id: nat)
    requires Tidy(s) && id < |s.owner| && !Present(s, id)
    ensures !Present(Run(s, steps), id)
    decreases |steps|
  {
    hide Next, Tidy, Present;
    if steps != [] {
      StepKeeps(s, steps[0]);
      StepForgets(s, steps[0], id);
      GoneForGood(Next(s, steps[0]), steps[1..], id);
    }
  }

  lemma StepForgets(s: State, step: Step, id: nat)
    requires Tidy(s) && id < |s.owner| && !Present(s, id)
    ensures var t := Next(s, step); id < |t.owner| && !Present(t, id)
  {
    hide BroadcastTidy;
  }

  /** Closing, removal and clean-up are never undone, and no one is disowned. */
  ghost predicate Grows(s: State, t: State) {
    s.owner <= t.owner && s.closed <= t.closed && s.removed <= t.removed && s.cleaned <= t.cleaned && |s.sends| <= |t.sends|
  }

  lemma {:induction false} RunsGrow(s: State, steps: seq<Step>)
    ensures Grows(s, Run(s, steps))
    decreases |steps|
  {
    hide Drop, Table;
    if steps != [] {
      assert Grows(s, Next(s, steps[0]));
      RunsGrow(Next(s, steps[0]), steps[1..]);
    }
  }

  /** A subscriber leaves its table only because its receiver closed or because it was
      removed by hand; failed deliveries alone never push out an open one. */
  lemma LeavesOnlyClosedOrRemoved(before: seq<Step>, after: seq<Step>, id: nat)
    requires Present(Run(INITIAL, before), id)
    ensures var t := Run(Run(INITIAL, before), after);
            Present(t, id) || id in t.closed || id in t.removed
  {
    hide Run, Present;
    var s := Run(INITIAL, before);
    TidyFromTheStart(before);
    RunsAreTidy(s, after);
    RunsGrow(s, after);
    PresentIsKnown(s, id);
  }

  lemma PresentIsKnown(s: State, id: nat)
    requires Present(s, id)
    ensures id < |s.owner|
  {
  }

  /** No clean-up is outstanding. */
  ghost predicate Quiet(s: State) { s.closed <= s.cleaned }

  /** Once no clean-up is outstanding the tables are exact: a subscriber is present if and
      only if it is open and was not removed, and a task has a table if and only if it has
      such a subscriber. */
  lemma QuietTablesAreExact(steps: seq<Step>)
    requires Quiet(Run(INITIAL, steps))
    ensures var s := Run(INITIAL, steps);
            && (forall id | 0 <= id < |s.owner| :: Present(s, id) <==> id !in s.closed && id !in s.removed)
            && (forall task :: task in s.streams <==> exists id | 0 <= id < |s.owner| :: s.owner[id] == task && Present(s, id))
  {
    hide Run;
    var s := Run(INITIAL, steps);
    TidyFromTheStart(steps);
    forall task
      ensures task in s.streams <==> exists id | 0 <= id < |s.owner| :: s.owner[id] == task && Present(s, id)
    {
      if task in s.streams {
        var id :| id in s.streams[task];
        assert s.owner[id] == task && Present(s, id);
      }
    }
  }

  /** A finished broadcast: every target taken from the table got the event or had closed,
      never both, and of the failed ones none is or will be present again. */
  lemma BroadcastAccounts(before: seq<Step>, send: nat, after: seq<Step>)
    requires var s := Run(INITIAL, before); send < |s.sends| && s.sends[send].pruned
    ensures var s := Run(INITIAL, before);
            var b := s.sends[send];
            && b.targets == b.delivered + b.failed && b.delivered !! b.failed && b.failed <= s.closed
            && (forall id: nat | id in b.failed :: !Present(Run(s, after), id))
  {
    hide Run, Present;
    var s := Run(INITIAL, before);
    TidyFromTheStart(before);
    forall id: nat | id in s.sends[send].failed
      ensures !Present(Run(s, after), id)
    {
      GoneForGood(s, after, id);
    }
  }

  /** A broadcast keeps its task and its targets. */
  lemma {:induction false} TargetsStay(s: State, steps: seq<Step>, send: nat)
    requires send < |s.sends|
    ensures var t := Run(s, steps);
            send < |t.sends| && t.sends[send].task == s.sends[send].task && t.sends[send].targets == s.sends[send].targets
    decreases |steps|
  {
    hide Drop, Table;
    if steps != [] {
      TargetsStay(Next(s, steps[0]), steps[1..], send);
    }
  }

  /** The targets of a broadcast are exactly the subscribers of its task that are present when
      it begins. */
  lemma TargetsAreExact(before: seq<Step>, task: string, after: seq<Step>)
    ensures var s := Run(INITIAL, before);
            var t := Run(Next(s, BeginSend(task)), after);
            && |s.sends| < |t.sends|
            && forall id: nat :: id in t.sends[|s.sends|].targets <==> Present(s, id) && s.owner[id] == task
  {
    hide Run;
    var s := Run(INITIAL, before);
    TidyFromTheStart(before);
    TableStaysInTask(s, task);
    TargetsStay(Next(s, BeginSend(task)), after, |s.sends|);
  }

  /** A finished broadcast has reached every subscriber of its task that had registered and
      was not removed when it began, unless its receiver closed; and nobody else. */
  lemma BroadcastReachesTheOpen(before: seq<Step>, task: string, after: seq<Step>, id: nat)
    requires var s := Run(INITIAL, before);
             var t := Run(Next(s, BeginSend(task)), after);
             |s.sends| < |t.sends| && t.sends[|s.sends|].pruned
    ensures var s := Run(INITIAL, before);
            var t := Run(Next(s, BeginSend(task)), after);
            && (id < |s.owner| && s.owner[id] == task && id !in s.removed && id !in t.closed
                ==> id in t.sends[|s.sends|].delivered)
            && (id in t.sends[|s.sends|].delivered ==> Present(s, id) && s.owner[id] == task)
  {
    hide Run, Next, Present;
    var s := Run(INITIAL, before);
    var s1 := Next(s, BeginSend(task));
    TargetsAreExact(before, task, after);
    TidyFromTheStart(before);
    StepKeeps(s, BeginSend(task));
    RunsAreTidy(s1, after);
    RunsGrow(s1, after);
    BeginCloses(s, task);
  }

  lemma BeginCloses(s: State, task: string)
    ensures Next(s, BeginSend(task)).closed == s.closed
  {
  }

  // ----- the shared table ----------------------------------------------------------------------

  class TaskStreamManager {
    var streams: Streams
    var owner: seq<string>
    var closed: set<nat>
    ghost var cleaned: set<nat>
    ghost var removed: set<nat>
    ghost var sends: seq<Broadcast>

    ghost function St(): State
      reads this
    {
      State(streams, owner, closed, cleaned, removed, sends)
    }

    constructor ()
      ensures St() == INITIAL
    {
      streams, owner, closed := map[], [], {};
      cleaned, removed, sends := {}, {}, [];
    }

    method Register(task: string) returns (id: nat)
      modifies this`streams, this`owner
      ensures St() == Next(old(St()), Step.Register(task))
      ensures id == |old(owner)| && (forall t :: id in Table(streams, t) ==> t == task || id in Table(old(streams), t))
    {
      id := |owner|;
      owner := owner + [task];
      if task !in streams {
        streams := streams[task := {}];
      }
      streams := streams[task := streams[task] + {id}];
    }

    method Discard(task: string, ids: set<nat>)
      modifies this`streams
      ensures streams == Drop(old(streams), task, ids)
    {
      if task in streams {
        streams := streams[task := streams[task] - ids];
        if streams[task] == {} {
          streams := streams - {task};
        }
      }
    }

    method Remove(task: string, id: nat)
      modifies this`streams, this`removed
      ensures St() == Next(old(St()), Step.Remove(task, id))
    {
      removed := if id < |owner| && owner[id] == task then removed + {id} else removed;
      Discard(task, {id});
    }

    /** The clean-up spawned for a subscriber, once its receiver has closed. */
    method CleanUpAfterClose(id: nat)
      requires id < |owner| && id in closed && id !in cleaned
      modifies this`streams, this`cleaned
      ensures St() == Next(old(St()), CleanUp(id))
    {
      cleaned := cleaned + {id};
      Discard(owner[id], {id});
    }

    /** One attempt at handing an event to a target of broadcast `k`. */
    method SendTo(ghost k: nat, id: nat) returns (failed: bool)
      requires k < |sends| && id in sends[k].waiting
      modifies this`sends
      ensures St() == Next(old(St()), Deliver(k, id)) && failed == (id in closed)
    {
      failed := id in closed;
      ghost var b := sends[k];
      sends := sends[k := if failed then b.(waiting := b.waiting - {id}, failed := b.failed + {id})
                          else b.(waiting := b.waiting - {id}, delivered := b.delivered + {id})];
    }

    /** A broadcast with nothing in between: every open subscriber of the task gets the
        event, and the task keeps exactly those. */
    method Send(task: string)
      modifies this`streams, this`sends
      ensures streams == if Table(old(streams), task) !! closed then old(streams) else Drop(old(streams), task, closed)
      ensures |sends| == |old(sends)| + 1 && sends[..|old(sends)|] == old(sends)
      ensures var targets := Table(old(streams), task);
              sends[|old(sends)|] == Broadcast(task, targets, {}, targets - closed, targets * closed, true)
    {
      ghost var k := |sends|;
      var targets := if task in streams then streams[task] else {};
      sends := sends + [Broadcast(task, targets, targets, {}, {}, false)];
      var failed := Deliveries(k, targets);
      sends := sends[k := sends[k].(pruned := true)];
      if failed != {} {
        Discard(task, failed);
      }
      assert targets - failed == targets - closed;
    }

    method Deliveries(ghost k: nat, targets: set<nat>) returns (failed: set<nat>)
      requires k < |sends| && sends[k].waiting == targets == sends[k].targets
      requires sends[k].delivered == {} && sends[k].failed == {} && !sends[k].pruned
      modifies this`sends
      ensures failed == targets * closed
      ensures sends == old(sends)[k := Broadcast(old(sends)[k].task, targets, {}, targets - closed, failed, false)]
    {
      ghost var task, was := sends[k].task, sends;
      var waiting := targets;
      failed := {};
      DeliveredSoFar(targets, closed);
      assert sends == was[k := Broadcast(task, targets, waiting, {}, {}, false)];
      while waiting != {}
        invariant waiting <= targets && failed == (targets - waiting) * closed
        invariant |sends| == |was| && sends == was[k := sends[k]]
        invariant sends[k] == Broadcast(task, targets, waiting, (targets - waiting) - closed, failed, false)
        decreases |waiting|
      {
        var id :| id in waiting;
        DeliverOne(targets, waiting, closed, id);
        var err := SendTo(k, id);
        waiting := waiting - {id};
        if err {
          failed := failed + {id};
        }
      }
      assert targets - {} == targets;
    }
  }

  lemma DeliveredSoFar(targets: set<nat>, closed: set<nat>)
    ensures (targets - targets) * closed == {} && (targets - targets) - closed == {}
  {
  }

  lemma DeliverOne(targets: set<nat>, waiting: set<nat>, closed: set<nat>, id: nat)
    requires waiting <= targets && id in waiting
    ensures var done, done' := targets - waiting, targets - (waiting - {id});
            && done' * closed == (if id in closed then done * closed + {id} else done * closed)
            && done' - closed == (if id in closed then done - closed else done - closed + {id})
  {
    assert targets - (waiting - {id}) == (targets - waiting) + {id};
  }
}
