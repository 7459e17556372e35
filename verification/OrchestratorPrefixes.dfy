/** The prefixes of frames: without injections and resumed frames each lies below the one
    under it, and for specs numbered in decimal they are the positions in the tree of specs. */
module OrchestratorPrefixes {
  import opened Text
  import opened Specs
  import opened Orchestrator
  import opened OrchestratorTurns
  import OrchestratorOrder

  // ----- what a step pushes --------------------------------------------------------------

  /** The same spec at the same place, at whichever step. */
  predicate Sibling(f: Frame, g: Frame) {
    g.prefix == f.prefix && OrchestratorOrder.SameShape(f.spec, g.spec)
  }

  /** The child that the outcome `a` of the step of `f` carries. */
  predicate Child(f: Frame, a: Attempt, g: Frame)
    requires !f.Exhausted() && a.Ran?
  {
    g.prefix == f.StepPrefix() && a.task.subSpec == Some(g.spec)
  }

  /** The frame's own spec again, a child, or the one under the other. */
  predicate PushedAs(ps: seq<Frame>, f: Frame, a: Attempt)
    requires !f.Exhausted() && a.Ran?
  {
    || ps == []
    || (|ps| == 1 && Sibling(f, ps[0]))
    || (|ps| == 1 && Child(f, a, ps[0]))
    || (|ps| == 2 && Sibling(f, ps[0]) && Child(f, a, ps[1]))
  }

  lemma SplitShape(f: Frame, a: Attempt)
    requires !f.Exhausted() && a.Ran? && !SetStatus(f, InProgress).Exhausted()
    requires FateOf(SetStatus(f, InProgress).Step(), a).Splits?
    ensures PushedAs(Pushes(SetStatus(f, InProgress), a), f, a)
  {
    hide Compose;
  }

  lemma SuccessShape(f: Frame, a: Attempt)
    requires !f.Exhausted() && a.Ran? && !SetStatus(f, InProgress).Exhausted()
    requires FateOf(SetStatus(f, InProgress).Step(), a).Succeeds?
    ensures PushedAs(Pushes(SetStatus(f, InProgress), a), f, a)
  {
    hide Compose, AppendHistory;
  }

  lemma PushesShape(f: Frame, a: Attempt)
    requires !f.Exhausted() && a.Ran? && !SetStatus(f, InProgress).Exhausted()
    ensures PushedAs(Pushes(SetStatus(f, InProgress), a), f, a)
  {
    hide Compose, FateOf, Succeeded;
    match FateOf(SetStatus(f, InProgress).Step(), a) {
      case Splits(_) => SplitShape(f, a);
      case Succeeds(_) => SuccessShape(f, a);
      case _ =>
    }
  }

  // ----- the stack -------------------------------------------------------------------------

  /** `q` continues `p` by further components. */
  predicate Below(p: string, q: string) {
    if p == "" then q != "" else p + "." <= q
  }

  lemma BelowTrans(p: string, q: string, r: string)
    requires Below(p, q) && Below(q, r)
    ensures Below(p, r)
  {
  }

  /** A frame of the root spec: its steps have names. */
  predicate Named(f: Frame) {
    f.prefix == "" ==> AllNamed(f.spec)
  }

  predicate AllNamed(spec: SpecSheet) {
    forall i | 0 <= i < |spec.steps| :: spec.steps[i].index != ""
  }

  /** Each frame lies below all those under it. */
  ghost predicate Descending(stack: seq<Frame>) {
    forall i, j | 0 <= i < j < |stack| :: Below(stack[i].prefix, stack[j].prefix)
  }

  ghost predicate Ascending(stack: seq<Frame>) {
    Descending(stack) && forall i | 0 <= i < |stack| :: Named(stack[i])
  }

  lemma NamedShape(a: SpecSheet, b: SpecSheet)
    requires AllNamed(a) && OrchestratorOrder.SameShape(a, b)
    ensures AllNamed(b)
  {
    forall i | 0 <= i < |b.steps| ensures b.steps[i].index != "" {
      assert OrchestratorOrder.SameStep(a.steps[i], b.steps[i]);
    }
  }

  lemma StepBelow(f: Frame)
    requires Named(f) && !f.Exhausted()
    ensures Below(f.prefix, f.StepPrefix())
  {
  }

  lemma AscendBelow(stack: seq<Frame>, f: Frame)
    requires Ascending(stack + [f])
    ensures Ascending(stack) && Named(f)
    ensures forall i | 0 <= i < |stack| :: Below(stack[i].prefix, f.prefix)
  {
    hide Named, Below;
    var all := stack + [f];
    assert all[|stack|] == f && forall i | 0 <= i < |stack| :: all[i] == stack[i];
  }

  lemma AscendSnoc(stack: seq<Frame>, f: Frame)
    requires Ascending(stack) && Named(f)
    requires forall i | 0 <= i < |stack| :: Below(stack[i].prefix, f.prefix)
    ensures Ascending(stack + [f])
  {
    hide Named, Below;
  }

  lemma PushSibling(stack: seq<Frame>, f: Frame, g: Frame)
    requires Ascending(stack + [f]) && Sibling(f, g)
    ensures Ascending(stack + [g])
  {
    hide Ascending, OrchestratorOrder.SameShape, AllNamed;
    AscendBelow(stack, f);
    if f.prefix == "" {
      NamedShape(f.spec, g.spec);
    }
    AscendSnoc(stack, g);
  }

  lemma PushChild(stack: seq<Frame>, f: Frame, a: Attempt, g: Frame)
    requires Ascending(stack + [f]) && !f.Exhausted() && a.Ran? && Child(f, a, g)
    ensures Ascending(stack + [g]) && Below(f.prefix, g.prefix)
  {
    hide Ascending, AllNamed, Compose;
    AscendBelow(stack, f);
    StepBelow(f);
    forall i | 0 <= i < |stack| ensures Below(stack[i].prefix, g.prefix) {
      BelowTrans(stack[i].prefix, f.prefix, g.prefix);
    }
    AscendSnoc(stack, g);
  }

  lemma PushesAscend(stack: seq<Frame>, f: Frame, a: Attempt, ps: seq<Frame>)
    requires Ascending(stack + [f]) && !f.Exhausted() && a.Ran? && PushedAs(ps, f, a)
    ensures Ascending(stack + ps)
  {
    hide Ascending, Sibling, Child, Below, Named;
    AscendBelow(stack, f);
    assert ps == [] ==> stack + ps == stack;
    assert |ps| == 1 ==> ps == [ps[0]];
    if |ps| == 2 {
      PushBoth(stack, f, a, ps[0], ps[1]);
      assert stack + ps == stack + [ps[0]] + [ps[1]];
    } else if |ps| == 1 && Sibling(f, ps[0]) {
      PushSibling(stack, f, ps[0]);
    } else if |ps| == 1 {
      PushChild(stack, f, a, ps[0]);
    }
  }

  lemma PushBoth(stack: seq<Frame>, f: Frame, a: Attempt, g: Frame, h: Frame)
    requires Ascending(stack + [f]) && !f.Exhausted() && a.Ran? && Sibling(f, g) && Child(f, a, h)
    ensures Ascending(stack + [g] + [h])
  {
    hide Ascending, Below, Named, OrchestratorOrder.SameShape, Compose;
    PushSibling(stack, f, g);
    PushChild(stack, f, a, h);
    AscendBelow(stack, h);
    AscendSnoc(stack + [g], h);
  }

  lemma {:induction false} AfterAscends(s: State, n: nat)
    requires Ascending(s.stack) && AllTame(s.inbox)
    ensures Ascending(After(s, n).stack)
    decreases n
  {
    hide Ascending, Turn, Polled, SetStatus, Pushes, PushedAs, Tame;
    if n > 0 && s.stack != [] {
      var rest, f := Pop(s), Top(s);
      assert s.stack == rest.stack + [f];
      var t := Turn(rest, f);
      TurnPutsBack(rest, f);
      TamePolled(rest, t.s);
      AscendBelow(rest.stack, f);
      if Works(rest, f) {
        PushesShape(f, rest.agents[0]);
        PushesAscend(rest.stack, f, rest.agents[0], Pushes(SetStatus(f, InProgress), rest.agents[0]));
      }
      if t.Continue? {
        AfterAscends(t.s, n - 1);
      }
    }
  }

  /** In every reachable state of every run without injections and resume-steps, whatever is
      paused, resumed, cancelled or aborted and whatever the outcomes, each frame lies below
      those under it. */
  ghost predicate AllRunsDescend(spec: SpecSheet) {
    forall inbox, agents, n: nat | AllTame(inbox) :: Descending(After(Init(spec, inbox, agents), n).stack)
  }

  function Fails(): Attempt {
    Ran(Task("t", TaskFailed, None, true), false, Verified)
  }

  function SplitsOff(): Attempt {
    Ran(Task("t", Submitted, Some(SpecSheet("c", [], Absent)), true), false, Verified)
  }

  /** After `k` failed tasks a split leaves a child of the step `k` further on. */
  lemma {:induction false} SplitsAfter(s: State, k: nat)
    requires OrchestratorOrder.Quiet(s) && |s.stack| == 1 && s.stack[0].idx + k < |s.stack[0].spec.steps|
    requires s.agents == seq(k, _ => Fails()) + [SplitsOff()]
    ensures var f := s.stack[0];
            var stack := After(s, k + 1).stack;
            && |stack| == 2 && stack[0].prefix == f.prefix
            && stack[1].prefix == Compose(f.prefix, f.spec.steps[f.idx + k].index)
    decreases k
  {
    hide Turn, Compose, OrchestratorOrder.Visit;
    var f := s.stack[0];
    OrchestratorOrder.QuietTurn(Pop(s), f);
    var t := Turn(Pop(s), f).s;
    if k == 0 {
      assert After(t, 0) == t;
    } else {
      assert s.agents[0] == Fails() && s.agents[1..] == seq(k - 1, _ => Fails()) + [SplitsOff()];
      assert t.stack == [SetStatus(SetStatus(f, InProgress), Failed).(idx := f.idx + 1)];
      SplitsAfter(t, k - 1);
    }
  }

  /** They do exactly when every step of the root spec has a name. */
  lemma PrefixesExtendIff(spec: SpecSheet)
    ensures AllRunsDescend(spec) <==> AllNamed(spec)
  {
    hide After, Tame, Turn;
    if AllNamed(spec) {
      forall inbox, agents, n: nat | AllTame(inbox)
        ensures Descending(After(Init(spec, inbox, agents), n).stack)
      {
        AfterAscends(Init(spec, inbox, agents), n);
      }
    } else {
      var k :| 0 <= k < |spec.steps| && spec.steps[k].index == "";
      var agents := seq(k, _ => Fails()) + [SplitsOff()];
      var s := Init(spec, [], agents);
      SplitsAfter(s, k);
      var stack := After(s, k + 1).stack;
      assert stack[0].prefix == "" && stack[1].prefix == "" && !Below(stack[0].prefix, stack[1].prefix);
      assert AllTame([]) && !Descending(stack);
    }
  }

  // ----- positions in the tree of specs --------------------------------------------------

  function Decimal(n: nat): (s: string)
    ensures s != "" && forall i | 0 <= i < |s| :: '0' <= s[i] <= '9'
  {
    (if n < 10 then "" else Decimal(n / 10)) + [(n % 10 + '0' as int) as char]
  }

  lemma {:induction false} DecimalInjective(a: nat, b: nat)
    requires Decimal(a) == Decimal(b)
    ensures a == b
  {
    var s := Decimal(a);
    assert s[|s| - 1] == (a % 10 + '0' as int) as char == (b % 10 + '0' as int) as char;
    assert a % 10 == b % 10;
    assert a >= 10 ==> s[..|s| - 1] == Decimal(a / 10);
    assert b >= 10 ==> s[..|s| - 1] == Decimal(b / 10);
    assert a < 10 ==> s[..|s| - 1] == "";
    assert b < 10 ==> s[..|s| - 1] == "";
    if a >= 10 && b >= 10 {
      DecimalInjective(a / 10, b / 10);
    }
  }

  /** The prefix of a position in the tree of specs, given as step numbers from the root. */
  function PrefixOf(path: seq<nat>): string {
    if path == [] then "" else Compose(PrefixOf(path[..|path| - 1]), Decimal(path[|path| - 1]))
  }

  predicate IsDigits(s: string) {
    forall i | 0 <= i < |s| :: '0' <= s[i] <= '9'
  }

  /** The last component is what follows the last dot. */
  lemma LastComponent(p: string, d: string, q: string, e: string)
    requires d != "" && e != "" && IsDigits(d) && IsDigits(e)
    requires Compose(p, d) == Compose(q, e)
    ensures p == q && d == e
  {
    var s := Compose(p, d);
    assert s[|s| - |d|..] == d && s[|s| - |e|..] == e;
    assert forall i | 0 <= i < |d| :: s[|s| - |d| + i] == d[i];
    assert forall i | 0 <= i < |e| :: s[|s| - |e| + i] == e[i];
    assert forall i | |s| - |d| <= i < |s| :: s[i] == d[i - (|s| - |d|)];
    assert forall i | |s| - |e| <= i < |s| :: s[i] == e[i - (|s| - |e|)];
    assert p != "" ==> s[|s| - |d| - 1] == '.' && s[..|s| - |d| - 1] == p;
    assert q != "" ==> s[|s| - |e| - 1] == '.' && s[..|s| - |e| - 1] == q;
    assert |d| == |e|;
  }

  /** With decimal step indices, distinct positions have distinct prefixes. */
  lemma {:induction false} PrefixInjective(a: seq<nat>, b: seq<nat>)
    requires PrefixOf(a) == PrefixOf(b)
    ensures a == b
    decreases |a|
  {
    if a == [] || b == [] {
      assert a != [] ==> PrefixOf(a) != "";
      assert b != [] ==> PrefixOf(b) != "";
    } else {
      var la, lb := a[|a| - 1], b[|b| - 1];
      LastComponent(PrefixOf(a[..|a| - 1]), Decimal(la), PrefixOf(b[..|b| - 1]), Decimal(lb));
      DecimalInjective(la, lb);
      PrefixInjective(a[..|a| - 1], b[..|b| - 1]);
      assert a == a[..|a| - 1] + [la] && b == b[..|b| - 1] + [lb];
    }
  }

  lemma DottedAt(p: string, d: string, k: nat)
    requires IsDigits(d) && k < |Compose(p, d)| && Compose(p, d)[k] == '.'
    ensures k <= |p| && (k < |p| ==> p[k] == '.')
  {
  }

  /** A prefix lies below another exactly when its position does in the tree. */
  lemma {:induction false} BelowIsDescendant(a: seq<nat>, b: seq<nat>)
    ensures Below(PrefixOf(a), PrefixOf(b)) <==> a < b
    decreases |b|
  {
    hide Decimal, Compose;
    if b != [] {
      var c, d := b[..|b| - 1], Decimal(b[|b| - 1]);
      assert b == c + [b[|b| - 1]];
      BelowIsDescendant(a, c);
      LastBelow(PrefixOf(a), PrefixOf(c), d);
      if PrefixOf(a) == PrefixOf(c) {
        PrefixInjective(a, c);
      }
      assert a < b <==> a == c || a < c;
    } else {
      OnlyRootIsEmpty(a);
    }
  }

  lemma OnlyRootIsEmpty(a: seq<nat>)
    ensures PrefixOf(a) == "" <==> a == []
  {
    hide Decimal;
  }

  lemma LastBelow(p: string, q: string, d: string)
    requires IsDigits(d) && d != ""
    ensures Below(p, Compose(q, d)) <==> p == q || Below(p, q)
  {
    var r := Compose(q, d);
    if p != "" && p + "." <= r {
      assert r[|p|] == (p + ".")[|p|] == '.';
      DottedAt(q, d, |p|);
      assert q != "" && r == q + "." + d && p == r[..|p|] && q == r[..|q|];
      assert |p| < |q| ==> p + "." == r[..|p| + 1] == q[..|p| + 1];
    }
  }

  // ----- reachable frames stand at positions -----------------------------------------------

  /** The numbering that loaded specs must have: "1", "2", and so on. */
  predicate Numbered(spec: SpecSheet) {
    forall i | 0 <= i < |spec.steps| :: spec.steps[i].index == Decimal(i + 1)
  }

  ghost predicate HasPosition(prefix: string) {
    exists path :: prefix == PrefixOf(path)
  }

  ghost predicate Placed(f: Frame) {
    Numbered(f.spec) && HasPosition(f.prefix)
  }

  ghost predicate AllPlaced(s: State) {
    && (forall i | 0 <= i < |s.stack| :: Placed(s.stack[i]))
    && (s.pendingResume.Some? ==> Placed(s.pendingResume.value))
  }

  predicate ChildrenNumbered(agents: seq<Attempt>) {
    forall i | 0 <= i < |agents| && agents[i].Ran? && agents[i].task.subSpec.Some? ::
      Numbered(agents[i].task.subSpec.value)
  }

  /** Any command, but an injection is of a numbered spec under a number. */
  ghost predicate Numbers(c: Command) {
    c.InjectSplit? ==> Numbered(c.childSpec) && exists k: nat :: c.stepIndex == Decimal(k)
  }

  ghost predicate AllNumber(inbox: seq<seq<Command>>) {
    forall i, j | 0 <= i < |inbox| && 0 <= j < |inbox[i]| :: Numbers(inbox[i][j])
  }

  lemma {:induction false} NumbersConcat(inbox: seq<seq<Command>>)
    requires AllNumber(inbox)
    ensures forall i | 0 <= i < |Concat(inbox)| :: Numbers(Concat(inbox)[i])
    decreases |inbox|
  {
    hide Numbers;
    if inbox != [] {
      assert forall i | 0 <= i < |inbox[1..]| :: inbox[1..][i] == inbox[i + 1];
      NumbersConcat(inbox[1..]);
    }
  }

  lemma NumberedShape(a: SpecSheet, b: SpecSheet)
    requires Numbered(a) && OrchestratorOrder.SameShape(a, b)
    ensures Numbered(b)
  {
    hide Decimal;
    forall i | 0 <= i < |b.steps| ensures b.steps[i].index == Decimal(i + 1) {
      assert OrchestratorOrder.SameStep(a.steps[i], b.steps[i]);
    }
  }

  lemma PlaceSibling(f: Frame, g: Frame)
    requires Placed(f) && Sibling(f, g)
    ensures Placed(g)
  {
    hide Numbered, OrchestratorOrder.SameShape, PrefixOf;
    NumberedShape(f.spec, g.spec);
  }

  lemma PlaceBelow(p: string, path: seq<nat>, k: nat)
    requires p == PrefixOf(path)
    ensures Compose(p, Decimal(k)) == PrefixOf(path + [k])
  {
    hide Decimal, Compose;
    assert (path + [k])[..|path|] == path;
  }

  lemma PlaceChild(f: Frame, a: Attempt, g: Frame)
    requires Placed(f) && !f.Exhausted() && a.Ran? && Child(f, a, g) && Numbered(g.spec)
    ensures Placed(g)
  {
    hide PrefixOf, Decimal, Compose;
    var path :| f.prefix == PrefixOf(path);
    PlaceBelow(f.prefix, path, f.idx + 1);
  }

  lemma PlacePushed(f: Frame, a: Attempt, ps: seq<Frame>)
    requires Placed(f) && !f.Exhausted() && a.Ran? && PushedAs(ps, f, a)
    requires a.task.subSpec.Some? ==> Numbered(a.task.subSpec.value)
    ensures forall i | 0 <= i < |ps| :: Placed(ps[i])
  {
    hide Placed, Numbered, Sibling;
    forall i | 0 <= i < |ps| ensures Placed(ps[i]) {
      if Sibling(f, ps[i]) {
        PlaceSibling(f, ps[i]);
      } else {
        PlaceChild(f, a, ps[i]);
      }
    }
  }

  lemma StatusSibling(f: Frame, status: StepStatus)
    ensures Sibling(f, SetStatus(f, status))
  {
  }

  lemma NoteSibling(f: Frame, message: string)
    ensures Sibling(f, AddNote(f, message))
  {
  }

  lemma CommandPlaces(s: State, c: Command)
    requires AllPlaced(s) && Numbers(c)
    ensures AllPlaced(ApplyCommand(s, c))
  {
    hide Placed, Numbered, SetStatus, AddNote, Sibling;
    if c.InjectSplit? {
      PlaceInjected(s, c);
    } else if c.ResumeStep? && s.pendingResume.Some? {
      var f := s.pendingResume.value;
      var g := SetStatus(f, Pending);
      StatusSibling(f, Pending);
      PlaceSibling(f, g);
      NoteSibling(g, c.message);
      PlaceSibling(g, AddNote(g, c.message));
    }
  }

  lemma PlaceInjected(s: State, c: Command)
    requires AllPlaced(s) && Numbers(c) && c.InjectSplit?
    ensures AllPlaced(ApplyCommand(s, c))
  {
    hide Numbered, Decimal, PrefixOf, Compose, AllPlaced;
    var k: nat :| c.stepIndex == Decimal(k);
    var under := if s.stack == [] then "" else Top(s).prefix;
    EmptyPrefix(c.stepIndex);
    if s.stack != [] {
      TopPlaced(s);
    } else {
      RootHasPosition();
    }
    var path :| under == PrefixOf(path);
    PlaceBelow(under, path, k);
    PlacedSnoc(s, Frame(c.childSpec, 0, Compose(under, c.stepIndex)));
  }

  lemma EmptyPrefix(index: string)
    ensures Compose("", index) == index
  {
  }

  lemma TopPlaced(s: State)
    requires AllPlaced(s) && s.stack != []
    ensures Placed(Top(s)) && AllPlaced(Pop(s))
  {
    hide Placed;
  }

  lemma PlacedSnoc(s: State, f: Frame)
    requires AllPlaced(s) && Placed(f)
    ensures forall es :: AllPlaced(Emit(s.(stack := s.stack + [f]), es))
  {
    hide Placed;
  }

  lemma {:induction false} BatchPlaces(s: State, batch: seq<Command>)
    requires AllPlaced(s) && forall i | 0 <= i < |batch| :: Numbers(batch[i])
    ensures AllPlaced(ApplyBatch(s, batch).0)
    decreases |batch|
  {
    hide AllPlaced, Numbers, ApplyCommand;
    if batch != [] {
      CommandPlaces(s, batch[0]);
      if !batch[0].Abort? {
        assert forall i | 0 <= i < |batch[1..]| :: batch[1..][i] == batch[i + 1];
        BatchPlaces(ApplyCommand(s, batch[0]), batch[1..]);
      }
    }
  }

  lemma TurnPlaces(s: State, f: Frame)
    requires AllPlaced(s) && Placed(f) && AllNumber(s.inbox) && ChildrenNumbered(s.agents)
    ensures var t := Turn(s, f).s;
            AllPlaced(t) && AllNumber(t.inbox) && ChildrenNumbered(t.agents)
  {
    hide Turn, ApplyBatch, Placed, Numbers, Numbered, SetStatus, Pushes, PushedAs, Sibling;
    var t := Turn(s, f).s;
    TurnPutsBack(s, f);
    TurnAgents(s, f);
    var k := |s.inbox| - |t.inbox|;
    assert forall i | 0 <= i < |t.inbox| :: t.inbox[i] == s.inbox[k + i];
    assert t.agents != s.agents ==> forall i | 0 <= i < |t.agents| :: t.agents[i] == s.agents[i + 1];
    NumbersConcat(s.inbox[..k]);
    BatchPlaces(s, ReadBy(s, t));
    if Works(s, f) {
      PushesShape(f, s.agents[0]);
      PlacePushed(f, s.agents[0], Pushes(SetStatus(f, InProgress), s.agents[0]));
    } else if Suspends(s, f) {
      var g := SetStatus(f, InProgress);
      StatusSibling(f, InProgress);
      PlaceSibling(f, g);
      StatusSibling(g, Pending);
      PlaceSibling(g, SetStatus(g, Pending));
    }
  }

  lemma {:induction false} AfterPlaced(s: State, n: nat)
    requires AllPlaced(s) && AllNumber(s.inbox) && ChildrenNumbered(s.agents)
    ensures AllPlaced(After(s, n))
    decreases n
  {
    hide AllPlaced, Placed, AllNumber, ChildrenNumbered, Turn;
    if n > 0 && s.stack != [] {
      TopPlaced(s);
      TurnPlaces(Pop(s), Top(s));
      var t := Turn(Pop(s), Top(s));
      if t.Continue? {
        AfterPlaced(t.s, n - 1);
      }
    }
  }

  /** Over any commands and any outcomes, as long as every spec is numbered in decimal, each
      frame on the stack or pending stands at a position in the tree of specs. */
  lemma FramesArePlaced(spec: SpecSheet, inbox: seq<seq<Command>>, agents: seq<Attempt>, n: nat)
    requires Numbered(spec) && AllNumber(inbox) && ChildrenNumbered(agents)
    ensures var s := After(Init(spec, inbox, agents), n);
            && (forall i | 0 <= i < |s.stack| :: HasPosition(s.stack[i].prefix))
            && (s.pendingResume.Some? ==> HasPosition(s.pendingResume.value.prefix))
  {
    hide After, Numbered, Numbers, HasPosition;
    RootHasPosition();
    AfterPlaced(Init(spec, inbox, agents), n);
  }

  lemma RootHasPosition()
    ensures HasPosition("")
  {
    hide PrefixOf;
    OnlyRootIsEmpty([]);
  }

  /** Without injections and resume-steps the stack is one line of descent in that tree. */
  lemma StackIsDescent(spec: SpecSheet, inbox: seq<seq<Command>>, agents: seq<Attempt>, n: nat, i: nat, j: nat)
    returns (above: seq<nat>, below: seq<nat>)
    requires Numbered(spec) && AllTame(inbox) && ChildrenNumbered(agents)
    requires i < j < |After(Init(spec, inbox, agents), n).stack|
    ensures var stack := After(Init(spec, inbox, agents), n).stack;
            && stack[i].prefix == PrefixOf(above) && stack[j].prefix == PrefixOf(below)
            && above < below
  {
    hide After, Numbered, PrefixOf, Below, Tame;
    TameNumbers(inbox);
    FramesArePlaced(spec, inbox, agents, n);
    NumberedNamed(spec);
    AfterAscends(Init(spec, inbox, agents), n);
    var stack := After(Init(spec, inbox, agents), n).stack;
    above :| stack[i].prefix == PrefixOf(above);
    below :| stack[j].prefix == PrefixOf(below);
    BelowIsDescendant(above, below);
  }

  lemma NumberedNamed(spec: SpecSheet)
    requires Numbered(spec)
    ensures AllNamed(spec)
  {
    hide Decimal;
  }

  lemma TameNumbers(inbox: seq<seq<Command>>)
    requires AllTame(inbox)
    ensures AllNumber(inbox)
  {
    hide Numbered;
    forall i, j | 0 <= i < |inbox| && 0 <= j < |inbox[i]| ensures Numbers(inbox[i][j]) {
      assert Tame(inbox[i]);
    }
  }
}
