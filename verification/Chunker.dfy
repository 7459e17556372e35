/** Grouping the top-level nodes of a Python file into chunks.  The syntax tree is a list of
    ordered siblings; positions count characters. */
module Chunker {
  import opened Text

  /** A sibling: its kind, its range, and the kind of its first child, if any. */
  datatype Node = Node(kind: string, start: nat, end: nat, firstChild: Option<string>)

  datatype Chunk = Chunk(start: nat, end: nat, kind: string, text: string)

  predicate IsComment(n: Node) { n.kind == "comment" }

  predicate IsExpression(n: Node) { n.kind == "expression_statement" }

  predicate IsDoc(n: Node) { IsExpression(n) && n.firstChild == Some("string") }

  predicate IsImport(n: Node) { n.kind == "import_statement" || n.kind == "import_from_statement" }

  predicate IsTrivia(n: Node) { IsComment(n) || IsDoc(n) }

  /** Siblings in order, without overlap, inside the source. */
  ghost predicate Ordered(nodes: seq<Node>, source: string) {
    && (forall i | 0 <= i < |nodes| :: nodes[i].start <= nodes[i].end <= |source|)
    && (forall i, j | 0 <= i < j < |nodes| :: nodes[i].end <= nodes[j].start)
  }

  function TextOf(source: string, n: Node): string {
    if n.start <= n.end <= |source| then source[n.start..n.end] else "[invalid]"
  }

  /** The next sibling continues the chunk of this one. */
  predicate Joins(a: Node, b: Node) {
    ((IsImport(a) && IsImport(b)) || (IsExpression(a) && IsExpression(b))) && !IsComment(b) && !IsDoc(b)
  }

  /** The nodes `lo` to `hi` of one chunk, with the comment and the docstring put before it. */
  datatype Group = Group(lo: nat, hi: nat, comment: Option<nat>, doc: Option<nat>)

  function GroupEnd(nodes: seq<Node>, i: nat): (j: nat)
    requires i < |nodes|
    ensures i < j <= |nodes|
    decreases |nodes| - i
  {
    if i + 1 < |nodes| && Joins(nodes[i], nodes[i + 1]) then GroupEnd(nodes, i + 1) else i + 1
  }

  /** The groups from node `i` on, `comment` and `doc` being the last ones not yet used. */
  function GroupsFrom(nodes: seq<Node>, i: nat, comment: Option<nat>, doc: Option<nat>): seq<Group>
    requires i <= |nodes|
    decreases |nodes| - i
  {
    if i == |nodes| then []
    else if IsComment(nodes[i]) then GroupsFrom(nodes, i + 1, Some(i), doc)
    else if IsDoc(nodes[i]) then GroupsFrom(nodes, i + 1, comment, Some(i))
    else
      var j := GroupEnd(nodes, i);
      [Group(i, j, comment, doc)] + GroupsFrom(nodes, j, None, None)
  }

  /** The comment and the docstring left at the end of the file. */
  function LeftoverFrom(nodes: seq<Node>, i: nat, comment: Option<nat>, doc: Option<nat>): (Option<nat>, Option<nat>)
    requires i <= |nodes|
    decreases |nodes| - i
  {
    if i == |nodes| then (comment, doc)
    else if IsComment(nodes[i]) then LeftoverFrom(nodes, i + 1, Some(i), doc)
    else if IsDoc(nodes[i]) then LeftoverFrom(nodes, i + 1, comment, Some(i))
    else LeftoverFrom(nodes, GroupEnd(nodes, i), None, None)
  }

  // ----- rendering a group as a chunk ------------------------------------------------

  function KindOf(n: Node): string {
    if IsImport(n) then "import_group" else if IsExpression(n) then "expression_group" else n.kind
  }

  function StartOf(nodes: seq<Node>, g: Group): nat
    requires ValidGroup(nodes, g)
  {
    match (g.comment, g.doc)
    case (Some(c), Some(d)) => if nodes[c].start <= nodes[d].start then nodes[c].start else nodes[d].start
    case (Some(c), None) => nodes[c].start
    case (None, Some(d)) => nodes[d].start
    case (None, None) => nodes[g.lo].start
  }

  function LineOf(nodes: seq<Node>, source: string, i: Option<nat>): string
    requires i.Some? ==> i.value < |nodes|
  {
    if i.Some? then TextOf(source, nodes[i.value]) + "\n" else ""
  }

  /** The trivia lines before a chunk, in source order. */
  function TriviaOf(nodes: seq<Node>, source: string, g: Group): string
    requires ValidGroup(nodes, g)
  {
    if g.comment.Some? && g.doc.Some? && nodes[g.doc.value].start < nodes[g.comment.value].start then
      LineOf(nodes, source, g.doc) + LineOf(nodes, source, g.comment)
    else LineOf(nodes, source, g.comment) + LineOf(nodes, source, g.doc)
  }

  /** The lines of nodes `lo` to `hi`. */
  function LinesOf(nodes: seq<Node>, source: string, lo: nat, hi: nat): string
    requires lo <= hi <= |nodes|
    decreases hi - lo
  {
    if lo == hi then "" else LinesOf(nodes, source, lo, hi - 1) + TextOf(source, nodes[hi - 1]) + "\n"
  }

  predicate ValidGroup(nodes: seq<Node>, g: Group) {
    && g.lo < g.hi <= |nodes|
    && (g.comment.Some? ==> g.comment.value < g.lo)
    && (g.doc.Some? ==> g.doc.value < g.lo)
  }

  function ChunkOf(nodes: seq<Node>, source: string, g: Group): Chunk
    requires ValidGroup(nodes, g)
  {
    Chunk(StartOf(nodes, g), nodes[g.hi - 1].end, KindOf(nodes[g.lo]),
          TrimEnd(TriviaOf(nodes, source, g) + LinesOf(nodes, source, g.lo, g.hi)))
  }

  function ChunksOf(nodes: seq<Node>, source: string, groups: seq<Group>): (cs: seq<Chunk>)
    requires forall k | 0 <= k < |groups| :: ValidGroup(nodes, groups[k])
    ensures |cs| == |groups|
    ensures forall k | 0 <= k < |groups| :: cs[k] == ChunkOf(nodes, source, groups[k])
  {
    if groups == [] then []
    else [ChunkOf(nodes, source, groups[0])] + ChunksOf(nodes, source, groups[1..])
  }

  function TriviaChunk(nodes: seq<Node>, source: string, i: nat, kind: string): Chunk
    requires i < |nodes|
  {
    var text := TextOf(source, nodes[i]);
    Chunk(nodes[i].start, nodes[i].start + |text|, kind, TrimEnd(text + "\n"))
  }

  function LeftoverChunks(nodes: seq<Node>, source: string, comment: Option<nat>, doc: Option<nat>): seq<Chunk>
    requires comment.Some? ==> comment.value < |nodes|
    requires doc.Some? ==> doc.value < |nodes|
  {
    (if comment.Some? then [TriviaChunk(nodes, source, comment.value, "comment")] else [])
    + (if doc.Some? then [TriviaChunk(nodes, source, doc.value, "docstring")] else [])
  }

  // ----- the groups partition the code ---------------------------------------------------

  ghost predicate Before(o: Option<nat>, i: nat) {
    o.Some? ==> o.value < i
  }

  /** Trivia only, between two positions. */
  ghost predicate OnlyTrivia(nodes: seq<Node>, lo: nat, hi: nat) {
    lo <= hi <= |nodes| && forall k | lo <= k < hi :: IsTrivia(nodes[k])
  }

  /** The groups cover exactly the nodes from `i` on that are neither comment nor docstring,
      each once and in order, and use only trivia between them. */
  ghost predicate Partition(nodes: seq<Node>, i: nat, groups: seq<Group>)
    decreases |groups|
  {
    if groups == [] then OnlyTrivia(nodes, i, |nodes|)
    else
      var g := groups[0];
      && i <= g.lo < g.hi <= |nodes|
      && OnlyTrivia(nodes, i, g.lo)
      && (forall k | g.lo <= k < g.hi :: !IsTrivia(nodes[k]))
      && Partition(nodes, g.hi, groups[1..])
  }

  lemma {:induction false} GroupEndProps(nodes: seq<Node>, i: nat)
    requires i < |nodes| && !IsTrivia(nodes[i])
    ensures forall k | i <= k < GroupEnd(nodes, i) :: !IsTrivia(nodes[k])
    ensures forall k | i < k < GroupEnd(nodes, i) :: Joins(nodes[k - 1], nodes[k])
    ensures GroupEnd(nodes, i) > i + 1 ==>
              (forall k | i <= k < GroupEnd(nodes, i) :: IsImport(nodes[k]))
              || (forall k | i <= k < GroupEnd(nodes, i) :: IsExpression(nodes[k]))
    ensures var j := GroupEnd(nodes, i); j < |nodes| ==> !Joins(nodes[j - 1], nodes[j])
    decreases |nodes| - i
  {
    if i + 1 < |nodes| && Joins(nodes[i], nodes[i + 1]) {
      GroupEndProps(nodes, i + 1);
    }
  }

  lemma {:induction false} GroupsPartition(nodes: seq<Node>, i: nat, comment: Option<nat>, doc: Option<nat>)
    requires i <= |nodes|
    ensures Partition(nodes, i, GroupsFrom(nodes, i, comment, doc))
    decreases |nodes| - i
  {
    hide GroupEnd, Joins, IsDoc, IsComment;
    if i < |nodes| {
      if IsComment(nodes[i]) {
        GroupsPartition(nodes, i + 1, Some(i), doc);
        ExtendPartition(nodes, i, GroupsFrom(nodes, i + 1, Some(i), doc));
      } else if IsDoc(nodes[i]) {
        GroupsPartition(nodes, i + 1, comment, Some(i));
        ExtendPartition(nodes, i, GroupsFrom(nodes, i + 1, comment, Some(i)));
      } else {
        GroupEndProps(nodes, i);
        GroupsPartition(nodes, GroupEnd(nodes, i), None, None);
      }
    }
  }

  lemma ExtendPartition(nodes: seq<Node>, i: nat, groups: seq<Group>)
    requires i < |nodes| && IsTrivia(nodes[i]) && Partition(nodes, i + 1, groups)
    ensures Partition(nodes, i, groups)
  {
  }

  /** Where the trivia of a group stand: after everything before the group. */
  ghost predicate Fits(nodes: seq<Node>, from: nat, g: Group) {
    && ValidGroup(nodes, g) && from <= g.lo
    && (g.comment.Some? ==> from <= g.comment.value < g.lo && IsComment(nodes[g.comment.value]))
    && (g.doc.Some? ==> from <= g.doc.value < g.lo && IsDoc(nodes[g.doc.value]))
  }

  ghost predicate AllFit(nodes: seq<Node>, from: nat, groups: seq<Group>)
    decreases |groups|
  {
    groups == [] || (Fits(nodes, from, groups[0]) && AllFit(nodes, groups[0].hi, groups[1..]))
  }

  ghost predicate TriviaFrom(nodes: seq<Node>, from: nat, i: nat, comment: Option<nat>, doc: Option<nat>) {
    && from <= i <= |nodes|
    && (comment.Some? ==> from <= comment.value < i && IsComment(nodes[comment.value]))
    && (doc.Some? ==> from <= doc.value < i && IsDoc(nodes[doc.value]))
  }

  lemma {:induction false} GroupsFit(nodes: seq<Node>, from: nat, i: nat, comment: Option<nat>, doc: Option<nat>)
    requires TriviaFrom(nodes, from, i, comment, doc)
    ensures AllFit(nodes, from, GroupsFrom(nodes, i, comment, doc))
    decreases |nodes| - i
  {
    hide GroupEnd, IsDoc, IsComment;
    if i < |nodes| {
      if IsComment(nodes[i]) {
        GroupsFit(nodes, from, i + 1, Some(i), doc);
      } else if IsDoc(nodes[i]) {
        GroupsFit(nodes, from, i + 1, comment, Some(i));
      } else {
        GroupsFit(nodes, GroupEnd(nodes, i), GroupEnd(nodes, i), None, None);
      }
    }
  }

  lemma {:induction false} FitsValid(nodes: seq<Node>, from: nat, groups: seq<Group>)
    requires AllFit(nodes, from, groups)
    ensures forall k | 0 <= k < |groups| :: ValidGroup(nodes, groups[k]) && groups[k].lo >= from
    decreases |groups|
  {
    if groups != [] {
      FitsValid(nodes, groups[0].hi, groups[1..]);
    }
  }

  lemma {:induction false} LeftoverFits(nodes: seq<Node>, from: nat, i: nat, comment: Option<nat>, doc: Option<nat>)
    requires TriviaFrom(nodes, from, i, comment, doc)
    ensures var (c, d) := LeftoverFrom(nodes, i, comment, doc);
            var groups := GroupsFrom(nodes, i, comment, doc);
            var last := if groups == [] then from else groups[|groups| - 1].hi;
            TriviaFrom(nodes, last, |nodes|, c, d)
    decreases |nodes| - i
  {
    hide GroupEnd, IsDoc, IsComment;
    if i < |nodes| {
      if IsComment(nodes[i]) {
        LeftoverFits(nodes, from, i + 1, Some(i), doc);
      } else if IsDoc(nodes[i]) {
        LeftoverFits(nodes, from, i + 1, comment, Some(i));
      } else {
        LeftoverFits(nodes, GroupEnd(nodes, i), GroupEnd(nodes, i), None, None);
      }
    }
  }

  // ----- the result ----------------------------------------------------------------------

  function Groups(nodes: seq<Node>): seq<Group> { GroupsFrom(nodes, 0, None, None) }

  function Leftover(nodes: seq<Node>): (Option<nat>, Option<nat>) { LeftoverFrom(nodes, 0, None, None) }

  lemma GroupsValid(nodes: seq<Node>)
    ensures forall k | 0 <= k < |Groups(nodes)| :: ValidGroup(nodes, Groups(nodes)[k])
    ensures Leftover(nodes).0.Some? ==> Leftover(nodes).0.value < |nodes|
    ensures Leftover(nodes).1.Some? ==> Leftover(nodes).1.value < |nodes|
  {
    GroupsFit(nodes, 0, 0, None, None);
    FitsValid(nodes, 0, Groups(nodes));
    LeftoverFits(nodes, 0, 0, None, None);
  }

  function Collect(nodes: seq<Node>, source: string): seq<Chunk> {
    GroupsValid(nodes);
    ChunksOf(nodes, source, Groups(nodes))
    + LeftoverChunks(nodes, source, Leftover(nodes).0, Leftover(nodes).1)
  }

  lemma {:induction false} PartitionIndex(nodes: seq<Node>, i: nat, groups: seq<Group>, n: nat)
    requires Partition(nodes, i, groups) && i <= n < |nodes|
    ensures !IsTrivia(nodes[n]) <==> exists k :: 0 <= k < |groups| && groups[k].lo <= n < groups[k].hi
    decreases |groups|
  {
    hide IsTrivia;
    if groups != [] {
      var g := groups[0];
      if n >= g.hi {
        PartitionIndex(nodes, g.hi, groups[1..], n);
        assert forall k | 1 <= k < |groups| :: groups[k] == groups[1..][k - 1];
        assert forall k | 0 <= k < |groups[1..]| :: groups[1..][k] == groups[k + 1];
      } else {
        PartitionIncreases(nodes, g.hi, groups[1..]);
        assert forall k | 1 <= k < |groups| :: groups[k] == groups[1..][k - 1];
        assert groups[0].lo <= n < groups[0].hi || n < g.lo;
      }
    }
  }

  lemma {:induction false} PartitionIncreases(nodes: seq<Node>, i: nat, groups: seq<Group>)
    requires Partition(nodes, i, groups)
    ensures forall k | 0 <= k < |groups| :: i <= groups[k].lo < groups[k].hi <= |nodes|
    ensures forall a, b | 0 <= a < b < |groups| :: groups[a].hi <= groups[b].lo
    decreases |groups|
  {
    if groups != [] {
      PartitionIncreases(nodes, groups[0].hi, groups[1..]);
      assert forall k | 1 <= k < |groups| :: groups[k] == groups[1..][k - 1];
    }
  }

  /** Every node that is neither comment nor docstring lies in exactly one group, no other
      node in any, and a group of several nodes holds only imports or only expressions. */
  lemma CodeInExactlyOneGroup(nodes: seq<Node>, n: nat)
    requires n < |nodes|
    ensures !IsTrivia(nodes[n]) <==>
            exists k :: 0 <= k < |Groups(nodes)| && Groups(nodes)[k].lo <= n < Groups(nodes)[k].hi
    ensures forall a, b | 0 <= a < b < |Groups(nodes)| :: Groups(nodes)[a].hi <= Groups(nodes)[b].lo
  {
    GroupsPartition(nodes, 0, None, None);
    PartitionIndex(nodes, 0, Groups(nodes), n);
    PartitionIncreases(nodes, 0, Groups(nodes));
  }

  ghost predicate OneKind(nodes: seq<Node>, g: Group)
    requires ValidGroup(nodes, g)
  {
    || g.hi == g.lo + 1
    || (KindOf(nodes[g.lo]) == "import_group" && forall k | g.lo <= k < g.hi :: IsImport(nodes[k]))
    || (KindOf(nodes[g.lo]) == "expression_group" && forall k | g.lo <= k < g.hi :: IsExpression(nodes[k]) && !IsDoc(nodes[k]))
  }

  lemma {:induction false} GroupsOneKind(nodes: seq<Node>, i: nat, comment: Option<nat>, doc: Option<nat>)
    requires i <= |nodes| && Before(comment, i) && Before(doc, i)
    ensures forall g | g in GroupsFrom(nodes, i, comment, doc) :: ValidGroup(nodes, g) && OneKind(nodes, g)
    decreases |nodes| - i
  {
    hide GroupEnd, Joins;
    if i < |nodes| {
      if IsComment(nodes[i]) {
        GroupsOneKind(nodes, i + 1, Some(i), doc);
      } else if IsDoc(nodes[i]) {
        GroupsOneKind(nodes, i + 1, comment, Some(i));
      } else {
        GroupEndProps(nodes, i);
        GroupsOneKind(nodes, GroupEnd(nodes, i), None, None);
      }
    }
  }

  /** Some group holds both nodes `n` and `n + 1`. */
  predicate Together(groups: seq<Group>, n: nat)
    decreases |groups|
  {
    groups != [] && ((groups[0].lo <= n && n + 1 < groups[0].hi) || Together(groups[1..], n))
  }

  lemma {:induction false} LaterApart(nodes: seq<Node>, i: nat, comment: Option<nat>, doc: Option<nat>, n: nat)
    requires n < i <= |nodes|
    ensures !Together(GroupsFrom(nodes, i, comment, doc), n)
    decreases |nodes| - i
  {
    hide IsComment, IsDoc, GroupEnd;
    if i < |nodes| {
      if IsComment(nodes[i]) {
        LaterApart(nodes, i + 1, Some(i), doc, n);
      } else if IsDoc(nodes[i]) {
        LaterApart(nodes, i + 1, comment, Some(i), n);
      } else {
        LaterApart(nodes, GroupEnd(nodes, i), None, None, n);
      }
    }
  }

  /** Two imports, or two expressions that are not docstrings. */
  predicate Alike(a: Node, b: Node) {
    || (a.kind in {"import_statement", "import_from_statement"} && b.kind in {"import_statement", "import_from_statement"})
    || (a.kind == b.kind == "expression_statement" && Some("string") != a.firstChild && Some("string") != b.firstChild)
  }

  lemma JoinsAlike(a: Node, b: Node)
    requires !IsTrivia(a)
    ensures Joins(a, b) <==> Alike(a, b)
  {
  }

  lemma TriviaUnlike(a: Node, b: Node)
    requires IsTrivia(a)
    ensures !Alike(a, b)
  {
  }

  lemma {:induction false} TogetherFrom(nodes: seq<Node>, i: nat, comment: Option<nat>, doc: Option<nat>, n: nat)
    requires i <= n && n + 1 < |nodes|
    ensures Together(GroupsFrom(nodes, i, comment, doc), n) <==> Alike(nodes[n], nodes[n + 1])
    decreases |nodes| - i
  {
    hide Joins, Alike, IsComment, IsDoc, GroupEnd;
    if IsTrivia(nodes[i]) {
      var c, d := if IsComment(nodes[i]) then Some(i) else comment, if IsComment(nodes[i]) then doc else Some(i);
      if i == n {
        TriviaUnlike(nodes[n], nodes[n + 1]);
        LaterApart(nodes, i + 1, c, d, n);
      } else {
        TogetherFrom(nodes, i + 1, c, d, n);
      }
    } else {
      var j := GroupEnd(nodes, i);
      GroupEndProps(nodes, i);
      if n < j {
        assert !IsTrivia(nodes[n]);
        JoinsAlike(nodes[n], nodes[n + 1]);
        LaterApart(nodes, j, None, None, n);
        assert n == j - 1 ==> !Joins(nodes[n], nodes[n + 1]);
      } else {
        TogetherFrom(nodes, j, None, None, n);
      }
    }
  }

  /** Neighbours stand in one chunk if and only if both are imports, or both are expressions
      and neither is a docstring: groups are as large as they can be, and no larger. */
  lemma NeighboursTogether(nodes: seq<Node>, n: nat)
    requires n + 1 < |nodes|
    ensures Together(Groups(nodes), n) <==> Alike(nodes[n], nodes[n + 1])
  {
    TogetherFrom(nodes, 0, None, None, n);
  }

  lemma {:induction false} FitStarts(nodes: seq<Node>, source: string, from: nat, groups: seq<Group>, at: nat)
    requires Ordered(nodes, source) && AllFit(nodes, from, groups)
    requires forall k | from <= k < |nodes| :: at <= nodes[k].start
    ensures forall k | 0 <= k < |groups| ::
              ValidGroup(nodes, groups[k]) && at <= StartOf(nodes, groups[k]) <= nodes[groups[k].lo].start
    decreases |groups|
  {
    hide Ordered, StartOf;
    if groups != [] {
      var g := groups[0];
      StartFits(nodes, source, from, g, at);
      FitStarts(nodes, source, g.hi, groups[1..], at);
      assert forall k | 1 <= k < |groups| :: groups[k] == groups[1..][k - 1];
    }
  }

  lemma {:induction false} FitApart(nodes: seq<Node>, source: string, from: nat, groups: seq<Group>)
    requires Ordered(nodes, source) && AllFit(nodes, from, groups)
    ensures forall a, b | 0 <= a < b < |groups| ::
              ValidGroup(nodes, groups[a]) && ValidGroup(nodes, groups[b])
              && nodes[groups[a].hi - 1].end <= StartOf(nodes, groups[b])
    decreases |groups|
  {
    hide StartOf, Ordered;
    FitsValid(nodes, from, groups);
    if groups != [] {
      var g := groups[0];
      FitApart(nodes, source, g.hi, groups[1..]);
      AfterNode(nodes, source, g.hi - 1);
      FitStarts(nodes, source, g.hi, groups[1..], nodes[g.hi - 1].end);
      assert forall k | 1 <= k < |groups| :: groups[k] == groups[1..][k - 1];
    }
  }

  lemma AfterNode(nodes: seq<Node>, source: string, i: nat)
    requires Ordered(nodes, source) && i < |nodes|
    ensures forall k | i < k < |nodes| :: nodes[i].end <= nodes[k].start
  {
  }

  lemma StartFits(nodes: seq<Node>, source: string, from: nat, g: Group, at: nat)
    requires Ordered(nodes, source) && Fits(nodes, from, g)
    requires forall k | from <= k < |nodes| :: at <= nodes[k].start
    ensures at <= StartOf(nodes, g) <= nodes[g.lo].start
  {
    if g.comment.Some? {
      assert nodes[g.comment.value].start <= nodes[g.comment.value].end <= nodes[g.lo].start;
    }
    if g.doc.Some? {
      assert nodes[g.doc.value].start <= nodes[g.doc.value].end <= nodes[g.lo].start;
    }
  }

  /** Two chunks do not share a position. */
  predicate Apart(a: Chunk, b: Chunk) { a.end <= b.start || b.end <= a.start }

  /** The nodes of a group lie inside its chunk. */
  ghost predicate Encloses(nodes: seq<Node>, g: Group, chunk: Chunk) {
    g.hi <= |nodes| && forall m | g.lo <= m < g.hi :: chunk.start <= nodes[m].start && nodes[m].end <= chunk.end
  }

  lemma GroupEnclosed(nodes: seq<Node>, source: string, g: Group)
    requires Ordered(nodes, source) && ValidGroup(nodes, g) && StartOf(nodes, g) <= nodes[g.lo].start
    ensures StartOf(nodes, g) <= nodes[g.hi - 1].end <= |source|
    ensures Encloses(nodes, g, ChunkOf(nodes, source, g))
  {
    hide Ordered, TriviaOf, LinesOf, StartOf, KindOf, TrimEnd;
    forall m | g.lo <= m < g.hi
      ensures nodes[g.lo].start <= nodes[m].start <= nodes[m].end <= nodes[g.hi - 1].end <= |source|
    {
      GroupSpan(nodes, source, g, m);
    }
  }

  /** The code chunks are in increasing order and disjoint, and every node of a group lies
      inside its chunk. */
  lemma CodeChunksIncrease(nodes: seq<Node>, source: string)
    requires Ordered(nodes, source)
    ensures |Groups(nodes)| <= |Collect(nodes, source)|
    ensures var cs, n := Collect(nodes, source), |Groups(nodes)|;
            && (forall a, b | 0 <= a < b < n :: cs[a].end <= cs[b].start)
            && (forall a | 0 <= a < n :: cs[a].start <= cs[a].end <= |source|)
    ensures forall k | 0 <= k < |Groups(nodes)| :: Encloses(nodes, Groups(nodes)[k], Collect(nodes, source)[k])
  {
    hide Ordered, Groups, Collect, TriviaOf, LinesOf, KindOf, TrimEnd, StartOf, LeftoverChunks, Encloses;
    var groups := Groups(nodes);
    GroupsAllFit(nodes);
    FromStart(nodes);
    FitStarts(nodes, source, 0, groups, 0);
    FitApart(nodes, source, 0, groups);
    CollectParts(nodes, source);
    forall k | 0 <= k < |groups|
      ensures StartOf(nodes, groups[k]) <= nodes[groups[k].hi - 1].end <= |source|
      ensures Encloses(nodes, groups[k], ChunkOf(nodes, source, groups[k]))
    {
      GroupEnclosed(nodes, source, groups[k]);
    }
  }

  lemma GroupsAllFit(nodes: seq<Node>)
    ensures AllFit(nodes, 0, Groups(nodes))
  {
    GroupsFit(nodes, 0, 0, None, None);
  }

  lemma FromStart(nodes: seq<Node>)
    ensures forall k | 0 <= k < |nodes| :: 0 <= nodes[k].start
  {
  }

  lemma CollectParts(nodes: seq<Node>, source: string)
    ensures |Groups(nodes)| <= |Collect(nodes, source)|
    ensures forall k | 0 <= k < |Groups(nodes)| ::
              ValidGroup(nodes, Groups(nodes)[k]) && Collect(nodes, source)[k] == ChunkOf(nodes, source, Groups(nodes)[k])
    ensures Before(Leftover(nodes).0, |nodes|) && Before(Leftover(nodes).1, |nodes|)
    ensures Collect(nodes, source)[|Groups(nodes)|..]
         == LeftoverChunks(nodes, source, Leftover(nodes).0, Leftover(nodes).1)
  {
    hide GroupsFrom, LeftoverFrom, ChunkOf, LeftoverChunks;
    GroupsValid(nodes);
  }

  /** The chunks for a last comment and a last docstring come after all code and do not
      overlap each other. */
  lemma TrailingChunksApart(nodes: seq<Node>, source: string)
    requires Ordered(nodes, source)
    ensures |Groups(nodes)| <= |Collect(nodes, source)|
    ensures var cs, n := Collect(nodes, source), |Groups(nodes)|;
            && (forall a, b | 0 <= a < n <= b < |cs| :: cs[a].end <= cs[b].start)
            && (forall a, b | n <= a < b < |cs| :: Apart(cs[a], cs[b]))
            && (forall b | n <= b < |cs| :: cs[b].start <= cs[b].end <= |source|)
  {
    hide Ordered, Groups, Collect, Leftover, ChunkOf, LeftoverChunks;
    CollectParts(nodes, source);
    var groups, cs, n := Groups(nodes), Collect(nodes, source), |Groups(nodes)|;
    var last := LastHi(nodes);
    var lc := LeftoverChunks(nodes, source, Leftover(nodes).0, Leftover(nodes).1);
    LeftoverApart(nodes, source, last, Leftover(nodes).0, Leftover(nodes).1);
    assert forall b | n <= b < |cs| :: cs[b] == lc[b - n];
    forall a, b | 0 <= a < n <= b < |cs|
      ensures cs[a].end <= cs[b].start
    {
      assert groups[a].hi - 1 < last;
      ChunkEnd(nodes, source, groups[a]);
    }
  }

  lemma ChunkEnd(nodes: seq<Node>, source: string, g: Group)
    requires ValidGroup(nodes, g)
    ensures ChunkOf(nodes, source, g).end == nodes[g.hi - 1].end
  {
    hide TriviaOf, LinesOf, StartOf;
  }

  /** The end of the last group. */
  lemma LastHi(nodes: seq<Node>) returns (last: nat)
    ensures forall k | 0 <= k < |Groups(nodes)| :: Groups(nodes)[k].hi <= last
    ensures TriviaFrom(nodes, last, |nodes|, Leftover(nodes).0, Leftover(nodes).1)
  {
    hide GroupsFrom, LeftoverFrom, TriviaFrom;
    var groups := Groups(nodes);
    last := if groups == [] then 0 else groups[|groups| - 1].hi;
    LeftoverStarts(nodes);
    LeftoverFits(nodes, 0, 0, None, None);
    GroupsPartition(nodes, 0, None, None);
    PartitionIncreases(nodes, 0, groups);
  }

  lemma LeftoverStarts(nodes: seq<Node>)
    ensures TriviaFrom(nodes, 0, 0, None, None)
  {
  }

  lemma TriviaChunkRange(nodes: seq<Node>, source: string, i: nat, kind: string)
    requires Ordered(nodes, source) && i < |nodes|
    ensures var t := TriviaChunk(nodes, source, i, kind);
            t.start == nodes[i].start && t.end == nodes[i].end && t.start <= t.end <= |source|
  {
  }

  lemma LeftoverApart(nodes: seq<Node>, source: string, last: nat, c: Option<nat>, d: Option<nat>)
    requires Ordered(nodes, source) && TriviaFrom(nodes, last, |nodes|, c, d)
    ensures var lc := LeftoverChunks(nodes, source, c, d);
            && (forall b, k | 0 <= b < |lc| && 0 <= k < last :: nodes[k].end <= lc[b].start)
            && (forall a, b | 0 <= a < b < |lc| :: Apart(lc[a], lc[b]))
            && (forall b | 0 <= b < |lc| :: lc[b].start <= lc[b].end <= |source|)
  {
    hide TriviaChunk, IsComment, IsDoc;
    if c.Some? {
      TriviaChunkRange(nodes, source, c.value, "comment");
    }
    if d.Some? {
      TriviaChunkRange(nodes, source, d.value, "docstring");
    }
    if c.Some? && d.Some? {
      CommentIsNoDoc(nodes[c.value]);
    }
  }

  lemma CommentIsNoDoc(n: Node)
    ensures !(IsComment(n) && IsDoc(n))
  {
  }

  lemma GroupSpan(nodes: seq<Node>, source: string, g: Group, m: nat)
    requires Ordered(nodes, source) && ValidGroup(nodes, g) && g.lo <= m < g.hi
    ensures nodes[g.lo].start <= nodes[m].start <= nodes[m].end <= nodes[g.hi - 1].end <= |source|
  {
    if g.lo < m {
      assert nodes[g.lo].end <= nodes[m].start;
    }
    if m < g.hi - 1 {
      assert nodes[m].end <= nodes[g.hi - 1].start;
    }
  }

  // ----- which trivia survive ----------------------------------------------------------------

  predicate SameTrivia(a: Node, b: Node) {
    (IsComment(a) && IsComment(b)) || (IsDoc(a) && IsDoc(b))
  }

  predicate Uses(g: Group, n: nat) { g.comment == Some(n) || g.doc == Some(n) }

  ghost predicate UsedBy(groups: seq<Group>, n: nat)
    decreases |groups|
  {
    groups != [] && (Uses(groups[0], n) || UsedBy(groups[1..], n))
  }

  /** Node `n` goes into a chunk, as the trivia of a group or as a chunk of its own. */
  ghost predicate UsedFrom(nodes: seq<Node>, i: nat, comment: Option<nat>, doc: Option<nat>, n: nat)
    requires i <= |nodes|
  {
    var (c, d) := LeftoverFrom(nodes, i, comment, doc);
    UsedBy(GroupsFrom(nodes, i, comment, doc), n) || c == Some(n) || d == Some(n)
  }

  /** From `i` on, another node of the trivia kind of `n` comes before any code. */
  predicate ReplacedFrom(nodes: seq<Node>, n: nat, i: nat)
    requires n < |nodes| && i <= |nodes|
    decreases |nodes| - i
  {
    i < |nodes| && IsTrivia(nodes[i]) && (SameTrivia(nodes[n], nodes[i]) || ReplacedFrom(nodes, n, i + 1))
  }

  lemma {:induction false} ReplacedIff(nodes: seq<Node>, n: nat, i: nat)
    requires n < |nodes| && i <= |nodes| && IsTrivia(nodes[n])
    ensures ReplacedFrom(nodes, n, i) <==>
            exists m | i <= m < |nodes| :: SameTrivia(nodes[n], nodes[m]) && OnlyTrivia(nodes, i, m)
    decreases |nodes| - i
  {
    if i < |nodes| && IsTrivia(nodes[i]) {
      ReplacedIff(nodes, n, i + 1);
      if SameTrivia(nodes[n], nodes[i]) {
        assert OnlyTrivia(nodes, i, i);
      }
      forall m | i < m < |nodes|
        ensures OnlyTrivia(nodes, i, m) <==> OnlyTrivia(nodes, i + 1, m)
      {
      }
    }
  }

  lemma UsedOn(nodes: seq<Node>, i: nat, comment: Option<nat>, doc: Option<nat>, n: nat)
    requires i < |nodes|
    ensures IsComment(nodes[i]) ==> UsedFrom(nodes, i, comment, doc, n) == UsedFrom(nodes, i + 1, Some(i), doc, n)
    ensures !IsComment(nodes[i]) && IsDoc(nodes[i]) ==>
              UsedFrom(nodes, i, comment, doc, n) == UsedFrom(nodes, i + 1, comment, Some(i), n)
    ensures !IsTrivia(nodes[i]) ==>
              (UsedFrom(nodes, i, comment, doc, n)
               <==> comment == Some(n) || doc == Some(n) || UsedFrom(nodes, GroupEnd(nodes, i), None, None, n))
  {
    hide GroupEnd, IsComment, IsDoc;
  }

  lemma UsedAtEnd(nodes: seq<Node>, comment: Option<nat>, doc: Option<nat>, n: nat)
    ensures UsedFrom(nodes, |nodes|, comment, doc, n) <==> comment == Some(n) || doc == Some(n)
  {
  }

  /** Trivia passed and not remembered are lost. */
  lemma {:induction false} PassedIsLost(nodes: seq<Node>, i: nat, comment: Option<nat>, doc: Option<nat>, n: nat)
    requires n < i <= |nodes| && comment != Some(n) && doc != Some(n)
    ensures !UsedFrom(nodes, i, comment, doc, n)
    decreases |nodes| - i
  {
    hide GroupEnd, IsComment, IsDoc, UsedFrom;
    if i == |nodes| {
      UsedAtEnd(nodes, comment, doc, n);
    } else {
      UsedOn(nodes, i, comment, doc, n);
      if IsComment(nodes[i]) {
        PassedIsLost(nodes, i + 1, Some(i), doc, n);
      } else if IsDoc(nodes[i]) {
        PassedIsLost(nodes, i + 1, comment, Some(i), n);
      } else {
        PassedIsLost(nodes, GroupEnd(nodes, i), None, None, n);
      }
    }
  }

  /** Trivia remembered are used exactly if nothing replaces them before the next code. */
  lemma {:induction false} PendingIsUsed(nodes: seq<Node>, i: nat, comment: Option<nat>, doc: Option<nat>, n: nat)
    requires n < i <= |nodes|
    requires (comment == Some(n) && IsComment(nodes[n]) && doc != Some(n)) || (doc == Some(n) && IsDoc(nodes[n]) && comment != Some(n))
    ensures UsedFrom(nodes, i, comment, doc, n) <==> !ReplacedFrom(nodes, n, i)
    decreases |nodes| - i
  {
    hide GroupEnd, IsComment, IsDoc, UsedFrom;
    CommentIsNoDoc(nodes[n]);
    if i == |nodes| {
      UsedAtEnd(nodes, comment, doc, n);
    } else {
      UsedOn(nodes, i, comment, doc, n);
      CommentIsNoDoc(nodes[i]);
      if IsComment(nodes[i]) {
        if comment == Some(n) {
          PassedIsLost(nodes, i + 1, Some(i), doc, n);
        } else {
          PendingIsUsed(nodes, i + 1, Some(i), doc, n);
        }
      } else if IsDoc(nodes[i]) {
        if doc == Some(n) {
          PassedIsLost(nodes, i + 1, comment, Some(i), n);
        } else {
          PendingIsUsed(nodes, i + 1, comment, Some(i), n);
        }
      }
    }
  }

  lemma {:induction false} ComingIsUsed(nodes: seq<Node>, i: nat, comment: Option<nat>, doc: Option<nat>, n: nat)
    requires i <= n < |nodes| && IsTrivia(nodes[n]) && Before(comment, i) && Before(doc, i)
    ensures UsedFrom(nodes, i, comment, doc, n) <==> !ReplacedFrom(nodes, n, n + 1)
    decreases |nodes| - i
  {
    hide GroupEnd, IsComment, IsDoc, Joins, ReplacedFrom, UsedFrom;
    UsedOn(nodes, i, comment, doc, n);
    CommentIsNoDoc(nodes[i]);
    if IsComment(nodes[i]) {
      if i == n {
        PendingIsUsed(nodes, i + 1, Some(i), doc, n);
      } else {
        ComingIsUsed(nodes, i + 1, Some(i), doc, n);
      }
    } else if IsDoc(nodes[i]) {
      if i == n {
        PendingIsUsed(nodes, i + 1, comment, Some(i), n);
      } else {
        ComingIsUsed(nodes, i + 1, comment, Some(i), n);
      }
    } else {
      GroupEndProps(nodes, i);
      ComingIsUsed(nodes, GroupEnd(nodes, i), None, None, n);
    }
  }

  /** A comment or docstring reaches a chunk exactly if no other of its kind follows before
      the next code: of several comments in a row only the last is kept. */
  lemma TriviaKept(nodes: seq<Node>, n: nat)
    requires n < |nodes| && IsTrivia(nodes[n])
    ensures UsedBy(Groups(nodes), n) || Leftover(nodes).0 == Some(n) || Leftover(nodes).1 == Some(n)
       <==> !exists m | n < m < |nodes| :: SameTrivia(nodes[n], nodes[m]) && OnlyTrivia(nodes, n + 1, m)
  {
    hide GroupsFrom, LeftoverFrom, UsedBy, SameTrivia, OnlyTrivia;
    ComingIsUsed(nodes, 0, None, None, n);
    ReplacedIff(nodes, n, n + 1);
  }

  // ----- the text of a chunk ------------------------------------------------------------------

  /** The trivia and the lines of a group, before the end is trimmed. */
  function FullText(nodes: seq<Node>, source: string, g: Group): string
    requires ValidGroup(nodes, g)
  {
    TriviaOf(nodes, source, g) + LinesOf(nodes, source, g.lo, g.hi)
  }

  lemma {:induction false} LinesHold(nodes: seq<Node>, source: string, lo: nat, hi: nat, m: nat)
    requires lo <= m < hi <= |nodes|
    ensures var at, text, lines := |LinesOf(nodes, source, lo, m)|, TextOf(source, nodes[m]), LinesOf(nodes, source, lo, hi);
            at + |text| + 1 <= |lines| && lines[at..at + |text|] == text && lines[at + |text|] == '\n'
    decreases hi
  {
    hide TextOf;
    if m < hi - 1 {
      LinesHold(nodes, source, lo, hi - 1, m);
      var at, text := |LinesOf(nodes, source, lo, m)|, TextOf(source, nodes[m]);
      var before, lines := LinesOf(nodes, source, lo, hi - 1), LinesOf(nodes, source, lo, hi);
      assert lines[..|before|] == before;
      assert lines[at..at + |text|] == before[at..at + |text|];
    }
  }

  /** A chunk's text is the full text up to its last visible character; in the full text each
      node of the group stands exactly as in the source, one after the other behind the
      trivia, each followed by a line break. */
  lemma ChunkTextIsExact(nodes: seq<Node>, source: string, g: Group)
    requires Ordered(nodes, source) && ValidGroup(nodes, g)
    ensures var text, full := ChunkOf(nodes, source, g).text, FullText(nodes, source, g);
            && text <= full && IsBlank(full[|text|..])
            && (text != "" ==> !IsWhitespace(text[|text| - 1]))
    ensures forall m | g.lo <= m < g.hi :: NodeStands(nodes, source, g, m)
  {
    hide TriviaOf, LinesOf, StartOf, KindOf, NodeStands;
    var full := FullText(nodes, source, g);
    BlankTail(full, TrimmedEnd(full));
    forall m | g.lo <= m < g.hi
      ensures NodeStands(nodes, source, g, m)
    {
      NodeInText(nodes, source, g, m);
    }
  }

  /** What stands before the code of a chunk: its comment and its docstring, each on lines of
      its own, in the order of the source; and what the chunk is called. */
  lemma TriviaInOrder(nodes: seq<Node>, source: string, g: Group)
    requires Ordered(nodes, source) && ValidGroup(nodes, g)
    requires g.comment.Some? && g.doc.Some? && g.comment != g.doc
    ensures var c, d := source[nodes[g.comment.value].start..nodes[g.comment.value].end],
                        source[nodes[g.doc.value].start..nodes[g.doc.value].end];
            TriviaOf(nodes, source, g) ==
              if g.comment.value < g.doc.value || nodes[g.comment.value].start == nodes[g.doc.value].start
              then c + "\n" + (d + "\n") else d + "\n" + (c + "\n")
  {
    assert nodes[g.comment.value].start <= nodes[g.comment.value].end <= |source|;
    assert nodes[g.doc.value].start <= nodes[g.doc.value].end <= |source|;
  }

  lemma ChunkIsNamed(nodes: seq<Node>, source: string, g: Group)
    requires ValidGroup(nodes, g)
    ensures var kind := nodes[g.lo].kind;
            ChunkOf(nodes, source, g).kind ==
              if kind in {"import_statement", "import_from_statement"} then "import_group"
              else if kind == "expression_statement" then "expression_group" else kind
  {
    hide StartOf, TriviaOf, LinesOf, TrimEnd;
  }

  /** Node `m` stands in the full text, behind the trivia and the lines of the nodes before. */
  ghost predicate NodeStands(nodes: seq<Node>, source: string, g: Group, m: nat)
    requires ValidGroup(nodes, g) && g.lo <= m < g.hi
  {
    var full := FullText(nodes, source, g);
    var n := nodes[m];
    var at := |TriviaOf(nodes, source, g)| + |LinesOf(nodes, source, g.lo, m)|;
    && n.start <= n.end <= |source|
    && at + (n.end - n.start) < |full|
    && full[at..at + (n.end - n.start)] == source[n.start..n.end]
    && full[at + (n.end - n.start)] == '\n'
  }

  lemma NodeInText(nodes: seq<Node>, source: string, g: Group, m: nat)
    requires Ordered(nodes, source) && ValidGroup(nodes, g) && g.lo <= m < g.hi
    ensures NodeStands(nodes, source, g, m)
  {
    hide TriviaOf, LinesOf;
    LinesHold(nodes, source, g.lo, g.hi, m);
    var trivia, lines, n := TriviaOf(nodes, source, g), LinesOf(nodes, source, g.lo, g.hi), nodes[m];
    var at := |LinesOf(nodes, source, g.lo, m)|;
    assert FullText(nodes, source, g)[|trivia| + at..|trivia| + at + (n.end - n.start)] == lines[at..at + (n.end - n.start)];
  }

  // ----- the loop --------------------------------------------------------------------------

  /** The chunks still to come at a loop head where nothing is being collected. */
  ghost function ToCome(nodes: seq<Node>, source: string, i: nat, comment: Option<nat>, doc: Option<nat>): seq<Chunk>
    requires i <= |nodes| && Before(comment, i) && Before(doc, i)
  {
    GroupsOneKind(nodes, i, comment, doc);
    LeftoverBounded(nodes, i, comment, doc);
    var gs := GroupsFrom(nodes, i, comment, doc);
    assert forall k | 0 <= k < |gs| :: gs[k] in gs;
    var (c, d) := LeftoverFrom(nodes, i, comment, doc);
    ChunksOf(nodes, source, gs) + LeftoverChunks(nodes, source, c, d)
  }

  lemma {:induction false} LeftoverBounded(nodes: seq<Node>, i: nat, comment: Option<nat>, doc: Option<nat>)
    requires i <= |nodes| && Before(comment, i) && Before(doc, i)
    ensures Before(LeftoverFrom(nodes, i, comment, doc).0, |nodes|)
    ensures Before(LeftoverFrom(nodes, i, comment, doc).1, |nodes|)
    decreases |nodes| - i
  {
    hide GroupEnd, IsDoc, IsComment;
    if i < |nodes| {
      if IsComment(nodes[i]) {
        LeftoverBounded(nodes, i + 1, Some(i), doc);
      } else if IsDoc(nodes[i]) {
        LeftoverBounded(nodes, i + 1, comment, Some(i));
      } else {
        LeftoverBounded(nodes, GroupEnd(nodes, i), None, None);
      }
    }
  }

  lemma ToComeGroup(nodes: seq<Node>, source: string, i: nat, comment: Option<nat>, doc: Option<nat>)
    requires i < |nodes| && Before(comment, i) && Before(doc, i) && !IsTrivia(nodes[i])
    ensures var j := GroupEnd(nodes, i);
            ToCome(nodes, source, i, comment, doc)
            == [ChunkOf(nodes, source, Group(i, j, comment, doc))] + ToCome(nodes, source, j, None, None)
  {
    hide ChunkOf, LeftoverChunks, GroupEnd;
    GroupsOneKind(nodes, i, comment, doc);
    var j := GroupEnd(nodes, i);
    var gs := GroupsFrom(nodes, i, comment, doc);
    assert gs[1..] == GroupsFrom(nodes, j, None, None);
    assert forall k | 0 <= k < |gs| :: gs[k] in gs;
  }

  /** The loop's memory of a trivia node: its line and where it starts. */
  ghost predicate Remembers(nodes: seq<Node>, source: string, o: Option<nat>, buffer: string, start: Option<nat>) {
    && (o.Some? ==> o.value < |nodes| && start == Some(nodes[o.value].start))
    && (o.None? ==> start == None)
    && (o.Some? ==> buffer == LineOf(nodes, source, o))
    && (o.None? ==> buffer == "")
  }

  /** Nodes `g.lo` to `i` have been collected. */
  ghost predicate Collecting(nodes: seq<Node>, source: string, g: Group, i: nat, current: string, start: nat, kind: string) {
    && ValidGroup(nodes, g) && g.lo < i <= g.hi
    && start == StartOf(nodes, g) && kind == KindOf(nodes[g.lo])
    && current == TriviaOf(nodes, source, g) + LinesOf(nodes, source, g.lo, i)
    && KindOf(nodes[i - 1]) == kind && GroupEnd(nodes, i - 1) == g.hi
  }

  lemma CollectFirst(nodes: seq<Node>, source: string, i: nat, c: Option<nat>, d: Option<nat>, current: string, start: nat)
    requires i < |nodes| && Before(c, i) && Before(d, i)
    requires var g := Group(i, GroupEnd(nodes, i), c, d);
             start == StartOf(nodes, g) && current == TriviaOf(nodes, source, g)
    ensures Collecting(nodes, source, Group(i, GroupEnd(nodes, i), c, d), i + 1,
                       current + TextOf(source, nodes[i]) + "\n", start, KindOf(nodes[i]))
  {
    hide TriviaOf, TextOf, GroupEnd, StartOf, KindOf;
    assert LinesOf(nodes, source, i, i + 1) == LinesOf(nodes, source, i, i) + TextOf(source, nodes[i]) + "\n";
    assert LinesOf(nodes, source, i, i) == "";
    assert current + (TextOf(source, nodes[i]) + "\n") == current + TextOf(source, nodes[i]) + "\n";
  }

  /** A chunk still open continues with the next node: the flush that the source keeps at
      the top of its loop is never taken. */
  lemma CollectNext(nodes: seq<Node>, source: string, g: Group, i: nat, current: string, start: nat, kind: string)
    requires Collecting(nodes, source, g, i, current, start, kind) && i < g.hi
    ensures !IsTrivia(nodes[i]) && KindOf(nodes[i]) == kind
    ensures (IsImport(nodes[i]) && kind == "import_group") || (IsExpression(nodes[i]) && kind == "expression_group")
    ensures Collecting(nodes, source, g, i + 1, current + TextOf(source, nodes[i]) + "\n", start, kind)
  {
    hide TriviaOf, TextOf, StartOf;
    GroupKindOf(nodes[i - 1], nodes[i]);
    assert LinesOf(nodes, source, g.lo, i + 1) == LinesOf(nodes, source, g.lo, i) + TextOf(source, nodes[i]) + "\n";
    var t, l, x := TriviaOf(nodes, source, g), LinesOf(nodes, source, g.lo, i), TextOf(source, nodes[i]);
    assert t + l + x + "\n" == t + (l + x + "\n");
  }

  lemma CollectLast(nodes: seq<Node>, source: string, g: Group, i: nat, current: string, start: nat, kind: string)
    requires Collecting(nodes, source, g, i, current, start, kind)
    ensures if i < |nodes| && Joins(nodes[i - 1], nodes[i]) then i < g.hi
            else i == g.hi && Chunk(start, nodes[i - 1].end, kind, TrimEnd(current)) == ChunkOf(nodes, source, g)
  {
    hide TriviaOf, LinesOf, KindOf, Joins, TrimEnd, StartOf;
  }

  /** What is collected and what is to come make up the result. */
  ghost predicate Progress(nodes: seq<Node>, source: string, chunks: seq<Chunk>, i: nat, isNew: bool,
                           c: Option<nat>, d: Option<nat>, g: Group)
  {
    && i <= |nodes| && Before(c, i) && Before(d, i)
    && if isNew then chunks + ToCome(nodes, source, i, c, d) == Collect(nodes, source)
       else
         && c.None? && d.None? && ValidGroup(nodes, g)
         && (chunks + [ChunkOf(nodes, source, g)]) + ToCome(nodes, source, g.hi, None, None) == Collect(nodes, source)
  }

  lemma ProgressTrivia(nodes: seq<Node>, source: string, chunks: seq<Chunk>, i: nat, c: Option<nat>, d: Option<nat>, g: Group)
    requires Progress(nodes, source, chunks, i, true, c, d, g) && i < |nodes|
    ensures IsComment(nodes[i]) ==> Progress(nodes, source, chunks, i + 1, true, Some(i), d, g)
    ensures !IsComment(nodes[i]) && IsDoc(nodes[i]) ==> Progress(nodes, source, chunks, i + 1, true, c, Some(i), g)
  {
    hide ToCome, IsComment, IsDoc;
    ToComeTrivia(nodes, source, i, c, d);
  }

  lemma ProgressOpens(nodes: seq<Node>, source: string, chunks: seq<Chunk>, i: nat, c: Option<nat>, d: Option<nat>, g: Group)
    requires Progress(nodes, source, chunks, i, true, c, d, g) && i < |nodes| && !IsTrivia(nodes[i])
    ensures Progress(nodes, source, chunks, i + 1, false, None, None, Group(i, GroupEnd(nodes, i), c, d))
  {
    hide ToCome, IsTrivia, GroupEnd, ChunkOf, Collect;
    ToComeGroup(nodes, source, i, c, d);
    var j := GroupEnd(nodes, i);
    var chunk, more := ChunkOf(nodes, source, Group(i, j, c, d)), ToCome(nodes, source, j, None, None);
    assert chunks + ([chunk] + more) == (chunks + [chunk]) + more;
  }

  method CollectChunks(nodes: seq<Node>, source: string) returns (chunks: seq<Chunk>)
    ensures chunks == Collect(nodes, source)
  {
    hide Progress, Collecting, Collect, GroupEnd, ChunkOf, TrimEnd, TextOf, LeftoverChunks, TriviaOf, StartOf, KindOf,
         IsComment, IsDoc, IsImport, IsExpression;
    chunks := [];
    var current, start, end, kind, isNew := "", 0, 0, "", true;
    var commentBuffer: string, commentStart: Option<nat> := "", None;
    var docBuffer: string, docStart: Option<nat> := "", None;
    ghost var c: Option<nat>, d: Option<nat> := None, None;
    ghost var g := Group(0, 1, None, None);
    var i: nat := 0;
    ProgressStarts(nodes, source, g);
    while i < |nodes|
      invariant i <= |nodes|
      invariant Progress(nodes, source, chunks, i, isNew, c, d, g)
      invariant Remembers(nodes, source, c, commentBuffer, commentStart) && Before(c, i)
      invariant Remembers(nodes, source, d, docBuffer, docStart) && Before(d, i)
      invariant isNew ==> current == ""
      invariant !isNew ==> c.None? && d.None? && i < g.hi <= |nodes| && Collecting(nodes, source, g, i, current, start, kind)
    {
      var child := nodes[i];
      var text := TextOf(source, child);
      if !isNew {
        CollectNext(nodes, source, g, i, current, start, kind);
      } else {
        ProgressTrivia(nodes, source, chunks, i, c, d, g);
      }
      if IsComment(child) {
        commentBuffer, commentStart := text + "\n", Some(child.start);
        c := Some(i);
        i := i + 1;
        continue;
      }
      if IsDoc(child) {
        docBuffer, docStart := text + "\n", Some(child.start);
        d := Some(i);
        i := i + 1;
        continue;
      }
      var isImport, isExpression := IsImport(child), IsExpression(child);
      // The source would flush here a chunk that does not continue with `child`.
      assert current == "" || (isImport && kind == "import_group") || (isExpression && kind == "expression_group");
      if isNew {
        ProgressOpens(nodes, source, chunks, i, c, d, g);
        start, kind, current := Open(nodes, source, i, c, d, commentBuffer, commentStart, docBuffer, docStart);
        isNew := false;
        CollectFirst(nodes, source, i, c, d, current, start);
        g := Group(i, GroupEnd(nodes, i), c, d);
        commentBuffer, commentStart, docBuffer, docStart := "", None, "", None;
        c, d := None, None;
      } else {
        ProgressStays(nodes, source, chunks, i, g);
      }
      current := current + text;
      current := current + "\n";
      end := child.end;
      CollectLast(nodes, source, g, i + 1, current, start, kind);
      if i + 1 < |nodes| {
        var next := nodes[i + 1];
        if ((isImport && IsImport(next)) || (isExpression && IsExpression(next))) && !IsComment(next) && !IsDoc(next) {
          i := i + 1;
          continue;
        }
      }
      ProgressCloses(nodes, source, chunks, i + 1, g);
      chunks := chunks + [Chunk(start, end, kind, TrimEnd(current))];
      current := "";
      isNew := true;
      i := i + 1;
    }
    ProgressEnds(nodes, source, chunks, isNew, c, d, g);
    var more := Leftovers(nodes, source, c, d, commentBuffer, commentStart, docBuffer, docStart);
    chunks := chunks + more;
  }

  /** The comment and the docstring still buffered at the end of the file. */
  method Leftovers(ghost nodes: seq<Node>, ghost source: string, ghost c: Option<nat>, ghost d: Option<nat>,
                   commentBuffer: string, commentStart: Option<nat>, docBuffer: string, docStart: Option<nat>)
    returns (chunks: seq<Chunk>)
    requires Before(c, |nodes|) && Before(d, |nodes|)
    requires Remembers(nodes, source, c, commentBuffer, commentStart)
    requires Remembers(nodes, source, d, docBuffer, docStart)
    ensures chunks == LeftoverChunks(nodes, source, c, d)
  {
    hide TextOf, TrimEnd;
    chunks := [];
    if commentBuffer != "" {
      chunks := chunks + [Chunk(commentStart.value, commentStart.value + |commentBuffer| - 1, "comment", TrimEnd(commentBuffer))];
    }
    if docBuffer != "" {
      chunks := chunks + [Chunk(docStart.value, docStart.value + |docBuffer| - 1, "docstring", TrimEnd(docBuffer))];
    }
  }

  /** A new chunk begins with the trivia before its first node, in source order. */
  method Open(nodes: seq<Node>, ghost source: string, i: nat, ghost c: Option<nat>, ghost d: Option<nat>,
              commentBuffer: string, commentStart: Option<nat>, docBuffer: string, docStart: Option<nat>)
    returns (start: nat, kind: string, current: string)
    requires i < |nodes| && Before(c, i) && Before(d, i)
    requires Remembers(nodes, source, c, commentBuffer, commentStart)
    requires Remembers(nodes, source, d, docBuffer, docStart)
    ensures var g := Group(i, GroupEnd(nodes, i), c, d);
            start == StartOf(nodes, g) && current == TriviaOf(nodes, source, g)
    ensures kind == KindOf(nodes[i])
  {
    hide GroupEnd, TextOf;
    start := EarliestStart(commentStart, docStart, nodes[i].start);
    kind := if IsImport(nodes[i]) then "import_group" else if IsExpression(nodes[i]) then "expression_group" else nodes[i].kind;
    if commentStart.Some? && docStart.Some? && docStart.value < commentStart.value {
      current := docBuffer + commentBuffer;
    } else {
      current := commentBuffer + docBuffer;
    }
  }

  function EarliestStart(comment: Option<nat>, doc: Option<nat>, start: nat): nat {
    match (comment, doc)
    case (Some(c), Some(d)) => if c <= d then c else d
    case (Some(c), None) => c
    case (None, Some(d)) => d
    case (None, None) => start
  }

  lemma ProgressStarts(nodes: seq<Node>, source: string, g: Group)
    ensures Progress(nodes, source, [], 0, true, None, None, g)
  {
    hide ToCome, Collect;
    CollectIsToCome(nodes, source);
  }

  lemma ProgressStays(nodes: seq<Node>, source: string, chunks: seq<Chunk>, i: nat, g: Group)
    requires Progress(nodes, source, chunks, i, false, None, None, g) && i < |nodes|
    ensures Progress(nodes, source, chunks, i + 1, false, None, None, g)
  {
    hide ToCome, Collect, ChunkOf;
  }

  lemma ProgressCloses(nodes: seq<Node>, source: string, chunks: seq<Chunk>, i: nat, g: Group)
    requires Progress(nodes, source, chunks, i, false, None, None, g) && i == g.hi
    ensures ValidGroup(nodes, g)
    ensures Progress(nodes, source, chunks + [ChunkOf(nodes, source, g)], i, true, None, None, g)
  {
    hide ToCome, Collect, ChunkOf;
  }

  lemma ProgressEnds(nodes: seq<Node>, source: string, chunks: seq<Chunk>, isNew: bool, c: Option<nat>, d: Option<nat>, g: Group)
    requires Progress(nodes, source, chunks, |nodes|, isNew, c, d, g) && isNew
    ensures Before(c, |nodes|) && Before(d, |nodes|)
    ensures chunks + LeftoverChunks(nodes, source, c, d) == Collect(nodes, source)
  {
    hide ToCome, Collect, TriviaChunk;
    ToComeNothing(nodes, source, c, d);
  }

  lemma CollectIsToCome(nodes: seq<Node>, source: string)
    ensures Collect(nodes, source) == ToCome(nodes, source, 0, None, None)
    ensures [] + ToCome(nodes, source, 0, None, None) == Collect(nodes, source)
  {
  }

  lemma ToComeTrivia(nodes: seq<Node>, source: string, i: nat, c: Option<nat>, d: Option<nat>)
    requires i < |nodes| && Before(c, i) && Before(d, i)
    ensures IsComment(nodes[i]) ==> ToCome(nodes, source, i, c, d) == ToCome(nodes, source, i + 1, Some(i), d)
    ensures !IsComment(nodes[i]) && IsDoc(nodes[i]) ==>
              ToCome(nodes, source, i, c, d) == ToCome(nodes, source, i + 1, c, Some(i))
  {
  }

  lemma ToComeNothing(nodes: seq<Node>, source: string, c: Option<nat>, d: Option<nat>)
    requires Before(c, |nodes|) && Before(d, |nodes|)
    ensures ToCome(nodes, source, |nodes|, c, d) == LeftoverChunks(nodes, source, c, d)
  {
    assert [] + LeftoverChunks(nodes, source, c, d) == LeftoverChunks(nodes, source, c, d);
  }

  lemma GroupKindOf(a: Node, b: Node)
    requires Joins(a, b)
    ensures KindOf(a) == KindOf(b) && !IsTrivia(b)
    ensures (IsImport(b) && KindOf(b) == "import_group") || (IsExpression(b) && KindOf(b) == "expression_group")
  {
  }
}
