/** What a session of the managed Nu runtime leaves behind: the journal, the definitions, the
    aliases and the directory, told from the log of its successful segments alone. */
module NuJournal {
  import opened Text
  import opened NuRuntime
  import NuSegments

  // ----- when a segment succeeds, and what it may change ---------------------------------

  predicate IsCd(t: string) { t == "cd" || "cd " <= t }

  predicate Evaluates(t: string) {
    t != "" && t != "pwd" && !IsCd(t) && !("hide-env " <= t)
  }

  /** A segment succeeds when its directory exists, the shell accepts it, and the files that
      replaying it depends on can be read. */
  predicate Succeeds(t: string, o: Oracle) {
    && (IsCd(t) ==> o.cwdAfter.Some?)
    && (Evaluates(t) ==> o.evalOk)
    && (IsJournalSegment(t) ==> o.files.Some?)
  }

  predicate IsDefinition(t: string) { "def " <= t || "export def " <= t }

  /** The directory after a successful segment: definitions, aliases and `hide-env` never move. */
  function Moved(cwd: string, t: string, o: Oracle): string {
    if (IsCd(t) || (Evaluates(t) && !IsDefinition(t) && AliasParts(t).None?)) && o.cwdAfter.Some? then o.cwdAfter.value
    else cwd
  }

  /** A successful segment: its trimmed text and the directory it ran in. */
  datatype Done = Done(text: string, cwd: string, oracle: Oracle)

  datatype Log = Log(entries: seq<Done>, cwd: string)

  /** The log of one command line, which ends at the first segment that fails. */
  function LineLog(cwd: string, segments: seq<string>, oracles: seq<Oracle>): Log
    requires |oracles| == |segments|
    decreases |segments|
  {
    if segments == [] || !Succeeds(Trim(segments[0]), oracles[0]) then Log([], cwd)
    else
      var t := Trim(segments[0]);
      var rest := LineLog(Moved(cwd, t, oracles[0]), segments[1..], oracles[1..]);
      rest.(entries := [Done(t, cwd, oracles[0])] + rest.entries)
  }

  /** The log of a session; a failed line does not keep the next one from running. */
  function SessionLog(cwd: string, execs: seq<Exec>): Log
    requires forall i | 0 <= i < |execs| :: ValidExec(execs[i])
    decreases |execs|
  {
    if execs == [] then Log([], cwd)
    else
      assert ValidExec(execs[0]);
      var line := LineLog(cwd, NuSegments.Split(execs[0].line), execs[0].oracles);
      var rest := SessionLog(line.cwd, execs[1..]);
      rest.(entries := line.entries + rest.entries)
  }

  /** The journal segments of a log, in order, each with its directory and its digests. */
  function JournalOf(log: seq<Done>): seq<ReplayCommand> {
    if log == [] then [] else JournalEntry(log[0]) + JournalOf(log[1..])
  }

  function JournalEntry(e: Done): seq<ReplayCommand> {
    if IsJournalSegment(e.text) && e.oracle.files.Some? then [ReplayCommand(e.text, e.cwd, e.oracle.files.value)] else []
  }

  /** `source` is the last text of the log that defines `name`. */
  ghost predicate LastDefines(log: seq<Done>, name: string, source: string) {
    exists i | 0 <= i < |log| :: DefinesAt(log, i, name, source)
  }

  predicate DefinesAt(log: seq<Done>, i: nat, name: string, source: string)
    requires i < |log|
  {
    && log[i].text == source && DefName(source) == Some(name)
    && forall j | i < j < |log| :: DefName(log[j].text) != Some(name)
  }

  /** `a` is the last alias of its name in the log. */
  ghost predicate LastAliases(log: seq<Done>, a: Alias) {
    exists i | 0 <= i < |log| :: AliasesAt(log, i, a)
  }

  predicate AliasesAt(log: seq<Done>, i: nat, a: Alias)
    requires i < |log|
  {
    && AliasParts(log[i].text) == Some(a)
    && forall j | i < j < |log| :: AliasParts(log[j].text).Some? ==> AliasParts(log[j].text).value.name != a.name
  }

  // ----- one segment ------------------------------------------------------------------------

  /** The effect of one successful segment. */
  function Effect(r: Registry, t: string, o: Oracle): Registry {
    r.(currentCwd := Moved(r.currentCwd, t, o),
       customCommands := RegisterDef(r.customCommands, t),
       aliases := if AliasParts(t).Some? then RegisterAlias(r.aliases, AliasParts(t).value) else r.aliases,
       replayCommands := r.replayCommands + JournalOf([Done(t, r.currentCwd, o)]))
  }

  lemma JournalOfOne(e: Done)
    ensures JournalOf([e]) == JournalEntry(e)
  {
    hide JournalEntry;
    assert [e][1..] == [];
  }

  lemma Exclude(p: string, q: string, t: string, i: nat)
    requires i < |p| && i < |q| && p[i] != q[i]
    ensures !(p <= t && q <= t)
  {
  }

  lemma AliasWords(t: string)
    ensures AliasParts(t).Some? ==> "alias " <= t || "export alias " <= t
    ensures DefName(t).Some? ==> IsDefinition(t)
  {
    hide Find, Trim, FirstArgument;
  }

  /** The words that start a segment exclude one another. */
  lemma WordsExclude(t: string)
    ensures DefName(t).Some? ==> IsDefinition(t)
    ensures IsDefinition(t) ==> Evaluates(t) && !("load-env " <= t) && AliasParts(t).None? && !IsJournalSegment(t)
    ensures AliasParts(t).Some? ==> Evaluates(t) && !("load-env " <= t) && !IsJournalSegment(t)
    ensures t == "" || t == "pwd" || IsCd(t) || "load-env " <= t ==> !IsJournalSegment(t)
  {
    hide IsJournalSegment, AliasParts, DefName;
    if IsJournalSegment(t) {
      JournalIsNoDefinition(t);
    }
    AliasWords(t);
    DefinitionsExclude("def ", t);
    AliasesExclude("alias ", t);
    if "export def " <= t || "export alias " <= t {
      assert t[0] == 'e';
      Exclude("export def ", "export alias ", t, 7);
      Exclude("export def ", "alias ", t, 0);
      Exclude("export alias ", "def ", t, 0);
    }
  }

  lemma DefinitionsExclude(p: string, t: string)
    requires p == "def "
    ensures p <= t ==> !("cd " <= t) && !("hide-env " <= t) && !("load-env " <= t)
                       && !("alias " <= t) && !("export alias " <= t)
  {
    Exclude(p, "cd ", t, 0);
    Exclude(p, "hide-env ", t, 0);
    Exclude(p, "load-env ", t, 0);
    Exclude(p, "alias ", t, 0);
    Exclude(p, "export alias ", t, 0);
  }

  lemma AliasesExclude(p: string, t: string)
    requires p == "alias "
    ensures p <= t ==> !("cd " <= t) && !("hide-env " <= t) && !("load-env " <= t)
  {
    Exclude(p, "cd ", t, 0);
    Exclude(p, "hide-env ", t, 0);
    Exclude(p, "load-env ", t, 0);
  }

  lemma NotOther(t: string)
    requires "hide-env " <= t && IsJournalSegment(t)
    ensures t == "hide-env PWD" || t == "hide-env 'PWD'" || t == "hide-env \"PWD\""
  {
    assert t[0] == 'h';
  }

  /** A hidden `PWD` is journalled under the three spellings of its name only. */
  lemma HiddenPwd(t: string)
    requires "hide-env " <= t && IsJournalSegment(t)
    ensures Unquote(Trim(t[9..])) == "PWD"
  {
    hide IsJournalSegment, Trim;
    NotOther(t);
    var name := t[9..];
    assert name == "PWD" || name == "'PWD'" || name == "\"PWD\"";
    TrimOfTrimmed(name);
    assert "'PWD'"[1..4] == "PWD" && "\"PWD\""[1..4] == "PWD";
  }

  /** One segment does all of its effect or nothing, and succeeds exactly when it should. */
  lemma SegmentMeans(r: Registry, segment: string, o: Oracle)
    ensures var t := Trim(segment);
            RunSegment(r, segment, o) == if Succeeds(t, o) then Ran(Effect(r, t, o), true) else Ran(r, false)
  {
    hide IsJournalSegment, Trim, Unquote, AliasParts, DefName, RetainDefs, RegisterAlias;
    var t := Trim(segment);
    WordsExclude(t);
    JournalOfOne(Done(t, r.currentCwd, o));
    if "hide-env " <= t && IsJournalSegment(t) {
      HiddenPwd(t);
    }
    if t == "pwd" {
      Exclude("pwd", "cd ", t, 0);
    }
    assert r.replayCommands + [] == r.replayCommands;
  }

  // ----- whole sessions -----------------------------------------------------------------------

  /** What `r` becomes when the entries of a log take effect. */
  ghost predicate Leaves(r: Registry, log: Log, r': Registry) {
    && r'.initialCwd == r.initialCwd && r'.currentCwd == log.cwd
    && r'.replayCommands == r.replayCommands + JournalOf(log.entries)
    && r'.customCommands == DefsOf(r.customCommands, log.entries)
    && r'.aliases == AliasesOf(r.aliases, log.entries)
  }

  function DefsOf(commands: seq<string>, log: seq<Done>): seq<string> {
    if log == [] then commands
    else RegisterDef(DefsOf(commands, log[..|log| - 1]), log[|log| - 1].text)
  }

  function AliasesOf(aliases: seq<Alias>, log: seq<Done>): seq<Alias> {
    if log == [] then aliases
    else
      var before, t := AliasesOf(aliases, log[..|log| - 1]), log[|log| - 1].text;
      if AliasParts(t).Some? then RegisterAlias(before, AliasParts(t).value) else before
  }

  lemma {:induction false} ListsAppend(commands: seq<string>, aliases: seq<Alias>, a: seq<Done>, b: seq<Done>)
    ensures DefsOf(commands, a + b) == DefsOf(DefsOf(commands, a), b)
    ensures AliasesOf(aliases, a + b) == AliasesOf(AliasesOf(aliases, a), b)
    decreases |b|
  {
    hide RegisterDef, RegisterAlias, AliasParts;
    if b == [] {
      assert a + b == a;
    } else {
      var n := |b| - 1;
      assert (a + b)[..|a + b| - 1] == a + b[..n];
      ListsAppend(commands, aliases, a, b[..n]);
    }
  }

  lemma {:induction false} JournalAppend(a: seq<Done>, b: seq<Done>)
    ensures JournalOf(a + b) == JournalOf(a) + JournalOf(b)
    decreases |a|
  {
    hide JournalEntry;
    if a == [] {
      assert a + b == b;
    } else {
      assert (a + b)[1..] == a[1..] + b && (a + b)[0] == a[0];
      JournalAppend(a[1..], b);
    }
  }

  lemma LeavesThen(r: Registry, a: Log, r1: Registry, b: Log, r2: Registry)
    requires Leaves(r, a, r1) && Leaves(r1, b, r2)
    ensures Leaves(r, b.(entries := a.entries + b.entries), r2)
  {
    hide JournalOf, DefsOf, AliasesOf;
    JournalAppend(a.entries, b.entries);
    ListsAppend(r.customCommands, r.aliases, a.entries, b.entries);
  }

  lemma LeavesNothing(r: Registry)
    ensures Leaves(r, Log([], r.currentCwd), r)
  {
  }

  lemma OneLeaves(r: Registry, t: string, o: Oracle)
    ensures Leaves(r, Log([Done(t, r.currentCwd, o)], Moved(r.currentCwd, t, o)), Effect(r, t, o))
  {
    hide RegisterDef, RegisterAlias, AliasParts, Moved, JournalOf;
    var log := [Done(t, r.currentCwd, o)];
    assert log[..|log| - 1] == [] && log[0].text == t;
    assert DefsOf(r.customCommands, []) == r.customCommands && AliasesOf(r.aliases, []) == r.aliases;
    assert Effect(r, t, o).replayCommands == r.replayCommands + JournalOf(log);
  }

  lemma {:induction false} LineLeaves(r: Registry, segments: seq<string>, oracles: seq<Oracle>)
    requires |oracles| == |segments|
    ensures var log := LineLog(r.currentCwd, segments, oracles);
            var ran := RunSegments(r, segments, oracles);
            && Leaves(r, log, ran.registry)
            && |log.entries| <= |segments| && (ran.ok <==> |log.entries| == |segments|)
    decreases |segments|
  {
    hide Leaves, RunSegment, Succeeds, Moved, Effect, Trim;
    LeavesNothing(r);
    if segments != [] {
      var t, o := Trim(segments[0]), oracles[0];
      SegmentMeans(r, segments[0], o);
      if Succeeds(t, o) {
        var r1 := Effect(r, t, o);
        OneLeaves(r, t, o);
        EffectMoves(r, t, o);
        LineLeaves(r1, segments[1..], oracles[1..]);
        var first := Log([Done(t, r.currentCwd, o)], r1.currentCwd);
        LeavesThen(r, first, r1, LineLog(r1.currentCwd, segments[1..], oracles[1..]),
                   RunSegments(r1, segments[1..], oracles[1..]).registry);
      }
    }
  }

  lemma EffectMoves(r: Registry, t: string, o: Oracle)
    ensures Effect(r, t, o).currentCwd == Moved(r.currentCwd, t, o)
  {
    hide Moved, JournalOf, RegisterDef, RegisterAlias, AliasParts;
  }

  lemma {:induction false} SessionLeaves(r: Registry, execs: seq<Exec>)
    requires forall i | 0 <= i < |execs| :: ValidExec(execs[i])
    ensures Leaves(r, SessionLog(r.currentCwd, execs), ExecAll(r, execs))
    decreases |execs|
  {
    hide Leaves, RunSegments, LineLog;
    if execs == [] {
      LeavesNothing(r);
    } else {
      assert ValidExec(execs[0]);
      var segments := NuSegments.Split(execs[0].line);
      LineLeaves(r, segments, execs[0].oracles);
      var line := LineLog(r.currentCwd, segments, execs[0].oracles);
      var r1 := RunSegments(r, segments, execs[0].oracles).registry;
      CwdLeft(r, line, r1);
      SessionLeaves(r1, execs[1..]);
      LeavesThen(r, line, r1, SessionLog(line.cwd, execs[1..]), ExecAll(r1, execs[1..]));
    }
  }

  lemma CwdLeft(r: Registry, log: Log, r': Registry)
    requires Leaves(r, log, r')
    ensures r'.currentCwd == log.cwd
  {
  }

  /** Over any command lines and any answers, the journal grows by exactly the journal
      segments that ran successfully, in order, each trimmed and with the directory current
      before it ran and its digests; and the directory ends where the last move left it. */
  lemma JournalIsExact(r: Registry, execs: seq<Exec>)
    requires forall i | 0 <= i < |execs| :: ValidExec(execs[i])
    ensures var log := SessionLog(r.currentCwd, execs);
            && ExecAll(r, execs).replayCommands == r.replayCommands + JournalOf(log.entries)
            && ExecAll(r, execs).currentCwd == log.cwd
  {
    SessionLeaves(r, execs);
  }

  lemma {:induction false} DefsAreLast(log: seq<Done>, name: string, source: string)
    ensures UniqueDefs(DefsOf([], log))
    ensures Defines(DefsOf([], log), name, source) <==> LastDefines(log, name, source)
    decreases |log|
  {
    hide DefName, RegisterDef, UniqueDefs, RetainDefs, Defines;
    if log == [] {
      UniqueNone();
      NothingDefined(name, source);
    } else {
      var before, t := log[..|log| - 1], log[|log| - 1].text;
      DefsAreLast(before, name, source);
      LastSnoc(before, log[|log| - 1], name, source);
      assert before + [log[|log| - 1]] == log;
      if DefName(t).Some? {
        RegisterDefWins(DefsOf([], before), t, DefName(t).value);
      } else {
        RegisterNothing(DefsOf([], before), t);
      }
    }
  }

  lemma NothingDefined(name: string, source: string)
    ensures !Defines([], name, source)
  {
  }

  lemma LastSnoc(log: seq<Done>, e: Done, name: string, source: string)
    ensures LastDefines(log + [e], name, source) <==>
            if DefName(e.text) == Some(name) then source == e.text else LastDefines(log, name, source)
  {
    hide DefName;
    var all := log + [e];
    assert forall i | 0 <= i < |log| :: all[i] == log[i];
    if DefName(e.text) == Some(name) {
      assert source == e.text ==> DefinesAt(all, |log|, name, source);
      assert forall i | 0 <= i < |log| :: !DefinesAt(all, i, name, source) by {
        assert all[|log|] == e;
      }
    } else {
      if LastDefines(log, name, source) {
        var i :| 0 <= i < |log| && DefinesAt(log, i, name, source);
        assert DefinesAt(all, i, name, source);
      }
      if LastDefines(all, name, source) {
        var i :| 0 <= i < |all| && DefinesAt(all, i, name, source);
        assert i < |log| && DefinesAt(log, i, name, source);
      }
    }
  }

  /** The custom commands after any session of a new runtime: of every name the definition
      that ran successfully last, and nothing else. */
  lemma DefinitionsAreExact(initialCwd: string, execs: seq<Exec>, name: string, source: string)
    requires forall i | 0 <= i < |execs| :: ValidExec(execs[i])
    ensures Defines(ExecAll(Fresh(initialCwd), execs).customCommands, name, source)
       <==> LastDefines(SessionLog(initialCwd, execs).entries, name, source)
  {
    hide ExecAll, SessionLog, DefsOf, Defines, LastDefines;
    SessionLeaves(Fresh(initialCwd), execs);
    DefsAreLast(SessionLog(initialCwd, execs).entries, name, source);
  }

  lemma {:induction false} AliasesAreLast(log: seq<Done>, a: Alias)
    ensures UniqueAliases(AliasesOf([], log))
    ensures a in AliasesOf([], log) <==> LastAliases(log, a)
    decreases |log|
  {
    hide AliasParts, RegisterAlias, UniqueAliases;
    if log == [] {
      UniqueNoAlias();
    } else {
      var before, e := log[..|log| - 1], log[|log| - 1];
      AliasesAreLast(before, a);
      LastAliasSnoc(before, e, a);
      assert before + [e] == log;
      if AliasParts(e.text).Some? {
        RegisterAliasWins(AliasesOf([], before), AliasParts(e.text).value);
      }
    }
  }

  lemma LastAliasSnoc(log: seq<Done>, e: Done, a: Alias)
    ensures LastAliases(log + [e], a) <==>
            if AliasParts(e.text).Some? && AliasParts(e.text).value.name == a.name then AliasParts(e.text).value == a
            else LastAliases(log, a)
  {
    hide AliasParts;
    var all := log + [e];
    assert forall i | 0 <= i < |log| :: all[i] == log[i];
    if AliasParts(e.text).Some? && AliasParts(e.text).value.name == a.name {
      assert AliasParts(e.text).value == a ==> AliasesAt(all, |log|, a);
      assert forall i | 0 <= i < |log| :: !AliasesAt(all, i, a) by {
        assert all[|log|] == e;
      }
    } else {
      if LastAliases(log, a) {
        var i :| 0 <= i < |log| && AliasesAt(log, i, a);
        assert AliasesAt(all, i, a);
      }
      if LastAliases(all, a) {
        var i :| 0 <= i < |all| && AliasesAt(all, i, a);
        assert i < |log| && AliasesAt(log, i, a);
      }
    }
  }

  /** The same for aliases. */
  lemma AliasesAreExact(initialCwd: string, execs: seq<Exec>, a: Alias)
    requires forall i | 0 <= i < |execs| :: ValidExec(execs[i])
    ensures a in ExecAll(Fresh(initialCwd), execs).aliases <==> LastAliases(SessionLog(initialCwd, execs).entries, a)
  {
    hide ExecAll, SessionLog, AliasesOf, LastAliases;
    SessionLeaves(Fresh(initialCwd), execs);
    AliasesAreLast(SessionLog(initialCwd, execs).entries, a);
  }

  // ----- replaying ------------------------------------------------------------------------------

  /** The answers a replay gets when everything is as it was recorded. */
  predicate Unchanged(journal: seq<ReplayCommand>, oracles: seq<Oracle>)
    requires |oracles| == |journal|
  {
    forall i | 0 <= i < |journal| :: oracles[i].evalOk && oracles[i].files == Some(journal[i].files)
  }

  lemma CommandRejournals(r: Registry, c: ReplayCommand, o: Oracle)
    requires IsJournalSegment(c.command) && IsTrimmed(c.command)
    requires r.currentCwd == c.cwd && o.evalOk && o.files == Some(c.files)
    ensures var ran := RunSegment(r, c.command, o);
            ran.ok && ran.registry.replayCommands == r.replayCommands + [c]
  {
    hide IsJournalSegment, IsTrimmed, Trim;
    TrimOfTrimmed(c.command);
    SegmentMeans(r, c.command, o);
    WordsExclude(c.command);
    JournalOfOne(Done(c.command, r.currentCwd, o));
  }

  /** A replay runs every command in order, in its recorded directory: it journals exactly the
      journal it replays. */
  lemma {:induction false} ReplayRejournals(r: Registry, journal: seq<ReplayCommand>, oracles: seq<Oracle>)
    requires |oracles| == |journal| && IsJournal(journal) && Unchanged(journal, oracles)
    ensures var replayed := Replay(r, journal, oracles);
            replayed.Some? && replayed.value.replayCommands == r.replayCommands + journal
    decreases |journal|
  {
    hide RunSegment, IsJournalSegment, IsTrimmed;
    if journal != [] {
      var r0 := r.(currentCwd := journal[0].cwd);
      CommandRejournals(r0, journal[0], oracles[0]);
      var r1 := RunSegment(r0, journal[0].command, oracles[0]).registry.(currentCwd := r.currentCwd);
      ReplayRejournals(r1, journal[1..], oracles[1..]);
      assert r.replayCommands + [journal[0]] + journal[1..] == r.replayCommands + journal;
    }
  }

  // ----- what a definition and an alias say ---------------------------------------------------

  /** A word: what separates arguments does not occur in it. */
  predicate IsWord(s: string) {
    s != "" && s[0] != '-' && forall i | 0 <= i < |s| :: !IsWhitespace(s[i])
  }

  lemma {:induction false} WordEnds(word: string, rest: string)
    requires forall i | 0 <= i < |word| :: !IsWhitespace(word[i])
    requires rest == "" || IsWhitespace(rest[0])
    ensures WordEnd(word + rest) == |word|
    decreases |word|
  {
    if word == "" {
      assert word + rest == rest;
    } else {
      assert (word + rest)[1..] == word[1..] + rest;
      assert forall i | 0 <= i < |word[1..]| :: word[1..][i] == word[i + 1];
      WordEnds(word[1..], rest);
    }
  }

  lemma FirstWord(word: string, rest: string)
    requires IsWord(word) && (rest == "" || IsWhitespace(rest[0]))
    ensures FirstArgument(word + rest) == Some(word)
  {
    var s := word + rest;
    assert s[..0] == "" && IsBlank(s[..0]);
    FirstVisibleUnique(s, 0);
    assert s[0..] == s && s[0] == word[0];
    WordEnds(word, rest);
    assert s[..|word|] == word;
  }

  /** A definition names its first word, exported or not. */
  lemma DefinitionNames(word: string, rest: string)
    requires IsWord(word) && (rest == "" || IsWhitespace(rest[0]))
    ensures DefName("def " + (word + rest)) == Some(word)
    ensures DefName("export def " + (word + rest)) == Some(word)
  {
    hide FirstArgument;
    var s := word + rest;
    FirstWord(word, rest);
    assert ("def " + s)[4..] == s && ("export def " + s)[11..] == s;
    assert ("def " + s)[0] == 'd' && "export def "[0] == 'e';
  }

  /** An alias is cut at its first `=`. */
  lemma AliasNames(name: string, expansion: string)
    requires '=' !in name
    ensures AliasParts("alias " + (name + "=" + expansion)) == Some(Alias(Trim(name), Trim(expansion)))
    ensures AliasParts("export alias " + (name + "=" + expansion)) == Some(Alias(Trim(name), Trim(expansion)))
  {
    hide Trim, Find;
    var s := name + "=" + expansion;
    assert s[|name|..|name| + 1] == "=";
    forall k: nat | k < |name| ensures !OccursAt(s, "=", k) {
      assert s[k] in name;
      assert k + 1 <= |s| ==> s[k..k + 1] == [s[k]];
    }
    FindUnique(s, "=", |name|);
    assert s[..|name|] == name && s[|name| + 1..] == expansion;
    assert ("alias " + s)[6..] == s && ("export alias " + s)[13..] == s;
    assert ("alias " + s)[0] == 'a' && "export alias "[0] == 'e';
  }

  /** What a journal segment may begin with. */
  lemma JournalWords(rest: string)
    ensures IsJournalSegment("overlay " + rest) && IsJournalSegment("module " + rest) && IsJournalSegment("use " + rest)
    ensures IsJournalSegment("source " + rest) && IsJournalSegment("source-env " + rest)
    ensures IsJournalSegment("const " + rest) && IsJournalSegment("export const " + rest)
    ensures IsJournalSegment("export use " + rest) && IsJournalSegment("export module " + rest)
    ensures IsJournalSegment("export extern " + rest)
  {
  }
}
