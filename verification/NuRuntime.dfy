/** The state lists of the managed Nu runtime and their snapshot/restore cycle.
    Evaluation by the embedded shell is an oracle: it may fail and may move the
    working directory. */
module NuRuntime {
  import opened Text
  import NuSegments

  datatype Alias = Alias(name: string, expansion: string)

  datatype ReplayFile = ReplayFile(path: string, sha256: string)

  datatype ReplayCommand = ReplayCommand(command: string, cwd: string, files: seq<ReplayFile>)

  /** The lists that are carried across rotations. */
  datatype Registry = Registry(
    initialCwd: string,
    currentCwd: string,
    customCommands: seq<string>,
    aliases: seq<Alias>,
    replayCommands: seq<ReplayCommand>)

  /** What the shell and the file system answer while one segment runs: whether evaluation
      succeeds, where the working directory ends up (`None`: not moved, or a failing `cd`),
      and the digests of the files a replay command depends on (`None`: unreadable). */
  datatype Oracle = Oracle(evalOk: bool, cwdAfter: Option<string>, files: Option<seq<ReplayFile>>)

  datatype Ran = Ran(registry: Registry, ok: bool)

  // ----- recognising definitions ------------------------------------------------

  /** The end of the first word of `s`. */
  function WordEnd(s: string): (n: nat)
    ensures n <= |s|
    ensures s != "" && !IsWhitespace(s[0]) ==> n > 0
  {
    if s == "" || IsWhitespace(s[0]) then 0 else 1 + WordEnd(s[1..])
  }

  /** The first word that is not a flag. */
  function FirstArgument(s: string): Option<string>
    decreases |s|
  {
    var t := TrimStart(s);
    if t == "" then None
    else
      var n := WordEnd(t);
      if t[0] != '-' then Some(t[..n]) else FirstArgument(t[n..])
  }

  function DefName(source: string): Option<string> {
    if "export def " <= source then FirstArgument(source[11..])
    else if "def " <= source then FirstArgument(source[4..])
    else None
  }

  function AliasParts(source: string): Option<Alias> {
    if !("export alias " <= source) && !("alias " <= source) then None
    else
      var rest := if "export alias " <= source then source[13..] else source[6..];
      match Find(rest, "=")
      case None => None
      case Some(i) => Some(Alias(Trim(rest[..i]), Trim(rest[i + 1..])))
  }

  predicate IsJournalSegment(t: string) {
    || "overlay " <= t || "module " <= t || "use " <= t || "source " <= t || "source-env " <= t
    || "export use " <= t || "export module " <= t || "export extern " <= t || "export const " <= t
    || "const " <= t
    || t == "hide-env PWD" || t == "hide-env 'PWD'" || t == "hide-env \"PWD\""
  }

  function Unquote(s: string): string {
    if |s| >= 2 && s[0] == '"' && s[|s| - 1] == '"' then s[1..|s| - 1]
    else if |s| >= 2 && s[0] == '\'' && s[|s| - 1] == '\'' then s[1..|s| - 1]
    else s
  }

  // ----- the registries ------------------------------------------------------------

  function RetainDefs(commands: seq<string>, name: string): seq<string> {
    if commands == [] then []
    else (if DefName(commands[0]) == Some(name) then [] else [commands[0]]) + RetainDefs(commands[1..], name)
  }

  function RegisterDef(commands: seq<string>, source: string): seq<string> {
    match DefName(source)
    case None => commands
    case Some(name) => RetainDefs(commands, name) + [source]
  }

  function RetainAliases(aliases: seq<Alias>, name: string): seq<Alias> {
    if aliases == [] then []
    else (if aliases[0].name == name then [] else [aliases[0]]) + RetainAliases(aliases[1..], name)
  }

  function RegisterAlias(aliases: seq<Alias>, a: Alias): seq<Alias> {
    RetainAliases(aliases, a.name) + [a]
  }

  function Record(r: Registry, trimmed: string, o: Oracle): Ran {
    if !IsJournalSegment(trimmed) then Ran(r, true)
    else
      match o.files
      case None => Ran(r, false)
      case Some(fs) =>
        Ran(r.(replayCommands := r.replayCommands + [ReplayCommand(trimmed, r.currentCwd, fs)]), true)
  }

  function MoveTo(r: Registry, cwd: Option<string>): Registry {
    if cwd.Some? then r.(currentCwd := cwd.value) else r
  }

  function RunSegment(r: Registry, segment: string, o: Oracle): Ran {
    var t := Trim(segment);
    if t == "" || t == "pwd" then Ran(r, true)
    else if t == "cd" || "cd " <= t then Ran(MoveTo(r, o.cwdAfter), o.cwdAfter.Some?)
    else if "load-env " <= t then
      if o.evalOk then Ran(MoveTo(r, o.cwdAfter), true) else Ran(r, false)
    else if "hide-env " <= t then
      if Unquote(Trim(t[9..])) == "PWD" then Record(r, t, o) else Ran(r, true)
    else if "def " <= t || "export def " <= t then
      if o.evalOk then Ran(r.(customCommands := RegisterDef(r.customCommands, t)), true) else Ran(r, false)
    else if AliasParts(t).Some? then
      if o.evalOk then Ran(r.(aliases := RegisterAlias(r.aliases, AliasParts(t).value)), true) else Ran(r, false)
    else if !o.evalOk then Ran(r, false)
    else
      var recorded := Record(r, t, o);
      if recorded.ok then Ran(MoveTo(recorded.registry, o.cwdAfter), true) else recorded
  }

  /** The segments of one command line, up to the first that fails. */
  function RunSegments(r: Registry, segments: seq<string>, oracles: seq<Oracle>): Ran
    requires |oracles| == |segments|
    decreases |segments|
  {
    if segments == [] then Ran(r, true)
    else
      var first := RunSegment(r, segments[0], oracles[0]);
      if first.ok then RunSegments(first.registry, segments[1..], oracles[1..]) else first
  }

  /** One `exec_command`: a command line and the oracle of each of its segments. */
  datatype Exec = Exec(line: string, oracles: seq<Oracle>)

  predicate ValidExec(e: Exec) {
    |e.oracles| == |NuSegments.Split(e.line)|
  }

  function ExecAll(r: Registry, execs: seq<Exec>): Registry
    requires forall i | 0 <= i < |execs| :: ValidExec(execs[i])
    decreases |execs|
  {
    if execs == [] then r
    else
      assert ValidExec(execs[0]);
      ExecAll(RunSegments(r, NuSegments.Split(execs[0].line), execs[0].oracles).registry, execs[1..])
  }

  function Fresh(initialCwd: string): Registry {
    Registry(initialCwd, initialCwd, [], [], [])
  }

  // ----- restoring --------------------------------------------------------------------

  function RegisterDefs(commands: seq<string>, sources: seq<string>): seq<string>
    decreases |sources|
  {
    if sources == [] then commands else RegisterDefs(RegisterDef(commands, sources[0]), sources[1..])
  }

  function RegisterAliases(aliases: seq<Alias>, more: seq<Alias>): seq<Alias>
    decreases |more|
  {
    if more == [] then aliases else RegisterAliases(RegisterAlias(aliases, more[0]), more[1..])
  }

  /** Replaying the journal: each command in its own directory, then back. */
  function Replay(r: Registry, journal: seq<ReplayCommand>, oracles: seq<Oracle>): Option<Registry>
    requires |oracles| == |journal|
    decreases |journal|
  {
    if journal == [] then Some(r)
    else
      var ran := RunSegment(r.(currentCwd := journal[0].cwd), journal[0].command, oracles[0]);
      if !ran.ok then None
      else Replay(ran.registry.(currentCwd := r.currentCwd), journal[1..], oracles[1..])
  }

  /** `intact` says that every dependency still has its recorded digest, `defined` that
      every definition evaluates. */
  function Restore(r: Registry, snapshot: Registry, defined: bool, intact: bool, oracles: seq<Oracle>): Option<Registry>
    requires |oracles| == |snapshot.replayCommands|
  {
    if !defined || !intact then None
    else
      var r1 := r.(currentCwd := snapshot.currentCwd,
                   customCommands := RegisterDefs(r.customCommands, snapshot.customCommands),
                   aliases := RegisterAliases(r.aliases, snapshot.aliases));
      match Replay(r1, snapshot.replayCommands, oracles)
      case None => None
      case Some(r2) => Some(r2.(replayCommands := snapshot.replayCommands))
  }

  // ----- what every run keeps -----------------------------------------------------------

  ghost predicate UniqueDefs(commands: seq<string>) {
    && (forall i | 0 <= i < |commands| :: DefName(commands[i]).Some?)
    && (forall i, j | 0 <= i < j < |commands| :: DefName(commands[i]) != DefName(commands[j]))
  }

  ghost predicate UniqueAliases(aliases: seq<Alias>) {
    forall i, j | 0 <= i < j < |aliases| :: aliases[i].name != aliases[j].name
  }

  ghost predicate IsJournal(journal: seq<ReplayCommand>) {
    forall i | 0 <= i < |journal| :: IsJournalSegment(journal[i].command) && IsTrimmed(journal[i].command)
  }

  ghost predicate WellFormed(r: Registry) {
    UniqueDefs(r.customCommands) && UniqueAliases(r.aliases) && IsJournal(r.replayCommands)
  }

  /** Which source defines a command, and what an alias expands to. */
  ghost predicate Defines(commands: seq<string>, name: string, source: string) {
    source in commands && DefName(source) == Some(name)
  }

  lemma {:induction false} RetainDefsKeeps(commands: seq<string>, name: string)
    requires UniqueDefs(commands)
    ensures UniqueDefs(RetainDefs(commands, name))
    ensures forall c :: c in RetainDefs(commands, name) <==> c in commands && DefName(c) != Some(name)
  {
    hide DefName, UniqueDefs;
    if commands != [] {
      UniqueRest(commands);
      var rest := commands[1..];
      RetainDefsKeeps(rest, name);
      var kept := RetainDefs(rest, name);
      assert forall c :: c in commands <==> c == commands[0] || c in rest;
      UniqueCons(commands[0], kept);
      assert [] + kept == kept;
    } else {
      UniqueNone();
    }
  }

  lemma UniqueNone()
    ensures UniqueDefs([])
  {
  }

  lemma UniqueRest(commands: seq<string>)
    requires UniqueDefs(commands) && commands != []
    ensures DefName(commands[0]).Some? && UniqueDefs(commands[1..])
    ensures forall c | c in commands[1..] :: DefName(c) != DefName(commands[0])
  {
    hide DefName;
    assert forall i | 0 <= i < |commands[1..]| :: commands[1..][i] == commands[i + 1];
  }

  lemma UniqueCons(command: string, kept: seq<string>)
    requires UniqueDefs(kept) && DefName(command).Some?
    requires forall c | c in kept :: DefName(c) != DefName(command)
    ensures UniqueDefs([command] + kept)
  {
    hide DefName;
    assert forall i | 0 <= i < |kept| :: kept[i] in kept;
  }

  /** Last write wins, other names are untouched, names stay unique. */
  lemma RegisterDefWins(commands: seq<string>, source: string, name: string)
    requires UniqueDefs(commands) && DefName(source) == Some(name)
    ensures UniqueDefs(RegisterDef(commands, source))
    ensures forall s :: Defines(RegisterDef(commands, source), name, s) <==> s == source
    ensures forall n, s | n != name ::
              Defines(RegisterDef(commands, source), n, s) <==> Defines(commands, n, s)
  {
    hide DefName, RetainDefs;
    RetainDefsKeeps(commands, name);
    var kept := RetainDefs(commands, name);
    assert forall i | 0 <= i < |kept| :: kept[i] in kept;
    var all := kept + [source];
    assert forall s :: s in all <==> s in kept || s == source;
  }

  lemma {:induction false} RetainAliasesKeeps(aliases: seq<Alias>, name: string)
    requires UniqueAliases(aliases)
    ensures UniqueAliases(RetainAliases(aliases, name))
    ensures forall a :: a in RetainAliases(aliases, name) <==> a in aliases && a.name != name
  {
    hide UniqueAliases;
    if aliases != [] {
      UniqueAliasRest(aliases);
      var rest := aliases[1..];
      RetainAliasesKeeps(rest, name);
      var kept := RetainAliases(rest, name);
      assert forall a :: a in aliases <==> a == aliases[0] || a in rest;
      UniqueAliasCons(aliases[0], kept);
      assert [] + kept == kept;
    } else {
      UniqueNoAlias();
    }
  }

  lemma UniqueNoAlias()
    ensures UniqueAliases([])
  {
  }

  lemma UniqueAliasRest(aliases: seq<Alias>)
    requires UniqueAliases(aliases) && aliases != []
    ensures UniqueAliases(aliases[1..])
    ensures forall a | a in aliases[1..] :: a.name != aliases[0].name
  {
    assert forall i | 0 <= i < |aliases[1..]| :: aliases[1..][i] == aliases[i + 1];
  }

  lemma UniqueAliasCons(alias: Alias, kept: seq<Alias>)
    requires UniqueAliases(kept)
    requires forall a | a in kept :: a.name != alias.name
    ensures UniqueAliases([alias] + kept)
  {
    assert forall i | 0 <= i < |kept| :: kept[i] in kept;
  }

  lemma RegisterAliasWins(aliases: seq<Alias>, a: Alias)
    requires UniqueAliases(aliases)
    ensures UniqueAliases(RegisterAlias(aliases, a))
    ensures forall b :: b in RegisterAlias(aliases, a) <==> b == a || (b in aliases && b.name != a.name)
  {
    hide RetainAliases;
    RetainAliasesKeeps(aliases, a.name);
    var kept := RetainAliases(aliases, a.name);
    assert forall i | 0 <= i < |kept| :: kept[i] in kept;
  }

  lemma SegmentKeepsWellFormed(r: Registry, segment: string, o: Oracle)
    requires WellFormed(r)
    ensures WellFormed(RunSegment(r, segment, o).registry)
  {
    hide DefName, AliasParts, RegisterDef, RegisterAlias, IsJournalSegment, Trim, Unquote, UniqueDefs, UniqueAliases, IsTrimmed;
    var t := Trim(segment);
    TrimIsTrimmed(segment);
    RecordKeepsJournal(r, t, o);
    if DefName(t).Some? {
      RegisterDefWins(r.customCommands, t, DefName(t).value);
    } else {
      RegisterNothing(r.customCommands, t);
    }
    if AliasParts(t).Some? {
      RegisterAliasWins(r.aliases, AliasParts(t).value);
    }
  }

  lemma RegisterNothing(commands: seq<string>, source: string)
    requires DefName(source).None?
    ensures RegisterDef(commands, source) == commands
  {
  }

  lemma RecordKeepsJournal(r: Registry, t: string, o: Oracle)
    requires IsJournal(r.replayCommands) && IsTrimmed(t)
    ensures IsJournal(Record(r, t, o).registry.replayCommands)
  {
    hide IsJournalSegment, IsTrimmed;
  }

  lemma {:induction false} SegmentsKeepWellFormed(r: Registry, segments: seq<string>, oracles: seq<Oracle>)
    requires |oracles| == |segments| && WellFormed(r)
    ensures WellFormed(RunSegments(r, segments, oracles).registry)
    decreases |segments|
  {
    hide RunSegment, WellFormed;
    if segments != [] {
      SegmentKeepsWellFormed(r, segments[0], oracles[0]);
      SegmentsKeepWellFormed(RunSegment(r, segments[0], oracles[0]).registry, segments[1..], oracles[1..]);
    }
  }

  lemma {:induction false} SessionsAreWellFormed(r: Registry, execs: seq<Exec>)
    requires WellFormed(r)
    requires forall i | 0 <= i < |execs| :: ValidExec(execs[i])
    ensures WellFormed(ExecAll(r, execs))
    decreases |execs|
  {
    hide RunSegments, WellFormed;
    if execs != [] {
      var e := execs[0];
      assert ValidExec(e);
      var segments := NuSegments.Split(e.line);
      SegmentsKeepWellFormed(r, segments, e.oracles);
      SessionsAreWellFormed(RunSegments(r, segments, e.oracles).registry, execs[1..]);
    }
  }

  // ----- snapshot and restore --------------------------------------------------------------

  lemma {:induction false} RetainNothing(commands: seq<string>, name: string)
    requires forall i | 0 <= i < |commands| :: DefName(commands[i]) != Some(name)
    ensures RetainDefs(commands, name) == commands
  {
    hide DefName;
    if commands != [] {
      RetainNothing(commands[1..], name);
    }
  }

  /** Registering the entries of a list without duplicates rebuilds the list. */
  lemma {:induction false} DefsRebuilt(done: seq<string>, todo: seq<string>)
    requires UniqueDefs(done + todo)
    ensures RegisterDefs(done, todo) == done + todo
    decreases |todo|
  {
    hide DefName, RetainDefs;
    var all := done + todo;
    if todo == [] {
      assert all == done;
    } else {
      assert todo[0] == all[|done|];
      assert forall i | 0 <= i < |done| :: done[i] == all[i];
      RetainNothing(done, DefName(todo[0]).value);
      assert done + [todo[0]] + todo[1..] == all;
      DefsRebuilt(done + [todo[0]], todo[1..]);
    }
  }

  lemma {:induction false} RetainNoAlias(aliases: seq<Alias>, name: string)
    requires forall i | 0 <= i < |aliases| :: aliases[i].name != name
    ensures RetainAliases(aliases, name) == aliases
  {
    if aliases != [] {
      RetainNoAlias(aliases[1..], name);
    }
  }

  lemma {:induction false} AliasesRebuilt(done: seq<Alias>, todo: seq<Alias>)
    requires UniqueAliases(done + todo)
    ensures RegisterAliases(done, todo) == done + todo
    decreases |todo|
  {
    hide RetainAliases;
    var all := done + todo;
    if todo == [] {
      assert all == done;
    } else {
      assert todo[0] == all[|done|];
      assert forall i | 0 <= i < |done| :: done[i] == all[i];
      RetainNoAlias(done, todo[0].name);
      assert done + [todo[0]] + todo[1..] == all;
      AliasesRebuilt(done + [todo[0]], todo[1..]);
    }
  }

  /** A journal command is never a definition, whatever the shell answers. */
  lemma JournalLeavesLists(r: Registry, command: string, o: Oracle)
    requires IsJournalSegment(command) && IsTrimmed(command)
    ensures var r' := RunSegment(r, command, o).registry;
            r' == r.(currentCwd := r'.currentCwd, replayCommands := r'.replayCommands)
    ensures o.evalOk && o.files.Some? ==> RunSegment(r, command, o).ok
  {
    hide Trim, Unquote, RegisterDef, RegisterAlias;
    TrimOfTrimmed(command);
    JournalIsNoDefinition(command);
  }

  lemma JournalIsNoDefinition(t: string)
    requires IsJournalSegment(t)
    ensures !("def " <= t) && !("export def " <= t) && AliasParts(t).None?
    ensures t != "" && t != "pwd" && t != "cd" && !("cd " <= t) && !("load-env " <= t)
  {
    hide IsJournalSegment;
    JournalHead(t);
    NotAt("def ", t, 0);
    NotAt("alias ", t, 0);
    NotAt("load-env ", t, 0);
    NotAt("cd ", t, 1);
    NotAt("export def ", t, 7);
    NotAt("export alias ", t, 7);
  }

  lemma NotAt(p: string, t: string, i: nat)
    requires i < |p| && (i < |t| && t[0] == p[0] ==> t[i] != p[i])
    ensures !(p <= t)
  {
  }

  /** The first letters of a journal command. */
  lemma JournalHead(t: string)
    requires IsJournalSegment(t)
    ensures |t| > 3 && t[0] in {'o', 'm', 'u', 's', 'c', 'h', 'e'}
    ensures t[0] == 'c' ==> t[1] == 'o'
    ensures t[0] == 'e' ==> |t| > 7 && t[7] in {'u', 'm', 'e', 'c'}
  {
  }

  lemma {:induction false} ReplayLeavesLists(r: Registry, journal: seq<ReplayCommand>, oracles: seq<Oracle>)
    requires |oracles| == |journal| && IsJournal(journal)
    ensures var r' := Replay(r, journal, oracles);
            r'.Some? ==> r'.value == r.(replayCommands := r'.value.replayCommands)
    ensures (forall i | 0 <= i < |oracles| :: oracles[i].evalOk && oracles[i].files.Some?)
            ==> Replay(r, journal, oracles).Some?
    decreases |journal|
  {
    hide RunSegment, IsJournalSegment, IsTrimmed;
    if journal != [] {
      var r0 := r.(currentCwd := journal[0].cwd);
      JournalLeavesLists(r0, journal[0].command, oracles[0]);
      var ran := RunSegment(r0, journal[0].command, oracles[0]);
      ReplayLeavesLists(ran.registry.(currentCwd := r.currentCwd), journal[1..], oracles[1..]);
    }
  }

  /** Whenever restoring a snapshot into a fresh runtime succeeds, taking a snapshot again
      gives the same lists, journal and directories; and it does succeed when the shell
      accepts what it accepted before and no dependency changed. */
  lemma SnapshotRoundTrip(r: Registry, defined: bool, intact: bool, oracles: seq<Oracle>)
    requires WellFormed(r) && |oracles| == |r.replayCommands|
    ensures var restored := Restore(Fresh(r.initialCwd), r, defined, intact, oracles);
            && (restored.Some? ==> restored.value == r)
            && (defined && intact && (forall i | 0 <= i < |oracles| :: oracles[i].evalOk && oracles[i].files.Some?)
                ==> restored.Some?)
  {
    hide RegisterDefs, RegisterAliases, Replay, UniqueDefs, UniqueAliases, IsJournal;
    var f := Fresh(r.initialCwd);
    assert [] + r.customCommands == r.customCommands && [] + r.aliases == r.aliases;
    DefsRebuilt([], r.customCommands);
    AliasesRebuilt([], r.aliases);
    var r1 := f.(currentCwd := r.currentCwd, customCommands := r.customCommands, aliases := r.aliases);
    ReplayLeavesLists(r1, r.replayCommands, oracles);
  }

  /** The same for every session: after any command lines and any shell answers. */
  lemma SessionSurvivesRotation(initialCwd: string, execs: seq<Exec>, defined: bool, intact: bool, oracles: seq<Oracle>)
    requires forall i | 0 <= i < |execs| :: ValidExec(execs[i])
    requires |oracles| == |ExecAll(Fresh(initialCwd), execs).replayCommands|
    ensures var r := ExecAll(Fresh(initialCwd), execs);
            var restored := Restore(Fresh(initialCwd), r, defined, intact, oracles);
            restored.Some? ==> restored.value == r
  {
    hide Restore, WellFormed;
    FreshIsWellFormed(initialCwd);
    SessionsAreWellFormed(Fresh(initialCwd), execs);
    var r := ExecAll(Fresh(initialCwd), execs);
    ExecKeepsInitial(Fresh(initialCwd), execs);
    SnapshotRoundTrip(r, defined, intact, oracles);
  }

  lemma FreshIsWellFormed(initialCwd: string)
    ensures WellFormed(Fresh(initialCwd))
  {
  }

  lemma {:induction false} ExecKeepsInitial(r: Registry, execs: seq<Exec>)
    requires forall i | 0 <= i < |execs| :: ValidExec(execs[i])
    ensures ExecAll(r, execs).initialCwd == r.initialCwd
    decreases |execs|
  {
    hide RunSegments;
    if execs != [] {
      assert ValidExec(execs[0]);
      var segments := NuSegments.Split(execs[0].line);
      SegmentsKeepInitial(r, segments, execs[0].oracles);
      ExecKeepsInitial(RunSegments(r, segments, execs[0].oracles).registry, execs[1..]);
    }
  }

  lemma {:induction false} SegmentsKeepInitial(r: Registry, segments: seq<string>, oracles: seq<Oracle>)
    requires |oracles| == |segments|
    ensures RunSegments(r, segments, oracles).registry.initialCwd == r.initialCwd
    decreases |segments|
  {
    hide Trim, AliasParts, Unquote, RegisterDef, RegisterAlias, IsJournalSegment;
    if segments != [] {
      SegmentsKeepInitial(RunSegment(r, segments[0], oracles[0]).registry, segments[1..], oracles[1..]);
    }
  }

  // ----- the runtime object ---------------------------------------------------------------------

  class ManagedNuRuntime {
    const initialCwd: string
    var currentCwd: string
    var customCommands: seq<string>
    var aliases: seq<Alias>
    var replayCommands: seq<ReplayCommand>

    ghost function St(): Registry
      reads this
    {
      Registry(initialCwd, currentCwd, customCommands, aliases, replayCommands)
    }

    constructor (cwd: string)
      ensures initialCwd == cwd && St() == Fresh(cwd)
    {
      initialCwd, currentCwd := cwd, cwd;
      customCommands, aliases, replayCommands := [], [], [];
    }

    method AddDef(source: string)
      modifies this`customCommands
      ensures customCommands == RegisterDef(old(customCommands), source)
    {
      var name := DefName(source);
      if name.Some? {
        customCommands := RetainDefs(customCommands, name.value);
        customCommands := customCommands + [source];
      }
    }

    method AddAlias(name: string, expansion: string)
      modifies this`aliases
      ensures aliases == RegisterAlias(old(aliases), Alias(name, expansion))
    {
      aliases := RetainAliases(aliases, name);
      aliases := aliases + [Alias(name, expansion)];
    }

    method RecordReplaySegment(trimmed: string, o: Oracle) returns (ok: bool)
      modifies this`replayCommands
      ensures Ran(St(), ok) == Record(old(St()), trimmed, o)
      ensures ok <==> !IsJournalSegment(trimmed) || o.files.Some?
      ensures replayCommands == old(replayCommands) + if IsJournalSegment(trimmed) && o.files.Some?
                                  then [ReplayCommand(trimmed, currentCwd, o.files.value)] else []
    {
      hide IsJournalSegment;
      if !IsJournalSegment(trimmed) {
        return true;
      }
      if o.files.None? {
        return false;
      }
      replayCommands := replayCommands + [ReplayCommand(trimmed, currentCwd, o.files.value)];
      return true;
    }

    method RunOne(segment: string, o: Oracle) returns (ok: bool)
      modifies this
      ensures Ran(St(), ok) == RunSegment(old(St()), segment, o)
    {
      hide Trim, Unquote, AliasParts, IsJournalSegment, RegisterDef, RegisterAlias;
      var trimmed := Trim(segment);
      ok := true;
      if trimmed == "" || trimmed == "pwd" {
        return;
      }
      if trimmed == "cd" || "cd " <= trimmed {
        if o.cwdAfter.None? {
          return false;
        }
        currentCwd := o.cwdAfter.value;
        return;
      }
      if "load-env " <= trimmed {
        if !o.evalOk {
          return false;
        }
        if o.cwdAfter.Some? {
          currentCwd := o.cwdAfter.value;
        }
        return;
      }
      if "hide-env " <= trimmed {
        if Unquote(Trim(trimmed[9..])) == "PWD" {
          ok := RecordReplaySegment(trimmed, o);
        }
        return;
      }
      if "def " <= trimmed || "export def " <= trimmed {
        if !o.evalOk {
          return false;
        }
        AddDef(trimmed);
        return;
      }
      var parts := AliasParts(trimmed);
      if parts.Some? {
        if !o.evalOk {
          return false;
        }
        AddAlias(parts.value.name, parts.value.expansion);
        return;
      }
      if !o.evalOk {
        return false;
      }
      ok := RecordReplaySegment(trimmed, o);
      if ok && o.cwdAfter.Some? {
        currentCwd := o.cwdAfter.value;
      }
    }

    method ExecCommand(e: Exec) returns (ok: bool)
      requires ValidExec(e)
      modifies this
      ensures Ran(St(), ok) == RunSegments(old(St()), NuSegments.Split(e.line), e.oracles)
    {
      hide RunSegment;
      var segments := NuSegments.SplitTopLevelSegments(e.line);
      var i := 0;
      while i < |segments|
        invariant 0 <= i <= |segments|
        invariant RunSegments(St(), segments[i..], e.oracles[i..]) == RunSegments(old(St()), segments, e.oracles)
      {
        assert segments[i..][1..] == segments[i + 1..] && e.oracles[i..][1..] == e.oracles[i + 1..];
        ok := RunOne(segments[i], e.oracles[i]);
        if !ok {
          return;
        }
        i := i + 1;
      }
      ok := true;
    }

    method RestoreFrom(snapshot: Registry, defined: bool, intact: bool, oracles: seq<Oracle>) returns (ok: bool)
      requires |oracles| == |snapshot.replayCommands|
      modifies this
      ensures var restored := Restore(old(St()), snapshot, defined, intact, oracles);
              ok == restored.Some? && (ok ==> St() == restored.value)
    {
      hide RunSegment, RegisterDef, RegisterAlias;
      if !defined || !intact {
        return false;
      }
      currentCwd := snapshot.currentCwd;
      var i := 0;
      while i < |snapshot.customCommands|
        invariant 0 <= i <= |snapshot.customCommands|
        invariant St() == old(St()).(currentCwd := snapshot.currentCwd, customCommands := customCommands)
        invariant RegisterDefs(customCommands, snapshot.customCommands[i..])
               == RegisterDefs(old(customCommands), snapshot.customCommands)
      {
        AddDef(snapshot.customCommands[i]);
        i := i + 1;
      }
      assert snapshot.customCommands[i..] == [];
      i := 0;
      while i < |snapshot.aliases|
        invariant 0 <= i <= |snapshot.aliases|
        invariant St() == old(St()).(currentCwd := snapshot.currentCwd, aliases := aliases,
                    customCommands := RegisterDefs(old(customCommands), snapshot.customCommands))
        invariant RegisterAliases(aliases, snapshot.aliases[i..])
               == RegisterAliases(old(aliases), snapshot.aliases)
      {
        AddAlias(snapshot.aliases[i].name, snapshot.aliases[i].expansion);
        i := i + 1;
      }
      assert snapshot.aliases[i..] == [];
      ok := ReplayJournal(snapshot.replayCommands, oracles);
      if ok {
        replayCommands := snapshot.replayCommands;
      }
    }

    method ReplayJournal(journal: seq<ReplayCommand>, oracles: seq<Oracle>) returns (ok: bool)
      requires |oracles| == |journal|
      modifies this
      ensures var replayed := Replay(old(St()), journal, oracles);
              ok == replayed.Some? && (ok ==> St() == replayed.value)
    {
      hide RunSegment;
      var i := 0;
      while i < |journal|
        invariant 0 <= i <= |journal|
        invariant Replay(St(), journal[i..], oracles[i..]) == Replay(old(St()), journal, oracles)
      {
        assert journal[i..][1..] == journal[i + 1..] && oracles[i..][1..] == oracles[i + 1..];
        var originalCwd := currentCwd;
        currentCwd := journal[i].cwd;
        ok := RunOne(journal[i].command, oracles[i]);
        if !ok {
          return;
        }
        currentCwd := originalCwd;
        i := i + 1;
      }
      ok := true;
    }
  }
}
