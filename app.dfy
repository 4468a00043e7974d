/**
 * The application (cli.go): an ordered registry of commands, the built-in
 * `help` and `version` commands, and the decision `Run` takes on the
 * positional arguments: usage, help, dispatch to a command, or an unknown
 * command with "did you mean" suggestions.
 *
 * Printing and `os.Exit` become the `Outcome` value that `Run` returns;
 * `Status` gives the exit status the application itself would choose.
 * The pure function `Route` states the decision; the class `Application`
 * keeps the source's loops (which also record each command's distance to
 * the request) and is proved to return what `Route` says.
 */
module App {
  import opened Wrappers
  import Levenshtein

  /** Names at a distance below this from the request are suggested. */
  const SimilarThreshold: int := 5

  /** What a command does when run: print the version, or code outside this model. */
  datatype Runner = VersionRunner(version: string) | External(id: nat)

  /** What the application knows of a command besides its distance; `run` is `None` for a nil `Run`. */
  datatype CommandInfo = CommandInfo(native: bool, usage: string, short: string, run: Option<Runner>)

  /** The command name: its usage line up to the first space. */
  function NameOf(usage: string): string
  {
    if usage == [] || usage[0] == ' ' then [] else [usage[0]] + NameOf(usage[1..])
  }

  /** The name is the longest prefix of the usage line without a space. */
  lemma {:induction false} NameOfIsFirstWord(usage: string)
    ensures |NameOf(usage)| <= |usage| && NameOf(usage) == usage[..|NameOf(usage)|]
    ensures ' ' !in NameOf(usage)
    ensures |NameOf(usage)| < |usage| ==> usage[|NameOf(usage)|] == ' '
  {
    if usage != [] && usage[0] != ' ' {
      NameOfIsFirstWord(usage[1..]);
    }
  }

  /** `strings.HasPrefix(s, p)`. */
  predicate HasPrefix(s: string, p: string)
  {
    |p| <= |s| && s[..|p|] == p
  }

  /** The distance `Run` records: 0 when the name starts with the request, else the edit distance. */
  function Distance(request: string, name: string): nat
  {
    if HasPrefix(name, request) then 0 else Levenshtein.EditDistance(request, name)
  }

  /** The recorded distance is 0 exactly when the request is a prefix of the name. */
  lemma DistanceZero(request: string, name: string)
    ensures Distance(request, name) == 0 <==> HasPrefix(name, request)
  {
    Levenshtein.EditDistanceZero(request, name);
  }

  /** A command that `similar` suggests: not built in, and close to the request. */
  predicate IsSimilar(info: CommandInfo, request: string)
  {
    !info.native && Distance(request, NameOf(info.usage)) < SimilarThreshold
  }

  /** The names `similar` returns, in registration order. */
  function Suggestions(infos: seq<CommandInfo>, request: string): seq<string>
  {
    if infos == [] then []
    else
      var last := infos[|infos| - 1];
      Suggestions(infos[..|infos| - 1], request) + (if IsSimilar(last, request) then [NameOf(last.usage)] else [])
  }

  /** Suggestions keep the registration order: those of a list are those of its parts, one after the other. */
  lemma {:induction false} SuggestionsConcat(a: seq<CommandInfo>, b: seq<CommandInfo>, request: string)
    ensures Suggestions(a + b, request) == Suggestions(a, request) + Suggestions(b, request)
    decreases |b|
  {
    if b == [] {
      assert a + b == a;
    } else {
      var b' := b[..|b| - 1];
      assert (a + b)[..|a + b| - 1] == a + b';
      SuggestionsConcat(a, b', request);
    }
  }

  /** A name is suggested exactly when some registered command with that name is similar to the request. */
  lemma {:induction false} SuggestionsExactly(infos: seq<CommandInfo>, request: string, name: string)
    ensures name in Suggestions(infos, request) <==>
            exists k :: 0 <= k < |infos| && IsSimilar(infos[k], request) && NameOf(infos[k].usage) == name
    decreases |infos|
  {
    if infos != [] {
      var init, last := infos[..|infos| - 1], infos[|infos| - 1];
      SuggestionsExactly(init, request, name);
      var extra := if IsSimilar(last, request) then [NameOf(last.usage)] else [];
      assert Suggestions(infos, request) == Suggestions(init, request) + extra;
      if name in Suggestions(init, request) {
        var k :| 0 <= k < |init| && IsSimilar(init[k], request) && NameOf(init[k].usage) == name;
        assert infos[k] == init[k];
      } else if name in extra {
        assert IsSimilar(infos[|infos| - 1], request) && NameOf(infos[|infos| - 1].usage) == name;
      } else {
        forall k | 0 <= k < |infos| && IsSimilar(infos[k], request)
          ensures NameOf(infos[k].usage) != name
        {
          if k < |init| {
            assert infos[k] == init[k];
          }
        }
      }
    }
  }

  /**
   * The first command from index `k` on whose name is `name` and, when
   * `runnable` is asked for, whose `Run` is not nil.
   */
  function Find(infos: seq<CommandInfo>, name: string, runnable: bool, k: nat): Option<nat>
    decreases |infos| - k
  {
    if k >= |infos| then None
    else if NameOf(infos[k].usage) == name && (!runnable || infos[k].run.Some?) then Some(k)
    else Find(infos, name, runnable, k + 1)
  }

  predicate Matches(info: CommandInfo, name: string, runnable: bool)
  {
    NameOf(info.usage) == name && (!runnable || info.run.Some?)
  }

  /** `Find` gives the first match at or after `k`, and `None` only when there is none. */
  lemma {:induction false} FindFirst(infos: seq<CommandInfo>, name: string, runnable: bool, k: nat)
    ensures Find(infos, name, runnable, k).Some? ==>
              var i := Find(infos, name, runnable, k).value;
              k <= i < |infos| && Matches(infos[i], name, runnable) &&
              forall j :: k <= j < i ==> !Matches(infos[j], name, runnable)
    ensures Find(infos, name, runnable, k).None? ==>
              forall j :: k <= j < |infos| ==> !Matches(infos[j], name, runnable)
    decreases |infos| - k
  {
    if k < |infos| && !Matches(infos[k], name, runnable) {
      FindFirst(infos, name, runnable, k + 1);
    }
  }

  /** What the application does with the positional arguments. */
  datatype Outcome =
    | UsageExit                                 // global usage on the error stream, status 2
    | HelpIndex                                 // global usage on the output stream
    | HelpTooMany                               // "Too many arguments given.", status 2
    | HelpTopic(index: nat)                     // the help text of that command
    | HelpUnknown(topic: string)                // "Unknown help topic", status 2
    | Dispatch(index: nat, args: seq<string>)   // that command's flags parse the remaining arguments
    | UnknownCommand(request: string, suggestions: seq<string>)  // "unknown command", status 2

  /** The status the application exits with by itself; `None` when it returns or the command chooses. */
  function Status(o: Outcome): (r: Option<int>)
    ensures r.Some? <==> o.UsageExit? || o.HelpTooMany? || o.HelpUnknown? || o.UnknownCommand?
    ensures r.Some? ==> r.value == 2
  {
    match o
    case UsageExit => Some(2)
    case HelpTooMany => Some(2)
    case HelpUnknown(_) => Some(2)
    case UnknownCommand(_, _) => Some(2)
    case _ => None
  }

  /** `help`: the index with no argument, a topic with one, an error with more or an unknown name. */
  function HelpRoute(infos: seq<CommandInfo>, args: seq<string>): Outcome
  {
    if |args| == 0 then HelpIndex
    else if |args| != 1 then HelpTooMany
    else match Find(infos, args[0], false, 0)
      case Some(i) => HelpTopic(i)
      case None => HelpUnknown(args[0])
  }

  /** `Run`: usage without arguments, `help` before any lookup, else the first runnable command of that name. */
  function Route(infos: seq<CommandInfo>, args: seq<string>): Outcome
  {
    if |args| == 0 then UsageExit
    else if args[0] == "help" then HelpRoute(infos, args[1..])
    else match Find(infos, args[0], true, 0)
      case Some(i) => Dispatch(i, args[1..])
      case None => UnknownCommand(args[0], Suggestions(infos, args[0]))
  }

  /**
   * What `Route` promises: each outcome, and the facts about the commands
   * that lead to it.
   */
  lemma RouteSpec(infos: seq<CommandInfo>, args: seq<string>)
    ensures Route(infos, args).UsageExit? <==> |args| == 0
    ensures |args| > 0 && args[0] == "help" ==> Route(infos, args) == HelpRoute(infos, args[1..])
    ensures Route(infos, args).Dispatch? <==>
              |args| > 0 && args[0] != "help" && exists k :: 0 <= k < |infos| && Matches(infos[k], args[0], true)
    ensures Route(infos, args).Dispatch? ==>
              var i := Route(infos, args).index;
              i < |infos| && Matches(infos[i], args[0], true) && Route(infos, args).args == args[1..] &&
              forall j :: 0 <= j < i ==> !Matches(infos[j], args[0], true)
    ensures Route(infos, args).UnknownCommand? ==> Route(infos, args) == UnknownCommand(args[0], Suggestions(infos, args[0]))
  {
    if |args| > 0 {
      FindFirst(infos, args[0], true, 0);
    }
  }

  /** What `help` promises for one argument: the first command of that name, or an unknown topic when there is none. */
  lemma HelpSpec(infos: seq<CommandInfo>, topic: string)
    ensures HelpRoute(infos, [topic]).HelpTopic? <==> exists k :: 0 <= k < |infos| && NameOf(infos[k].usage) == topic
    ensures HelpRoute(infos, [topic]).HelpTopic? ==>
              var i := HelpRoute(infos, [topic]).index;
              i < |infos| && NameOf(infos[i].usage) == topic &&
              forall j :: 0 <= j < i ==> NameOf(infos[j].usage) != topic
    ensures HelpRoute(infos, [topic]).HelpUnknown? <==> !HelpRoute(infos, [topic]).HelpTopic?
  {
    FindFirst(infos, topic, false, 0);
    if HelpRoute(infos, [topic]).HelpTopic? {
      assert Matches(infos[HelpRoute(infos, [topic]).index], topic, false);
    }
    forall k | 0 <= k < |infos| && NameOf(infos[k].usage) == topic
      ensures Matches(infos[k], topic, false)
    {
    }
  }

  /** The usage lines and one-line descriptions of the built-in commands. */
  const HelpUsage: string := "help"
  const HelpShort: string := "Output this usage information."
  const VersionUsage: string := "version"
  const VersionShort: string := "Output the application version."

  /** The built-in `help` command: native, and without a `Run`. */
  function HelpInfo(): CommandInfo
  {
    CommandInfo(true, HelpUsage, HelpShort, None)
  }

  /** A built-in `version` command that prints the given version. */
  function VersionInfo(version: string): CommandInfo
  {
    CommandInfo(true, VersionUsage, VersionShort, Some(VersionRunner(version)))
  }

  /** The line the version command prints, and its exit status. */
  function RunVersion(appName: string, version: string): (r: (string, int))
    ensures r.1 == 0
    ensures |r.0| > |appName| && HasPrefix(r.0, appName) && r.0[|r.0| - 1] == '\n'
  {
    (appName + " v" + version + "\n", 0)
  }

  /** Built-in commands are never suggested, whatever the request. */
  lemma {:induction false} NativeNeverSuggested(infos: seq<CommandInfo>, request: string)
    requires forall k :: 0 <= k < |infos| ==> infos[k].native
    ensures Suggestions(infos, request) == []
    decreases |infos|
  {
    if infos != [] {
      NativeNeverSuggested(infos[..|infos| - 1], request);
    }
  }

  /** A usage line without a space is its own name. */
  lemma {:induction false} NameOfWord(w: string)
    requires ' ' !in w
    ensures NameOf(w) == w
  {
    if w != [] {
      assert w[0] in w;
      assert forall c :: c in w[1..] ==> c in w;
      NameOfWord(w[1..]);
    }
  }

  /** The two built-in names. */
  lemma BuiltInNames(version: string)
    ensures NameOf(HelpInfo().usage) == HelpUsage == "help"
    ensures NameOf(VersionInfo(version).usage) == VersionUsage == "version"
  {
    NameOfWord(HelpUsage);
    NameOfWord(VersionUsage);
  }

  /** How `help` answers on a new application, with only `help` and `version`. */
  lemma NewApplicationHelp(version: string)
    ensures Route([HelpInfo(), VersionInfo(version)], []) == UsageExit
    ensures Route([HelpInfo(), VersionInfo(version)], ["help"]) == HelpIndex
    ensures Route([HelpInfo(), VersionInfo(version)], ["help", "version"]) == HelpTopic(1)
    ensures Route([HelpInfo(), VersionInfo(version)], ["help", "help"]) == HelpTopic(0)
    ensures Route([HelpInfo(), VersionInfo(version)], ["help", "a", "b"]) == HelpTooMany
  {
    BuiltInNames(version);
    var infos := [HelpInfo(), VersionInfo(version)];
    assert ["help", "version"][1..] == ["version"];
    assert ["help", "help"][1..] == ["help"];
    assert Find(infos, "version", false, 0) == Find(infos, "version", false, 1) == Some(1);
    assert Find(infos, "help", false, 0) == Some(0);
  }

  /** When only the second of two commands answers to a request, the request dispatches to it. */
  lemma SecondDispatched(first: CommandInfo, second: CommandInfo, request: string, rest: seq<string>)
    requires request != "help" && !Matches(first, request, true) && Matches(second, request, true)
    ensures Route([first, second], [request] + rest) == Dispatch(1, rest)
  {
    var infos := [first, second];
    assert ([request] + rest)[1..] == rest;
    assert Find(infos, request, true, 1) == Some(1);
  }

  /** On a new application, `version` dispatches to the built-in command with the remaining arguments. */
  lemma NewApplicationVersion(version: string, rest: seq<string>)
    ensures Route([HelpInfo(), VersionInfo(version)], ["version"] + rest) == Dispatch(1, rest)
  {
    BuiltInNames(version);
    SecondDispatched(HelpInfo(), VersionInfo(version), "version", rest);
  }

  /** A request that no runnable command answers to is unknown, with the suggestions for it. */
  lemma RouteUnknown(infos: seq<CommandInfo>, request: string, rest: seq<string>)
    requires request != "help"
    requires forall k :: 0 <= k < |infos| ==> !Matches(infos[k], request, true)
    ensures Route(infos, [request] + rest) == UnknownCommand(request, Suggestions(infos, request))
  {
    FindFirst(infos, request, true, 0);
  }

  /** Two native commands, the first without a `Run`, leave every other request unknown and unanswered. */
  lemma TwoNativeUnknown(first: CommandInfo, second: CommandInfo, request: string, rest: seq<string>)
    requires first.native && second.native && first.run.None?
    requires request != "help" && NameOf(second.usage) != request
    ensures Route([first, second], [request] + rest) == UnknownCommand(request, [])
  {
    var infos := [first, second];
    NativeNeverSuggested(infos, request);
    RouteUnknown(infos, request, rest);
  }

  /** On a new application, any request but `help` and `version` is unknown and draws no suggestion. */
  lemma NewApplicationUnknown(version: string, request: string, rest: seq<string>)
    requires request != "help" && request != "version"
    ensures Route([HelpInfo(), VersionInfo(version)], [request] + rest) == UnknownCommand(request, [])
  {
    BuiltInNames(version);
    TwoNativeUnknown(HelpInfo(), VersionInfo(version), request, rest);
  }

  /** A command of the cli.go kind; only `distance` is written after it is made. */
  class AppCommand {
    const native: bool
    const usage: string
    const short: string
    const run: Option<Runner>
    var distance: int

    function Info(): CommandInfo
    {
      CommandInfo(native, usage, short, run)
    }

    function Name(): string
    {
      NameOf(usage)
    }

    constructor (info: CommandInfo)
      ensures Info() == info && distance == 0
    {
      native, usage, short, run := info.native, info.usage, info.short, info.run;
      distance := 0;
    }

    /** Records how far this command's name is from the request: 0 for a prefix match, else the edit distance. */
    method Measure(request: string)
      modifies this
      ensures distance == Distance(request, Name())
    {
      var name := Name();
      if |request| <= |name| && name[..|request|] == request {
        distance := 0;
      } else {
        distance := Levenshtein.Levenshtein(request, name);
      }
    }
  }

  function InfosOf(cs: seq<AppCommand>): (r: seq<CommandInfo>)
    ensures |r| == |cs|
    ensures forall k :: 0 <= k < |cs| ==> r[k] == cs[k].Info()
  {
    if cs == [] then [] else InfosOf(cs[..|cs| - 1]) + [cs[|cs| - 1].Info()]
  }

  function NamesOf(cs: seq<AppCommand>): (r: seq<string>)
    ensures |r| == |cs|
    ensures forall k :: 0 <= k < |cs| ==> r[k] == cs[k].Name()
  {
    if cs == [] then [] else NamesOf(cs[..|cs| - 1]) + [cs[|cs| - 1].Name()]
  }

  /** The commands `similar` keeps: not native and with a recorded distance below the threshold, in order. */
  function SimilarOf(cs: seq<AppCommand>): seq<AppCommand>
    reads cs
  {
    if cs == [] then []
    else
      var last := cs[|cs| - 1];
      SimilarOf(cs[..|cs| - 1]) + (if !last.native && last.distance < SimilarThreshold then [last] else [])
  }

  /** Once every distance is recorded for a request, `similar` names exactly the suggestions for it. */
  lemma {:induction false} SimilarAreSuggestions(cs: seq<AppCommand>, request: string)
    requires forall k :: 0 <= k < |cs| ==> cs[k].distance == Distance(request, cs[k].Name())
    ensures NamesOf(SimilarOf(cs)) == Suggestions(InfosOf(cs), request)
    decreases |cs|
  {
    if cs != [] {
      var init := cs[..|cs| - 1];
      SimilarAreSuggestions(init, request);
      assert InfosOf(cs)[..|cs| - 1] == InfosOf(init);
      var last := cs[|cs| - 1];
      var kept := SimilarOf(init);
      if !last.native && last.distance < SimilarThreshold {
        assert SimilarOf(cs) == kept + [last];
        assert (kept + [last])[..|kept|] == kept;
      } else {
        assert SimilarOf(cs) == kept;
      }
    }
  }

  /** An application: its name, version and registered commands in order. */
  class Application {
    var name: string
    var version: string
    var commands: seq<AppCommand>

    function Infos(): seq<CommandInfo>
      reads this
    {
      InfosOf(commands)
    }

    /** `New`: the name and version, then `help` and `version` registered in that order. */
    constructor (name: string, version: string)
      ensures this.name == name && this.version == version
      ensures Infos() == [HelpInfo(), VersionInfo(version)]
      ensures fresh(commands[0]) && fresh(commands[1])
    {
      this.name := name;
      this.version := version;
      commands := [];
      new;
      var help := new AppCommand(HelpInfo());
      Command(help);
      var ver := new AppCommand(VersionInfo(version));
      Command(ver);
      assert commands == [help, ver];
    }

    /** `Command`: registers `cmd` after the commands already there. */
    method Command(cmd: AppCommand)
      modifies this
      ensures commands == old(commands) + [cmd]
      ensures name == old(name) && version == old(version)
      ensures Infos() == old(Infos()) + [cmd.Info()]
    {
      commands := commands + [cmd];
    }

    /** Every command before index `n` has its distance to `request` recorded. */
    predicate Recorded(request: string, n: nat)
      reads this, commands
    {
      forall k :: 0 <= k < n && k < |commands| ==> commands[k].distance == Distance(request, commands[k].Name())
    }

    /**
     * `Run` on the positional arguments: the outcome `Route` gives. Every
     * command before the dispatched one, or every command when none is,
     * has its distance to the request recorded.
     */
    method Run(args: seq<string>) returns (o: Outcome)
      modifies commands
      ensures o == Route(Infos(), args)
      ensures o.UnknownCommand? ==> Recorded(args[0], |commands|)
      ensures o.Dispatch? ==> o.index < |commands| && Recorded(args[0], o.index)
      ensures !o.Dispatch? && !o.UnknownCommand? ==>
                forall k :: 0 <= k < |commands| ==> commands[k].distance == old(commands[k].distance)
      ensures o.Dispatch? ==>
                forall k :: o.index <= k < |commands| && (forall j :: 0 <= j < o.index ==> commands[j] != commands[k]) ==>
                  commands[k].distance == old(commands[k].distance)
    {
      if |args| < 1 {
        return UsageExit;
      }
      if args[0] == "help" {
        o := Help(args[1..]);
        return;
      }
      o := Lookup(args[0], args[1..]);
    }

    /** The loop of `Run` over the commands for a request other than "help". */
    method Lookup(request: string, rest: seq<string>) returns (o: Outcome)
      requires request != "help"
      modifies commands
      ensures o == Route(Infos(), [request] + rest)
      ensures o.UnknownCommand? ==> Recorded(request, |commands|)
      ensures o.Dispatch? ==> o.index < |commands| && Recorded(request, o.index)
      ensures o.Dispatch? || o.UnknownCommand?
      ensures o.Dispatch? ==>
                forall k :: o.index <= k < |commands| && (forall j :: 0 <= j < o.index ==> commands[j] != commands[k]) ==>
                  commands[k].distance == old(commands[k].distance)
    {
      ghost var infos := Infos();
      var i := 0;
      while i < |commands|
        invariant 0 <= i <= |commands|
        invariant Find(infos, request, true, 0) == Find(infos, request, true, i)
        invariant forall k :: 0 <= k < i ==> commands[k].distance == Distance(request, commands[k].Name())
        invariant forall k :: i <= k < |commands| && (forall j :: 0 <= j < i ==> commands[j] != commands[k]) ==>
                    commands[k].distance == old(commands[k].distance)
      {
        var cmd := commands[i];
        assert infos[i] == cmd.Info();
        if cmd.Name() != request || cmd.run == None {
          cmd.Measure(request);
          i := i + 1;
          continue;
        }
        assert ([request] + rest)[1..] == rest;
        return Dispatch(i, rest);
      }
      var similar := Similar();
      SimilarAreSuggestions(commands, request);
      o := UnknownCommand(request, NamesOf(similar));
    }

    /** `help` on the arguments after "help". */
    method Help(args: seq<string>) returns (o: Outcome)
      ensures o == HelpRoute(Infos(), args)
    {
      if |args| == 0 {
        return HelpIndex;
      }
      if |args| != 1 {
        return HelpTooMany;
      }
      var topic := args[0];
      var i := 0;
      while i < |commands|
        invariant 0 <= i <= |commands|
        invariant Find(Infos(), topic, false, 0) == Find(Infos(), topic, false, i)
      {
        if commands[i].Name() != topic {
          i := i + 1;
          continue;
        }
        return HelpTopic(i);
      }
      return HelpUnknown(topic);
    }

    /** `similar`: the non-native commands whose recorded distance is below the threshold, in order. */
    method Similar() returns (rv: seq<AppCommand>)
      ensures rv == SimilarOf(commands)
    {
      rv := [];
      var i := 0;
      while i < |commands|
        invariant 0 <= i <= |commands|
        invariant rv == SimilarOf(commands[..i])
      {
        var cmd := commands[i];
        assert commands[..i + 1][..i] == commands[..i];
        if !cmd.native && cmd.distance < SimilarThreshold {
          rv := rv + [cmd];
        }
        i := i + 1;
      }
      assert commands[..i] == commands;
    }
  }
}
