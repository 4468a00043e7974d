# cli — a verified Dafny model

This project models the core of `pnelson/cli`, a Go package for command-line
applications with sub-commands, together with its `cli-usage-gen` helper
program. One Dafny module per Go file:

| module | file | what it holds |
|---|---|---|
| `Levenshtein` | levenshtein.go | the two-row edit-distance algorithm on arrays, proved equal to the textbook recurrence |
| `Errors` | error.go | the error values and their messages |
| `Flags` | flag.go | flag kinds, value parsing, the functional options and the `Flag` object with `Set`, `Count`, `IsSet`, `String` |
| `Commands` | command.go | command options (alias, proxy, middleware) and `build`, which wraps the handler |
| `App` | cli.go | the `Application` object: built-in `help` and `version`, `Command`, `Run`'s routing, `help`, `similar` |
| `Options` | options.go | the `Version` application option |
| `Usage` | usage.go | the default renderer and the help-topic lookup of `Usage` |
| `UsageGen` | cmd/cli-usage-gen/main.go | mapping Markdown files to topics (`walk`, `add`) |
| `Wrappers` | — | `Option` and a byte type |

Objects the source updates in place are classes with `modifies` clauses:
- `Flags.Flag`, `Commands.Command`, `App.Application` and `App.AppCommand`;
- `UsageGen.Generator`, which holds the topic list that `walk` appends to.

Each method is proved against a function of the old state, and the
properties are stated as lemmas about those functions. Value-level logic is
written as datatypes and functions:
- parsing;
- option folding;
- routing a command line to an outcome;
- suggestions;
- topic naming;
- error messages.

The levenshtein function keeps its two `array` rows. `Levenshtein.NextRow`
fills one row from the other with a loop, and `Levenshtein.Levenshtein` is
proved equal to `EditDistance`.

`Run` ends in `os.Exit` or in a call to a command. Here it returns an
`Outcome` value instead:
- usage exit;
- help index, help topic, or help with too many arguments;
- unknown help topic;
- dispatch of a command index with the arguments after the command name, which the command's own flag set then parses;
- unknown command with its suggestions.

`App.Status` gives the exit status of each outcome.

## Model

| member | source | states |
|---|---|---|
| Levenshtein.Levenshtein | levenshtein.go:8-37 | the result is the edit distance of the two inputs, including the equal-strings and empty-string shortcuts |
| Levenshtein.NextRow | levenshtein.go:23-35 | from row `i` of the distance table in `v0`, the inner loop leaves row `i+1` in `v1` |
| Levenshtein.Min | levenshtein.go:40-48 | the result is one of the inputs and no input is smaller |
| Levenshtein.RowIsDist | levenshtein.go:18-35 | every cell of the row the loops compute is the edit distance of the two prefixes |
| Levenshtein.EditDistanceToSelf | levenshtein.go:9-11 | a string is at distance 0 from itself, which agrees with the early return for equal strings |
| Levenshtein.EditDistanceFromEmpty | levenshtein.go:12-17 | against an empty string, the distance is the other string's length |
| Levenshtein.EditDistanceZero | levenshtein.go:8-37 | the distance is 0 exactly when the strings are equal |
| Levenshtein.DistLowerBound | levenshtein.go:8-37 | the distance is at least the difference of the lengths |
| Levenshtein.DistUpperBound | levenshtein.go:8-37 | the distance is at most the longer length |
| Levenshtein.DistZero | levenshtein.go:26-30 | a prefix pair at distance 0 has equal lengths and equal contents |
| Levenshtein.KittenSitting | levenshtein_test.go:11 | "kitten" and "sitting" are at distance 3 |
| Levenshtein.SaturdaySunday | levenshtein_test.go:12 | "Saturday" and "Sunday" are at distance 3 |
| Errors.MessageInjective | error.go:10-39 | two errors defined in error.go print the same exactly when they are equal |
| Errors.FlagKindsDistinct | error.go:18-39 | flag errors of different kinds never print the same, whatever flag they name |
| Errors.FlagMessageShape | error.go:18-39 | every flag error prints "Flag '", then the flag, then the sentence of its kind |
| Errors.SentinelsDistinct | error.go:10-15 | the two sentinels differ and print "1" and "cli: usage" |
| Errors.Message | error.go:10-39 | the `Error()` strings; stated by `Errors.FlagMessageShape` and `Errors.MessageInjective` |
| Flags.ParseType | flag.go:79-81 | parsing yields a value of the kind's type; a string kind yields the text unchanged |
| Flags.BoolParseExactly | flag.go:95-101 | a boolean flag reads true exactly for the eleven listed spellings, and false otherwise |
| Flags.BoolParseMixedCase | flag.go:95-101 | mixed-case spellings such as "tRUE", the empty string and "false" read false |
| Flags.Parse | flag.go:79-101 | `Parse` of both kinds; stated by `Flags.ParseType`, `Flags.BoolParseExactly` and `Flags.BoolParseMixedCase` |
| Flags.HasArg | flag.go:84-106 | a string flag takes an argument and a boolean flag does not; stated in the contract of `Flags.Bool` |
| Flags.Lower | flag.go:31 | lower-casing keeps the length and maps each character on its own |
| Flags.LowerIsLower | flag.go:31 | the lowered name has no upper-case letter, and lowering twice changes nothing |
| Flags.Bool | flag.go:121-123 | the option selects the boolean kind, which takes no argument |
| Flags.NewFlagUnset | flag.go:28-35 | a new flag has count 0 and the lowered name whatever options it gets; without options it is a string flag |
| Flags.OptionsKeepCountAndName | flag.go:114-146 | no option changes the count or the name |
| Flags.KindBeforeDefault | flag.go:111-139 | `Bool()` then `DefaultValue("yes")` stores true; the reverse order would store a string into a boolean and is not allowed |
| Flags.SetAllEffect | flag.go:50-54 | after n sets the count grew by n, the text and the destination are those of the last set, and nothing else changed |
| Flags.StoreStaysPossible | flag.go:50-54 | a flag whose kind matches its destination can be set any number of times |
| Flags.SetState | flag.go:50-54 | the state after one `Set`; stated by `Flags.SetAllEffect` and `Flags.Flag.Set` |
| Flags.ApplyOption | flag.go:114-146 | the effect of one option; stated by `Flags.OptionsKeepCountAndName`, `Flags.KindBeforeDefault` and `Flags.Flag.Apply` |
| Flags.Flag.constructor | flag.go:23-37 | the new flag's state is the initial state with the options applied in order; a non-pointer is refused |
| Flags.Flag.Apply | flag.go:114-146 | one option changes the state as its definition says |
| Flags.Flag.Set | flag.go:50-54 | the count grows by one, the destination holds the parsed text, and the text is kept |
| Flags.Flag.Count | flag.go:40-42 | the number of sets; `Flags.SetAllEffect`, `Flags.NewFlagUnset` and `Flags.CountScenario` state its value |
| Flags.Flag.IsSet | flag.go:45-47 | set at least once; false for every new flag by `Flags.NewFlagUnset`, whatever its options |
| Flags.Text | flag.go:60-65 | `String` as written (see Findings): a nil flag prints ""; otherwise the flag prints the last text it was given, for boolean flags too |
| Flags.Formatted | flag.go:56-65 | the documented `String`: a boolean flag prints "true" or "false", and that text parses back to the value held; a string flag prints its last text |
| Flags.FormattedText | flag.go:56-65 | the corrected `String`: "" without a flag, otherwise the formatted value |
| Flags.BoolTextDiffers | flag.go:56-65 | after `Set(raw)` on a boolean flag, `String` as written and as documented differ exactly when `raw` is neither "true" nor "false" |
| Flags.BoolTextScenario | flag.go:56-65 | a boolean flag set to "yes" prints "yes" as written and "true" as documented |
| Flags.CountScenario | flag_test.go:39-48 | a boolean flag with a short alias, set to "true" three times, has count 3 and holds true |
| Flags.StringScenario | flag_test.go:27-37 | a string flag set to "test" prints "test" and holds it |
| Commands.WrappedLayers | command.go:31-36 | wrapping puts exactly the given middleware, first one outermost, around the same raw handler |
| Commands.WrappedConcat | command.go:31-36 | wrapping with two stacks in sequence is wrapping with their concatenation |
| Commands.Wrapped | command.go:31-36 | the handler `build` produces; stated by `Commands.WrappedLayers`, `Commands.WrappedConcat` and `Commands.Command.Build` |
| Commands.ApplyOption | command.go:42-61 | the effect of one command option; stated by `Commands.OptionsEffect` and `Commands.Command.Apply` |
| Commands.OptionsEffect | command.go:23-25 | after the options, the name is kept, the middleware is every `WithMiddleware` argument in order, the alias is the last one given, and proxy is on when some option asked for it |
| Commands.NewCommandHandler | command.go:17-28 | a new command's handler is the raw handler inside every added middleware, first option outermost |
| Commands.TwoMiddlewareOptions | command.go:57-61 | with two `WithMiddleware` options, the first option's middleware is outermost |
| Commands.Command.constructor | command.go:17-28 | the new command has the options applied to the initial fields, and its handler is the wrapped one |
| Commands.Command.Apply | command.go:42-61 | one option changes only the field it names |
| Commands.Command.Build | command.go:31-36 | the handler becomes the given one wrapped in the middleware, the last wrapped first |
| App.NameOfIsFirstWord | cli.go:69-89 | a command's name is the part of its usage line before the first space |
| App.DistanceZero | cli.go:76-83 | the distance is 0 exactly when the name starts with the request |
| App.Distance | cli.go:76-83 | the distance `Run` records; stated by `App.DistanceZero` and the edit-distance lemmas |
| App.SuggestionsExactly | cli.go:143-151 | a name is suggested exactly when some non-native command with that name is within the threshold |
| App.SuggestionsConcat | cli.go:143-151 | the suggestions for a concatenation are the suggestions for each part, in order |
| App.Suggestions | cli.go:143-151 | the names `similar` lists; stated by `App.SuggestionsExactly`, `App.SuggestionsConcat` and `App.NativeNeverSuggested` |
| App.NativeNeverSuggested | cli.go:143-151 | built-in commands are never suggested |
| App.FindFirst | cli.go:74-90 | the search gives the first matching command, and none only when no command matches |
| App.Find | cli.go:74-90 | the search for a command by name; stated by `App.FindFirst` |
| App.Status | cli.go:65-105 | the usage exit, too many help arguments, an unknown help topic and an unknown command exit with status 2; help output returns normally, and a dispatched command exits with the status its own run function returns |
| App.RouteSpec | cli.go:60-106 | no arguments is the usage exit; "help" goes to help; a command is dispatched exactly when a runnable command of that name exists, and it is the first one, with the arguments after its name; otherwise the request is unknown, with its suggestions |
| App.HelpSpec | cli.go:108-141 | help for one topic shows the first command of that name, and the topic is unknown exactly when no command has that name |
| App.Route | cli.go:60-106 | the outcome of `Run`; stated by `App.RouteSpec` and the new-application lemmas |
| App.HelpRoute | cli.go:108-141 | the outcome of `help`; stated by `App.HelpSpec` and `App.NewApplicationHelp` |
| App.RunVersion | cli.go:41-49 | the version command prints a line starting with the application name and returns 0 |
| App.BuiltInNames | cli.go:35-49 | the built-in commands are named "help" and "version" |
| App.NewApplicationHelp | cli.go:29-52 | on a new application: no arguments is the usage exit, "help" lists the commands, "help version" and "help help" show those topics, and two topics are too many |
| App.NewApplicationVersion | cli.go:41-49 | on a new application, "version" dispatches to the version command with the arguments after it |
| App.NewApplicationUnknown | cli.go:94-105 | on a new application, any other request is unknown and nothing is suggested |
| App.SecondDispatched | cli.go:74-90 | when the first command does not match and the second does, the second is dispatched |
| App.RouteUnknown | cli.go:94-105 | a request no runnable command matches is unknown and carries its suggestions |
| App.TwoNativeUnknown | cli.go:94-105 | with only two built-in commands, an unmatched request gets no suggestions |
| App.SimilarAreSuggestions | cli.go:143-151 | once every distance is measured, the names of the similar commands are the suggestions |
| App.InfosOf | cli.go:20-24 | the command descriptions, one per registered command, in order |
| App.NamesOf | cli.go:143-151 | the command names, one per command, in order |
| App.AppCommand.constructor | cli.go:35-49 | a command holds the description it was made from, with distance 0 |
| App.AppCommand.Measure | cli.go:76-83 | the command's distance becomes the distance of the request to its name |
| App.Application.constructor | cli.go:29-52 | a new application has its name and version, then "help" and "version" registered in that order |
| App.Application.Command | cli.go:55-57 | the command is appended and nothing else changes |
| App.Application.Run | cli.go:60-106 | the outcome is the routing of the arguments; every command before the dispatched one (all of them for an unknown command) has its distance to the request recorded; help and the usage exit change no distance, and on dispatch no command at or after the dispatched index changes unless the same command also sits earlier |
| App.Application.Lookup | cli.go:74-105 | for a request other than help, the outcome is a dispatch or an unknown command as routing says, with the same recorded distances, and on dispatch no command from the dispatched index on changes unless it also sits earlier |
| App.Application.Help | cli.go:108-141 | the outcome is the routing of the help arguments |
| App.Application.Similar | cli.go:143-151 | the result is the non-native commands whose distance is under the threshold, in order |
| Options.Apply | options.go:9-21 | `Version` appends one new built-in "version" command and changes nothing else |
| Options.VersionNeverSuggested | options.go:12-13 | the added version command is never suggested |
| Options.VersionDispatched | options.go:9-21 | with no earlier runnable "version", a request for it dispatches to the added command, which prints "<app> v<version>" and returns 0 |
| Usage.NewRenderer | usage.go:22-24 | the default renderer holds exactly the given topics |
| Usage.RenderSpec | usage.go:27-33 | rendering never fails otherwise than not found; it finds a topic exactly when the topic is stored, and then returns its bytes |
| Usage.RenderAfterStore | usage.go:27-33 | storing a topic makes it render, and leaves every other topic unchanged |
| Usage.Render | usage.go:27-33 | the default renderer's lookup; stated by `Usage.RenderSpec` and `Usage.RenderAfterStore` |
| Usage.TopicKeySpec | usage.go:44-48 | a registered command's topic is looked up under the scope followed by the name; any other name is looked up as given |
| Usage.TopicKey | usage.go:44-48 | the key `Usage` renders; stated by `Usage.TopicKeySpec` |
| Usage.RespondSpec | usage.go:43-64 | a renderer error other than not-found is returned as is; not-found writes two lines of explanation and returns `ErrExitFailure`; rendered bytes are written and the write's error returned |
| Usage.Respond | usage.go:43-64 | the result of `Usage`; stated by `Usage.RespondSpec`, `Usage.NotFoundNamesTopic` and `Usage.DefaultRendererUsage` |
| Usage.NotFoundNamesTopic | usage.go:53-58 | the first explanation line names the topic unless the topic is empty or the scope itself |
| Usage.DefaultRendererUsage | usage.go:22-64 | with the default renderer, a stored topic is written and only the write can fail; any other topic ends in `ErrExitFailure` |
| UsageGen.TrimSuffixSpec | cmd/cli-usage-gen/main.go:110-111 | trimming removes the suffix when present and otherwise changes nothing |
| UsageGen.TrimSuffixAppend | cmd/cli-usage-gen/main.go:110-111 | trimming a suffix just added gives back the original |
| UsageGen.ExtSpec | cmd/cli-usage-gen/main.go:109 | the extension is empty exactly when the final path element has no '.'; otherwise it is the path's tail from the last '.' of that element, with no '.' or '/' after it |
| UsageGen.ExtFromEmpty | cmd/cli-usage-gen/main.go:109 | the backward search for an extension finds none exactly when no '.' precedes the start position within the same path element |
| UsageGen.Ext | cmd/cli-usage-gen/main.go:109 | `filepath.Ext`; its properties are `UsageGen.ExtSpec` and `UsageGen.ExtMarkdown` |
| UsageGen.TopicName | cmd/cli-usage-gen/main.go:109-111 | the topic name of a file below the root; stated by `UsageGen.IndexPageTopic`, `UsageGen.MarkdownTopic` and the three examples |
| UsageGen.ExtMarkdown | cmd/cli-usage-gen/main.go:109 | a path ending in ".md" has extension ".md" |
| UsageGen.IndexPageTopic | cmd/cli-usage-gen/main.go:109-111 | a directory's README.md is the topic of that directory, with its trailing slash |
| UsageGen.MarkdownTopic | cmd/cli-usage-gen/main.go:109-111 | any other Markdown page is a topic named by its path without ".md" |
| UsageGen.RootIndexTopic | cmd/cli-usage-gen/main.go:109-111 | the root's README.md is the topic "" |
| UsageGen.SubdirectoryIndexTopic | cmd/cli-usage-gen/main.go:109-111 | cli/README.md is the topic "cli/" |
| UsageGen.PageTopic | cmd/cli-usage-gen/main.go:109-111 | test.md is the topic "test" |
| UsageGen.AddTopicSpec | cmd/cli-usage-gen/main.go:97-115 | a readable file appends one topic; a missing file adds nothing and is no error; an open or read error adds nothing and is returned as it occurred |
| UsageGen.AddTopicAsWrittenLosesOpenError | cmd/cli-usage-gen/main.go:98-103 | as written, the result differs from the intended one exactly on an open error other than `os.ErrInvalid`, which it replaces; the topics are the same |
| UsageGen.PermissionDeniedExample | cmd/cli-usage-gen/main.go:98-103 | a permission error on open is reported as "invalid argument" as written, and as itself in the corrected version |
| UsageGen.WalkEntrySpec | cmd/cli-usage-gen/main.go:76-95 | with `add` as intended: an error passed in stops the walk unchanged; dot entries are skipped (whole directories with SkipDir); a directory is an error only when named README.md; at most one topic is appended |
| UsageGen.WalkEntry | cmd/cli-usage-gen/main.go:76-95 | `walk` on one entry with `add` as intended (the corrected half of the finding); stated by `UsageGen.WalkEntrySpec` |
| UsageGen.WalkEntryAsWritten | cmd/cli-usage-gen/main.go:76-103 | `walk` on one entry as the source has it, with `add` as written |
| UsageGen.WalkEntryAsWrittenLosesOpenError | cmd/cli-usage-gen/main.go:76-103 | the walk as written differs from the intended one exactly on a file whose open error is not `os.ErrInvalid`, which it replaces by `os.ErrInvalid`; the topics are the same |
| UsageGen.Generator.constructor | cmd/cli-usage-gen/main.go:17-23 | a new generator has its root and no topics |
| UsageGen.Generator.Add | cmd/cli-usage-gen/main.go:97-115 | `add` as intended (the corrected half of the finding): the topics and the error are those of `UsageGen.AddTopic` on the old topics; the source instead returns `os.ErrInvalid` for an open error, as `UsageGen.AddTopicAsWritten` states |
| UsageGen.Generator.Walk | cmd/cli-usage-gen/main.go:76-95 | `walk` with `add` as intended (the corrected half of the finding): the result and the topics are those of `UsageGen.WalkEntry` on the old topics; the source's own behaviour is `UsageGen.WalkEntryAsWritten` |

## Left out

- Strings are sequences of characters, not of UTF-8 bytes. The levenshtein function of the source indexes bytes, so for non-ASCII input its distances count bytes where the model counts characters.
- `Flags.Lower`: lower-cases ASCII letters only; `strings.ToLower` also folds other Unicode letters.
- `Flags.Flag.constructor`: a `flag` argument that is not a pointer panics in the source. Here that case is a precondition (`target.Pointer?`), not a modelled panic.
- `Flags.Flag.constructor`, `Flags.Flag.Apply`: `DefaultValue` before `Kind`, or any set that would store a value of the wrong type, makes `reflect` panic in the source. Here it is excluded by `Applicable` / `CanStore` preconditions.
- Flags: user-defined `FlagKind`s through the `Kind` option are not modelled. Only the built-in string and boolean kinds are.
- Flags: the destination variable is a field of the flag, not a pointer shared with the caller, so aliasing of the destination is not modelled.
- Flags: the environment variable named by `EnvironmentKey` is recorded but never looked up, as in the source files modelled here.
- The tests in flag_test.go call `NewFlag` with a usage argument that flag.go's `NewFlag` does not take. The model follows flag.go.
- Commands: handlers and middleware are symbolic values; running a handler, and the `flags` list's parsing, are not modelled.
- `App.Application.Run`: the sort of the commands by distance (`sort.Sort(byDistance)`) before listing suggestions is not modelled; suggestions keep registration order. The `byDistance` type is not part of this model.
- `App.Application.Run`: `flag` package parsing of the global command line and of command flags is left out. The arguments are the positional arguments left after global flag parsing. `Dispatch` carries the arguments after the command name, which the source hands to the command's flag set; the command then runs on what that parsing leaves over (for `test -v x`, on `["x"]`), and that last step is not modelled.
- App: printing (usage, help templates, suggestions, the version line) and `os.Exit` are replaced by the `Outcome` value and `App.Status`. templates.go is not part of this model.
- App: the command type of cli.go (native, usage line, short text, run function, distance, `Name()`) is not in the files modelled. It is `App.AppCommand`, whose name is the usage line up to the first space. Its fields other than the distance are never written after creation and are constants.
- `App.RunVersion`: the version command's output is a string value, not written to standard output.
- Usage: the `CLI` type, its `scope`, `commands` and `Errorf`, and `ErrUsageNotFound` are not part of this model; they are parameters of `Usage.Respond` and the `NotFound` result of a renderer.
- Usage: the renderer is a function parameter; the writer is its error value only.
- UsageGen: `main`, flag parsing, `filepath.Walk`, file reading and writing the generated Go file are left out. `walk` is modelled per entry, with the file's contents or error given as a parameter.
- `UsageGen.TopicName`: `add` slices the file name past the root; a file name not longer than the root would panic there, and the model requires it to be longer.

## Findings

| source | as written | input that shows it | evidently intended | confidence | as-written member | corrected member |
|---|---|---|---|---|---|---|
| cmd/cli-usage-gen/main.go:98-103 | when opening a file fails with any error other than "does not exist", `add` returns `os.ErrInvalid` instead of the error that occurred | a Markdown file that exists but cannot be opened (permission denied) is reported as "invalid argument" | return the open error itself, as the read error is returned | not executed | UsageGen.AddTopicAsWritten, UsageGen.AddTopicAsWrittenLosesOpenError, UsageGen.PermissionDeniedExample, UsageGen.WalkEntryAsWritten, UsageGen.WalkEntryAsWrittenLosesOpenError | UsageGen.AddTopic, UsageGen.AddTopicSpec, UsageGen.WalkEntry, UsageGen.WalkEntrySpec, UsageGen.Generator.Add, UsageGen.Generator.Walk |
| flag.go:56-65 | `String` returns the last raw text given, so a boolean flag prints whatever spelling set it | a boolean flag after `Set("yes")` (or `DefaultValue("1")`) prints "yes" (or "1") | print boolean flags as "true" or "false", as `strconv.FormatBool` would, which the function's documentation promises | not executed | Flags.Text, Flags.BoolTextDiffers, Flags.BoolTextScenario | Flags.Formatted, Flags.FormattedText |
