/**
 * Application options (options.go). An option is a value here; applying it
 * to an application is the method `Apply`.
 */
module Options {
  import App

  /** `Version(version)`: the option that adds a `version` command printing that version. */
  datatype AppOption = Version(version: string)

  /** Applies the option: exactly one new native `version` command, after all the others. */
  method Apply(app: App.Application, opt: AppOption) returns (cmd: App.AppCommand)
    modifies app
    ensures fresh(cmd)
    ensures app.commands == old(app.commands) + [cmd]
    ensures cmd.Info() == App.VersionInfo(opt.version)
    ensures app.Infos() == old(app.Infos()) + [App.VersionInfo(opt.version)]
    ensures app.name == old(app.name) && app.version == old(app.version)
  {
    cmd := new App.AppCommand(App.VersionInfo(opt.version));
    app.Command(cmd);
  }

  /** The added command is native, so it never changes the suggestions, whatever was registered before. */
  lemma VersionNeverSuggested(infos: seq<App.CommandInfo>, version: string, request: string)
    ensures App.Suggestions(infos + [App.VersionInfo(version)], request) == App.Suggestions(infos, request)
  {
    App.SuggestionsConcat(infos, [App.VersionInfo(version)], request);
    App.NativeNeverSuggested([App.VersionInfo(version)], request);
  }

  /**
   * When no earlier command answers to `version`, the added command is the
   * one `version` dispatches to, and running it prints the application name
   * and the version and exits with 0.
   */
  lemma VersionDispatched(infos: seq<App.CommandInfo>, version: string, appName: string, rest: seq<string>)
    requires forall k :: 0 <= k < |infos| ==> !App.Matches(infos[k], "version", true)
    ensures App.Route(infos + [App.VersionInfo(version)], ["version"] + rest) == App.Dispatch(|infos|, rest)
    ensures App.RunVersion(appName, version) == (appName + " v" + version + "\n", 0)
  {
    var all := infos + [App.VersionInfo(version)];
    App.BuiltInNames(version);
    assert App.Matches(all[|infos|], "version", true);
    forall k | 0 <= k < |infos|
      ensures !App.Matches(all[k], "version", true)
    {
      assert all[k] == infos[k];
    }
    App.FindFirst(all, "version", true, 0);
    assert (["version"] + rest)[1..] == rest;
  }
}
