/**
 * Usage topics (usage.go).
 *
 * The default renderer is a map from topic key to bytes. `Respond` is the
 * decision of `CLI.Usage`: which key it asks the renderer for, and what it
 * returns for each answer. The renderer is a parameter (any function from
 * key to answer), and the error returned by the write of the rendered bytes
 * is given, since writing is output.
 */
module Usage {
  import opened Wrappers
  import Errors

  /** A renderer's answer: the bytes of the topic, `ErrUsageNotFound`, or another error. */
  datatype Rendered = Found(data: seq<Byte>) | NotFound | Failed(err: Errors.Error)

  /** `defaultRenderer`: the map of rendered topics. */
  datatype Renderer = DefaultRenderer(topics: map<string, seq<Byte>>)

  /** `NewRenderer`: wraps the topic map as it is. */
  function NewRenderer(data: map<string, seq<Byte>>): (r: Renderer)
    ensures r.topics == data
  {
    DefaultRenderer(data)
  }

  /** `Render`: the stored bytes, or not-found for a key with no topic. */
  function Render(r: Renderer, name: string): Rendered
  {
    if name in r.topics then Found(r.topics[name]) else NotFound
  }

  /** The default renderer never fails with anything but not-found, and finds exactly the stored keys. */
  lemma RenderSpec(r: Renderer, name: string)
    ensures !Render(r, name).Failed?
    ensures Render(r, name).Found? <==> name in r.topics
    ensures Render(r, name).Found? ==> Render(r, name).data == r.topics[name]
  {
  }

  /** A topic stored under a key is rendered back as stored; other keys answer as before. */
  lemma RenderAfterStore(data: map<string, seq<Byte>>, key: string, bytes: seq<Byte>, other: string)
    ensures Render(NewRenderer(data[key := bytes]), key) == Found(bytes)
    ensures other != key ==> Render(NewRenderer(data[key := bytes]), other) == Render(NewRenderer(data), other)
  {
  }

  /** The key looked up for a topic: scoped for a registered command, else the name itself. */
  function TopicKey(commands: set<string>, scope: string, name: string): string
  {
    if name in commands then scope + name else name
  }

  /** What `Usage` produces: the bytes written, the lines passed to `Errorf`, and the error returned. */
  datatype Reply = Reply(written: seq<Byte>, diagnostics: seq<string>, err: Option<Errors.Error>)

  /** The lines reported for a topic the renderer does not know. */
  function NotFoundLines(appName: string, scope: string, name: string): seq<string>
  {
    [if name == "" || name == scope then "Unknown help topic.\n" else "Unknown help topic '" + name + "'.\n",
     "Run '" + appName + " help' for usage information.\n"]
  }

  /** `CLI.Usage` for the topic `name`, given the renderer and the error of the final write. */
  function Respond(commands: set<string>, scope: string, appName: string, name: string,
                   render: string -> Rendered, writeErr: Option<Errors.Error>): Reply
  {
    match render(TopicKey(commands, scope, name))
    case Failed(e) => Reply([], [], Some(e))
    case NotFound => Reply([], NotFoundLines(appName, scope, name), Some(Errors.ExitFailure))
    case Found(b) => Reply(b, [], writeErr)
  }

  /** The key is the scope and the name for a registered command, and the bare name otherwise. */
  lemma TopicKeySpec(commands: set<string>, scope: string, name: string)
    ensures name in commands ==> TopicKey(commands, scope, name)[..|scope|] == scope
    ensures name in commands ==> TopicKey(commands, scope, name)[|scope|..] == name
    ensures name !in commands ==> TopicKey(commands, scope, name) == name
  {
    if name in commands {
      var k := scope + name;
      assert k[..|scope|] == scope && k[|scope|..] == name;
    }
  }

  /**
   * What `Usage` promises: a renderer error other than not-found comes back
   * unchanged with nothing written; not-found becomes `ErrExitFailure` with
   * two lines of explanation; rendered bytes are written and the write's
   * error is returned. In no case is the error `ErrUsage` or a flag error.
   */
  lemma RespondSpec(commands: set<string>, scope: string, appName: string, name: string,
                    render: string -> Rendered, writeErr: Option<Errors.Error>)
    ensures var r := Respond(commands, scope, appName, name, render, writeErr);
            var answer := render(TopicKey(commands, scope, name));
            (answer.Failed? ==> r.err == Some(answer.err) && r.written == [] && r.diagnostics == []) &&
            (answer.NotFound? ==> r.err == Some(Errors.ExitFailure) && r.written == [] && |r.diagnostics| == 2) &&
            (answer.Found? ==> r.written == answer.data && r.err == writeErr && r.diagnostics == [])
    ensures var r := Respond(commands, scope, appName, name, render, writeErr);
            r.err.Some? ==> r.err == writeErr || r.err == Some(Errors.ExitFailure) ||
                            render(TopicKey(commands, scope, name)) == Failed(r.err.value)
  {
  }

  /** The first line names the topic unless it is empty or the scope itself. */
  lemma NotFoundNamesTopic(appName: string, scope: string, name: string)
    ensures NotFoundLines(appName, scope, name)[0] == "Unknown help topic.\n" <==> name == "" || name == scope
    ensures name != "" && name != scope ==> NotFoundLines(appName, scope, name)[0][20..20 + |name|] == name
  {
    var plain := "Unknown help topic.\n";
    var prefix := "Unknown help topic '";
    if name != "" && name != scope {
      var line := prefix + name + "'.\n";
      assert |line| == |prefix| + |name| + 3;
      assert |line| > |plain|;
      assert line[20..20 + |name|] == name;
    }
  }

  /**
   * With the default renderer: a topic whose key is stored is written and
   * only the write can fail; any other topic ends in `ErrExitFailure`.
   */
  lemma DefaultRendererUsage(commands: set<string>, scope: string, appName: string, name: string,
                             data: map<string, seq<Byte>>, writeErr: Option<Errors.Error>)
    ensures var key := TopicKey(commands, scope, name);
            var r := Respond(commands, scope, appName, name, k => Render(NewRenderer(data), k), writeErr);
            (key in data ==> r == Reply(data[key], [], writeErr)) &&
            (key !in data ==> r.err == Some(Errors.ExitFailure) && r.written == [])
  {
  }
}
