/**
 * Commands (command.go).
 *
 * A command has a name, an alias, a proxy switch, its flags, a handler and a
 * middleware stack. Handlers and middleware are symbolic here: a raw handler
 * is known by a number, a middleware by a number, and applying middleware
 * `m` to handler `h` gives the value `Wrap(m, h)`. This keeps exactly the
 * information the source's construction decides: which layers wrap the raw
 * handler, and in which order.
 */
module Commands {
  import Flags

  /** A middleware, `func(Handler) Handler` of the source, named by a number. */
  type Middleware = nat

  /** A handler: a raw one, or one produced by a middleware from another. */
  datatype Handler = Raw(id: nat) | Wrap(mw: Middleware, inner: Handler)

  /** The middleware layers from outermost to innermost. */
  function Layers(h: Handler): seq<Middleware>
  {
    match h
    case Raw(_) => []
    case Wrap(m, inner) => [m] + Layers(inner)
  }

  /** The raw handler at the centre. */
  function Core(h: Handler): (r: Handler)
    ensures r.Raw?
  {
    match h
    case Raw(_) => h
    case Wrap(_, inner) => Core(inner)
  }

  /** `ms[0](ms[1](... ms[n-1](h)))`: the first middleware is the outermost. */
  function Wrapped(ms: seq<Middleware>, h: Handler): Handler
  {
    if ms == [] then h else Wrap(ms[0], Wrapped(ms[1..], h))
  }

  /** Wrapping adds exactly the given layers, in order, outside the existing ones, around the same raw handler. */
  lemma {:induction false} WrappedLayers(ms: seq<Middleware>, h: Handler)
    ensures Layers(Wrapped(ms, h)) == ms + Layers(h)
    ensures Core(Wrapped(ms, h)) == Core(h)
  {
    if ms != [] {
      WrappedLayers(ms[1..], h);
      assert [ms[0]] + ms[1..] == ms;
    }
  }

  /** Wrapping with `a + b` is wrapping with `b` first and then with `a` around it. */
  lemma {:induction false} WrappedConcat(a: seq<Middleware>, b: seq<Middleware>, h: Handler)
    ensures Wrapped(a + b, h) == Wrapped(a, Wrapped(b, h))
  {
    if a == [] {
      assert a + b == b;
    } else {
      assert (a + b)[1..] == a[1..] + b;
      WrappedConcat(a[1..], b, h);
    }
  }

  /** A functional option of `NewCommand`. */
  datatype CommandOption =
    | Alias(alias: string)
    | Proxy
    | WithMiddleware(added: seq<Middleware>)

  /** The fields that options configure. */
  datatype Config = Config(name: string, alias: string, proxy: bool, middleware: seq<Middleware>)

  /** The command `NewCommand` starts from: the name as given, no alias, no proxy, no middleware. */
  function Initial(name: string): Config
  {
    Config(name, "", false, [])
  }

  function ApplyOption(c: Config, opt: CommandOption): Config
  {
    match opt
    case Alias(a) => c.(alias := a)
    case Proxy => c.(proxy := true)
    case WithMiddleware(ms) => c.(middleware := c.middleware + ms)
  }

  /** The options applied in the order given. */
  function ApplyOptions(c: Config, opts: seq<CommandOption>): Config
    decreases |opts|
  {
    if opts == [] then c else ApplyOptions(ApplyOption(c, opts[0]), opts[1..])
  }

  /** The middleware the options add: the arguments of every `WithMiddleware`, in order. */
  function AddedMiddleware(opts: seq<CommandOption>): seq<Middleware>
  {
    if opts == [] then []
    else (if opts[0].WithMiddleware? then opts[0].added else []) + AddedMiddleware(opts[1..])
  }

  /** The last alias among the options, if any. */
  function LastAlias(opts: seq<CommandOption>, otherwise: string): string
  {
    if opts == [] then otherwise
    else LastAlias(opts[1..], if opts[0].Alias? then opts[0].alias else otherwise)
  }

  /**
   * After the options, the name is unchanged, the middleware is the old
   * stack followed by every `WithMiddleware` argument in order, the alias is
   * the last one given, and proxying is on exactly when some option asked
   * for it (or it already was).
   */
  lemma {:induction false} OptionsEffect(c: Config, opts: seq<CommandOption>)
    ensures ApplyOptions(c, opts).name == c.name
    ensures ApplyOptions(c, opts).middleware == c.middleware + AddedMiddleware(opts)
    ensures ApplyOptions(c, opts).alias == LastAlias(opts, c.alias)
    ensures ApplyOptions(c, opts).proxy <==> c.proxy || Proxy in opts
    decreases |opts|
  {
    if opts != [] {
      var next := ApplyOption(c, opts[0]);
      OptionsEffect(next, opts[1..]);
      var added := if opts[0].WithMiddleware? then opts[0].added else [];
      assert next.middleware == c.middleware + added;
      assert AddedMiddleware(opts) == added + AddedMiddleware(opts[1..]);
      assert c.middleware + added + AddedMiddleware(opts[1..]) == c.middleware + (added + AddedMiddleware(opts[1..]));
      assert opts == [opts[0]] + opts[1..];
      assert Proxy in opts <==> opts[0] == Proxy || Proxy in opts[1..];
    }
  }

  /**
   * The handler of a new command: every middleware added by the options,
   * first one outermost, around the raw handler.
   */
  lemma NewCommandHandler(name: string, h: Handler, opts: seq<CommandOption>)
    ensures Layers(Wrapped(ApplyOptions(Initial(name), opts).middleware, h)) == AddedMiddleware(opts) + Layers(h)
    ensures Core(Wrapped(ApplyOptions(Initial(name), opts).middleware, h)) == Core(h)
    ensures AddedMiddleware(opts) == [] ==> Wrapped(ApplyOptions(Initial(name), opts).middleware, h) == h
  {
    OptionsEffect(Initial(name), opts);
    assert [] + AddedMiddleware(opts) == AddedMiddleware(opts);
    WrappedLayers(ApplyOptions(Initial(name), opts).middleware, h);
  }

  /** Two `WithMiddleware` options: the first option's middleware ends up outside the second's. */
  lemma TwoMiddlewareOptions(name: string, a: Middleware, b: Middleware, id: nat)
    ensures Wrapped(ApplyOptions(Initial(name), [WithMiddleware([a]), WithMiddleware([b])]).middleware, Raw(id))
            == Wrap(a, Wrap(b, Raw(id)))
  {
    var opts := [WithMiddleware([a]), WithMiddleware([b])];
    OptionsEffect(Initial(name), opts);
    assert opts[1..] == [WithMiddleware([b])];
    assert AddedMiddleware(opts[1..][1..]) == [];
    assert AddedMiddleware(opts) == [a, b];
    var ms := ApplyOptions(Initial(name), opts).middleware;
    assert ms == [a, b];
    assert ms[1..] == [b] && ms[1..][1..] == [];
    assert Wrapped(ms[1..], Raw(id)) == Wrap(b, Raw(id));
  }

  /** A command: the fields of the source's `Command`. */
  class Command {
    var name: string
    var alias: string
    var proxy: bool
    var flags: seq<Flags.Flag>
    var handler: Handler
    var middleware: seq<Middleware>

    function Configured(): Config
      reads this
    {
      Config(name, alias, proxy, middleware)
    }

    /** `NewCommand`: the initial fields, then every option in order, then `build` once. */
    constructor (name: string, h: Handler, flags: seq<Flags.Flag>, opts: seq<CommandOption>)
      ensures Configured() == ApplyOptions(Initial(name), opts)
      ensures this.flags == flags
      ensures handler == Wrapped(middleware, h)
    {
      this.name := name;
      alias := "";
      proxy := false;
      this.flags := flags;
      handler := h;
      middleware := [];
      new;
      var i := 0;
      while i < |opts|
        invariant 0 <= i <= |opts|
        invariant this.flags == flags
        invariant ApplyOptions(Configured(), opts[i..]) == ApplyOptions(Initial(name), opts)
      {
        assert opts[i..][1..] == opts[i + 1..];
        Apply(opts[i]);
        i := i + 1;
      }
      Build(h);
    }

    /** Runs one option on this command; only the field it names changes. */
    method Apply(opt: CommandOption)
      modifies this
      ensures Configured() == ApplyOption(old(Configured()), opt)
      ensures flags == old(flags) && handler == old(handler)
    {
      match opt
      case Alias(a) => alias := a;
      case Proxy => proxy := true;
      case WithMiddleware(ms) => middleware := middleware + ms;
    }

    /** `build`: wraps `h` with the middleware from the last to the first. */
    method Build(h: Handler)
      modifies this`handler
      ensures handler == Wrapped(middleware, h)
    {
      handler := h;
      var i := |middleware|;
      while i > 0
        invariant 0 <= i <= |middleware|
        invariant handler == Wrapped(middleware[i..], h)
      {
        i := i - 1;
        assert middleware[i..][1..] == middleware[i + 1..];
        handler := Wrap(middleware[i], handler);
      }
    }
  }
}
