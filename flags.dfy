/**
 * Flags (flag.go).
 *
 * A `Flag` records how often it was set, the last raw text it was given, its
 * default, its short alias and environment key, and the variable it points
 * to. The variable is held here as a tagged value (`Value`) instead of a
 * reflected pointer; storing a parsed value of the wrong type into it is what
 * makes the source panic, so every operation that stores one requires the
 * types to agree.
 *
 * `FlagState` is the value of all the fields at one moment; the functions on
 * it specify the methods of the class `Flag`, and the lemmas state what the
 * source promises about sequences of options and of `Set` calls.
 */
module Flags {

  /** The two built-in flag kinds: `flagString` and `flagBool`. */
  datatype Kind = StringKind | BoolKind

  /** The content of the variable a flag points to. */
  datatype Value = StrValue(s: string) | BoolValue(b: bool)

  datatype ValueType = StringType | BoolType

  function TypeOf(v: Value): ValueType
  {
    match v
    case StrValue(_) => StringType
    case BoolValue(_) => BoolType
  }

  /** The second argument of `NewFlag`: a pointer to a variable, or anything else. */
  datatype Target = Pointer(current: Value) | NotPointer

  /** The texts that a boolean flag reads as true. */
  const Truthy: set<string> := {"1", "t", "T", "true", "TRUE", "True", "y", "Y", "yes", "YES", "Yes"}

  /** `Parse` of the kind: the identity for strings, membership in `Truthy` for booleans. */
  function Parse(kind: Kind, raw: string): Value
  {
    match kind
    case StringKind => StrValue(raw)
    case BoolKind => BoolValue(raw in Truthy)
  }

  /** `HasArg` of the kind: a string flag takes an argument, a boolean flag does not. */
  function HasArg(kind: Kind): bool
  {
    kind == StringKind
  }

  /** The type of every value a kind's `Parse` yields. */
  function KindType(kind: Kind): ValueType
  {
    match kind
    case StringKind => StringType
    case BoolKind => BoolType
  }

  lemma ParseType(kind: Kind, raw: string)
    ensures TypeOf(Parse(kind, raw)) == KindType(kind)
    ensures kind == StringKind ==> Parse(kind, raw) == StrValue(raw)
  {
  }

  /** A boolean flag is true for the eleven texts of `Truthy` and for nothing else. */
  lemma BoolParseExactly(raw: string)
    ensures Parse(BoolKind, raw) == BoolValue(true) <==>
              (raw == "1" || raw == "t" || raw == "T" || raw == "true" || raw == "TRUE" || raw == "True" ||
               raw == "y" || raw == "Y" || raw == "yes" || raw == "YES" || raw == "Yes")
    ensures Parse(BoolKind, raw) != BoolValue(true) ==> Parse(BoolKind, raw) == BoolValue(false)
  {
  }

  /** Only the all-lower, all-upper and capitalised spellings count; other case mixes read as false. */
  lemma BoolParseMixedCase()
    ensures Parse(BoolKind, "tRUE") == BoolValue(false)
    ensures Parse(BoolKind, "yES") == BoolValue(false)
    ensures Parse(BoolKind, "TrUe") == BoolValue(false)
    ensures Parse(BoolKind, "false") == BoolValue(false) && Parse(BoolKind, "0") == BoolValue(false)
    ensures Parse(BoolKind, "") == BoolValue(false)
  {
    assert "tRUE" != "true" && "tRUE" != "TRUE" && "tRUE" != "True";
    assert "TrUe" != "true" && "TrUe" != "TRUE" && "TrUe" != "True";
    assert "yES" != "yes" && "yES" != "YES" && "yES" != "Yes";
  }

  /** `strings.ToLower` on one character, for the ASCII letters. */
  function LowerChar(c: char): char
  {
    if 'A' <= c <= 'Z' then (c as int + 32) as char else c
  }

  /** `strings.ToLower` on ASCII text. */
  function Lower(s: string): (r: string)
    ensures |r| == |s|
    ensures forall k :: 0 <= k < |s| ==> r[k] == LowerChar(s[k])
  {
    if s == [] then [] else [LowerChar(s[0])] + Lower(s[1..])
  }

  /** Lower-cased text has no upper-case ASCII letter, and lower-casing it again changes nothing. */
  lemma LowerIsLower(s: string)
    ensures forall k :: 0 <= k < |s| ==> !('A' <= Lower(s)[k] <= 'Z')
    ensures Lower(Lower(s)) == Lower(s)
  {
  }

  /** A flag option, `FlagOption` of the source: `Kind`, `ShortFlag`, `DefaultValue`, `EnvironmentKey`. */
  datatype FlagOption =
    | KindOption(kind: Kind)
    | ShortFlag(alias: string)
    | DefaultValue(value: string)
    | EnvironmentKey(key: string)

  /** The `Bool()` option: `Kind` with the built-in boolean kind. */
  function Bool(): (o: FlagOption)
    ensures o.KindOption? && o.kind == BoolKind && !HasArg(o.kind)
  {
    KindOption(BoolKind)
  }

  /** All fields of a flag at one moment. */
  datatype FlagState = FlagState(
    dest: Value,
    kind: Kind,
    name: string,
    alias: string,
    count: nat,
    value: string,
    envKey: string,
    defaultValue: string)

  /** The flag `NewFlag` builds before any option runs. */
  function Initial(name: string, current: Value): FlagState
  {
    FlagState(current, StringKind, Lower(name), "", 0, "", "", "")
  }

  /** Storing a parsed value into the flag's variable does not panic: the kind parses to the variable's type. */
  predicate CanStore(st: FlagState)
  {
    KindType(st.kind) == TypeOf(st.dest)
  }

  /** `Set`: one more occurrence, the parsed value stored, the raw text kept. */
  function SetState(st: FlagState, raw: string): FlagState
    requires CanStore(st)
  {
    st.(count := st.count + 1, dest := Parse(st.kind, raw), value := raw)
  }

  predicate Applicable(st: FlagState, opt: FlagOption)
  {
    opt.DefaultValue? ==> CanStore(st)
  }

  /** The effect of one option on the flag. */
  function ApplyOption(st: FlagState, opt: FlagOption): FlagState
    requires Applicable(st, opt)
  {
    match opt
    case KindOption(k) => st.(kind := k)
    case ShortFlag(a) => st.(alias := a)
    case DefaultValue(v) => st.(dest := Parse(st.kind, v), value := v, defaultValue := v)
    case EnvironmentKey(key) => st.(envKey := key)
  }

  /** Every option in turn can be applied without a panic. */
  predicate AllApplicable(st: FlagState, opts: seq<FlagOption>)
    decreases |opts|
  {
    |opts| == 0 || (Applicable(st, opts[0]) && AllApplicable(ApplyOption(st, opts[0]), opts[1..]))
  }

  /** The options applied in the order given. */
  function ApplyOptions(st: FlagState, opts: seq<FlagOption>): FlagState
    requires AllApplicable(st, opts)
    decreases |opts|
  {
    if |opts| == 0 then st else ApplyOptions(ApplyOption(st, opts[0]), opts[1..])
  }

  /** `Set` called once for each text of `raws`, in order. */
  predicate CanStoreAll(st: FlagState, raws: seq<string>)
    decreases |raws|
  {
    |raws| == 0 || (CanStore(st) && CanStoreAll(SetState(st, raws[0]), raws[1..]))
  }

  function SetAll(st: FlagState, raws: seq<string>): FlagState
    requires CanStoreAll(st, raws)
    decreases |raws|
  {
    if |raws| == 0 then st else SetAll(SetState(st, raws[0]), raws[1..])
  }

  /** Options never change the occurrence count or the name. */
  lemma {:induction false} OptionsKeepCountAndName(st: FlagState, opts: seq<FlagOption>)
    requires AllApplicable(st, opts)
    ensures ApplyOptions(st, opts).count == st.count
    ensures ApplyOptions(st, opts).name == st.name
    decreases |opts|
  {
    if |opts| > 0 {
      OptionsKeepCountAndName(ApplyOption(st, opts[0]), opts[1..]);
    }
  }

  /**
   * A new flag has the name lower-cased and has not been set, whatever its
   * options; without options its kind is string.
   */
  lemma NewFlagUnset(name: string, current: Value, opts: seq<FlagOption>)
    requires AllApplicable(Initial(name, current), opts)
    ensures ApplyOptions(Initial(name, current), opts).count == 0
    ensures ApplyOptions(Initial(name, current), opts).name == Lower(name)
    ensures ApplyOptions(Initial(name, current), []).kind == StringKind
  {
    OptionsKeepCountAndName(Initial(name, current), opts);
  }

  /**
   * n calls of `Set` raise the count by exactly n; after at least one, the
   * value is the last text given and the variable holds its parse. Nothing
   * else changes.
   */
  lemma {:induction false} SetAllEffect(st: FlagState, raws: seq<string>)
    requires CanStoreAll(st, raws)
    ensures SetAll(st, raws).count == st.count + |raws|
    ensures |raws| > 0 ==> SetAll(st, raws).value == raws[|raws| - 1]
    ensures |raws| > 0 ==> SetAll(st, raws).dest == Parse(st.kind, raws[|raws| - 1])
    ensures |raws| == 0 ==> SetAll(st, raws) == st
    ensures SetAll(st, raws).(count := st.count, value := st.value, dest := st.dest) == st
    decreases |raws|
  {
    if |raws| > 0 {
      var next := SetState(st, raws[0]);
      SetAllEffect(next, raws[1..]);
      if |raws| > 1 {
        assert raws[1..][|raws[1..]| - 1] == raws[|raws| - 1];
      }
    }
  }

  /** Once stored, further texts of the same kind can always be stored. */
  lemma {:induction false} StoreStaysPossible(st: FlagState, raws: seq<string>)
    requires KindType(st.kind) == TypeOf(st.dest)
    ensures CanStoreAll(st, raws)
    decreases |raws|
  {
    if |raws| > 0 {
      ParseType(st.kind, raws[0]);
      StoreStaysPossible(SetState(st, raws[0]), raws[1..]);
    }
  }

  /**
   * `DefaultValue` reads its text with the kind in force when it runs, so
   * `Kind` must come first: for a boolean variable, `Bool()` then
   * `DefaultValue("yes")` stores true and leaves the flag unset, while the
   * other order would store a string into a boolean variable.
   */
  lemma KindBeforeDefault(name: string)
    ensures AllApplicable(Initial(name, BoolValue(false)), [Bool(), DefaultValue("yes")])
    ensures ApplyOptions(Initial(name, BoolValue(false)), [Bool(), DefaultValue("yes")]).dest == BoolValue(true)
    ensures ApplyOptions(Initial(name, BoolValue(false)), [Bool(), DefaultValue("yes")]).value == "yes"
    ensures ApplyOptions(Initial(name, BoolValue(false)), [Bool(), DefaultValue("yes")]).count == 0
    ensures !AllApplicable(Initial(name, BoolValue(false)), [DefaultValue("yes"), Bool()])
  {
    var st := Initial(name, BoolValue(false));
    var opts := [Bool(), DefaultValue("yes")];
    var st1 := ApplyOption(st, opts[0]);
    assert opts[1..] == [DefaultValue("yes")];
    var st2 := ApplyOption(st1, opts[1]);
    assert opts[1..][1..] == [];
    assert ApplyOptions(st, opts) == ApplyOptions(st1, opts[1..]) == ApplyOptions(st2, []) == st2;
  }

  /** A flag: the fields of the source's `Flag`, with the pointed-to variable as `dest`. */
  class Flag {
    var dest: Value
    var kind: Kind
    var name: string
    var alias: string
    var count: nat
    var value: string
    var envKey: string
    var defaultValue: string

    function State(): FlagState
      reads this
    {
      FlagState(dest, kind, name, alias, count, value, envKey, defaultValue)
    }

    /** `NewFlag`: the name lower-cased, the string kind, then each option in order. */
    constructor (name: string, target: Target, opts: seq<FlagOption>)
      requires target.Pointer?
      requires AllApplicable(Initial(name, target.current), opts)
      ensures State() == ApplyOptions(Initial(name, target.current), opts)
    {
      dest := target.current;
      kind := StringKind;
      this.name := Lower(name);
      alias := "";
      count := 0;
      value := "";
      envKey := "";
      defaultValue := "";
      new;
      var i := 0;
      while i < |opts|
        invariant 0 <= i <= |opts|
        invariant AllApplicable(State(), opts[i..])
        invariant ApplyOptions(State(), opts[i..]) == ApplyOptions(Initial(name, target.current), opts)
      {
        assert opts[i..][1..] == opts[i + 1..];
        Apply(opts[i]);
        i := i + 1;
      }
    }

    /** Runs one option on this flag. */
    method Apply(opt: FlagOption)
      requires Applicable(State(), opt)
      modifies this
      ensures State() == ApplyOption(old(State()), opt)
    {
      match opt
      case KindOption(k) => kind := k;
      case ShortFlag(a) => alias := a;
      case DefaultValue(v) =>
        dest := Parse(kind, v);
        value := v;
        defaultValue := v;
      case EnvironmentKey(key) => envKey := key;
    }

    /** `Set`: counts the occurrence, stores the parsed value and keeps the text. */
    method Set(raw: string)
      requires CanStore(State())
      modifies this
      ensures State() == SetState(old(State()), raw)
    {
      count := count + 1;
      dest := Parse(kind, raw);
      value := raw;
    }

    /** `Count`: the number of times the flag was set. */
    function Count(): nat
      reads this
    {
      count
    }

    /** `IsSet`: the flag was set at least once. */
    function IsSet(): bool
      reads this
    {
      count > 0
    }
  }

  /** `String`: the last text given, or "" when there is no flag at all. */
  function Text(f: Flag?): (s: string)
    reads f
    ensures f == null ==> s == ""
    ensures f != null ==> s == f.State().value
  {
    if f == null then "" else f.value
  }

  /**
   * `String` as its documentation describes it: a boolean flag prints its
   * value as "true" or "false", the way `strconv.FormatBool` would, and the
   * printed text parses back to the value held.
   */
  function Formatted(st: FlagState): (s: string)
    ensures st.dest.BoolValue? ==> (s == "true" || s == "false") && Parse(BoolKind, s) == st.dest
    ensures st.dest.StrValue? ==> s == st.value
  {
    match st.dest
    case BoolValue(b) => if b then "true" else "false"
    case StrValue(_) => st.value
  }

  /** The corrected `String`: "" without a flag, otherwise the formatted value. */
  function FormattedText(f: Flag?): (s: string)
    reads f
    ensures f == null ==> s == ""
    ensures f != null ==> s == Formatted(f.State())
  {
    if f == null then "" else Formatted(f.State())
  }

  /**
   * After `Set(raw)` on a boolean flag, the text `String` returns as written
   * and the formatted one differ exactly when `raw` is neither "true" nor
   * "false": any other spelling is printed back as given.
   */
  lemma BoolTextDiffers(st: FlagState, raw: string)
    requires st.kind == BoolKind && CanStore(st)
    ensures SetState(st, raw).value != Formatted(SetState(st, raw)) <==> raw != "true" && raw != "false"
  {
    assert "true" in Truthy;
  }

  /**
   * A boolean flag set to "yes": `String` as written prints "yes", the
   * formatted version prints "true".
   */
  method BoolTextScenario() returns (asWritten: string, corrected: string)
    ensures asWritten == "yes" && corrected == "true"
  {
    var f := new Flag("v", Pointer(BoolValue(false)), [Bool()]);
    assert [Bool()][1..] == [];
    f.Set("yes");
    asWritten, corrected := Text(f), FormattedText(f);
  }

  /**
   * The counting test of the source: a boolean flag with a short alias
   * starts unset and, set three times, has count 3 and holds true.
   */
  method CountScenario() returns (count: nat, held: Value)
    ensures count == 3 && held == BoolValue(true)
  {
    var opts := [Bool(), ShortFlag("v")];
    var v := new Flag("verbose", Pointer(BoolValue(false)), opts);
    assert opts[1..][1..] == [];
    assert !v.IsSet() && v.kind == BoolKind;
    v.Set("true");
    v.Set("true");
    v.Set("true");
    count, held := v.Count(), v.dest;
  }

  /** The string test of the source: a string flag set once reads back the text it was given. */
  method StringScenario() returns (text: string, held: Value)
    ensures text == "test" && held == StrValue("test")
  {
    var f := new Flag("flag", Pointer(StrValue("")), []);
    f.Set("test");
    text, held := Text(f), f.dest;
  }
}
