/**
 * The error values of the package (error.go): two sentinels made with
 * fmt.Errorf and three string-payload error kinds whose `Error` methods
 * format a fixed sentence around the flag they name.
 *
 * `Other` stands for any error value produced outside error.go (a renderer's,
 * a writer's or the file system's); its text is carried as given.
 */
module Errors {

  datatype Error =
    | ExitFailure
    | Usage
    | FlagSyntax(token: string)
    | UndefinedFlag(flag: string)
    | RequiresArg(flag: string)
    | Other(text: string)
  {
    /** The values defined in error.go, as opposed to errors from elsewhere. */
    predicate Defined()
    {
      !Other?
    }
  }

  /** The `Error()` string of each error value. */
  function Message(e: Error): string
  {
    match e
    case ExitFailure => "1"
    case Usage => "cli: usage"
    case FlagSyntax(s) => "Flag '" + s + "' is syntactically incorrect."
    case UndefinedFlag(s) => "Flag '" + s + "' is undefined."
    case RequiresArg(s) => "Flag '" + s + "' requires an argument."
    case Other(text) => text
  }

  /** The sentence that follows the flag name in the message of a flag error. */
  function Tail(e: Error): (r: string)
    requires e.FlagSyntax? || e.UndefinedFlag? || e.RequiresArg?
    ensures |r| >= 10 && r[0] == '\''
  {
    match e
    case FlagSyntax(_) => "' is syntactically incorrect."
    case UndefinedFlag(_) => "' is undefined."
    case RequiresArg(_) => "' requires an argument."
  }

  /** The flag a flag error names. */
  function Named(e: Error): string
    requires e.FlagSyntax? || e.UndefinedFlag? || e.RequiresArg?
  {
    match e
    case FlagSyntax(s) => s
    case UndefinedFlag(s) => s
    case RequiresArg(s) => s
  }

  /** Every flag error reads "Flag '<flag>" followed by the sentence of its kind. */
  lemma FlagMessageShape(e: Error)
    requires e.FlagSyntax? || e.UndefinedFlag? || e.RequiresArg?
    ensures Message(e) == "Flag '" + Named(e) + Tail(e)
  {
  }

  /** Two strings framed by the same prefix and suffix are equal. */
  lemma {:induction false} FramedEqual(p: string, x: string, q: string, y: string)
    requires p + x + q == p + y + q
    ensures x == y
  {
    var m := p + x + q;
    assert |x| == |y|;
    assert x == m[|p|..|p| + |x|];
    assert y == m[|p|..|p| + |y|];
  }

  /** The last ten characters of `a + u` are those of `u`. */
  lemma LastTen(a: string, u: string)
    requires |u| >= 10
    ensures (a + u)[|a + u| - 10..] == u[|u| - 10..]
  {
  }

  /** Flag errors of different kinds never print the same. */
  lemma {:induction false} FlagKindsDistinct(e1: Error, e2: Error)
    requires e1.FlagSyntax? || e1.UndefinedFlag? || e1.RequiresArg?
    requires e2.FlagSyntax? || e2.UndefinedFlag? || e2.RequiresArg?
    requires Tail(e1) != Tail(e2)
    ensures Message(e1) != Message(e2)
  {
    FlagMessageShape(e1);
    FlagMessageShape(e2);
    var t1, t2 := Tail(e1), Tail(e2);
    assert t1[|t1| - 10..] != t2[|t2| - 10..];
    LastTen("Flag '" + Named(e1), t1);
    LastTen("Flag '" + Named(e2), t2);
    assert Message(e1) == ("Flag '" + Named(e1)) + t1;
    assert Message(e2) == ("Flag '" + Named(e2)) + t2;
  }

  /**
   * The messages of the values defined in error.go tell them apart: two such
   * errors print the same exactly when they are the same kind with the same
   * flag (or the same sentinel).
   */
  lemma {:induction false} MessageInjective(e1: Error, e2: Error)
    requires e1.Defined() && e2.Defined()
    ensures Message(e1) == Message(e2) <==> e1 == e2
  {
    if Message(e1) == Message(e2) {
      var flag1 := e1.FlagSyntax? || e1.UndefinedFlag? || e1.RequiresArg?;
      var flag2 := e2.FlagSyntax? || e2.UndefinedFlag? || e2.RequiresArg?;
      if flag1 && flag2 {
        if Tail(e1) != Tail(e2) {
          FlagKindsDistinct(e1, e2);
        } else {
          FlagMessageShape(e1);
          FlagMessageShape(e2);
          FramedEqual("Flag '", Named(e1), Tail(e1), Named(e2));
        }
      }
    }
  }

  /** The two sentinels are distinct values with distinct messages. */
  lemma SentinelsDistinct()
    ensures ExitFailure != Usage && Message(ExitFailure) != Message(Usage)
    ensures Message(ExitFailure) == "1" && Message(Usage) == "cli: usage"
  {
  }
}
