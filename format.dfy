/**
 * The part of Go's `fmt.Sprintf` that `GenDSN` relies on: literal text, the
 * verbs `%s` (a string operand) and `%t` (a boolean operand), and `%%`.
 * A format/operand mismatch, a missing or surplus operand and a lone
 * trailing `%` give `None`; Go renders a diagnostic text in their place.
 */
module Format {
  import opened Wrappers

  /** An operand of a formatting call. */
  datatype Arg = Str(s: string) | Bool(b: bool)

  /** How `%t` renders a boolean. */
  function FormatBool(b: bool): string
  {
    if b then "true" else "false"
  }

  /** The text one verb produces for one operand, if they match. */
  function Render(verb: char, arg: Arg): Option<string>
  {
    match arg
    case Str(s) => if verb == 's' then Some(s) else None
    case Bool(b) => if verb == 't' then Some(FormatBool(b)) else None
  }

  function Prepend(prefix: string, r: Option<string>): Option<string>
  {
    match r
    case None => None
    case Some(s) => Some(prefix + s)
  }

  /**
   * What the head of a format produces: the output text, the number of format
   * characters it takes and the number of operands it consumes.
   */
  datatype Directive = Directive(text: string, width: nat, used: nat)

  /** The directive at the head of a non-empty format, if it is well formed. */
  function Next(format: string, args: seq<Arg>): (d: Option<Directive>)
    requires format != []
    ensures d.Some? ==> 1 <= d.value.width <= |format| && d.value.used <= |args|
  {
    if format[0] != '%' then
      Some(Directive(format[..1], 1, 0))
    else if |format| == 1 then
      None
    else if format[1] == '%' then
      Some(Directive("%", 2, 0))
    else if args == [] then
      None
    else
      match Render(format[1], args[0])
      case None => None
      case Some(piece) => Some(Directive(piece, 2, 1))
  }

  /** The number of operand-taking verbs in `format`; `%%` takes none. */
  function Verbs(format: string): nat
    decreases |format|
  {
    if format == [] then 0
    else if format[0] != '%' || |format| == 1 then Verbs(format[1..])
    else if format[1] == '%' then Verbs(format[2..])
    else 1 + Verbs(format[2..])
  }

  /** Formats `args` according to `format`, one operand per verb. */
  function Sprintf(format: string, args: seq<Arg>): Option<string>
    decreases |format|
  {
    if format == [] then
      if args == [] then Some("") else None
    else
      match Next(format, args)
      case None => None
      case Some(d) => Prepend(d.text, Sprintf(format[d.width..], args[d.used..]))
  }

  /** A well-formed head directive does not look past its own characters and operands. */
  lemma NextOfConcat(f1: string, a1: seq<Arg>, f2: string, a2: seq<Arg>)
    requires f1 != [] && Next(f1, a1).Some?
    ensures Next(f1 + f2, a1 + a2) == Next(f1, a1)
  {
    var f := f1 + f2;
    assert f[0] == f1[0] && f[..1] == f1[..1];
    if f1[0] == '%' {
      assert f[1] == f1[1];
      if f1[1] != '%' {
        assert (a1 + a2)[0] == a1[0];
      }
    }
  }

  lemma DropOfConcat<T>(x: seq<T>, y: seq<T>, n: nat)
    requires n <= |x|
    ensures (x + y)[n..] == x[n..] + y
  {
  }

  /** One step of `Sprintf` at a well-formed head directive. */
  lemma Unfold(f: string, a: seq<Arg>, d: Directive)
    requires f != [] && Next(f, a) == Some(d)
    ensures Sprintf(f, a) == Prepend(d.text, Sprintf(f[d.width..], a[d.used..]))
  {
  }

  /** A successful call consumes exactly as many operands as the format has verbs. */
  lemma {:induction false} SprintfOperands(format: string, args: seq<Arg>)
    requires Sprintf(format, args).Some?
    ensures |args| == Verbs(format)
    decreases |format|
  {
    if format != [] {
      var d := Next(format, args).value;
      Unfold(format, args, d);
      SprintfOperands(format[d.width..], args[d.used..]);
    }
  }

  /**
   * Formatting is compositional: a format that consumes exactly its operands
   * can be followed by another one, and the outputs are concatenated.
   */
  lemma {:induction false} SprintfConcat(f1: string, a1: seq<Arg>, s1: string, f2: string, a2: seq<Arg>, s2: string)
    requires Sprintf(f1, a1) == Some(s1)
    requires Sprintf(f2, a2) == Some(s2)
    ensures Sprintf(f1 + f2, a1 + a2) == Some(s1 + s2)
    decreases |f1|
  {
    if f1 == [] {
      ConcatEmpty(a1, s1, f2, a2, s2);
    } else {
      var d, t1 := Head(f1, a1, s1);
      SprintfConcat(f1[d.width..], a1[d.used..], t1, f2, a2, s2);
      ConcatStep(f1, a1, f2, a2, d, t1, s1, s2);
    }
  }

  /** The base case of `SprintfConcat`: the empty format needs no operands and adds nothing. */
  lemma ConcatEmpty(a1: seq<Arg>, s1: string, f2: string, a2: seq<Arg>, s2: string)
    requires Sprintf([], a1) == Some(s1)
    requires Sprintf(f2, a2) == Some(s2)
    ensures Sprintf([] + f2, a1 + a2) == Some(s1 + s2)
  {
    assert a1 == [] && s1 == "";
    assert [] + f2 == f2 && a1 + a2 == a2 && s1 + s2 == s2;
  }

  /** A successful call splits into its head directive and the rest. */
  lemma Head(f: string, a: seq<Arg>, s: string) returns (d: Directive, t: string)
    requires f != [] && Sprintf(f, a) == Some(s)
    ensures Next(f, a) == Some(d)
    ensures Sprintf(f[d.width..], a[d.used..]) == Some(t) && s == d.text + t
  {
    d := Next(f, a).value;
    Unfold(f, a, d);
    t := Sprintf(f[d.width..], a[d.used..]).value;
  }

  /** The inductive step of `SprintfConcat`. */
  lemma ConcatStep(f1: string, a1: seq<Arg>, f2: string, a2: seq<Arg>, d: Directive, t1: string, s1: string, s2: string)
    requires f1 != [] && Next(f1, a1) == Some(d) && s1 == d.text + t1
    requires Sprintf(f1[d.width..] + f2, a1[d.used..] + a2) == Some(t1 + s2)
    ensures Sprintf(f1 + f2, a1 + a2) == Some(s1 + s2)
  {
    NextOfConcat(f1, a1, f2, a2);
    Unfold(f1 + f2, a1 + a2, d);
    DropOfConcat(f1, f2, d.width);
    DropOfConcat(a1, a2, d.used);
    assert s1 + s2 == d.text + (t1 + s2);
  }

  /** A text without `%` formats to itself and consumes no operand. */
  lemma {:induction false} SprintfLiteral(lit: string)
    requires forall i :: 0 <= i < |lit| ==> lit[i] != '%'
    ensures Sprintf(lit, []) == Some(lit)
    decreases |lit|
  {
    if lit != [] {
      SprintfLiteral(lit[1..]);
      assert lit[..1] + lit[1..] == lit;
    }
  }

  /** `%s` formats one string operand to that string. */
  lemma SprintfString(s: string)
    ensures Sprintf("%s", [Str(s)]) == Some(s)
  {
    var f := "%s";
    assert f[0] == '%' && f[1] == 's' && f[2..] == [];
    assert [Str(s)][1..] == [];
    assert Sprintf(f[2..], []) == Some("");
    assert s + "" == s;
  }

  /** `%t` formats one boolean operand to "true" or "false". */
  lemma SprintfBool(b: bool)
    ensures Sprintf("%t", [Bool(b)]) == Some(FormatBool(b))
  {
    var f := "%t";
    assert f[0] == '%' && f[1] == 't' && f[2..] == [];
    assert [Bool(b)][1..] == [];
    assert Sprintf(f[2..], []) == Some("");
    assert FormatBool(b) + "" == FormatBool(b);
  }

  /** Appending a `%`-free text to a format appends it to the output. */
  lemma AppendLiteral(f: string, a: seq<Arg>, s: string, lit: string)
    requires Sprintf(f, a) == Some(s)
    requires '%' !in lit
    ensures Sprintf(f + lit, a) == Some(s + lit)
  {
    SprintfLiteral(lit);
    SprintfConcat(f, a, s, lit, [], lit);
    assert a + [] == a;
  }

  /** Appending `%s` and a string operand appends that string to the output. */
  lemma AppendString(f: string, a: seq<Arg>, s: string, x: string)
    requires Sprintf(f, a) == Some(s)
    ensures Sprintf(f + "%s", a + [Str(x)]) == Some(s + x)
  {
    SprintfString(x);
    SprintfConcat(f, a, s, "%s", [Str(x)], x);
  }

  /** Appending `%t` and a boolean operand appends its rendering to the output. */
  lemma AppendBool(f: string, a: seq<Arg>, s: string, b: bool)
    requires Sprintf(f, a) == Some(s)
    ensures Sprintf(f + "%t", a + [Bool(b)]) == Some(s + FormatBool(b))
  {
    SprintfBool(b);
    SprintfConcat(f, a, s, "%t", [Bool(b)], FormatBool(b));
  }
}
