/** Go's `fmt.Sprintf`, for templates whose only verb is `%s` applied to
    string arguments. */
module Fmt {

  /** Each `%s` is replaced by the next argument, verbatim; a `%s` with no
      argument left becomes `%!s(MISSING)`, as in Go. Every other character is
      copied. */
  function Sprintf(template: string, args: seq<string>): string
    decreases |template|
  {
    if template == [] then []
    else if |template| >= 2 && template[0] == '%' && template[1] == 's' then
      (if args == [] then "%!s(MISSING)" else args[0])
      + Sprintf(template[2..], if args == [] then [] else args[1..])
    else [template[0]] + Sprintf(template[1..], args)
  }

  /** A run of literal text is copied to the output unchanged. */
  lemma {:induction false} SprintfLiteral(lit: string, rest: string, args: seq<string>)
    requires '%' !in lit
    ensures Sprintf(lit + rest, args) == lit + Sprintf(rest, args)
  {
    if lit == [] {
      assert lit + rest == rest;
    } else {
      var t := lit + rest;
      assert t[0] == lit[0] && lit[0] != '%';
      assert t[1..] == lit[1..] + rest;
      SprintfLiteral(lit[1..], rest, args);
      calc {
        Sprintf(t, args);
        [lit[0]] + Sprintf(lit[1..] + rest, args);
        [lit[0]] + (lit[1..] + Sprintf(rest, args));
        { assert [lit[0]] + lit[1..] == lit; }
        lit + Sprintf(rest, args);
      }
    }
  }

  /** A `%s` verb consumes the next argument and inserts it verbatim. */
  lemma SprintfVerb(arg: string, rest: string, args: seq<string>)
    ensures Sprintf("%s" + rest, [arg] + args) == arg + Sprintf(rest, args)
  {
  }

  /** Literal text followed by a `%s`: the text, then the next argument. */
  lemma SprintfLiteralThenVerb(lit: string, arg: string, rest: string, args: seq<string>)
    requires '%' !in lit
    ensures Sprintf(lit + ("%s" + rest), [arg] + args) == lit + arg + Sprintf(rest, args)
  {
    SprintfLiteral(lit, "%s" + rest, [arg] + args);
    SprintfVerb(arg, rest, args);
  }
}
