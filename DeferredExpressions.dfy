/**
 * The expression language of deferred configuration values: decimal
 * integer literals, property names and `+`, evaluated over integers with
 * a configuration object's own properties as the variables. Text is read
 * by a lexer and a left-associative parser; a printer gives the inverse.
 */
module DeferredExpressions {
  import opened Wrappers
  import opened ConfigValues

  datatype Expr = Lit(n: nat) | Ref(name: string) | Add(left: Expr, right: Expr)

  datatype Token = NumTok(n: nat) | NameTok(name: string) | PlusTok

  datatype EvalError =
    | SyntaxError
    | UnknownProperty(name: string)
    | NotANumber(name: string)

  predicate IsSpace(c: char)
  {
    c == ' ' || c == '\t' || c == '\n' || c == '\r'
  }

  predicate IsDigit(c: char)
  {
    '0' <= c <= '9'
  }

  predicate IsNameStart(c: char)
  {
    ('a' <= c <= 'z') || ('A' <= c <= 'Z') || c == '_' || c == '$'
  }

  predicate IsNameChar(c: char)
  {
    IsNameStart(c) || IsDigit(c)
  }

  /** A property name as it may be written in an expression. */
  predicate IsName(s: string)
  {
    |s| > 0 && IsNameStart(s[0]) && forall i :: 0 <= i < |s| ==> IsNameChar(s[i])
  }

  /** Length of the run of digits at the start of `s`. */
  function DigitRun(s: string): (n: nat)
    ensures n <= |s|
    ensures forall i :: 0 <= i < n ==> IsDigit(s[i])
    ensures n < |s| ==> !IsDigit(s[n])
  {
    if s == [] || !IsDigit(s[0]) then 0 else 1 + DigitRun(s[1..])
  }

  /** Length of the run of name characters at the start of `s`. */
  function NameRun(s: string): (n: nat)
    ensures n <= |s|
    ensures forall i :: 0 <= i < n ==> IsNameChar(s[i])
    ensures n < |s| ==> !IsNameChar(s[n])
  {
    if s == [] || !IsNameChar(s[0]) then 0 else 1 + NameRun(s[1..])
  }

  /** The number a string of decimal digits denotes. */
  function DigitsValue(s: string): nat
    requires forall i :: 0 <= i < |s| ==> IsDigit(s[i])
  {
    if s == [] then 0
    else
      assert IsDigit(s[|s| - 1]);
      DigitsValue(s[..|s| - 1]) * 10 + (s[|s| - 1] as int - '0' as int)
  }

  /** The decimal digits of `n`, most significant first, without leading zeros. */
  function DecimalDigits(n: nat): (s: string)
    ensures |s| > 0
    ensures forall i :: 0 <= i < |s| ==> IsDigit(s[i])
  {
    if n < 10 then [(n + '0' as int) as char]
    else DecimalDigits(n / 10) + [(n % 10 + '0' as int) as char]
  }

  /** A token the lexer can produce: a name token carries a valid name. */
  predicate ValidToken(t: Token)
  {
    t.NameTok? ==> IsName(t.name)
  }

  function Prepend(t: Token, rest: Result<seq<Token>, EvalError>): Result<seq<Token>, EvalError>
  {
    match rest
    case Ok(ts) => Ok([t] + ts)
    case Err(e) => Err(e)
  }

  /** Splits expression text into tokens; whitespace separates, anything else unknown is an error. */
  function Tokenize(s: string): (r: Result<seq<Token>, EvalError>)
    ensures r.Ok? ==> forall i :: 0 <= i < |r.value| ==> ValidToken(r.value[i])
    decreases |s|
  {
    if s == [] then Ok([])
    else if IsSpace(s[0]) then Tokenize(s[1..])
    else if s[0] == '+' then Prepend(PlusTok, Tokenize(s[1..]))
    else if IsDigit(s[0]) then
      var n := DigitRun(s);
      Prepend(NumTok(DigitsValue(s[..n])), Tokenize(s[n..]))
    else if IsNameStart(s[0]) then
      var n := NameRun(s);
      Prepend(NameTok(s[..n]), Tokenize(s[n..]))
    else Err(SyntaxError)
  }

  function Operand(t: Token): Option<Expr>
  {
    match t
    case NumTok(n) => Some(Lit(n))
    case NameTok(x) => Some(Ref(x))
    case PlusTok => None
  }

  /** Reads `operand (+ operand)*`, grouping to the left. */
  function ParseTokens(ts: seq<Token>): (r: Result<Expr, EvalError>)
    ensures r.Ok? && (forall i :: 0 <= i < |ts| ==> ValidToken(ts[i])) ==> WellFormed(r.value)
    decreases |ts|
  {
    if ts == [] then Err(SyntaxError)
    else
      match Operand(ts[|ts| - 1])
      case None => Err(SyntaxError)
      case Some(right) =>
        if |ts| == 1 then Ok(right)
        else if |ts| >= 3 && ts[|ts| - 2] == PlusTok then
          var left :- ParseTokens(ts[..|ts| - 2]);
          Ok(Add(left, right))
        else Err(SyntaxError)
  }

  /** Parses expression text; whatever it accepts is a well-formed expression. */
  function Parse(s: string): (r: Result<Expr, EvalError>)
    ensures r.Ok? ==> WellFormed(r.value)
  {
    var ts :- Tokenize(s);
    ParseTokens(ts)
  }

  /** Evaluates `e` with the numeric properties of `ctx` as its variables. */
  function Eval(e: Expr, ctx: Config): (r: Result<int, EvalError>)
    ensures r.Ok? <==> forall x :: x in Names(e) ==> x in ctx && ctx[x].Num?
  {
    match e
    case Lit(n) => Ok(n)
    case Ref(x) =>
      if x !in ctx then Err(UnknownProperty(x))
      else if ctx[x].Num? then Ok(ctx[x].n)
      else Err(NotANumber(x))
    case Add(l, r) =>
      var a :- Eval(l, ctx);
      var b :- Eval(r, ctx);
      Ok(a + b)
  }

  /** The property names an expression reads. */
  function Names(e: Expr): set<string>
  {
    match e
    case Lit(_) => {}
    case Ref(x) => {x}
    case Add(l, r) => Names(l) + Names(r)
  }

  /** Expressions the parser can produce from well-formed text: sums grouped to the left over valid names. */
  predicate WellFormed(e: Expr)
  {
    match e
    case Lit(_) => true
    case Ref(x) => IsName(x)
    case Add(l, r) => WellFormed(l) && !r.Add? && WellFormed(r)
  }

  function ToTokens(e: Expr): (ts: seq<Token>)
    ensures |ts| > 0
  {
    match e
    case Lit(n) => [NumTok(n)]
    case Ref(x) => [NameTok(x)]
    case Add(l, r) => ToTokens(l) + [PlusTok] + ToTokens(r)
  }

  function TokenText(t: Token): string
  {
    match t
    case NumTok(n) => DecimalDigits(n)
    case NameTok(x) => x
    case PlusTok => "+"
  }

  /** Writes each token preceded by one space. */
  function Render(ts: seq<Token>): string
  {
    if ts == [] then [] else " " + TokenText(ts[0]) + Render(ts[1..])
  }

  /** Expression text, as it follows the sentinel in a deferred value (`" a + b"`). */
  function Print(e: Expr): string
  {
    Render(ToTokens(e))
  }

  /** Reading back the decimal digits of a number gives the number. */
  lemma {:induction false} DigitsRoundTrip(n: nat)
    ensures DigitsValue(DecimalDigits(n)) == n
  {
    var s := DecimalDigits(n);
    if n < 10 {
      assert s[..0] == [];
    } else {
      assert s[..|s| - 1] == DecimalDigits(n / 10);
      DigitsRoundTrip(n / 10);
    }
  }

  /** The tokens the printer emits for a well-formed expression parse back to it. */
  lemma {:induction false} ParseTokensRoundTrip(e: Expr)
    requires WellFormed(e)
    ensures ParseTokens(ToTokens(e)) == Ok(e)
  {
    match e
    case Lit(_) =>
    case Ref(_) =>
    case Add(l, r) =>
      var ts := ToTokens(e);
      ParseTokensRoundTrip(l);
      assert ToTokens(r) == [ts[|ts| - 1]];
      assert ts[..|ts| - 2] == ToTokens(l);
      assert ts[|ts| - 2] == PlusTok;
      assert Operand(ts[|ts| - 1]) == Some(r);
  }

  lemma {:induction false} ToTokensValid(e: Expr)
    requires WellFormed(e)
    ensures forall i :: 0 <= i < |ToTokens(e)| ==> ValidToken(ToTokens(e)[i])
  {
    match e
    case Lit(_) =>
    case Ref(_) =>
    case Add(l, r) =>
      ToTokensValid(l);
      ToTokensValid(r);
  }

  lemma {:induction false} RenderStartsWithSpace(ts: seq<Token>)
    ensures Render(ts) == [] || Render(ts)[0] == ' '
  {
  }

  lemma {:induction false} DigitRunStops(text: string, rest: string)
    requires forall i :: 0 <= i < |text| ==> IsDigit(text[i])
    requires rest == [] || IsSpace(rest[0])
    ensures DigitRun(text + rest) == |text|
  {
    if text != [] {
      assert (text + rest)[1..] == text[1..] + rest;
      DigitRunStops(text[1..], rest);
    }
  }

  lemma {:induction false} NameRunStops(text: string, rest: string)
    requires forall i :: 0 <= i < |text| ==> IsNameChar(text[i])
    requires rest == [] || IsSpace(rest[0])
    ensures NameRun(text + rest) == |text|
  {
    if text != [] {
      assert (text + rest)[1..] == text[1..] + rest;
      NameRunStops(text[1..], rest);
    }
  }

  /** Rendered tokens are read back by the lexer as the same tokens. */
  lemma {:induction false} TokenizeRoundTrip(ts: seq<Token>)
    requires forall i :: 0 <= i < |ts| ==> ValidToken(ts[i])
    ensures Tokenize(Render(ts)) == Ok(ts)
  {
    if ts != [] {
      var text, rest := TokenText(ts[0]), Render(ts[1..]);
      var s := Render(ts);
      var u := text + rest;
      assert s == " " + u;
      assert Tokenize(s) == Tokenize(u) by {
        assert s[1..] == u;
      }
      assert ValidToken(ts[0]);
      TokenizeRoundTrip(ts[1..]);
      RenderStartsWithSpace(ts[1..]);
      assert [ts[0]] + ts[1..] == ts;
      match ts[0]
      case PlusTok =>
        assert u[1..] == rest;
      case NumTok(n) =>
        assert u[0] == text[0] && IsDigit(u[0]);
        DigitRunStops(text, rest);
        DigitsRoundTrip(n);
        assert u[..|text|] == text;
        assert u[|text|..] == rest;
        assert Tokenize(u) == Prepend(NumTok(DigitsValue(u[..|text|])), Tokenize(u[|text|..]));
      case NameTok(x) =>
        assert u[0] == text[0] && IsNameStart(u[0]);
        NameRunStops(text, rest);
        assert u[..|text|] == text;
        assert u[|text|..] == rest;
    }
  }

  /** Printing a well-formed expression and parsing the text gives the expression back. */
  lemma ParseRoundTrip(e: Expr)
    requires WellFormed(e)
    ensures Parse(Print(e)) == Ok(e)
  {
    ToTokensValid(e);
    TokenizeRoundTrip(ToTokens(e));
    ParseTokensRoundTrip(e);
  }

  /** The value of an expression depends only on the properties it names. */
  lemma {:induction false} EvalFrame(e: Expr, ctx: Config, ctx': Config)
    requires forall x :: x in Names(e) ==> (x in ctx <==> x in ctx') && (x in ctx ==> ctx[x] == ctx'[x])
    ensures Eval(e, ctx) == Eval(e, ctx')
  {
    match e
    case Lit(_) =>
    case Ref(_) =>
    case Add(l, r) =>
      EvalFrame(l, ctx, ctx');
      EvalFrame(r, ctx, ctx');
  }
}
