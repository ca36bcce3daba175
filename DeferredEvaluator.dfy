/**
 * processDeferredConfig: every top-level string value that begins with
 * the sentinel `!expression` is replaced by the value of the expression
 * that follows, evaluated with the configuration's own properties as its
 * variables; every other value passes through unchanged. A marker that
 * does not parse or evaluate fails the whole call.
 */
module DeferredEvaluator {
  import opened Wrappers
  import opened ConfigValues
  import opened DeferredExpressions

  const Sentinel: string := "!expression"

  /** A deferred marker: a string value starting with the sentinel. */
  predicate IsDeferred(v: Value)
  {
    v.Str? && Sentinel <= v.s
  }

  /** The expression text that follows the sentinel. */
  function Body(v: Value): string
    requires IsDeferred(v)
  {
    v.s[|Sentinel|..]
  }

  /** Resolves one value in the context of `config`. */
  function Resolve(config: Config, v: Value): (r: Result<Value, EvalError>)
    ensures !IsDeferred(v) ==> r == Ok(v)
    ensures IsDeferred(v) ==> (r.Ok? <==> Parse(Body(v)).Ok? && Eval(Parse(Body(v)).value, config).Ok?)
    ensures IsDeferred(v) && r.Ok? ==> r.value == Num(Eval(Parse(Body(v)).value, config).value)
    ensures r.Ok? ==> !IsDeferred(r.value)
  {
    if IsDeferred(v) then
      var e :- Parse(Body(v));
      var n :- Eval(e, config);
      Ok(Num(n))
    else Ok(v)
  }

  /** The failure of the whole call: the keys whose markers could not be resolved. */
  datatype ProcessError = UnresolvedMarkers(keys: set<string>)

  function ProcessDeferredConfig(config: Config): (r: Result<Config, ProcessError>)
    ensures r.Ok? <==> forall k :: k in config && IsDeferred(config[k]) ==>
      Parse(Body(config[k])).Ok? && Eval(Parse(Body(config[k])).value, config).Ok?
    ensures r.Ok? ==> r.value.Keys == config.Keys
    ensures r.Ok? ==> forall k :: k in config && !IsDeferred(config[k]) ==> r.value[k] == config[k]
    ensures r.Ok? ==> forall k :: k in config && IsDeferred(config[k]) ==>
      r.value[k] == Num(Eval(Parse(Body(config[k])).value, config).value)
    ensures r.Err? ==> r.error.keys != {}
    ensures r.Err? ==> forall k :: k in r.error.keys <==>
      (k in config && IsDeferred(config[k]) &&
       (Parse(Body(config[k])).Err? || Eval(Parse(Body(config[k])).value, config).Err?))
  {
    if forall k :: k in config ==> Resolve(config, config[k]).Ok? then
      Ok(map k | k in config :: Resolve(config, config[k]).value)
    else
      var failed := set k | k in config && Resolve(config, config[k]).Err?;
      assert exists k :: k in failed by {
        var k0 :| k0 in config && Resolve(config, config[k0]).Err?;
        assert k0 in failed;
      }
      Err(UnresolvedMarkers(failed))
  }

  /** A resolved configuration holds no marker, so processing it again changes nothing. */
  lemma ProcessIdempotent(config: Config)
    requires ProcessDeferredConfig(config).Ok?
    ensures ProcessDeferredConfig(ProcessDeferredConfig(config).value) == ProcessDeferredConfig(config)
  {
    var resolved := ProcessDeferredConfig(config).value;
    NoMarkersUnchanged(resolved);
  }

  /** A configuration without markers is returned as it is. */
  lemma NoMarkersUnchanged(config: Config)
    requires forall k :: k in config ==> !IsDeferred(config[k])
    ensures ProcessDeferredConfig(config) == Ok(config)
  {
    assert (map k | k in config :: Resolve(config, config[k]).value) == config;
  }

  /**
   * A marker written as the sentinel followed by the printed form of an
   * expression resolves to that expression's value over the configuration.
   */
  lemma MarkerEvaluates(config: Config, key: string, e: Expr)
    requires WellFormed(e)
    requires key in config && config[key] == Str(Sentinel + Print(e))
    requires Eval(e, config).Ok?
    requires ProcessDeferredConfig(config).Ok?
    ensures ProcessDeferredConfig(config).value[key] == Num(Eval(e, config).value)
  {
    var v := config[key];
    assert IsDeferred(v);
    assert Body(v) == Print(e);
    ParseRoundTrip(e);
  }

  /** A configuration whose only marker holds a printed expression resolves that one key. */
  lemma ResolvesSingleMarker(config: Config, key: string, e: Expr)
    requires WellFormed(e)
    requires key in config && config[key] == Str(Sentinel + Print(e))
    requires Eval(e, config).Ok?
    requires forall k :: k in config && k != key ==> !IsDeferred(config[k])
    ensures ProcessDeferredConfig(config) == Ok(config[key := Num(Eval(e, config).value)])
  {
    assert Body(config[key]) == Print(e);
    ParseRoundTrip(e);
    var r := ProcessDeferredConfig(config);
    assert r.Ok?;
    assert r.value == config[key := Num(Eval(e, config).value)];
  }

  /**
   * `{a: x, b: y, derivedValue: "!expression a + b"}` resolves
   * `derivedValue` to x + y and leaves `a` and `b` as they are; here the
   * property names are any three distinct names.
   */
  lemma SumOfSiblings(config: Config, a: string, b: string, derived: string, x: int, y: int)
    requires IsName(a) && IsName(b) && a != b && derived != a && derived != b
    requires config == map[a := Num(x), b := Num(y), derived := Str(Sentinel + Print(Add(Ref(a), Ref(b))))]
    ensures ProcessDeferredConfig(config) == Ok(map[a := Num(x), b := Num(y), derived := Num(x + y)])
  {
    var e := Add(Ref(a), Ref(b));
    assert Eval(e, config) == Ok(x + y);
    ResolvesSingleMarker(config, derived, e);
    assert config[derived := Num(x + y)] == map[a := Num(x), b := Num(y), derived := Num(x + y)];
  }

  /** The marker text of the sum `a + b` is `"!expression a + b"`. */
  lemma SumMarkerText()
    ensures Sentinel + Print(Add(Ref("a"), Ref("b"))) == "!expression a + b"
  {
    assert ToTokens(Add(Ref("a"), Ref("b"))) == [NameTok("a"), PlusTok, NameTok("b")];
    assert Render([NameTok("b")]) == " b";
    assert Render([PlusTok, NameTok("b")]) == " + b";
  }
}
