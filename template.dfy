/** A compiled template: its tokens in order. Binding builds a name-to-parameter map
    (duplicate names are an error) and appends each token's text in order. */
module Templates {
  import opened Wrappers
  import opened Errors
  import opened Parameters
  import opened Pipes
  import opened TemplateTokens

  datatype Template = Template(tokens: seq<Token>)

  // ---------------------------------------------------------------------------------
  // The parameter map: parameters.ToDictionary(x => x.Name).

  /** The remaining parameters added to a partly built map, in order; a name already
      present is the ArgumentException of Dictionary.Add. */
  function AddParameters(m: map<string, Parameter>, ps: seq<Parameter>): Result<map<string, Parameter>, Error>
    decreases |ps|
  {
    if ps == [] then Success(m)
    else if ps[0].name in m then Failure(DuplicateParameter(ps[0].name))
    else AddParameters(m[ps[0].name := ps[0]], ps[1..])
  }

  function ParameterMap(ps: seq<Parameter>): Result<map<string, Parameter>, Error> {
    AddParameters(map[], ps)
  }

  /** ToDictionary's loop. */
  method BuildParameterMap(ps: seq<Parameter>) returns (r: Result<map<string, Parameter>, Error>)
    ensures r == ParameterMap(ps)
  {
    var m: map<string, Parameter> := map[];
    for i := 0 to |ps|
      invariant AddParameters(m, ps[i..]) == ParameterMap(ps)
    {
      assert ps[i..][1..] == ps[i + 1..];
      if ps[i].name in m {
        return Failure(DuplicateParameter(ps[i].name));
      }
      m := m[ps[i].name := ps[i]];
    }
    return Success(m);
  }

  /** No two parameters share a name (names compare exactly). */
  predicate DistinctParameterNames(ps: seq<Parameter>) {
    forall i, j | 0 <= i < j < |ps| :: ps[i].name != ps[j].name
  }

  lemma {:induction false} AddParametersSucceeds(m: map<string, Parameter>, ps: seq<Parameter>)
    ensures AddParameters(m, ps).Success? <==>
      DistinctParameterNames(ps) && forall i | 0 <= i < |ps| :: ps[i].name !in m
    decreases |ps|
  {
    if ps != [] {
      var rest := ps[1..];
      assert forall i | 1 <= i < |ps| :: ps[i] == rest[i - 1];
      var m' := m[ps[0].name := ps[0]];
      AddParametersSucceeds(m', rest);
      if DistinctParameterNames(ps) && forall i | 0 <= i < |ps| :: ps[i].name !in m {
        forall i | 0 <= i < |rest| ensures rest[i].name !in m' {
          assert rest[i] == ps[i + 1];
        }
      }
    }
  }

  lemma {:induction false} AddParametersContents(m: map<string, Parameter>, ps: seq<Parameter>)
    requires AddParameters(m, ps).Success?
    ensures var r := AddParameters(m, ps).value;
      && r.Keys == m.Keys + (set i | 0 <= i < |ps| :: ps[i].name)
      && (forall k | k in m :: r[k] == m[k])
      && (forall i | 0 <= i < |ps| :: r[ps[i].name] == ps[i])
    decreases |ps|
  {
    if ps != [] {
      var rest := ps[1..];
      var m' := m[ps[0].name := ps[0]];
      AddParametersContents(m', rest);
      assert forall i | 1 <= i < |ps| :: ps[i] == rest[i - 1];
      assert (set i | 0 <= i < |ps| :: ps[i].name) == {ps[0].name} + (set i | 0 <= i < |rest| :: rest[i].name);
      AddParametersSucceeds(m', rest);
    }
  }

  /** The map is built exactly when the names are distinct, and then it binds each
      parameter under its own name and nothing else. */
  lemma ParameterMapLaws(ps: seq<Parameter>)
    ensures ParameterMap(ps).Success? <==> DistinctParameterNames(ps)
    ensures ParameterMap(ps).Failure? ==> ParameterMap(ps).error.DuplicateParameter?
    ensures ParameterMap(ps).Success? ==>
      && ParameterMap(ps).value.Keys == (set i | 0 <= i < |ps| :: ps[i].name)
      && forall i | 0 <= i < |ps| :: ParameterMap(ps).value[ps[i].name] == ps[i]
  {
    AddParametersSucceeds(map[], ps);
    if ParameterMap(ps).Success? {
      AddParametersContents(map[], ps);
    } else {
      DuplicateIsTheError(map[], ps);
    }
  }

  lemma {:induction false} DuplicateIsTheError(m: map<string, Parameter>, ps: seq<Parameter>)
    requires AddParameters(m, ps).Failure?
    ensures AddParameters(m, ps).error.DuplicateParameter?
    decreases |ps|
  {
    if ps[0].name !in m {
      DuplicateIsTheError(m[ps[0].name := ps[0]], ps[1..]);
    }
  }

  // ---------------------------------------------------------------------------------
  // Rendering.

  /** The StringBuilder's content after appending the tokens' texts in order; the first
      token that fails stops the binding. */
  function Render(tokens: seq<Token>, parameters: map<string, Parameter>, rt: Runtime): Result<string, Error>
    decreases |tokens|
  {
    if tokens == [] then Success([])
    else
      var init :- Render(tokens[..|tokens| - 1], parameters, rt);
      var last :- TokenText(tokens[|tokens| - 1], parameters, rt);
      Success(init + last)
  }

  /** ITemplate.Bind as a function of the template and the parameter collection. */
  function Bound(template: Template, ps: seq<Parameter>, rt: Runtime): Result<string, Error> {
    var parameters :- ParameterMap(ps);
    Render(template.tokens, parameters, rt)
  }

  /** A failure in a prefix of the tokens is the failure of the whole. */
  lemma {:induction false} RenderFailureSticks(tokens: seq<Token>, parameters: map<string, Parameter>, rt: Runtime, i: nat)
    requires i <= |tokens| && Render(tokens[..i], parameters, rt).Failure?
    ensures Render(tokens, parameters, rt) == Render(tokens[..i], parameters, rt)
    decreases |tokens| - i
  {
    if i < |tokens| {
      assert tokens[..i + 1][..i] == tokens[..i];
      RenderFailureSticks(tokens, parameters, rt, i + 1);
    } else {
      assert tokens[..i] == tokens;
    }
  }

  /** Template.Bind: the dictionary, then the foreach appending each token's text. */
  method Bind(template: Template, ps: seq<Parameter>, rt: Runtime) returns (r: Result<string, Error>)
    ensures r == Bound(template, ps, rt)
  {
    var parameters := BuildParameterMap(ps);
    if parameters.Failure? {
      return Failure(parameters.error);
    }
    var tokens := template.tokens;
    var sb: string := [];
    for i := 0 to |tokens|
      invariant Render(tokens[..i], parameters.value, rt) == Success(sb)
    {
      assert tokens[..i + 1][..i] == tokens[..i];
      var text := TokenText(tokens[i], parameters.value, rt);
      if text.Failure? {
        RenderFailureSticks(tokens, parameters.value, rt, i + 1);
        return Failure(text.error);
      }
      sb := sb + text.value;
    }
    assert tokens[..|tokens|] == tokens;
    return Success(sb);
  }

  /** Rendering is compositional: the text of two token runs side by side is the text of
      the first followed by the text of the second, and the first failure wins. */
  lemma {:induction false} RenderAppend(a: seq<Token>, b: seq<Token>, parameters: map<string, Parameter>, rt: Runtime)
    ensures Render(a + b, parameters, rt) ==
      (match Render(a, parameters, rt)
       case Failure(e) => Failure(e)
       case Success(x) =>
         match Render(b, parameters, rt)
         case Failure(e) => Failure(e)
         case Success(y) => Success(x + y))
    decreases |b|
  {
    if b == [] {
      assert a + b == a;
      if Render(a, parameters, rt).Success? {
        assert Render(a, parameters, rt).value + [] == Render(a, parameters, rt).value;
      }
    } else {
      var b' := b[..|b| - 1];
      assert (a + b)[..|a + b| - 1] == a + b';
      assert (a + b)[|a + b| - 1] == b[|b| - 1];
      RenderAppend(a, b', parameters, rt);
      var ra := Render(a, parameters, rt);
      var rb' := Render(b', parameters, rt);
      var last := TokenText(b[|b| - 1], parameters, rt);
      if ra.Success? && rb'.Success? && last.Success? {
        assert ra.value + (rb'.value + last.value) == (ra.value + rb'.value) + last.value;
      }
    }
  }

  /** One token renders as its own text. */
  lemma RenderSingle(t: Token, parameters: map<string, Parameter>, rt: Runtime)
    ensures Render([t], parameters, rt) == TokenText(t, parameters, rt)
  {
    assert [t][..0] == [];
    if TokenText(t, parameters, rt).Success? {
      assert [] + TokenText(t, parameters, rt).value == TokenText(t, parameters, rt).value;
    }
  }

  /** A token used twice renders twice: a parameter referenced at several places appears
      at each of them. */
  lemma RepeatedTokenRendersEachTime(t: Token, parameters: map<string, Parameter>, rt: Runtime)
    requires TokenText(t, parameters, rt).Success?
    ensures Render([t, t], parameters, rt) == Success(TokenText(t, parameters, rt).value + TokenText(t, parameters, rt).value)
  {
    assert [t, t] == [t] + [t];
    RenderAppend([t], [t], parameters, rt);
    RenderSingle(t, parameters, rt);
  }

  /** Rendering succeeds exactly when every token does. */
  lemma {:induction false} RenderSucceeds(tokens: seq<Token>, parameters: map<string, Parameter>, rt: Runtime)
    ensures Render(tokens, parameters, rt).Success? <==>
      forall k | 0 <= k < |tokens| :: TokenText(tokens[k], parameters, rt).Success?
    decreases |tokens|
  {
    if tokens != [] {
      var init := tokens[..|tokens| - 1];
      RenderSucceeds(init, parameters, rt);
      assert forall k | 0 <= k < |init| :: init[k] == tokens[k];
    }
  }

  /** Rendering depends only on the parameters the placeholders name: maps that agree on
      those names render alike. */
  lemma {:induction false} RenderIsLocal(tokens: seq<Token>, a: map<string, Parameter>, b: map<string, Parameter>, rt: Runtime)
    requires forall k | 0 <= k < |tokens| && tokens[k].PlaceholderToken? ::
      (tokens[k].parameterName in a <==> tokens[k].parameterName in b) &&
      (tokens[k].parameterName in a ==> a[tokens[k].parameterName] == b[tokens[k].parameterName])
    ensures Render(tokens, a, rt) == Render(tokens, b, rt)
    decreases |tokens|
  {
    if tokens != [] {
      var init := tokens[..|tokens| - 1];
      assert forall k | 0 <= k < |init| :: init[k] == tokens[k];
      RenderIsLocal(init, a, b, rt);
      TokenTextIsLocal(tokens[|tokens| - 1], a, b, rt);
    }
  }

  /** The text of a run of literal tokens. */
  function Literals(tokens: seq<Token>): string
    requires forall k | 0 <= k < |tokens| :: tokens[k].TextToken?
    decreases |tokens|
  {
    if tokens == [] then [] else Literals(tokens[..|tokens| - 1]) + tokens[|tokens| - 1].text
  }

  /** A template of literal tokens renders its literals under any parameters. */
  lemma {:induction false} LiteralsRender(tokens: seq<Token>, parameters: map<string, Parameter>, rt: Runtime)
    requires forall k | 0 <= k < |tokens| :: tokens[k].TextToken?
    ensures Render(tokens, parameters, rt) == Success(Literals(tokens))
    decreases |tokens|
  {
    if tokens != [] {
      var init := tokens[..|tokens| - 1];
      assert forall k | 0 <= k < |init| :: init[k] == tokens[k];
      LiteralsRender(init, parameters, rt);
    }
  }

  /** Binding a literal-only template gives its literals whatever the parameters are, as
      long as the dictionary can be built: duplicate names fail even here. */
  lemma LiteralTemplateBinding(template: Template, ps: seq<Parameter>, rt: Runtime)
    requires forall k | 0 <= k < |template.tokens| :: template.tokens[k].TextToken?
    ensures DistinctParameterNames(ps) ==> Bound(template, ps, rt) == Success(Literals(template.tokens))
    ensures !DistinctParameterNames(ps) ==> Bound(template, ps, rt).Failure? && Bound(template, ps, rt).error.DuplicateParameter?
  {
    ParameterMapLaws(ps);
    if ParameterMap(ps).Success? {
      LiteralsRender(template.tokens, ParameterMap(ps).value, rt);
    }
  }

  /** A placeholder whose name no parameter carries makes Bind fail. */
  lemma MissingParameterFailsBind(template: Template, ps: seq<Parameter>, rt: Runtime, k: nat)
    requires k < |template.tokens| && template.tokens[k].PlaceholderToken?
    requires forall i | 0 <= i < |ps| :: ps[i].name != template.tokens[k].parameterName
    ensures Bound(template, ps, rt).Failure?
  {
    ParameterMapLaws(ps);
    if ParameterMap(ps).Success? {
      var parameters := ParameterMap(ps).value;
      var name := template.tokens[k].parameterName;
      assert name !in parameters;
      PlaceholderNeedsItsParameter(name, template.tokens[k].pipe, parameters, rt);
      RenderSucceeds(template.tokens, parameters, rt);
    }
  }

  /** With distinct names, Bind gives what the same tokens render against the map of the
      parameters by name; parameters that no placeholder names do not matter. */
  lemma BindIgnoresUnusedParameters(template: Template, ps: seq<Parameter>, extra: seq<Parameter>, rt: Runtime)
    requires DistinctParameterNames(ps + extra)
    requires forall k, j | 0 <= k < |template.tokens| && 0 <= j < |extra| && template.tokens[k].PlaceholderToken? ::
      template.tokens[k].parameterName != extra[j].name
    ensures Bound(template, ps + extra, rt) == Bound(template, ps, rt)
  {
    var all := ps + extra;
    assert forall i | 0 <= i < |ps| :: all[i] == ps[i];
    assert forall j | 0 <= j < |extra| :: all[|ps| + j] == extra[j];
    ParameterMapLaws(all);
    ParameterMapLaws(ps);
    var a := ParameterMap(all).value;
    var b := ParameterMap(ps).value;
    forall k | 0 <= k < |template.tokens| && template.tokens[k].PlaceholderToken?
      ensures template.tokens[k].parameterName in a <==> template.tokens[k].parameterName in b
      ensures template.tokens[k].parameterName in a ==> a[template.tokens[k].parameterName] == b[template.tokens[k].parameterName]
    {
      var name := template.tokens[k].parameterName;
      if name in a {
        var i :| 0 <= i < |all| && all[i].name == name;
        assert i < |ps|;
        assert a[name] == all[i] == ps[i];
      }
    }
    RenderIsLocal(template.tokens, a, b, rt);
  }
}
