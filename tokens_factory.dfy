/** TemplateTokensFactory: turns the string pieces of a template into tokens. A piece that
    starts with `{{` and ends with `}}` is parsed as a placeholder and its pipe, if any, is
    created by the registry; any other piece is literal text. */
module TemplateTokensFactory {
  import opened Wrappers
  import opened Errors
  import opened Strings
  import opened TemplateParser
  import opened PlaceholderParser
  import opened PipeActivation
  import opened TemplateTokens

  /** IsPlaceholder. */
  predicate IsPlaceholder(t: string) {
    StartsWith(t, "{{") && EndsWith(t, "}}")
  }

  /** The token for parsed placeholder parameters: the pipe, when named, is created by the
      registry from its name and arguments. */
  function TokenFor(act: PipeActivator, parameters: PlaceholderParameters): Result<Token, Error> {
    if parameters.pipe.None? then Success(PlaceholderToken(parameters.parameterName, None))
    else
      var pipe :- CreatePipe(act, parameters.pipe.value.name, parameters.pipe.value.arguments);
      Success(PlaceholderToken(parameters.parameterName, Some(pipe)))
  }

  /** CreatePlaceholderToken: parse, then build the token. */
  function CreatePlaceholderToken(act: PipeActivator, placeholder: string): Result<Token, Error> {
    var parameters :- ParsePlaceholder(placeholder);
    TokenFor(act, parameters)
  }

  /** CreateToken. */
  function CreateToken(act: PipeActivator, t: string): Result<Token, Error> {
    if IsPlaceholder(t) then CreatePlaceholderToken(act, t) else Success(TextToken(t))
  }

  /** `[.. xs.Select(create)]` with a `create` that may throw: evaluated eagerly and in
      order, so the first element that fails fails the whole. */
  function SelectAll<T>(create: string -> Result<T, Error>, xs: seq<string>): Result<seq<T>, Error>
    decreases |xs|
  {
    if xs == [] then Success([])
    else
      var t :- create(xs[0]);
      var rest :- SelectAll(create, xs[1..]);
      Success([t] + rest)
  }

  /** A successful Select gives one result per element, each the element's own, in order. */
  lemma {:induction false} SelectAllSuccess<T>(create: string -> Result<T, Error>, xs: seq<string>)
    requires SelectAll(create, xs).Success?
    ensures var ys := SelectAll(create, xs).value;
      |ys| == |xs| && forall k | 0 <= k < |xs| :: create(xs[k]) == Success(ys[k])
    decreases |xs|
  {
    if xs != [] {
      SelectAllSuccess(create, xs[1..]);
      var ys := SelectAll(create, xs).value;
      assert forall k | 1 <= k < |xs| :: xs[k] == xs[1..][k - 1];
      assert ys[1..] == SelectAll(create, xs[1..]).value;
    }
  }

  /** A failed Select failed at some element, with that element's error, after every
      earlier element succeeded. */
  lemma {:induction false} SelectAllFailure<T>(create: string -> Result<T, Error>, xs: seq<string>) returns (i: nat)
    requires SelectAll(create, xs).Failure?
    ensures i < |xs| && create(xs[i]) == Failure(SelectAll(create, xs).error)
    ensures forall k | 0 <= k < i :: create(xs[k]).Success?
    decreases |xs|
  {
    if create(xs[0]).Failure? {
      i := 0;
    } else {
      var j := SelectAllFailure(create, xs[1..]);
      i := j + 1;
      assert forall k | 1 <= k < |xs| :: xs[k] == xs[1..][k - 1];
    }
  }

  /** Create: `[.. pieces.Select(CreateToken)]`. */
  function CreateTokens(act: PipeActivator, pieces: seq<string>): Result<seq<Token>, Error> {
    SelectAll(t => CreateToken(act, t), pieces)
  }

  /** Token creation maps the pieces one for one and in order; it fails exactly when some
      piece fails, and then with the error of the first such piece. */
  lemma CreateTokensLaws(act: PipeActivator, pieces: seq<string>)
    ensures CreateTokens(act, pieces).Success? <==>
      forall k | 0 <= k < |pieces| :: CreateToken(act, pieces[k]).Success?
    ensures CreateTokens(act, pieces).Success? ==>
      var tokens := CreateTokens(act, pieces).value;
      |tokens| == |pieces| && forall k | 0 <= k < |pieces| :: CreateToken(act, pieces[k]) == Success(tokens[k])
    ensures CreateTokens(act, pieces).Failure? ==>
      exists i | 0 <= i < |pieces| ::
        && CreateToken(act, pieces[i]) == Failure(CreateTokens(act, pieces).error)
        && forall k | 0 <= k < i :: CreateToken(act, pieces[k]).Success?
  {
    var create := t => CreateToken(act, t);
    if CreateTokens(act, pieces).Success? {
      SelectAllSuccess(create, pieces);
    } else {
      var i := SelectAllFailure(create, pieces);
    }
  }

  /** A malformed placeholder fails token creation with InvalidPlaceholder naming it. */
  lemma MalformedPlaceholderFails(act: PipeActivator, t: string)
    requires IsPlaceholder(t) && ParsePlaceholder(t).Failure?
    ensures CreateToken(act, t) == Failure(InvalidPlaceholder(t))
  {
    ParseLaws(t);
  }

  /** On the pieces the tokenizer produces, the factory's prefix-and-suffix test agrees with
      the regex: a piece is treated as a placeholder exactly when it is one lazy match. */
  lemma IsPlaceholderAgreesWithSplit(t: string)
    requires IsLazyMatch(t) || !HasPlaceholder(t)
    ensures IsPlaceholder(t) <==> IsLazyMatch(t)
  {
    if IsLazyMatch(t) {
      assert t[..2] == "{{";
      assert t[|t| - 2..] == "}}";
    } else if IsPlaceholder(t) {
      assert t[..2] == "{{" && t[|t| - 2..] == "}}";
      assert t[0] == '{' && t[1] == '{';
      assert t[|t| - 2] == '}' && t[|t| - 1] == '}';
      assert OpensAt(t, 0) && ClosesAt(t, |t| - 2);
    }
  }

  /** A placeholder written out by Format is one lazy match, so the tokenizer keeps it as
      one piece. */
  lemma FormatIsLazyMatch(pp: PlaceholderParameters)
    requires WellFormed(pp)
    ensures IsLazyMatch(Format(pp))
  {
    var tail := if pp.pipe.None? then "" else "|" + PipeText(pp.pipe.value);
    if pp.pipe.Some? {
      PipeTextAvoids(pp.pipe.value, '}');
      NoCharInConcat("|", PipeText(pp.pipe.value), '}');
    }
    NoCharInConcat(pp.parameterName, tail, '}');
    WrappedIsLazyMatch(pp.parameterName + tail);
    assert Format(pp) == "{{" + (pp.parameterName + tail) + "}}";
  }

  /** A written placeholder becomes the token for the parameters it was written from. */
  lemma CreateTokenOfFormat(act: PipeActivator, pp: PlaceholderParameters)
    requires WellFormed(pp)
    ensures CreateToken(act, Format(pp)) == TokenFor(act, pp)
  {
    FormatIsLazyMatch(pp);
    IsPlaceholderAgreesWithSplit(Format(pp));
    ParseFormat(pp);
  }

  /** A text piece holding no placeholder becomes a text token with that text. */
  lemma CreateTokenOfText(act: PipeActivator, t: string)
    requires !HasPlaceholder(t)
    ensures CreateToken(act, t) == Success(TextToken(t))
  {
    IsPlaceholderAgreesWithSplit(t);
  }
}
