/** The two kinds of template token and the text each contributes when a template is bound:
    literal text as written, or a parameter looked up by name and passed through an
    optional pipe. */
module TemplateTokens {
  import opened Wrappers
  import opened Errors
  import opened Parameters
  import opened Pipes

  datatype Token =
    | TextToken(text: string)
    | PlaceholderToken(parameterName: string, pipe: Option<Pipe>)

  /** ITemplateToken.GetText. A text token returns its literal. A placeholder token looks
      its parameter up by exact name (failing when it is absent), lets the pipe transform
      it (`pipe?.Transform(p) ?? p`: no pipe, or a null result, keeps the parameter), and
      renders the outcome. */
  function TokenText(token: Token, parameters: map<string, Parameter>, rt: Runtime): Result<string, Error> {
    match token
    case TextToken(text) => Success(text)
    case PlaceholderToken(name, pipe) =>
      if name !in parameters then Failure(ParameterNotFound(name))
      else
        var p := parameters[name];
        if pipe.None? then Success(GetText(p, rt.culture))
        else
          var q :- Transform(pipe.value, p, rt);
          Success(GetText(q.GetOr(p), rt.culture))
  }

  /** A placeholder token whose name is not bound fails with ParameterNotFound; once it is
      bound, only the pipe can make the token fail, and a built-in pipe never fails it
      that way. */
  lemma PlaceholderNeedsItsParameter(name: string, pipe: Option<Pipe>, parameters: map<string, Parameter>, rt: Runtime)
    ensures name !in parameters ==> TokenText(PlaceholderToken(name, pipe), parameters, rt) == Failure(ParameterNotFound(name))
    ensures name in parameters && pipe.None? ==> TokenText(PlaceholderToken(name, pipe), parameters, rt).Success?
    ensures name in parameters && pipe.Some? && !pipe.value.UserPipe? ==>
      TokenText(PlaceholderToken(name, pipe), parameters, rt) != Failure(ParameterNotFound(name))
  {
    if name in parameters && pipe.Some? {
      var r := Transform(pipe.value, parameters[name], rt);
      if r.Failure? {
        TransformErrorIsNotLookup(pipe.value, parameters[name], rt, name);
      }
    }
  }

  /** A built-in pipe never fails with ParameterNotFound. */
  lemma TransformErrorIsNotLookup(pipe: Pipe, p: Parameter, rt: Runtime, name: string)
    requires Transform(pipe, p, rt).Failure?
    ensures pipe.UserPipe? || Transform(pipe, p, rt).error != ParameterNotFound(name)
  {
    if !pipe.UserPipe? {
      BuiltInFailureCases(pipe, p, rt);
    }
  }

  /** What a token renders depends on the parameters only through the one its name binds:
      two maps that agree on that name give the same result. */
  lemma TokenTextIsLocal(token: Token, a: map<string, Parameter>, b: map<string, Parameter>, rt: Runtime)
    requires token.PlaceholderToken? ==>
      (token.parameterName in a <==> token.parameterName in b) &&
      (token.parameterName in a ==> a[token.parameterName] == b[token.parameterName])
    ensures TokenText(token, a, rt) == TokenText(token, b, rt)
  {
  }

  /** A pipe that returns null leaves the placeholder rendering the parameter itself, as
      if there were no pipe. */
  lemma NullPipeResultKeepsParameter(name: string, pipe: Pipe, parameters: map<string, Parameter>, rt: Runtime)
    requires name in parameters && Transform(pipe, parameters[name], rt) == Success(None)
    ensures TokenText(PlaceholderToken(name, Some(pipe)), parameters, rt) == TokenText(PlaceholderToken(name, None), parameters, rt)
  {
  }

  /** A built-in pipe applied to a parameter of the wrong variant fails the token with
      WrongParameterType naming that parameter, and one whose format the formatter rejects
      fails it with FormatRejected; otherwise the token renders. */
  lemma BuiltInPipeOutcome(name: string, pipe: Pipe, parameters: map<string, Parameter>, rt: Runtime)
    requires name in parameters && !pipe.UserPipe?
    ensures TokenText(PlaceholderToken(name, Some(pipe)), parameters, rt).Success? <==>
      Accepts(pipe, parameters[name]) && !FormatFails(pipe, parameters[name], rt.culture)
    ensures !Accepts(pipe, parameters[name]) ==>
      var e := TokenText(PlaceholderToken(name, Some(pipe)), parameters, rt).error;
      e.WrongParameterType? && e.parameterName == parameters[name].name
    ensures FormatFails(pipe, parameters[name], rt.culture) ==>
      TokenText(PlaceholderToken(name, Some(pipe)), parameters, rt) == Failure(FormatRejected(pipe.format.value))
  {
    BuiltInFailureCases(pipe, parameters[name], rt);
  }

  /** A bound parameter whose value is null renders as its Name, with no pipe or through a
      built-in pipe that accepts it. */
  lemma NullValueRendersName(name: string, pipe: Option<Pipe>, parameters: map<string, Parameter>, rt: Runtime)
    requires name in parameters && !parameters[name].HasValue()
    requires pipe.Some? ==> Accepts(pipe.value, parameters[name])
    ensures TokenText(PlaceholderToken(name, pipe), parameters, rt) == Success(parameters[name].name)
  {
    if pipe.Some? {
      Pipes.NullValueRendersName(pipe.value, parameters[name], rt);
    }
  }
}
