/** TemplateFactory: a template string is split into pieces, the pieces become tokens, and
    the tokens make the template. This module also states what a template written from
    literal text and placeholders compiles to and binds to. */
module TemplateFactory {
  import opened Wrappers
  import opened Errors
  import opened Strings
  import opened Parameters
  import opened Pipes
  import opened TemplateParser
  import opened PlaceholderParser
  import opened PipeActivation
  import opened TemplateTokens
  import opened TemplateTokensFactory
  import opened Templates

  /** TemplateFactory.Create as a function of the registry and the template string. */
  function Compile(act: PipeActivator, template: string): Result<Template, Error> {
    var tokens :- CreateTokens(act, Tokenize(template));
    Success(Template(tokens))
  }

  /** TemplateFactory.Create. */
  method Create(act: PipeActivator, template: string) returns (r: Result<Template, Error>)
    ensures r == Compile(act, template)
  {
    var pieces := SplitTokens(template);
    var tokens := CreateTokens(act, pieces);
    if tokens.Failure? {
      return Failure(tokens.error);
    }
    return Success(Template(tokens.value));
  }

  // ---------------------------------------------------------------------------------
  // Templates written from literal text and placeholders.

  /** One part of a template as its author writes it. */
  datatype Segment =
    | Literal(text: string)
    | Hole(placeholder: PlaceholderParameters)

  /** Literal text is non-empty and holds no `{`; a placeholder reads back unchanged; two
      literals never stand side by side (they would be one literal). */
  predicate WellFormedSegments(segments: seq<Segment>) {
    && (forall i | 0 <= i < |segments| :: segments[i].Hole? ==> WellFormed(segments[i].placeholder))
    && (forall i | 0 <= i < |segments| :: segments[i].Literal? ==> segments[i].text != [] && '{' !in segments[i].text)
    && (forall i | 0 <= i < |segments| - 1 :: segments[i].Literal? ==> segments[i + 1].Hole?)
  }

  function SegmentText(segment: Segment): string
    requires segment.Hole? ==> WellFormed(segment.placeholder)
  {
    match segment
    case Literal(text) => text
    case Hole(pp) => Format(pp)
  }

  /** The written text of each segment, in order. */
  function Texts(segments: seq<Segment>): (r: seq<string>)
    requires WellFormedSegments(segments)
    ensures |r| == |segments| && forall i | 0 <= i < |r| :: r[i] == SegmentText(segments[i])
  {
    if segments == [] then []
    else [SegmentText(segments[0])] + Texts(segments[1..])
  }

  /** The tokens the segments stand for: a literal becomes a text token, a placeholder
      the token built from its parameters; the first that fails fails the whole. */
  function Expected(act: PipeActivator, segments: seq<Segment>): Result<seq<Token>, Error>
    decreases |segments|
  {
    if segments == [] then Success([])
    else
      var t :- match segments[0]
        case Literal(text) => Success(TextToken(text))
        case Hole(pp) => TokenFor(act, pp);
      var rest :- Expected(act, segments[1..]);
      Success([t] + rest)
  }

  /** Text without `{` is plain text to the tokenizer and may stand before a placeholder. */
  lemma TextWithoutBrace(t: string)
    requires '{' !in t
    ensures !HasPlaceholder(t) && PrecedesMatch(t) && !IsLazyMatch(t)
  {
    assert forall j | 0 <= j < |t| :: !OpensAt(t, j) by {
      forall j | 0 <= j < |t| ensures !OpensAt(t, j) {
        assert t[j] in t;
      }
    }
    if |t| > 0 {
      assert t[|t| - 1] in t;
    }
  }

  /** The written texts of well-formed segments obey the tokenizer's lexical laws. */
  lemma {:induction false} SegmentsWellTokenized(segments: seq<Segment>)
    requires WellFormedSegments(segments)
    ensures WellTokenized(Texts(segments))
    decreases |segments|
  {
    if segments != [] {
      var rest := segments[1..];
      assert forall i | 0 <= i < |rest| :: rest[i] == segments[i + 1];
      SegmentsWellTokenized(rest);
      var t := SegmentText(segments[0]);
      match segments[0]
      case Literal(text) =>
        TextWithoutBrace(text);
        if rest != [] {
          FormatIsLazyMatch(rest[0].placeholder);
        }
      case Hole(pp) =>
        FormatIsLazyMatch(pp);
      ConsWellTokenized(t, Texts(rest));
      assert Texts(segments) == [t] + Texts(rest);
    }
  }

  /** Turning the written texts into tokens gives the tokens the segments stand for. */
  lemma {:induction false} CreateTokensOfTexts(act: PipeActivator, segments: seq<Segment>)
    requires WellFormedSegments(segments)
    ensures CreateTokens(act, Texts(segments)) == Expected(act, segments)
    decreases |segments|
  {
    if segments != [] {
      var rest := segments[1..];
      assert forall i | 0 <= i < |rest| :: rest[i] == segments[i + 1];
      CreateTokensOfTexts(act, rest);
      match segments[0]
      case Literal(text) =>
        TextWithoutBrace(text);
        CreateTokenOfText(act, text);
      case Hole(pp) =>
        CreateTokenOfFormat(act, pp);
      assert Texts(segments)[1..] == Texts(rest);
    }
  }

  /** The compile round trip: a template written from well-formed literals and placeholders
      compiles to exactly the tokens it was written from. (A blank template compiles to no
      tokens at all, hence the non-blank condition.) */
  lemma CompileWritten(act: PipeActivator, segments: seq<Segment>)
    requires WellFormedSegments(segments) && !IsBlank(Concat(Texts(segments)))
    ensures Compile(act, Concat(Texts(segments))) ==
      (match Expected(act, segments)
       case Failure(e) => Failure(e)
       case Success(tokens) => Success(Template(tokens)))
  {
    SegmentsWellTokenized(segments);
    TokenizeCharacterized(Concat(Texts(segments)), Texts(segments));
    CreateTokensOfTexts(act, segments);
  }

  // ---------------------------------------------------------------------------------
  // Whole-pipeline consequences.

  /** A blank template compiles to no tokens and binds to the empty string. */
  lemma BlankTemplateBindsEmpty(act: PipeActivator, template: string, ps: seq<Parameter>, rt: Runtime)
    requires IsBlank(template) && DistinctParameterNames(ps)
    ensures Compile(act, template) == Success(Template([]))
    ensures Bound(Compile(act, template).value, ps, rt) == Success("")
  {
    ParameterMapLaws(ps);
  }

  /** A non-blank template with no `{{...}}` compiles to one text token and binds to itself. */
  lemma LiteralTemplateBindsItself(act: PipeActivator, template: string, ps: seq<Parameter>, rt: Runtime)
    requires !IsBlank(template) && !HasPlaceholder(template) && DistinctParameterNames(ps)
    ensures Compile(act, template) == Success(Template([TextToken(template)]))
    ensures Bound(Compile(act, template).value, ps, rt) == Success(template)
  {
    TokenizeWithoutPlaceholder(template);
    CreateTokenOfText(act, template);
    assert [template][1..] == [];
    assert CreateTokens(act, []) == Success([]);
    assert [TextToken(template)] + [] == [TextToken(template)];
    assert CreateTokens(act, [template]) == Success([TextToken(template)]);
    LiteralTemplateBinding(Template([TextToken(template)]), ps, rt);
    assert [TextToken(template)][..0] == [];
    assert Literals([TextToken(template)]) == Literals([]) + template;
    assert Literals([TextToken(template)]) == template;
  }

  /** The registry of the three built-in pipes. */
  function BuiltIns(): PipeActivator {
    PipeActivator(map["datetime" := DateTimePipeType, "number" := NumberPipeType, "boolean" := BooleanPipeType])
  }

  lemma NotBlankAt(s: string, i: nat)
    requires i < |s| && s[i] == '{'
    ensures !IsBlank(s)
  {
    assert !IsWhiteSpace(s[i]);
  }

  /** Two written segments side by side. */
  lemma TextsOfPair(x: Segment, y: Segment)
    requires WellFormedSegments([x, y])
    requires x.Hole? ==> WellFormed(x.placeholder)
    requires y.Hole? ==> WellFormed(y.placeholder)
    ensures Concat(Texts([x, y])) == SegmentText(x) + SegmentText(y)
  {
    assert Texts([x, y]) == [SegmentText(x), SegmentText(y)];
    assert Concat([SegmentText(y)]) == SegmentText(y) + [];
  }

  /** A literal followed by a placeholder without a pipe, for example "Hello {{Name}}",
      compiles to a text token and a placeholder token. */
  lemma TextThenPlaceholderCompiles(act: PipeActivator, text: string, name: string)
    requires text != [] && '{' !in text && IsWord(name)
    ensures Compile(act, text + "{{" + name + "}}") ==
      Success(Template([TextToken(text), PlaceholderToken(name, None)]))
  {
    var pp := PlaceholderParameters(name, None);
    var segments := [Literal(text), Hole(pp)];
    assert WellFormedSegments(segments);
    var input := text + "{{" + name + "}}";
    assert Format(pp) == "{{" + name + "}}";
    TextsOfPair(Literal(text), Hole(pp));
    assert Concat(Texts(segments)) == input;
    NotBlankAt(input, |text|);
    CompileWritten(act, segments);
    assert segments[1..] == [Hole(pp)];
    assert [Hole(pp)][1..] == [];
    assert TokenFor(act, pp) == Success(PlaceholderToken(name, None));
    assert [PlaceholderToken(name, None)] + [] == [PlaceholderToken(name, None)];
    assert Expected(act, [Hole(pp)]) == Success([PlaceholderToken(name, None)]);
    assert [TextToken(text)] + [PlaceholderToken(name, None)] == [TextToken(text), PlaceholderToken(name, None)];
  }

  /** Binding such a template with a text parameter under that name, for example Name =
      "World", gives the literal followed by the parameter's text; without the parameter
      it fails naming it. */
  lemma TextThenPlaceholderBinds(act: PipeActivator, text: string, name: string, value: string, rt: Runtime)
    requires text != [] && '{' !in text && IsWord(name)
    ensures Compile(act, text + "{{" + name + "}}").Success?
    ensures Bound(Compile(act, text + "{{" + name + "}}").value, [TextParameter(name, Some(value))], rt)
      == Success(text + value)
    ensures Bound(Compile(act, text + "{{" + name + "}}").value, [], rt) == Failure(ParameterNotFound(name))
  {
    TextThenPlaceholderCompiles(act, text, name);
    var literal, hole := TextToken(text), PlaceholderToken(name, None);
    assert [literal, hole] == [literal] + [hole];
    var parameters := map[name := TextParameter(name, Some(value))];
    var p := TextParameter(name, Some(value));
    assert [p][1..] == [];
    assert AddParameters(parameters, []) == Success(parameters);
    assert AddParameters(map[], [p]) == AddParameters(parameters, []);
    assert ParameterMap([p]) == Success(parameters);
    RenderAppend([literal], [hole], parameters, rt);
    RenderSingle(literal, parameters, rt);
    RenderSingle(hole, parameters, rt);
    RenderAppend([literal], [hole], map[], rt);
    RenderSingle(literal, map[], rt);
    RenderSingle(hole, map[], rt);
  }

  /** A placeholder naming a pipe the registry does not hold, for example "{{Name|upper}}",
      fails compilation with UnknownPipe. */
  lemma UnknownPipeFailsCompile(act: PipeActivator, name: string, pipeName: string)
    requires IsWord(name) && IsWord(pipeName) && pipeName !in act.pipes
    ensures Compile(act, "{{" + name + "|" + pipeName + "}}") == Failure(UnknownPipe(pipeName))
  {
    var pp := PlaceholderParameters(name, Some(PipeParameters(pipeName, [])));
    var input := "{{" + name + "|" + pipeName + "}}";
    assert WellFormedSegments([Hole(pp)]);
    assert Format(pp) == input;
    assert Texts([Hole(pp)]) == [input];
    assert [input][1..] == [];
    assert Concat([input]) == input + [];
    assert input + [] == input;
    NotBlankAt(input, 0);
    CompileWritten(act, [Hole(pp)]);
  }
}
