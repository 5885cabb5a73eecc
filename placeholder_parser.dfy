/** PlaceholderParser: reads `{{Name|pipe:key=value,...}}` into a parameter name and an
    optional pipe with its arguments. */
module PlaceholderParser {
  import opened Wrappers
  import opened Errors
  import opened Strings

  /** One `key=value` argument, in the order written; a null value is `None`. */
  datatype Argument = Argument(key: string, value: Option<string>)

  /** PipeParameters: the pipe name and its arguments. */
  datatype PipeParameters = PipeParameters(name: string, arguments: seq<Argument>)

  /** PlaceholderParameters: the parameter name and the pipe, if one is given. */
  datatype PlaceholderParameters = PlaceholderParameters(parameterName: string, pipe: Option<PipeParameters>)

  /** Trim(), then Replace("{{", ""), then Replace("}}", ""). */
  function StripBraces(p: string): string {
    RemovePairs(RemovePairs(Trim(p), '{'), '}')
  }

  /** Each string trimmed. */
  function TrimAll(xs: seq<string>): seq<string> {
    seq(|xs|, i requires 0 <= i < |xs| => Trim(xs[i]))
  }

  /** The `|`-separated sections of the placeholder, each trimmed. */
  function Sections(p: string): (parts: seq<string>)
    ensures |parts| >= 1
  {
    TrimAll(Split(StripBraces(p), '|'))
  }

  /** Each string split on `=`, all pieces in order: SelectMany(x => x.Split('=')). */
  function SplitEach(xs: seq<string>, sep: char): seq<seq<string>> {
    seq(|xs|, i requires 0 <= i < |xs| => Split(xs[i], sep))
  }

  /** The argument text split on `,`, each piece split on `=`, flattened. */
  function ArgumentPieces(text: string): seq<string> {
    Concat(SplitEach(Split(text, ','), '='))
  }

  /** The pieces consumed as consecutive (key, value) pairs; an odd count reads one past
      the end, which fails. */
  function Pairs(pieces: seq<string>): (r: Option<seq<Argument>>)
    ensures r.Some? <==> |pieces| % 2 == 0
    ensures r.Some? ==> 2 * |r.value| == |pieces|
    ensures r.Some? ==> forall k | 0 <= k < |r.value| :: r.value[k] == Argument(pieces[2 * k], Some(pieces[2 * k + 1]))
  {
    if |pieces| == 0 then Some([])
    else if |pieces| == 1 then None
    else
      match Pairs(pieces[2..])
      case None => None
      case Some(rest) => Some([Argument(pieces[0], Some(pieces[1]))] + rest)
  }

  /** The pairing is determined by the pieces: any arguments laid out pairwise over them
      are the result. */
  lemma PairsOfArguments(pieces: seq<string>, arguments: seq<Argument>)
    requires 2 * |arguments| == |pieces|
    requires forall k | 0 <= k < |arguments| :: arguments[k] == Argument(pieces[2 * k], Some(pieces[2 * k + 1]))
    ensures Pairs(pieces) == Some(arguments)
  {
    assert |pieces| == 2 * |arguments| + 0;
    assert |pieces| % 2 == 0;
    var r := Pairs(pieces).value;
    assert |r| == |arguments|;
    forall k | 0 <= k < |r| ensures r[k] == arguments[k] {
    }
    assert r == arguments;
  }

  /** GetPipeParameters: the pipe name is the text before the first `:`; the arguments
      come from the text between the first and the second `:` alone. */
  function PipeParametersOf(context: string): Option<PipeParameters> {
    var parts := Split(context, ':');
    if |parts| > 1 then
      match Pairs(ArgumentPieces(parts[1]))
      case None => None
      case Some(arguments) => Some(PipeParameters(parts[0], arguments))
    else
      Some(PipeParameters(parts[0], []))
  }

  /** Parse: trim, strip the braces, split on `|` and trim each section; the first
      section is the name and the second, if any, the pipe. */
  function ParsePlaceholder(p: string): Result<PlaceholderParameters, Error> {
    ParseSections(p, Sections(p))
  }

  /** Parse, read off the sections of `p`. */
  function ParseSections(p: string, parts: seq<string>): Result<PlaceholderParameters, Error>
    requires |parts| >= 1
  {
    if IsBlank(parts[0]) then
      Failure(InvalidPlaceholder(p))
    else if |parts| > 1 then
      match PipeParametersOf(parts[1])
      case None => Failure(InvalidPlaceholder(p))
      case Some(pipe) => Success(PlaceholderParameters(parts[0], Some(pipe)))
    else
      Success(PlaceholderParameters(parts[0], None))
  }

  /** Every failure is "Invalid placeholder" with the original text; on success the name
      is non-empty, trimmed and free of `|`, and a pipe is present exactly when a `|`
      survives the brace removal. */
  lemma ParseLaws(p: string)
    ensures ParsePlaceholder(p).Failure? ==> ParsePlaceholder(p).error == InvalidPlaceholder(p)
    ensures ParsePlaceholder(p).Success? ==>
      var name := ParsePlaceholder(p).value.parameterName;
      name != [] && IsTrimmed(name) && '|' !in name
    ensures ParsePlaceholder(p).Success? ==> (ParsePlaceholder(p).value.pipe.Some? <==> '|' in StripBraces(p))
  {
    SectionsLaws(p);
    ParseSectionsLaws(p, Sections(p));
  }

  /** ParseLaws, read off the sections. */
  lemma ParseSectionsLaws(p: string, parts: seq<string>)
    requires |parts| >= 1 && '|' !in parts[0] && IsTrimmed(parts[0])
    requires !IsBlank(parts[0]) ==> parts[0] != []
    ensures ParseSections(p, parts).Failure? ==> ParseSections(p, parts).error == InvalidPlaceholder(p)
    ensures ParseSections(p, parts).Success? ==>
      var name := ParseSections(p, parts).value.parameterName;
      name != [] && IsTrimmed(name) && '|' !in name
    ensures ParseSections(p, parts).Success? ==> (ParseSections(p, parts).value.pipe.Some? <==> |parts| > 1)
  {
  }

  /** Trim only removes characters. */
  lemma TrimKeeps(s: string, c: char)
    requires c !in s
    ensures c !in Trim(s)
  {
    var t := TrimStart(s);
    SuffixKeeps(s, |s| - |t|, c);
    var u := TrimEnd(t);
    PrefixKeeps(t, |u|, c);
    assert Trim(s) == u;
  }

  lemma SuffixKeeps(s: string, k: nat, c: char)
    requires k <= |s| && c !in s
    ensures c !in s[k..]
  {
    forall i | 0 <= i < |s| - k ensures s[k..][i] != c {
      assert s[k..][i] == s[k + i];
    }
  }

  lemma PrefixKeeps(s: string, k: nat, c: char)
    requires k <= |s| && c !in s
    ensures c !in s[..k]
  {
    forall i | 0 <= i < k ensures s[..k][i] != c {
      assert s[..k][i] == s[i];
    }
  }

  lemma SectionsLaws(p: string)
    ensures '|' !in Sections(p)[0] && IsTrimmed(Sections(p)[0])
    ensures !IsBlank(Sections(p)[0]) ==> Sections(p)[0] != []
    ensures |Sections(p)| > 1 <==> '|' in StripBraces(p)
  {
    var s := StripBraces(p);
    var parts := Split(s, '|');
    TrimmedSectionsLaws(parts);
    if '|' !in s {
      SplitNone(s, '|');
    } else {
      SplitFindsSep(s, '|');
    }
  }

  /** Trimming keeps the number of sections, and the first section stays free of `|`. */
  lemma TrimmedSectionsLaws(parts: seq<string>)
    requires |parts| >= 1 && '|' !in parts[0]
    ensures var r := TrimAll(parts);
      && |r| == |parts|
      && '|' !in r[0] && IsTrimmed(r[0])
      && (!IsBlank(r[0]) ==> r[0] != [])
  {
    TrimKeeps(parts[0], '|');
  }

  /** The loop of GetPipeParameters: Add(pieces[i], pieces[i + 1]) for i = 0, 2, 4, ...;
      reading past the end on an odd count fails. */
  method AddPairs(pieces: seq<string>) returns (r: Option<seq<Argument>>)
    ensures r == Pairs(pieces)
  {
    var parameters: seq<Argument> := [];
    var i := 0;
    while i < |pieces|
      invariant i == 2 * |parameters| <= |pieces|
      invariant forall k | 0 <= k < |parameters| :: parameters[k] == Argument(pieces[2 * k], Some(pieces[2 * k + 1]))
    {
      if i + 1 >= |pieces| {
        assert |pieces| == 2 * |parameters| + 1;
        return None;
      }
      parameters := parameters + [Argument(pieces[i], Some(pieces[i + 1]))];
      i := i + 2;
    }
    PairsOfArguments(pieces, parameters);
    return Some(parameters);
  }

  /** GetPipeParameters: split on `:`, then read the argument pairs. */
  method GetPipeParameters(context: string) returns (r: Option<PipeParameters>)
    ensures r == PipeParametersOf(context)
  {
    var parts := Split(context, ':');
    var pipeName := parts[0];
    var parameters: seq<Argument> := [];
    if |parts| > 1 {
      var pairs := AddPairs(ArgumentPieces(parts[1]));
      if pairs.None? {
        return None;
      }
      parameters := pairs.value;
    }
    return Some(PipeParameters(pipeName, parameters));
  }

  /** Parse, calling GetPipeParameters for the second section. */
  method Parse(p: string) returns (r: Result<PlaceholderParameters, Error>)
    ensures r == ParsePlaceholder(p)
  {
    r := ReadSections(p, Sections(p));
  }

  /** The body of Parse once the sections are split off. */
  method ReadSections(p: string, parts: seq<string>) returns (r: Result<PlaceholderParameters, Error>)
    requires |parts| >= 1
    ensures r == ParseSections(p, parts)
  {
    if IsBlank(parts[0]) {
      return Failure(InvalidPlaceholder(p));
    }
    var pipe: Option<PipeParameters> := None;
    if |parts| > 1 {
      pipe := GetPipeParameters(parts[1]);
      if pipe.None? {
        return Failure(InvalidPlaceholder(p));
      }
    }
    return Success(PlaceholderParameters(parts[0], pipe));
  }

  // ---------------------------------------------------------------------------------
  // The written form of a placeholder, and the round trip through Parse.

  /** A name, key or value that reads back unchanged: non-empty, trimmed, and free of the
      characters the parser splits or strips on. */
  predicate IsWord(s: string) {
    && s != []
    && IsTrimmed(s)
    && '{' !in s && '}' !in s && '|' !in s && ':' !in s && ',' !in s && '=' !in s
  }

  predicate WellFormedPipe(pipe: PipeParameters) {
    && IsWord(pipe.name)
    && forall k | 0 <= k < |pipe.arguments| ::
         IsWord(pipe.arguments[k].key) && pipe.arguments[k].value.Some? && IsWord(pipe.arguments[k].value.value)
  }

  predicate WellFormed(pp: PlaceholderParameters) {
    IsWord(pp.parameterName) && (pp.pipe.Some? ==> WellFormedPipe(pp.pipe.value))
  }

  function ArgumentText(a: Argument): string
    requires a.value.Some?
  {
    a.key + "=" + a.value.value
  }

  /** `key=value,key=value`. */
  function ArgumentsText(arguments: seq<Argument>): string
    requires |arguments| >= 1 && forall k | 0 <= k < |arguments| :: arguments[k].value.Some?
  {
    Join(seq(|arguments|, k requires 0 <= k < |arguments| => ArgumentText(arguments[k])), ',')
  }

  /** `pipe` or `pipe:key=value,...`. */
  function PipeText(pipe: PipeParameters): string
    requires WellFormedPipe(pipe)
  {
    if pipe.arguments == [] then pipe.name else pipe.name + ":" + ArgumentsText(pipe.arguments)
  }

  /** The placeholder as it is written in a template. */
  function Format(pp: PlaceholderParameters): string
    requires WellFormed(pp)
  {
    "{{" + pp.parameterName + (if pp.pipe.None? then "" else "|" + PipeText(pp.pipe.value)) + "}}"
  }

  /** The pieces of written arguments. */
  function Flatten(arguments: seq<Argument>): seq<string>
    requires forall k | 0 <= k < |arguments| :: arguments[k].value.Some?
  {
    if arguments == [] then [] else [arguments[0].key, arguments[0].value.value] + Flatten(arguments[1..])
  }

  /** Pairing the flattened pieces gives the arguments back. */
  lemma {:induction false} PairsFlatten(arguments: seq<Argument>)
    requires forall k | 0 <= k < |arguments| :: arguments[k].value.Some?
    ensures Pairs(Flatten(arguments)) == Some(arguments)
  {
    if arguments != [] {
      PairsFlatten(arguments[1..]);
      assert Flatten(arguments)[2..] == Flatten(arguments[1..]);
      assert [arguments[0]] + arguments[1..] == arguments;
    }
  }

  lemma NoCharInConcat(a: string, b: string, c: char)
    requires c !in a && c !in b
    ensures c !in a + b
  {
  }

  lemma RemovePairsLeading(b: string, c: char)
    ensures RemovePairs([c, c] + b, c) == RemovePairs(b, c)
  {
    assert PairAt([c, c] + b, 0, c);
    assert ([c, c] + b)[2..] == b;
  }

  lemma RemovePairsAbsent(b: string, c: char)
    requires c !in b
    ensures RemovePairs(b, c) == b
  {
    RemovePairsSkips(b, [], c);
    assert b + [] == b;
  }

  lemma TrimWrapped(body: string)
    ensures Trim("{{" + body + "}}") == "{{" + body + "}}"
  {
    var s := "{{" + body + "}}";
    assert s[0] == '{' && s[|s| - 1] == '}';
    TrimmedIsFixed(s);
  }

  lemma RemoveOpeningPair(body: string)
    requires '{' !in body
    ensures RemovePairs("{{" + body + "}}", '{') == body + "}}"
  {
    var rest := body + "}}";
    assert "{{" + body + "}}" == ['{', '{'] + rest;
    RemovePairsLeading(rest, '{');
    RemovePairsAbsent(rest, '{');
  }

  lemma RemoveClosingPair(body: string)
    requires '}' !in body
    ensures RemovePairs(body + "}}", '}') == body
  {
    RemovePairsSkips(body, "}}", '}');
    RemovePairsLeading([], '}');
    assert "}}" == ['}', '}'] + [];
    assert body + [] == body;
  }

  /** Removing the braces of `{{body}}` leaves the body. */
  lemma StripBracesOfWrapped(body: string)
    requires '{' !in body && '}' !in body
    ensures StripBraces("{{" + body + "}}") == body
  {
    TrimWrapped(body);
    RemoveOpeningPair(body);
    RemoveClosingPair(body);
  }

  /** `key=value` splits on `=` into key and value. */
  lemma SplitArgument(a: Argument)
    requires a.value.Some? && IsWord(a.key) && IsWord(a.value.value)
    ensures Split(ArgumentText(a), '=') == [a.key, a.value.value]
  {
    SplitAfter(a.key, a.value.value, '=');
    SplitNone(a.value.value, '=');
  }

  lemma {:induction false} ArgumentPiecesOfText(arguments: seq<Argument>)
    requires |arguments| >= 1
    requires forall k | 0 <= k < |arguments| ::
      IsWord(arguments[k].key) && arguments[k].value.Some? && IsWord(arguments[k].value.value)
    ensures ArgumentPieces(ArgumentsText(arguments)) == Flatten(arguments)
  {
    var texts := seq(|arguments|, k requires 0 <= k < |arguments| => ArgumentText(arguments[k]));
    forall k | 0 <= k < |texts| ensures ',' !in texts[k] {
      NoCharInConcat(arguments[k].key, "=", ',');
      NoCharInConcat(arguments[k].key + "=", arguments[k].value.value, ',');
    }
    SplitJoin(texts, ',');
    ConcatOfSplitArguments(arguments, texts);
  }

  lemma {:induction false} ConcatOfSplitArguments(arguments: seq<Argument>, texts: seq<string>)
    requires forall k | 0 <= k < |arguments| ::
      IsWord(arguments[k].key) && arguments[k].value.Some? && IsWord(arguments[k].value.value)
    requires |texts| == |arguments| && forall k | 0 <= k < |texts| :: texts[k] == ArgumentText(arguments[k])
    ensures Concat(SplitEach(texts, '=')) == Flatten(arguments)
  {
    if arguments != [] {
      SplitArgument(arguments[0]);
      ConcatOfSplitArguments(arguments[1..], texts[1..]);
      assert SplitEach(texts, '=')[1..] == SplitEach(texts[1..], '=');
    }
  }

  /** The last character of joined parts is the last character of the last part. */
  lemma {:induction false} JoinEndsWith(parts: seq<string>, sep: char)
    requires |parts| >= 1 && parts[|parts| - 1] != []
    ensures var j := Join(parts, sep); j != [] && j[|j| - 1] == parts[|parts| - 1][|parts[|parts| - 1]| - 1]
  {
    if |parts| > 1 {
      JoinEndsWith(parts[1..], sep);
    }
  }

  /** The written arguments avoid `c` when no key or value holds it. */
  lemma ArgumentsTextAvoids(arguments: seq<Argument>, c: char)
    requires |arguments| >= 1 && c != ',' && c != '='
    requires forall k | 0 <= k < |arguments| ::
      arguments[k].value.Some? && c !in arguments[k].key && c !in arguments[k].value.value
    ensures c !in ArgumentsText(arguments)
  {
    var texts := seq(|arguments|, k requires 0 <= k < |arguments| => ArgumentText(arguments[k]));
    forall k | 0 <= k < |texts| ensures c !in texts[k] {
      assert texts[k] == arguments[k].key + "=" + arguments[k].value.value;
    }
    JoinAvoids(texts, ',', c);
  }

  /** The written arguments end with the last value. */
  lemma ArgumentsTextEnds(arguments: seq<Argument>)
    requires |arguments| >= 1 && forall k | 0 <= k < |arguments| :: arguments[k].value.Some?
    requires arguments[|arguments| - 1].value.value != []
    ensures var t, v := ArgumentsText(arguments), arguments[|arguments| - 1].value.value;
      t != [] && t[|t| - 1] == v[|v| - 1]
  {
    var texts := seq(|arguments|, k requires 0 <= k < |arguments| => ArgumentText(arguments[k]));
    JoinEndsWith(texts, ',');
  }

  lemma PipeTextAvoids(pipe: PipeParameters, c: char)
    requires WellFormedPipe(pipe) && c in "{}|"
    ensures c !in PipeText(pipe)
  {
    if pipe.arguments != [] {
      ArgumentsTextAvoids(pipe.arguments, c);
      NoCharInConcat(pipe.name, ":", c);
      NoCharInConcat(pipe.name + ":", ArgumentsText(pipe.arguments), c);
    }
  }

  lemma PipeTextTrimmed(pipe: PipeParameters)
    requires WellFormedPipe(pipe)
    ensures IsTrimmed(PipeText(pipe))
  {
    if pipe.arguments != [] {
      var text := ArgumentsText(pipe.arguments);
      ArgumentsTextEnds(pipe.arguments);
      var t := PipeText(pipe);
      assert t == pipe.name + ":" + text;
      assert t[|t| - 1] == text[|text| - 1];
    }
  }

  /** Reading a well-formed pipe's written form gives it back. */
  lemma PipeParametersOfText(pipe: PipeParameters)
    requires WellFormedPipe(pipe)
    ensures PipeParametersOf(PipeText(pipe)) == Some(pipe)
  {
    var args := pipe.arguments;
    if args == [] {
      SplitNone(pipe.name, ':');
    } else {
      var text := ArgumentsText(args);
      ArgumentsTextAvoids(args, ':');
      SplitAfter(pipe.name, text, ':');
      SplitNone(text, ':');
      assert Split(PipeText(pipe), ':') == [pipe.name, text];
      ArgumentPiecesOfText(args);
      PairsFlatten(args);
    }
  }

  /** A character in no part, other than the separator, is not in the joined string. */
  lemma {:induction false} JoinAvoids(parts: seq<string>, sep: char, c: char)
    requires |parts| >= 1 && c != sep && forall k | 0 <= k < |parts| :: c !in parts[k]
    ensures c !in Join(parts, sep)
  {
    if |parts| > 1 {
      JoinAvoids(parts[1..], sep, c);
    }
  }

  lemma SectionsOfWrapped(body: string)
    requires '{' !in body && '}' !in body
    ensures Sections("{{" + body + "}}") == TrimAll(Split(body, '|'))
  {
    StripBracesOfWrapped(body);
  }

  /** ParsePlaceholder read off the sections of a placeholder with a non-blank name. */
  lemma ParseOfSections(p: string, name: string, t: string)
    requires name != [] && !IsWhiteSpace(name[0])
    ensures Sections(p) == [name] ==> ParsePlaceholder(p) == Success(PlaceholderParameters(name, None))
    ensures Sections(p) == [name, t] && PipeParametersOf(t).Some? ==>
      ParsePlaceholder(p) == Success(PlaceholderParameters(name, PipeParametersOf(t)))
  {
    assert !IsBlank(name);
  }

  lemma ParseFormatWithoutPipe(name: string)
    requires IsWord(name)
    ensures ParsePlaceholder(Format(PlaceholderParameters(name, None))) == Success(PlaceholderParameters(name, None))
  {
    var p := Format(PlaceholderParameters(name, None));
    assert p == "{{" + name + "}}";
    SectionsOfWrapped(name);
    SplitNone(name, '|');
    TrimmedIsFixed(name);
    assert Sections(p) == [name];
    ParseOfSections(p, name, []);
  }

  lemma TrimAllTrimmed(a: string, b: string)
    requires IsTrimmed(a) && IsTrimmed(b)
    ensures TrimAll([a, b]) == [a, b]
  {
    assert [a, b][1..] == [b];
    assert TrimAll([b]) == [Trim(b)];
    TrimmedIsFixed(a);
    TrimmedIsFixed(b);
  }

  lemma SplitTwo(a: string, b: string, sep: char)
    requires sep !in a && sep !in b
    ensures Split(a + [sep] + b, sep) == [a, b]
  {
    SplitAfter(a, b, sep);
    SplitNone(b, sep);
  }

  /** `{{name|text}}` has the sections name and text. */
  lemma SectionsOfNameAndPipe(name: string, t: string)
    requires IsWord(name) && IsTrimmed(t) && '{' !in t && '}' !in t && '|' !in t
    ensures Sections("{{" + name + "|" + t + "}}") == [name, t]
  {
    var body := name + "|" + t;
    assert "{{" + name + "|" + t + "}}" == "{{" + body + "}}";
    NoCharInConcat(name + "|", t, '{');
    NoCharInConcat(name + "|", t, '}');
    SectionsOfWrapped(body);
    SplitTwo(name, t, '|');
    TrimAllTrimmed(name, t);
  }

  lemma ParseFormatWithPipe(name: string, pipe: PipeParameters)
    requires IsWord(name) && WellFormedPipe(pipe)
    ensures ParsePlaceholder(Format(PlaceholderParameters(name, Some(pipe)))) == Success(PlaceholderParameters(name, Some(pipe)))
  {
    var p := Format(PlaceholderParameters(name, Some(pipe)));
    var t := PipeText(pipe);
    PipeTextAvoids(pipe, '{');
    PipeTextAvoids(pipe, '}');
    PipeTextAvoids(pipe, '|');
    PipeTextTrimmed(pipe);
    assert p == "{{" + name + "|" + t + "}}";
    SectionsOfNameAndPipe(name, t);
    PipeParametersOfText(pipe);
    ParseOfSections(p, name, t);
  }

  /** Parsing a well-formed placeholder's written form gives it back. */
  lemma ParseFormat(pp: PlaceholderParameters)
    requires WellFormed(pp)
    ensures ParsePlaceholder(Format(pp)) == Success(pp)
  {
    if pp.pipe.None? {
      ParseFormatWithoutPipe(pp.parameterName);
    } else {
      ParseFormatWithPipe(pp.parameterName, pp.pipe.value);
    }
  }

  // ---------------------------------------------------------------------------------
  // What the parser ignores.

  /** Text with no braces at all parses as a bare name, as `{{Name}}` does: the braces are
      removed wherever they are, not required. */
  lemma ParseBareWord(name: string)
    requires IsWord(name)
    ensures ParsePlaceholder(name) == Success(PlaceholderParameters(name, None))
  {
    TrimmedIsFixed(name);
    RemovePairsAbsent(name, '{');
    RemovePairsAbsent(name, '}');
    assert StripBraces(name) == name;
    SplitNone(name, '|');
    assert Sections(name) == [name];
    ParseOfSections(name, name, []);
  }

  /** Blank padding around a word adds no brace and no `|`. */
  lemma PaddedWordAvoids(ws1: string, name: string, ws2: string)
    requires IsBlank(ws1) && IsBlank(ws2) && IsWord(name)
    ensures var body := ws1 + name + ws2; '{' !in body && '}' !in body && '|' !in body
  {
    BlankAvoids(ws1, '{');
    BlankAvoids(ws2, '{');
    BlankAvoids(ws1, '}');
    BlankAvoids(ws2, '}');
    BlankAvoids(ws1, '|');
    BlankAvoids(ws2, '|');
  }

  /** A single section, trimmed. */
  lemma SectionsOfSingle(body: string)
    requires '{' !in body && '}' !in body && '|' !in body
    ensures Sections("{{" + body + "}}") == [Trim(body)]
  {
    SectionsOfWrapped(body);
    SplitNone(body, '|');
    TrimAllSingle(body);
  }

  lemma TrimAllSingle(x: string)
    ensures TrimAll([x]) == [Trim(x)]
  {
  }

  /** White space around the name inside the braces is ignored: `{{  Name  }}` parses
      like `{{Name}}`. */
  lemma ParsePaddedName(ws1: string, name: string, ws2: string)
    requires IsBlank(ws1) && IsBlank(ws2) && IsWord(name)
    ensures ParsePlaceholder("{{" + ws1 + name + ws2 + "}}") == Success(PlaceholderParameters(name, None))
  {
    var body := ws1 + name + ws2;
    var p := "{{" + body + "}}";
    assert "{{" + ws1 + name + ws2 + "}}" == p;
    PaddedWordAvoids(ws1, name, ws2);
    SectionsOfSingle(body);
    TrimPadded(ws1, name, ws2);
    ParseOfSections(p, name, []);
  }

  lemma BlankAvoids(ws: string, c: char)
    requires IsBlank(ws) && !IsWhiteSpace(c)
    ensures c !in ws
  {
  }

  lemma SplitThree(a: string, b: string, c: string, sep: char)
    requires sep !in a && sep !in b
    ensures Split(a + [sep] + b + [sep] + c, sep) == [a, b] + Split(c, sep)
  {
    var x := b + [sep] + c;
    assert a + [sep] + b + [sep] + c == a + [sep] + x;
    SplitAfter(a, x, sep);
    SplitAfter(b, c, sep);
    var rest := Split(c, sep);
    assert [a] + ([b] + rest) == [a, b] + rest;
  }

  /** The sections of `{{body}}` are those of its `|`-separated parts. */
  lemma SectionsOfParts(body: string, parts: seq<string>)
    requires '{' !in body && '}' !in body && Split(body, '|') == parts
    ensures Sections("{{" + body + "}}") == TrimAll(parts)
  {
    SectionsOfWrapped(body);
  }

  /** The sections of `{{name|t|extra}}` start with name and t. */
  lemma SectionsOfThree(name: string, t: string, extra: string)
    requires IsWord(name) && IsTrimmed(t) && '{' !in t && '}' !in t && '|' !in t
    requires '{' !in extra && '}' !in extra
    ensures var sections := Sections("{{" + name + "|" + t + "|" + extra + "}}");
      |sections| > 2 && sections[0] == name && sections[1] == t
  {
    var body := name + ['|'] + t + ['|'] + extra;
    ThreeSectionBody(name, t, extra);
    SplitThree(name, t, extra, '|');
    var parts := [name, t] + Split(extra, '|');
    SectionsOfParts(body, parts);
    TrimAllOfTwoFirst(name, t, Split(extra, '|'));
  }

  /** Trimming leaves two trimmed leading sections as they are. */
  lemma TrimAllOfTwoFirst(name: string, t: string, rest: seq<string>)
    requires IsWord(name) && IsTrimmed(t) && |rest| >= 1
    ensures var r := TrimAll([name, t] + rest); |r| > 2 && r[0] == name && r[1] == t
  {
    var xs := [name, t] + rest;
    assert |xs| > 2 && xs[0] == name && xs[1] == t;
    var r := TrimAll(xs);
    TrimmedIsFixed(name);
    TrimmedIsFixed(t);
    assert r[0] == Trim(name) && r[1] == Trim(t);
  }

  lemma ThreeSectionBody(name: string, t: string, extra: string)
    requires '{' !in name && '}' !in name && '{' !in t && '}' !in t && '{' !in extra && '}' !in extra
    ensures var body := name + ['|'] + t + ['|'] + extra;
      && "{{" + name + "|" + t + "|" + extra + "}}" == "{{" + body + "}}"
      && '{' !in body && '}' !in body
  {
    var body := name + ['|'] + t + ['|'] + extra;
    assert "{{" + name + "|" + t + "|" + extra + "}}" == "{{" + body + "}}";
  }

  /** ParsePlaceholder read off the first two sections when there are several. */
  lemma ParseOfFirstSections(p: string, name: string, t: string)
    requires IsWord(name) && |Sections(p)| > 1 && Sections(p)[0] == name && Sections(p)[1] == t
    ensures PipeParametersOf(t).None? ==> ParsePlaceholder(p) == Failure(InvalidPlaceholder(p))
    ensures PipeParametersOf(t).Some? ==> ParsePlaceholder(p) == Success(PlaceholderParameters(name, PipeParametersOf(t)))
  {
    ParseSectionsOfTwo(p, Sections(p), name, t);
  }

  lemma ParseSectionsOfTwo(p: string, parts: seq<string>, name: string, t: string)
    requires IsWord(name) && |parts| > 1 && parts[0] == name && parts[1] == t
    ensures PipeParametersOf(t).None? ==> ParseSections(p, parts) == Failure(InvalidPlaceholder(p))
    ensures PipeParametersOf(t).Some? ==> ParseSections(p, parts) == Success(PlaceholderParameters(name, PipeParametersOf(t)))
  {
    assert !IsWhiteSpace(name[0]);
  }

  /** Only the first two `|` sections count: whatever follows a second `|` is ignored. */
  lemma ParseIgnoresLaterSections(name: string, t: string, extra: string)
    requires IsWord(name) && IsTrimmed(t) && '{' !in t && '}' !in t && '|' !in t
    requires '{' !in extra && '}' !in extra
    ensures var long, short := "{{" + name + "|" + t + "|" + extra + "}}", "{{" + name + "|" + t + "}}";
      && (ParsePlaceholder(long).Success? <==> ParsePlaceholder(short).Success?)
      && (ParsePlaceholder(long).Success? ==> ParsePlaceholder(long).value == ParsePlaceholder(short).value)
  {
    var long, short := "{{" + name + "|" + t + "|" + extra + "}}", "{{" + name + "|" + t + "}}";
    SectionsOfThree(name, t, extra);
    SectionsOfNameAndPipe(name, t);
    ParseOfFirstSections(long, name, t);
    ParseOfFirstSections(short, name, t);
  }

  /** The pipe name is the text before the first `:` and the arguments come from the text
      between the first and the second `:` alone; anything after a second `:` is ignored. */
  lemma PipeIgnoresLaterColons(pipeName: string, arguments: string, extra: string)
    requires ':' !in pipeName && ':' !in arguments
    ensures PipeParametersOf(pipeName + ":" + arguments + ":" + extra) == PipeParametersOf(pipeName + ":" + arguments)
    ensures PipeParametersOf(pipeName + ":" + arguments).Some? ==> PipeParametersOf(pipeName + ":" + arguments).value.name == pipeName
  {
    var long := pipeName + ":" + arguments + ":" + extra;
    assert long == pipeName + [':'] + (arguments + [':'] + extra);
    SplitAfter(pipeName, arguments + [':'] + extra, ':');
    SplitAfter(arguments, extra, ':');
    var short := pipeName + ":" + arguments;
    assert short == pipeName + [':'] + arguments;
    SplitAfter(pipeName, arguments, ':');
    SplitNone(arguments, ':');
  }

  /** A pipe section without `:` is a pipe name with no arguments. */
  lemma PipeWithoutColon(context: string)
    requires ':' !in context
    ensures PipeParametersOf(context) == Some(PipeParameters(context, []))
  {
    SplitNone(context, ':');
  }
}
