# TemplateBinder template pipeline in Dafny

This project models the current TemplateBinder pipeline. A template string holding
`{{Name|pipe:key=value,...}}` placeholders is compiled into an immutable list of tokens. The
list is then bound against named, typed parameters to produce text. The steps are:

- **TemplateParser** (`template_parser.dfy`). It splits the string with the lazy,
  single-line regex `({{.*?}})`. The captured placeholders are kept and empty pieces
  are dropped. A blank input gives no pieces. The regex is modelled as a direct scan for
  the leftmost `{{` and the first `}}` after it. `SplitTokens` is the filtering loop, proved
  equal to the scan.
- **PlaceholderParser** (`placeholder_parser.dfy`). `Parse` trims the text, removes every
  `{{` and `}}`, splits on `|` and trims each section. The first section is the name. The
  second, if present, is the pipe text: it is split on `:`, its argument text on `,` and
  then `=`, and the pieces are read as key/value pairs. `GetPipeParameters` is the
  `i += 2` loop. Every failure is "Invalid placeholder".
- **PipeActivator** (`pipe_activator.dfy`, `pipe_types.dfy`). Registration builds the
  name-to-type map with fail-fast checks. `Create` finds the type by exact name. It
  requires exactly one constructor. It resolves each constructor parameter, in position
  order, from the first argument whose key equals the parameter name ignoring case. A
  parameter no argument matches gets its type's default value. Reflection is replaced by
  a descriptor per type: its PipeName tag, whether it implements IPipe, and its
  constructors with their parameters.
- **TemplateTokensFactory and TemplateFactory** (`tokens_factory.dfy`,
  `template_factory.dfy`). A piece that starts with `{{` and ends with `}}` becomes a
  placeholder token, with its pipe created by the registry. Any other piece becomes a text
  token. The template factory composes the tokenizer and the token factory.
- **Template and tokens** (`template.dfy`, `tokens.dfy`). `Bind` builds the parameter
  dictionary; a duplicate name is an error. It then appends each token's text in order.
  A placeholder token looks its parameter up by exact name. It passes the parameter
  through its pipe, keeps the parameter when the pipe returns null, and renders the
  result.
- **Parameters and built-in pipes** (`parameters.dfy`, `pipes.dfy`, `formatting.dfy`).
  There are four parameter variants. A null value renders as the parameter's Name. The
  boolean, datetime and number pipes reject other variants. The datetime and number
  pipes also fail when the formatter rejects their format string. On success they return a text
  parameter carrying the input's Name.

Exceptions become `Result` failures, one `Errors.Error` constructor per throw site. C#
`null` becomes `Option.None`. .NET decimal and DateTime formatting is an uninterpreted
function in a `Culture` value. The Transform of pipe types outside the library is a
function in a `Runtime` value. Both are parameters of the model. Every loop in the
source is a method with loop invariants, proved equal to a specification function. The
lemmas are stated about those functions.

Behaviour of the source worth noting:

- Two parameters with the same Name make `Bind` fail, because the dictionary is built
  with `ToDictionary` (`TemplateBinder/Templates/Template.cs:45`). Later parameters do
  not overwrite earlier ones.
- The one-constructor check runs when a pipe is created, not at registration
  (`TemplateBinder/Services/PipeActivator.cs:56`, `:90-93`). A type with two
  constructors registers fine, and every `Create` for it fails.
- A `:` inside an argument value truncates the arguments. The pipe text is split on every
  `:` and only the text between the first and second `:` is read. This is modelled as
  written (`PlaceholderParser.PipeIgnoresLaterColons`).

## Model

| member | source | states |
|---|---|---|
| TemplateParser.NextMatchIsLeftmostLazy | TemplateBinder/Services/TemplateParser.cs:23 | The scan finds no match exactly when no `{{` is followed by a `}}`. Otherwise it returns one lazy match (it opens with `{{`, closes with the first `}}` after that), with no `{{` anywhere before it. |
| TemplateParser.SplitTokens | TemplateBinder/Services/TemplateParser.cs:30-43 | The loop that keeps the non-empty parts of the split returns exactly the specified tokenization, which is empty for blank input. |
| TemplateParser.TokenizeRoundTrip | TemplateBinder/Services/TemplateParser.cs:35-42 | For non-blank input, concatenating the tokens gives back the input exactly. |
| TemplateParser.TokenizeCharacterized | TemplateBinder/Services/TemplateParser.cs:35-40 | The tokens obey the split's laws. No token is empty. Each token is either one lazy match or text holding no match. A text token is followed only by a placeholder and hides no `{{`, so two text tokens are never adjacent. The tokens are also the only sequence obeying these laws that concatenates to the input, so order and content are fixed. |
| TemplateParser.TokenizationIsUnique | TemplateBinder/Services/TemplateParser.cs:23 | Splitting the concatenation of any well-tokenized sequence gives that sequence back. |
| TemplateParser.TokenizeWithoutPlaceholder | Tests/TemplateParserTests.cs:9-16 | Non-blank input with no `{{...}}` comes back as the single token equal to the input. |
| TemplateParser.FirstCloseEndsMatch | TemplateBinder/Services/TemplateParser.cs:23 | A match ends at the first `}}`: `{{body}}}` gives `{{body}}` and then `}`. |
| Strings.Trim | TemplateBinder/Services/PlaceholderParser.cs:34 | The result is empty exactly when the input is all white space. Otherwise it starts and ends with non-white-space. |
| Strings.TrimPadded | TemplateBinder/Services/PlaceholderParser.cs:38 | Trimming removes white-space padding on both sides and keeps a trimmed core unchanged. |
| Strings.RemovePairs | TemplateBinder/Services/PlaceholderParser.cs:35-36 | `Replace` of a doubled character with the empty string leaves no such pair behind, and never makes the string longer. |
| Strings.RemovePairsKeepsOthers | TemplateBinder/Services/PlaceholderParser.cs:35-36 | `Replace` only drops copies of the doubled character: every other character survives, in order. |
| Strings.Split | TemplateBinder/Services/PlaceholderParser.cs:37 | Splitting gives at least one part. No part holds the separator. |
| Strings.SplitJoins | TemplateBinder/Services/PlaceholderParser.cs:37 | Joining the parts with the separator gives the input back. |
| Strings.SplitJoin | TemplateBinder/Services/PlaceholderParser.cs:37 | Splitting the join of separator-free parts gives the parts back. |
| PlaceholderParser.Pairs | TemplateBinder/Services/PlaceholderParser.cs:75-80 | The flattened pieces form pairs exactly when their count is even. The k-th argument is then (piece 2k, piece 2k+1), in order and untrimmed. |
| PlaceholderParser.AddPairs | TemplateBinder/Services/PlaceholderParser.cs:75-80 | The `i += 2` loop yields exactly the pairs; with an odd count it fails. |
| PlaceholderParser.GetPipeParameters | TemplateBinder/Services/PlaceholderParser.cs:58-84 | The pipe name is the text before the first `:`. The arguments come from the text between the first and second `:`. |
| PlaceholderParser.Parse | TemplateBinder/Services/PlaceholderParser.cs:29-56 | The method equals the specified parse: the name comes from the first trimmed section between bars, the pipe from the second. |
| PlaceholderParser.ReadSections | TemplateBinder/Services/PlaceholderParser.cs:41-50 | Once the sections are split off, the method returns exactly the specified parse of them: InvalidPlaceholder for a blank first section or an unpaired pipe, otherwise the name and the optional pipe. |
| PlaceholderParser.ParseLaws | TemplateBinder/Services/PlaceholderParser.cs:41-55 | Every failure is InvalidPlaceholder carrying the original text. A parsed name is non-empty and trimmed. A pipe is present exactly when a bar character survives the brace removal. |
| PlaceholderParser.SectionsLaws | TemplateBinder/Services/PlaceholderParser.cs:33-39 | The first section is trimmed and holds no bar character. There is a second section exactly when a bar remains after removing the braces. |
| PlaceholderParser.StripBracesOfWrapped | TemplateBinder/Services/PlaceholderParser.cs:33-36 | Trimming and removing `{{` and `}}` from `{{body}}` gives body when body has no braces. |
| PlaceholderParser.ParseFormat | TemplateBinder/Services/PlaceholderParser.cs:29-84 | Round trip: writing placeholder parameters out in placeholder syntax and parsing the text gives the same parameters back. |
| PlaceholderParser.PipeParametersOfText | TemplateBinder/Services/PlaceholderParser.cs:58-84 | Round trip for the pipe part alone: parsing `pipe:k=v,...` gives the pipe name and the arguments in order. |
| PlaceholderParser.PairsOfArguments | TemplateBinder/Services/PlaceholderParser.cs:70-80 | Pieces laid out as consecutive key/value pairs are read back as exactly those arguments. |
| PlaceholderParser.PairsFlatten | TemplateBinder/Services/PlaceholderParser.cs:70-80 | Flattening arguments into pieces and pairing them again gives the arguments back. |
| PlaceholderParser.ParseBareWord | TemplateBinder/Services/PlaceholderParser.cs:33-44 | Text without braces parses as a bare name with no pipe. |
| PlaceholderParser.ParsePaddedName | TemplateBinder/Services/PlaceholderParser.cs:33-44 | `{{  Name  }}` parses like `{{Name}}`: white space inside the braces is ignored. |
| PlaceholderParser.ParseOfFirstSections | TemplateBinder/Services/PlaceholderParser.cs:41-50 | With a good name and a second section, the parse is that name with the pipe parsed from the second section, or InvalidPlaceholder when the pipe text does not pair up. |
| PlaceholderParser.ParseIgnoresLaterSections | TemplateBinder/Services/PlaceholderParser.cs:46-48 | Only the first two bar-separated sections are used: anything after a second bar changes neither success nor the result. |
| PlaceholderParser.PipeIgnoresLaterColons | TemplateBinder/Services/PlaceholderParser.cs:60-72 | Text after a second `:` in the pipe text is ignored, and the pipe name is the text before the first `:`. |
| PlaceholderParser.PipeWithoutColon | TemplateBinder/Services/PlaceholderParser.cs:60-68 | Pipe text with no `:` is the pipe name with an empty argument list. |
| PipeActivation.InitializePipeMapping | TemplateBinder/Services/PipeActivator.cs:106-122 | The `foreach` that Adds each type under its name yields exactly the specified mapping or the same failure. |
| PipeActivation.NewPipeActivator | TemplateBinder/Services/PipeActivator.cs:38-41 | The activator holds the mapping, or construction fails with registration's error. |
| PipeActivation.AddTypesSucceeds | TemplateBinder/Services/PipeActivator.cs:110-118 | Registration on top of a partial map succeeds exactly when every type has the PipeName tag and implements IPipe, the names are distinct, and no name is already taken. |
| PipeActivation.AddTypesContents | TemplateBinder/Services/PipeActivator.cs:110-121 | After registration the keys are the old keys plus the new names. Old entries not re-registered are kept. Each type sits under its own name. |
| PipeActivation.PipeMappingLaws | TemplateBinder/Services/PipeActivator.cs:106-122 | Registration succeeds exactly when every type is tagged and a pipe and the names are distinct. The map's keys are then exactly the names, and lookup by a name gives the type that declared it. |
| PipeActivation.BuiltInRegistry | TemplateBinder/Services/PipeActivator.cs:106-122 | Registering the datetime, number and boolean pipes gives the map from those three names to their types. |
| PipeActivation.FirstMatch | TemplateBinder/Services/PipeActivator.cs:69 | The index found is the first argument whose key equals the name ignoring case. None means no key does. |
| PipeActivation.GetConstructorValues | TemplateBinder/Services/PipeActivator.cs:62-86 | The loop over constructor parameters yields exactly the specified values, or the first failure. |
| PipeActivation.ConstructorValuesLaws | TemplateBinder/Services/PipeActivator.cs:64-85 | Resolution succeeds exactly when every parameter resolves. Then there is one value per parameter, in position order. On failure the error is that of the first parameter that fails. |
| PipeActivation.ArgumentForMatches | TemplateBinder/Services/PipeActivator.cs:69-77 | A parameter takes its value from the first case-insensitively matching argument, converted to the parameter's type. A null value there fails with MissingArgumentValue naming the key. |
| PipeActivation.UnmatchedArgumentsIgnored | TemplateBinder/Services/PipeActivator.cs:67-83 | Arguments whose keys match no constructor parameter do not change the values, wherever they are inserted in the argument list. |
| PipeActivation.ArgumentForUnmatched | TemplateBinder/Services/PipeActivator.cs:69-80 | A parameter whose name matches no key, ignoring case, gets its type's default: null for reference types, the zero value for value types. |
| PipeActivation.NoArgumentsGiveDefaults | TemplateBinder/Services/PipeActivator.cs:98-104 | With no arguments every parameter gets its type's default: null for reference types, the zero value for value types. |
| PipeActivation.Create | TemplateBinder/Services/PipeActivator.cs:51-60 | Create yields exactly the specified pipe or failure: UnknownPipe for an unregistered name, and the one-constructor check before resolving values. |
| PipeActivation.ConstructorCountCheckedAtCreate | TemplateBinder/Services/PipeActivator.cs:88-96 | A type with other than one constructor registers successfully, yet every Create for it fails with the one-constructor error. |
| PipeActivation.CreateNumberPipe | TemplateBinder/Pipes/NumberPipe.cs:18-21 | The number pipe is created with the `format` argument, found ignoring case, or null when absent. A null value under `format` fails creation. |
| PipeActivation.CreateDateTimePipe | TemplateBinder/Pipes/DateTimePipe.cs:18-21 | The datetime pipe is created with the `format` argument, or null when absent. A null value under `format` fails creation. |
| PipeActivation.CreateBooleanPipe | TemplateBinder/Pipes/BooleanPipe.cs:20-24 | The boolean pipe is created with the `trueValue` and `falseValue` arguments, or null for an absent one. A null value fails creation, and `trueValue` is checked first. |
| Pipes.Instantiate | TemplateBinder/Services/PipeActivator.cs:58-59 | The built-in constructors store the string (or null) values they receive. Only ActivationFailed is possible otherwise. |
| Pipes.BooleanTransform | TemplateBinder/Pipes/BooleanPipe.cs:32-42 | It fails exactly on a non-boolean parameter, naming it. Otherwise it returns a text parameter with the same Name whose value is trueValue, falseValue or null for true, false or null. |
| Pipes.DateTimeTransform | TemplateBinder/Pipes/DateTimePipe.cs:29-37 | It fails exactly on a non-DateTime parameter, with WrongParameterType naming it, or on a date whose format the formatter rejects, with FormatRejected. A null format and "O" are never rejected. Otherwise it returns a text parameter with the same Name, null exactly when the value is null, and otherwise the value formatted with the configured format. |
| Pipes.NumberTransform | TemplateBinder/Pipes/NumberPipe.cs:29-37 | It fails exactly on a non-number parameter, with WrongParameterType naming it, or on a number whose format the formatter rejects, with FormatRejected. A null format is never rejected. Otherwise it returns a text parameter with the same Name, null exactly when the value is null, and otherwise the value formatted with the configured format. |
| Pipes.Transform | TemplateBinder/TemplateTokens/PlaceholderToken.cs:36 | A built-in pipe that succeeds returns a text parameter carrying the input's Name, never null. |
| Pipes.BuiltInFailureCases | TemplateBinder/Pipes/NumberPipe.cs:31-34 | A built-in pipe succeeds exactly when it accepts the parameter variant and the formatter accepts its format for the value. A wrong variant fails with WrongParameterType naming the parameter. A rejected format fails with FormatRejected naming the format. |
| Pipes.NullValueRendersName | TemplateBinder/Pipes/DateTimePipe.cs:34-36 | A null value passes through a built-in pipe as a null text with the same Name, which renders as the Name. |
| Pipes.NumberPipeWithoutFormatIsDefault | TemplateBinder/Pipes/NumberPipe.cs:34 | A number pipe with a null format renders a number exactly as the parameter itself does. |
| Pipes.DateTimePipeRoundTripFormatIsDefault | TemplateBinder/Pipes/DateTimePipe.cs:34 | A datetime pipe with format "O" renders a date exactly as the parameter itself does. |
| Pipes.BooleanPipeWithDefaultWordsIsDefault | TemplateBinder/Pipes/BooleanPipe.cs:37-41 | A boolean pipe configured with "True" and "False" renders exactly as the parameter itself does. |
| Parameters.GetText | TemplateBinder/Parameters/TextParameter.cs:33-34 | A null value renders as the Name. A text value renders as itself, even when empty. A boolean renders as "True" or "False". A number renders with default formatting. A date renders in round-trip "O" form. |
| Parameters.TextIgnoresNameWhenValued | TemplateBinder/Parameters/NumberParameter.cs:33-34 | A valued parameter's text depends only on its value, not on its Name. |
| Parameters.BooleanTextDistinguishesValues | TemplateBinder/Parameters/BooleanParameter.cs:33-34 | Two boolean parameters with the same name (other than "True" or "False") render alike exactly when their values are equal. |
| TemplateTokens.PlaceholderNeedsItsParameter | TemplateBinder/TemplateTokens/PlaceholderToken.cs:31-39 | An unbound name fails with ParameterNotFound. A bound name with no pipe always renders. With a built-in pipe, the token never fails for lookup. |
| TemplateTokens.TransformErrorIsNotLookup | TemplateBinder/TemplateTokens/PlaceholderToken.cs:36 | A built-in pipe's failure is never ParameterNotFound. |
| TemplateTokens.TokenTextIsLocal | TemplateBinder/TemplateTokens/TextToken.cs:26-27 | A token's text depends on the dictionary only through the entry its name binds; a text token's not at all. |
| TemplateTokens.NullPipeResultKeepsParameter | TemplateBinder/TemplateTokens/PlaceholderToken.cs:36 | A pipe returning null leaves the token rendering the parameter itself, as if there were no pipe. |
| TemplateTokens.BuiltInPipeOutcome | TemplateBinder/TemplateTokens/PlaceholderToken.cs:36-38 | With a built-in pipe the token renders exactly when the parameter has the accepted variant and the formatter accepts the format. Otherwise it fails with the pipe's error unchanged: WrongParameterType or FormatRejected. |
| TemplateTokens.NullValueRendersName | TemplateBinder/TemplateTokens/PlaceholderToken.cs:36-38 | A null-valued parameter renders as its Name, with no pipe or through an accepting built-in pipe. |
| TemplateTokensFactory.SelectAllFailure | TemplateBinder/Services/TemplateTokensFactory.cs:46-49 | An eager `Select` that fails failed at some element, with that element's error, and every earlier element succeeded. |
| TemplateTokensFactory.CreateTokensLaws | TemplateBinder/Services/TemplateTokensFactory.cs:46-49 | Creation succeeds exactly when every piece does. It gives one token per piece, in order. On failure the error is that of the first failing piece, and no tokens are produced. |
| TemplateTokensFactory.MalformedPlaceholderFails | TemplateBinder/Services/TemplateTokensFactory.cs:59-65 | A placeholder piece that does not parse fails token creation with InvalidPlaceholder naming the piece. |
| TemplateTokensFactory.IsPlaceholderAgreesWithSplit | TemplateBinder/Services/TemplateTokensFactory.cs:70-71 | On pieces the tokenizer produces, "starts with `{{` and ends with `}}`" holds exactly for the lazy matches. |
| TemplateTokensFactory.CreateTokenOfFormat | TemplateBinder/Services/TemplateTokensFactory.cs:59-68 | A written placeholder becomes the token for its parameters: no pipe gives a token without a pipe, and a pipe gives the activator's instance for that name and those arguments. |
| TemplateTokensFactory.CreateTokenOfText | TemplateBinder/Services/TemplateTokensFactory.cs:51-57 | A text piece becomes a text token holding it verbatim. |
| TemplateFactory.Create | TemplateBinder/Services/TemplateFactory.cs:42-49 | Create is the token factory applied to the tokenizer's output, wrapped in a Template, or the first error. |
| TemplateFactory.CompileWritten | TemplateBinder/Services/TemplateFactory.cs:42-49 | Round trip: a template written from well-formed literals and placeholders compiles to exactly the tokens it was written from, or to the first token's error. |
| TemplateFactory.BlankTemplateBindsEmpty | Tests/TemplateTests.cs:190-198 | A blank template compiles to no tokens and binds to the empty string. |
| TemplateFactory.LiteralTemplateBindsItself | Tests/TemplateTests.cs:24-31 | A template without placeholders compiles to one text token and binds to itself. |
| TemplateFactory.TextThenPlaceholderCompiles | TemplateBinder/Services/TemplateFactory.cs:42-49 | `text{{Name}}` compiles to a text token followed by a placeholder token without a pipe. |
| TemplateFactory.TextThenPlaceholderBinds | TemplateBinder/Templates/Template.cs:43-53 | Binding `text{{Name}}` with Name bound to a text value gives the text followed by the value. Without the parameter it fails with ParameterNotFound. |
| TemplateFactory.UnknownPipeFailsCompile | TemplateBinder/Services/TemplateFactory.cs:44-46 | A placeholder naming an unregistered pipe fails compilation with UnknownPipe, before any binding. |
| Templates.BuildParameterMap | TemplateBinder/Templates/Template.cs:45 | The dictionary-building loop yields exactly the specified map or the duplicate failure. |
| Templates.ParameterMapLaws | TemplateBinder/Templates/Template.cs:45 | The map is built exactly when names are distinct; otherwise DuplicateParameter. Its keys are the names, and each parameter sits under its own name. |
| Templates.Bind | TemplateBinder/Templates/Template.cs:43-53 | The loop that appends each token's text yields exactly the specified rendering, or the first failure and no partial text. |
| Templates.RenderAppend | TemplateBinder/Templates/Template.cs:47-52 | Rendering is concatenation in token order: two runs render as the first's text followed by the second's, and the first failure wins. |
| Templates.RenderFailureSticks | TemplateBinder/Templates/Template.cs:49-52 | A failure in a prefix of the tokens is the failure of the whole, so no partial string is returned. |
| Templates.RenderSucceeds | TemplateBinder/Templates/Template.cs:49-50 | Rendering succeeds exactly when every token renders. |
| Templates.RenderIsLocal | TemplateBinder/Templates/Template.cs:49-50 | Maps that agree on the names the placeholders use render alike. |
| Templates.RepeatedTokenRendersEachTime | Tests/TemplateTests.cs:176-188 | A token used twice renders twice: a parameter referenced in several places appears at each. |
| Templates.LiteralsRender | TemplateBinder/TemplateTokens/TextToken.cs:26-27 | Text tokens render their literals, in order, under any parameters. |
| Templates.LiteralTemplateBinding | TemplateBinder/Templates/Template.cs:45-52 | A placeholder-free template binds to its literals whatever the parameters, provided the names are distinct. Duplicate names fail even here. |
| Templates.MissingParameterFailsBind | TemplateBinder/Templates/Template.cs:49-52 | A placeholder whose name no parameter carries makes Bind fail. |
| Templates.BindIgnoresUnusedParameters | TemplateBinder/Templates/Template.cs:45-52 | Adding parameters that no placeholder names does not change the result of Bind. |

## Left out

- Null strings. Template, placeholder and key strings are never null here. `string.IsNullOrWhiteSpace(null)` is the blank case.
- .NET formatting (`decimal.ToString`, `DateTime.ToString`, "O", culture-dependent formats). It is an uninterpreted function in `Culture`, and so is the set of format strings for which `ToString(format)` throws FormatException. The model only fixes that a null format, and "O" for dates, are never rejected. The lemmas hold whatever the formatter returns or rejects, and no concrete formatted string such as `2024-01-15` is derived.
- Decimal, DateTime and Nullable internals. They are opaque types; the zero value of a value type is the symbolic `ZeroArg`.
- `TypeDescriptor` conversion for types other than string. It is the symbolic `ConvertedArg`, and a conversion that throws is not modelled. String conversion is the identity.
- `NameValueCollection` semantics: merging repeated keys and its own key comparer. Arguments are an ordered list, and the first case-insensitively matching entry is read.
- TemplateTokensFactory.IsPlaceholderAgreesWithSplit: `StartsWith("{{")` and `EndsWith("}}")` use the current culture in .NET, and the model tests the prefix and suffix ordinally. Under a culture comparison an ignorable character such as U+00AD before the last `}` can make a text piece end with `}}`. The source would then parse that piece as a placeholder, while the model keeps it as text.
- Case folding beyond ASCII. `OrdinalIgnoreCase` is modelled as ASCII upper-casing.
- The regex engine. The lazy `{{.*?}}` split is modelled as a direct scan for the leftmost `{{` and the first `}}` after it.
- Reflection. `GetCustomAttributes`, `GetConstructors` and `Activator.CreateInstance` are replaced by type descriptors. For types outside the library, `Activator.CreateInstance` receives the resolved values and cannot fail.
- The code of pipe types outside the library. Their Transform is the function `Runtime.userTransform`, which may return any error.
- TemplateTokens.PlaceholderNeedsItsParameter: the "never fails for lookup" half holds for built-in pipes only, because a pipe outside the library may throw any exception, including an ArgumentException with the same message.
- Immutability, determinism and repeated binding (readonly fields, frozen dictionary, `Bind` not changing the tokens). These hold by construction, since tokens, templates, pipes and the registry are immutable values and compilation and binding are functions.
- Thread safety of the frozen collections and concurrent `Bind`. These are not sequential properties.
- `TemplateTokensFactory.Create`'s `Select`. It is the recursive function `SelectAll` applied to `CreateToken`, not a loop, because the source has no loop there.
- Dependency-injection wiring, the Workbench program and its custom pipe, and the first-generation `Binder` design with its parameters, pipes and factories. They are not part of this pipeline.
- Exception messages. Each throw site is an `Errors.Error` constructor carrying the names the message mentions, not the message text.
