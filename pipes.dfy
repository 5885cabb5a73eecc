/** The three built-in pipes and the dispatch of Transform over pipe instances. A pipe is
    configured once, by its constructor, and its Transform neither reads nor changes any
    other state: here a pipe instance is an immutable value and Transform a function. */
module Pipes {
  import opened Wrappers
  import opened Errors
  import opened Formatting
  import opened Parameters
  import opened PipeTypes

  /** A constructed pipe: the built-ins with their configuration, or an instance of a type
      outside the model together with the values its constructor received. */
  datatype Pipe =
    | BooleanPipe(trueValue: Option<string>, falseValue: Option<string>)
    | DateTimePipe(format: Option<string>)
    | NumberPipe(format: Option<string>)
    | UserPipe(typeName: string, ctorValues: seq<ArgValue>)

  /** What the model takes from the running program: the culture's formatting and the
      Transform of pipe types outside the model (a `None` result is a null return). */
  datatype Runtime = Runtime(
    culture: Culture,
    userTransform: (string, seq<ArgValue>, Parameter) -> Result<Option<Parameter>, Error>)

  /** The built-in pipe types as reflection describes them. */
  const BooleanPipeType: PipeType :=
    PipeType(BooleanPipeClass, Some("boolean"), true,
      [[CtorParam("trueValue", StringType), CtorParam("falseValue", StringType)]])
  const DateTimePipeType: PipeType :=
    PipeType(DateTimePipeClass, Some("datetime"), true, [[CtorParam("format", StringType)]])
  const NumberPipeType: PipeType :=
    PipeType(NumberPipeClass, Some("number"), true, [[CtorParam("format", StringType)]])

  /** BooleanPipe.Transform: a boolean becomes one of the two configured texts. */
  function BooleanTransform(trueValue: Option<string>, falseValue: Option<string>, p: Parameter): (r: Result<Parameter, Error>)
    ensures r.Failure? <==> !p.BooleanParameter?
    ensures r.Failure? ==> r.error == WrongParameterType("BooleanParameter", p.name, TypeName(p))
    ensures r.Success? ==> r.value.TextParameter? && r.value.name == p.name
    ensures p.BooleanParameter? && p.boolean == Some(true) ==> r.value.text == trueValue
    ensures p.BooleanParameter? && p.boolean == Some(false) ==> r.value.text == falseValue
    ensures p.BooleanParameter? && p.boolean == None ==> r.value.text == None
  {
    if !p.BooleanParameter? then
      Failure(WrongParameterType("BooleanParameter", p.name, TypeName(p)))
    else
      var value := if p.boolean.Some? then (if p.boolean.value then trueValue else falseValue) else None;
      Success(TextParameter(p.name, value))
  }

  /** DateTimePipe.Transform: a date is formatted with the configured format, which throws
      when the formatter rejects the format. */
  function DateTimeTransform(format: Option<string>, p: Parameter, culture: Culture): (r: Result<Parameter, Error>)
    ensures r.Failure? <==>
      !p.DateTimeParameter? || (p.dateTime.Some? && RejectsDateTimeFormat(culture, p.dateTime.value, format))
    ensures !p.DateTimeParameter? ==> r.error == WrongParameterType("DateTimeParameter", p.name, TypeName(p))
    ensures p.DateTimeParameter? && r.Failure? ==> r.error == FormatRejected(format.value)
    ensures r.Success? ==> r.value.TextParameter? && r.value.name == p.name
    ensures r.Success? ==> (r.value.text.Some? <==> p.dateTime.Some?)
    ensures r.Success? && p.dateTime.Some? ==> r.value.text.value == culture.dateTimeToString(p.dateTime.value, format)
  {
    if !p.DateTimeParameter? then
      Failure(WrongParameterType("DateTimeParameter", p.name, TypeName(p)))
    else if p.dateTime.Some? && RejectsDateTimeFormat(culture, p.dateTime.value, format) then
      Failure(FormatRejected(format.value))
    else
      var value := if p.dateTime.Some? then Some(culture.dateTimeToString(p.dateTime.value, format)) else None;
      Success(TextParameter(p.name, value))
  }

  /** NumberPipe.Transform: a number is formatted with the configured format, which throws
      when the formatter rejects the format. */
  function NumberTransform(format: Option<string>, p: Parameter, culture: Culture): (r: Result<Parameter, Error>)
    ensures r.Failure? <==>
      !p.NumberParameter? || (p.number.Some? && RejectsDecimalFormat(culture, p.number.value, format))
    ensures !p.NumberParameter? ==> r.error == WrongParameterType("NumberParameter", p.name, TypeName(p))
    ensures p.NumberParameter? && r.Failure? ==> r.error == FormatRejected(format.value)
    ensures r.Success? ==> r.value.TextParameter? && r.value.name == p.name
    ensures r.Success? ==> (r.value.text.Some? <==> p.number.Some?)
    ensures r.Success? && p.number.Some? ==> r.value.text.value == culture.decimalToString(p.number.value, format)
  {
    if !p.NumberParameter? then
      Failure(WrongParameterType("NumberParameter", p.name, TypeName(p)))
    else if p.number.Some? && RejectsDecimalFormat(culture, p.number.value, format) then
      Failure(FormatRejected(format.value))
    else
      var value := if p.number.Some? then Some(culture.decimalToString(p.number.value, format)) else None;
      Success(TextParameter(p.name, value))
  }

  /** IPipe.Transform on any pipe instance; the built-ins never return null. */
  function Transform(pipe: Pipe, p: Parameter, rt: Runtime): (r: Result<Option<Parameter>, Error>)
    ensures !pipe.UserPipe? && r.Success? ==> r.value.Some? && r.value.value.TextParameter? && r.value.value.name == p.name
  {
    match pipe
    case BooleanPipe(t, f) =>
      var q :- BooleanTransform(t, f, p);
      Success(Some(q))
    case DateTimePipe(format) =>
      var q :- DateTimeTransform(format, p, rt.culture);
      Success(Some(q))
    case NumberPipe(format) =>
      var q :- NumberTransform(format, p, rt.culture);
      Success(Some(q))
    case UserPipe(typeName, values) => rt.userTransform(typeName, values, p)
  }

  /** The parameter variant a built-in pipe accepts. */
  predicate Accepts(pipe: Pipe, p: Parameter) {
    match pipe
    case BooleanPipe(_, _) => p.BooleanParameter?
    case DateTimePipe(_) => p.DateTimeParameter?
    case NumberPipe(_) => p.NumberParameter?
    case UserPipe(_, _) => false
  }

  /** The formatter rejects the format a datetime or number pipe applies to this value. */
  predicate FormatFails(pipe: Pipe, p: Parameter, culture: Culture) {
    match pipe
    case DateTimePipe(format) =>
      p.DateTimeParameter? && p.dateTime.Some? && RejectsDateTimeFormat(culture, p.dateTime.value, format)
    case NumberPipe(format) =>
      p.NumberParameter? && p.number.Some? && RejectsDecimalFormat(culture, p.number.value, format)
    case _ => false
  }

  /** A built-in pipe fails exactly on the variants it does not accept, with
      WrongParameterType naming the parameter, and on an accepted value whose format the
      formatter rejects, with FormatRejected naming the format. */
  lemma BuiltInFailureCases(pipe: Pipe, p: Parameter, rt: Runtime)
    requires !pipe.UserPipe?
    ensures Transform(pipe, p, rt).Success? <==> Accepts(pipe, p) && !FormatFails(pipe, p, rt.culture)
    ensures !Accepts(pipe, p) ==>
      var e := Transform(pipe, p, rt).error;
      e.WrongParameterType? && e.parameterName == p.name
    ensures FormatFails(pipe, p, rt.culture) ==> Transform(pipe, p, rt) == Failure(FormatRejected(pipe.format.value))
  {
  }

  /** A null value passes through a built-in pipe as a null text, which renders as the Name. */
  lemma NullValueRendersName(pipe: Pipe, p: Parameter, rt: Runtime)
    requires Accepts(pipe, p) && !p.HasValue()
    ensures Transform(pipe, p, rt) == Success(Some(TextParameter(p.name, None)))
    ensures GetText(Transform(pipe, p, rt).value.value, rt.culture) == p.name
  {
  }

  /** A number pipe without a format renders a number exactly as the parameter itself does. */
  lemma NumberPipeWithoutFormatIsDefault(p: Parameter, rt: Runtime)
    requires p.NumberParameter?
    ensures Transform(NumberPipe(None), p, rt).Success?
    ensures GetText(Transform(NumberPipe(None), p, rt).value.value, rt.culture) == GetText(p, rt.culture)
  {
  }

  /** A datetime pipe with the round-trip format "O" renders a date exactly as the parameter does. */
  lemma DateTimePipeRoundTripFormatIsDefault(p: Parameter, rt: Runtime)
    requires p.DateTimeParameter?
    ensures Transform(DateTimePipe(Some(RoundTripFormat)), p, rt).Success?
    ensures GetText(Transform(DateTimePipe(Some(RoundTripFormat)), p, rt).value.value, rt.culture) == GetText(p, rt.culture)
  {
  }

  /** A boolean pipe configured with "True" and "False" renders exactly as the parameter does. */
  lemma BooleanPipeWithDefaultWordsIsDefault(p: Parameter, rt: Runtime)
    requires p.BooleanParameter?
    ensures Transform(BooleanPipe(Some("True"), Some("False")), p, rt).Success?
    ensures GetText(Transform(BooleanPipe(Some("True"), Some("False")), p, rt).value.value, rt.culture) == GetText(p, rt.culture)
  {
  }

  /** A value that converts to a configuration string: a string or null. */
  predicate IsStringOrNull(v: ArgValue) {
    v.StringArg? || v.NullArg?
  }

  function AsString(v: ArgValue): Option<string> {
    if v.StringArg? then Some(v.s) else None
  }

  /** Activator.CreateInstance(type, values): the built-in constructors take strings (or null)
      and store them; a type outside the model receives the values as they are. */
  function Instantiate(cls: PipeClass, values: seq<ArgValue>): (r: Result<Pipe, Error>)
    ensures r.Failure? ==> r.error == ActivationFailed(FullName(cls))
    ensures cls.UserPipeClass? ==> r == Success(UserPipe(cls.fullName, values))
    ensures cls == BooleanPipeClass && |values| == 2 && IsStringOrNull(values[0]) && IsStringOrNull(values[1])
      ==> r == Success(BooleanPipe(AsString(values[0]), AsString(values[1])))
    ensures cls == DateTimePipeClass && |values| == 1 && IsStringOrNull(values[0])
      ==> r == Success(DateTimePipe(AsString(values[0])))
    ensures cls == NumberPipeClass && |values| == 1 && IsStringOrNull(values[0])
      ==> r == Success(NumberPipe(AsString(values[0])))
  {
    match cls
    case BooleanPipeClass =>
      if |values| == 2 && IsStringOrNull(values[0]) && IsStringOrNull(values[1])
      then Success(BooleanPipe(AsString(values[0]), AsString(values[1])))
      else Failure(ActivationFailed(FullName(cls)))
    case DateTimePipeClass =>
      if |values| == 1 && IsStringOrNull(values[0])
      then Success(DateTimePipe(AsString(values[0])))
      else Failure(ActivationFailed(FullName(cls)))
    case NumberPipeClass =>
      if |values| == 1 && IsStringOrNull(values[0])
      then Success(NumberPipe(AsString(values[0])))
      else Failure(ActivationFailed(FullName(cls)))
    case UserPipeClass(_, fullName) => Success(UserPipe(fullName, values))
  }
}
