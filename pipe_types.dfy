/** What the pipe registry learns about a candidate pipe type. The source discovers this by
    reflection (custom attributes, IPipe assignability, public constructors); here each
    type comes with a descriptor holding the same facts. */
module PipeTypes {
  import opened Wrappers

  /** The declared type of a constructor parameter, as far as activation cares. */
  datatype ClrType =
    | StringType
    | ValueType(typeName: string)
    | ReferenceType(typeName: string)

  datatype CtorParam = CtorParam(name: string, paramType: ClrType)

  /** A value handed to a pipe constructor. */
  datatype ArgValue =
      /** null. */
    | NullArg
      /** A string, which the string converter returns unchanged. */
    | StringArg(s: string)
      /** Activator.CreateInstance(valueType): the zero value of a value type. */
    | ZeroArg(typeName: string)
      /** TypeConverter.ConvertFromString(raw) for a type other than string. */
    | ConvertedArg(typeName: string, raw: string)

  /** Which implementation a pipe type is: one of the three built-in pipes, or a type
      whose code lies outside this model. */
  datatype PipeClass =
    | BooleanPipeClass
    | DateTimePipeClass
    | NumberPipeClass
    | UserPipeClass(name: string, fullName: string)

  /** The reflected facts about one candidate type. */
  datatype PipeType = PipeType(
    cls: PipeClass,
    /** The PipeName attribute's name; None when the attribute is missing. */
    pipeName: Option<string>,
    /** typeof(IPipe).IsAssignableFrom(type). */
    implementsPipe: bool,
    /** The public constructors, each with its parameters in position order. */
    constructors: seq<seq<CtorParam>>)

  /** Type.FullName. */
  function FullName(cls: PipeClass): string {
    match cls
    case BooleanPipeClass => "TemplateBinder.Pipes.BooleanPipe"
    case DateTimePipeClass => "TemplateBinder.Pipes.DateTimePipe"
    case NumberPipeClass => "TemplateBinder.Pipes.NumberPipe"
    case UserPipeClass(_, fullName) => fullName
  }

  /** Type.Name: the name without its namespace. */
  function Name(cls: PipeClass): string {
    match cls
    case BooleanPipeClass => "BooleanPipe"
    case DateTimePipeClass => "DateTimePipe"
    case NumberPipeClass => "NumberPipe"
    case UserPipeClass(name, _) => name
  }
}
