/** The exceptions the template pipeline throws, one constructor per throw site. */
module Errors {

  datatype Error =
    /** InvalidOperationException "Invalid placeholder X": a blank parameter name or an
        odd number of argument pieces (the latter rewrapped from IndexOutOfRangeException). */
    | InvalidPlaceholder(placeholder: string)
    /** Registration: the type carries no PipeName attribute. */
    | MissingPipeName(typeName: string)
    /** Registration: the type does not implement IPipe. */
    | NotAPipe(typeName: string)
    /** Registration: Dictionary.Add rejects a second type with the same pipe name. */
    | DuplicatePipeName(pipeName: string)
    /** InvalidOperationException "No registered pipe with name X". */
    | UnknownPipe(pipeName: string)
    /** Exception "Pipe X can have only one ctor", raised when the pipe is created. */
    | SingleConstructorRequired(typeName: string)
    /** InvalidOperationException "No value for pipe parameter X": a matched key holds null. */
    | MissingArgumentValue(key: string)
    /** Activator.CreateInstance finds no constructor accepting the resolved values. */
    | ActivationFailed(typeName: string)
    /** ArgumentException from ToDictionary: two parameters share a Name. */
    | DuplicateParameter(name: string)
    /** ArgumentException "Parameter X was not found". */
    | ParameterNotFound(name: string)
    /** ArgumentException from a built-in pipe given the wrong parameter variant:
        `expected` is the variant the pipe accepts, `actual` the one it got. */
    | WrongParameterType(expected: string, parameterName: string, actual: string)
    /** FormatException from decimal or DateTime ToString(format): the number or datetime
        pipe's format string is not one the formatter accepts. */
    | FormatRejected(format: string)
    /** Whatever a pipe type outside this model throws from its Transform. */
    | UserPipeFailure(typeName: string, message: string)
}
