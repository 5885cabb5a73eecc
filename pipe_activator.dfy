/** PipeActivator: the registry that maps pipe names to pipe types, built once with
    fail-fast checks, and the creation of a pipe instance from a name and the arguments
    written in a placeholder. */
module PipeActivation {
  import opened Wrappers
  import opened Errors
  import opened Strings
  import opened PipeTypes
  import opened Pipes
  import opened PlaceholderParser

  /** The registry: a name-to-type map that never changes once built. Lookup by pipe
      name is exact (the map's ordinal comparer). */
  datatype PipeActivator = PipeActivator(pipes: map<string, PipeType>)

  // ---------------------------------------------------------------------------------
  // Registration.

  /** A type that passes the checks of one registration step. */
  predicate Registrable(t: PipeType) {
    t.pipeName.Some? && t.implementsPipe
  }

  /** The registration steps from a partly built map on: each type needs the PipeName
      attribute, must implement IPipe, and Dictionary.Add rejects a name already taken. */
  function AddTypes(pipes: map<string, PipeType>, types: seq<PipeType>): Result<map<string, PipeType>, Error>
    decreases |types|
  {
    if types == [] then Success(pipes)
    else
      var t := types[0];
      if t.pipeName.None? then Failure(MissingPipeName(FullName(t.cls)))
      else if !t.implementsPipe then Failure(NotAPipe(FullName(t.cls)))
      else if t.pipeName.value in pipes then Failure(DuplicatePipeName(t.pipeName.value))
      else AddTypes(pipes[t.pipeName.value := t], types[1..])
  }

  /** InitializePipeMapping, as a function of the registered types. */
  function PipeMapping(types: seq<PipeType>): Result<map<string, PipeType>, Error> {
    AddTypes(map[], types)
  }

  /** InitializePipeMapping: the foreach that Adds each type under its pipe name. */
  method InitializePipeMapping(types: seq<PipeType>) returns (r: Result<map<string, PipeType>, Error>)
    ensures r == PipeMapping(types)
  {
    var pipes: map<string, PipeType> := map[];
    for i := 0 to |types|
      invariant AddTypes(pipes, types[i..]) == PipeMapping(types)
    {
      var t := types[i];
      assert types[i..][1..] == types[i + 1..];
      if t.pipeName.None? {
        return Failure(MissingPipeName(FullName(t.cls)));
      }
      if !t.implementsPipe {
        return Failure(NotAPipe(FullName(t.cls)));
      }
      if t.pipeName.value in pipes {
        return Failure(DuplicatePipeName(t.pipeName.value));
      }
      pipes := pipes[t.pipeName.value := t];
    }
    return Success(pipes);
  }

  /** The PipeActivator constructor: the registry, or the exception InitializePipeMapping throws. */
  method NewPipeActivator(types: seq<PipeType>) returns (r: Result<PipeActivator, Error>)
    ensures r.Success? <==> PipeMapping(types).Success?
    ensures r.Success? ==> r.value.pipes == PipeMapping(types).value
    ensures r.Failure? ==> r.error == PipeMapping(types).error
  {
    var pipes := InitializePipeMapping(types);
    if pipes.Failure? {
      return Failure(pipes.error);
    }
    return Success(PipeActivator(pipes.value));
  }

  /** No two types claim the same pipe name. */
  predicate DistinctPipeNames(types: seq<PipeType>) {
    forall i, j | 0 <= i < j < |types| :: types[i].pipeName != types[j].pipeName
  }

  /** The names the types are registered under. */
  function Names(types: seq<PipeType>): set<string> {
    set i | 0 <= i < |types| && types[i].pipeName.Some? :: types[i].pipeName.value
  }

  /** Registration from a partly built map succeeds exactly when every type is tagged and
      implements IPipe, and the names are distinct and not yet taken. */
  lemma {:induction false} AddTypesSucceeds(pipes: map<string, PipeType>, types: seq<PipeType>)
    ensures AddTypes(pipes, types).Success? <==>
      && (forall i | 0 <= i < |types| :: Registrable(types[i]) && types[i].pipeName.value !in pipes)
      && DistinctPipeNames(types)
    decreases |types|
  {
    if types != [] {
      var t := types[0];
      var rest := types[1..];
      assert forall i | 1 <= i < |types| :: types[i] == rest[i - 1];
      if Registrable(t) && t.pipeName.value !in pipes {
        var pipes' := pipes[t.pipeName.value := t];
        AddTypesSucceeds(pipes', rest);
        if (forall i | 0 <= i < |types| :: Registrable(types[i]) && types[i].pipeName.value !in pipes) && DistinctPipeNames(types) {
          forall i | 0 <= i < |rest| ensures rest[i].pipeName.value !in pipes' {
            assert rest[i] == types[i + 1];
          }
        }
      }
    }
  }

  /** A successful registration keeps the old entries and adds each type under its own
      name, and nothing else. */
  lemma {:induction false} AddTypesContents(pipes: map<string, PipeType>, types: seq<PipeType>)
    requires AddTypes(pipes, types).Success?
    ensures var m := AddTypes(pipes, types).value;
      && m.Keys == pipes.Keys + Names(types)
      && (forall k | k in pipes && k !in Names(types) :: m[k] == pipes[k])
      && (forall i | 0 <= i < |types| :: types[i].pipeName.Some? && m[types[i].pipeName.value] == types[i])
    decreases |types|
  {
    if types != [] {
      var t := types[0];
      var rest := types[1..];
      var pipes' := pipes[t.pipeName.value := t];
      AddTypesContents(pipes', rest);
      assert Names(types) == {t.pipeName.value} + Names(rest) by {
        assert forall i | 1 <= i < |types| :: types[i] == rest[i - 1];
      }
      AddTypesSucceeds(pipes', rest);
      assert forall i | 1 <= i < |types| :: types[i] == rest[i - 1];
    }
  }

  /** Registration succeeds exactly when every type carries the PipeName attribute and
      implements IPipe and no two types share a name; the registry then maps each name to
      its type and holds nothing else. */
  lemma PipeMappingLaws(types: seq<PipeType>)
    ensures PipeMapping(types).Success? <==>
      (forall i | 0 <= i < |types| :: Registrable(types[i])) && DistinctPipeNames(types)
    ensures PipeMapping(types).Success? ==>
      && PipeMapping(types).value.Keys == Names(types)
      && forall i | 0 <= i < |types| :: PipeMapping(types).value[types[i].pipeName.value] == types[i]
  {
    AddTypesSucceeds(map[], types);
    if PipeMapping(types).Success? {
      AddTypesContents(map[], types);
    }
  }

  // ---------------------------------------------------------------------------------
  // Creation.

  /** The first argument whose key equals `name` ignoring case. */
  function FirstMatch(arguments: seq<Argument>, name: string): (r: Option<nat>)
    ensures r.Some? ==> r.value < |arguments| && EqualsIgnoreCase(arguments[r.value].key, name)
    ensures r.Some? ==> forall j | 0 <= j < r.value :: !EqualsIgnoreCase(arguments[j].key, name)
    ensures r.None? ==> forall j | 0 <= j < |arguments| :: !EqualsIgnoreCase(arguments[j].key, name)
  {
    if arguments == [] then None
    else if EqualsIgnoreCase(arguments[0].key, name) then Some(0)
    else match FirstMatch(arguments[1..], name)
      case None => None
      case Some(i) => Some(i + 1)
  }

  /** GetDefaultValue: the zero value of a value type, null otherwise. */
  function DefaultValue(t: ClrType): ArgValue {
    if t.ValueType? then ZeroArg(t.typeName) else NullArg
  }

  /** TypeDescriptor.GetConverter(type).ConvertFromString(text): the string converter
      returns the text itself. */
  function Convert(t: ClrType, text: string): ArgValue {
    if t.StringType? then StringArg(text) else ConvertedArg(t.typeName, text)
  }

  /** The value for one constructor parameter: from the first argument whose key matches
      its name ignoring case, or the type's default when none does. */
  function ArgumentFor(param: CtorParam, arguments: seq<Argument>): Result<ArgValue, Error> {
    match FirstMatch(arguments, param.name)
    case None => Success(DefaultValue(param.paramType))
    case Some(i) =>
      if arguments[i].value.None? then Failure(MissingArgumentValue(arguments[i].key))
      else Success(Convert(param.paramType, arguments[i].value.value))
  }

  /** GetConstructorValues as a function: one value per parameter, in order; the first
      parameter that fails fails the whole. */
  function ConstructorValues(params: seq<CtorParam>, arguments: seq<Argument>): Result<seq<ArgValue>, Error>
    decreases |params|
  {
    if params == [] then Success([])
    else
      var v :- ArgumentFor(params[0], arguments);
      var rest :- ConstructorValues(params[1..], arguments);
      Success([v] + rest)
  }

  /** When every parameter resolves, the values are the resolved values, in order. */
  lemma {:induction false} ConstructorValuesSucceed(params: seq<CtorParam>, arguments: seq<Argument>, values: seq<ArgValue>)
    requires |values| == |params|
    requires forall k | 0 <= k < |params| :: ArgumentFor(params[k], arguments) == Success(values[k])
    ensures ConstructorValues(params, arguments) == Success(values)
    decreases |params|
  {
    if params != [] {
      ConstructorValuesSucceed(params[1..], arguments, values[1..]);
      assert [values[0]] + values[1..] == values;
    }
  }

  /** The first parameter that does not resolve decides the failure. */
  lemma {:induction false} ConstructorValuesFail(params: seq<CtorParam>, arguments: seq<Argument>, i: nat)
    requires i < |params| && ArgumentFor(params[i], arguments).Failure?
    requires forall k | 0 <= k < i :: ArgumentFor(params[k], arguments).Success?
    ensures ConstructorValues(params, arguments) == Failure(ArgumentFor(params[i], arguments).error)
    decreases i
  {
    if i > 0 {
      ConstructorValuesFail(params[1..], arguments, i - 1);
    }
  }

  /** GetConstructorValues: the foreach over the parameters, appending one value each. */
  method GetConstructorValues(params: seq<CtorParam>, arguments: seq<Argument>) returns (r: Result<seq<ArgValue>, Error>)
    ensures r == ConstructorValues(params, arguments)
  {
    var values: seq<ArgValue> := [];
    for i := 0 to |params|
      invariant |values| == i
      invariant forall k | 0 <= k < i :: ArgumentFor(params[k], arguments) == Success(values[k])
    {
      var value := ArgumentFor(params[i], arguments);
      if value.Failure? {
        ConstructorValuesFail(params, arguments, i);
        return Failure(value.error);
      }
      values := values + [value.value];
    }
    ConstructorValuesSucceed(params, arguments, values);
    return Success(values);
  }

  /** Create as a function: an unknown name fails; a type without exactly one constructor
      fails here, not at registration; otherwise the resolved values go to the constructor. */
  function CreatePipe(act: PipeActivator, name: string, arguments: seq<Argument>): Result<Pipe, Error> {
    if name !in act.pipes then Failure(UnknownPipe(name))
    else
      var t := act.pipes[name];
      if |t.constructors| != 1 then Failure(SingleConstructorRequired(Name(t.cls)))
      else
        var values :- ConstructorValues(t.constructors[0], arguments);
        Instantiate(t.cls, values)
  }

  /** Create. */
  method Create(act: PipeActivator, name: string, arguments: seq<Argument>) returns (r: Result<Pipe, Error>)
    ensures r == CreatePipe(act, name, arguments)
  {
    if name !in act.pipes {
      return Failure(UnknownPipe(name));
    }
    var t := act.pipes[name];
    if |t.constructors| != 1 {
      return Failure(SingleConstructorRequired(Name(t.cls)));
    }
    var values := GetConstructorValues(t.constructors[0], arguments);
    if values.Failure? {
      return Failure(values.error);
    }
    r := Instantiate(t.cls, values.value);
  }

  // ---------------------------------------------------------------------------------
  // Properties of creation.

  /** The values match the constructor parameters one for one, in position order; they
      fail exactly when some parameter's matched key holds null, and then with the error
      of the first such parameter. */
  lemma ConstructorValuesLaws(params: seq<CtorParam>, arguments: seq<Argument>)
    ensures ConstructorValues(params, arguments).Success? <==>
      forall k | 0 <= k < |params| :: ArgumentFor(params[k], arguments).Success?
    ensures ConstructorValues(params, arguments).Success? ==>
      var values := ConstructorValues(params, arguments).value;
      |values| == |params| && forall k | 0 <= k < |params| :: ArgumentFor(params[k], arguments) == Success(values[k])
    ensures ConstructorValues(params, arguments).Failure? ==>
      exists i | 0 <= i < |params| ::
        && ArgumentFor(params[i], arguments) == Failure(ConstructorValues(params, arguments).error)
        && forall k | 0 <= k < i :: ArgumentFor(params[k], arguments).Success?
  {
    if ConstructorValues(params, arguments).Success? {
      ConstructorValuesSuccess(params, arguments);
    } else {
      var i := ConstructorValuesFailure(params, arguments);
    }
  }

  lemma {:induction false} ConstructorValuesSuccess(params: seq<CtorParam>, arguments: seq<Argument>)
    requires ConstructorValues(params, arguments).Success?
    ensures var values := ConstructorValues(params, arguments).value;
      |values| == |params| && forall k | 0 <= k < |params| :: ArgumentFor(params[k], arguments) == Success(values[k])
    decreases |params|
  {
    if params != [] {
      ConstructorValuesSuccess(params[1..], arguments);
      assert forall k | 1 <= k < |params| :: params[k] == params[1..][k - 1];
    }
  }

  lemma {:induction false} ConstructorValuesFailure(params: seq<CtorParam>, arguments: seq<Argument>) returns (i: nat)
    requires ConstructorValues(params, arguments).Failure?
    ensures i < |params| && ArgumentFor(params[i], arguments) == Failure(ConstructorValues(params, arguments).error)
    ensures forall k | 0 <= k < i :: ArgumentFor(params[k], arguments).Success?
    decreases |params|
  {
    if ArgumentFor(params[0], arguments).Failure? {
      i := 0;
    } else {
      var j := ConstructorValuesFailure(params[1..], arguments);
      i := j + 1;
      assert forall k | 1 <= k < |params| :: params[k] == params[1..][k - 1];
    }
  }

  /** A parameter resolves from the first key equal to its name ignoring case: to the
      converted value, or to an error naming that key when its value is null; with no
      such key it gets its type's default (ArgumentForUnmatched). */
  lemma ArgumentForMatches(param: CtorParam, arguments: seq<Argument>, i: nat)
    requires i < |arguments| && EqualsIgnoreCase(arguments[i].key, param.name)
    requires forall j | 0 <= j < i :: !EqualsIgnoreCase(arguments[j].key, param.name)
    ensures arguments[i].value.None? ==> ArgumentFor(param, arguments) == Failure(MissingArgumentValue(arguments[i].key))
    ensures arguments[i].value.Some? ==> ArgumentFor(param, arguments) == Success(Convert(param.paramType, arguments[i].value.value))
  {
    var m := FirstMatch(arguments, param.name);
    assert m.Some?;
    assert m.value == i;
  }

  /** With no key equal to its name ignoring case, a parameter gets its type's default. */
  lemma ArgumentForUnmatched(param: CtorParam, arguments: seq<Argument>)
    requires forall j | 0 <= j < |arguments| :: !EqualsIgnoreCase(arguments[j].key, param.name)
    ensures ArgumentFor(param, arguments) == Success(DefaultValue(param.paramType))
  {
  }

  /** Arguments whose keys match no constructor parameter are ignored, wherever they stand
      in the list. */
  lemma UnmatchedArgumentsIgnored(params: seq<CtorParam>, front: seq<Argument>, extra: seq<Argument>, back: seq<Argument>)
    requires forall j, k | 0 <= j < |extra| && 0 <= k < |params| :: !EqualsIgnoreCase(extra[j].key, params[k].name)
    ensures ConstructorValues(params, front + extra + back) == ConstructorValues(params, front + back)
  {
    forall k | 0 <= k < |params| ensures ArgumentFor(params[k], front + extra + back) == ArgumentFor(params[k], front + back) {
      ArgumentForSkips(params[k], front, extra, back);
    }
    ConstructorValuesAgree(params, front + extra + back, front + back);
  }

  /** One parameter resolves alike with or without arguments that do not match it. */
  lemma {:induction false} ArgumentForSkips(param: CtorParam, front: seq<Argument>, extra: seq<Argument>, back: seq<Argument>)
    requires forall j | 0 <= j < |extra| :: !EqualsIgnoreCase(extra[j].key, param.name)
    ensures ArgumentFor(param, front + extra + back) == ArgumentFor(param, front + back)
    decreases |front|
  {
    if front == [] {
      assert front + extra + back == extra + back;
      assert front + back == back;
      FirstMatchSkips(extra, back, param.name);
    } else {
      var a := front[0];
      assert front + extra + back == [a] + (front[1..] + extra + back);
      assert front + back == [a] + (front[1..] + back);
      ArgumentForCons(param, a, front[1..] + extra + back);
      ArgumentForCons(param, a, front[1..] + back);
      if !EqualsIgnoreCase(a.key, param.name) {
        ArgumentForSkips(param, front[1..], extra, back);
      }
    }
  }

  /** An argument in front either decides the parameter's value or is passed over. */
  lemma ArgumentForCons(param: CtorParam, a: Argument, rest: seq<Argument>)
    ensures EqualsIgnoreCase(a.key, param.name) ==> ArgumentFor(param, [a] + rest) == ArgumentFor(param, [a])
    ensures !EqualsIgnoreCase(a.key, param.name) ==> ArgumentFor(param, [a] + rest) == ArgumentFor(param, rest)
  {
    assert ([a] + rest)[1..] == rest;
    assert [a][1..] == [];
  }

  lemma {:induction false} FirstMatchSkips(extra: seq<Argument>, arguments: seq<Argument>, name: string)
    requires forall j | 0 <= j < |extra| :: !EqualsIgnoreCase(extra[j].key, name)
    ensures FirstMatch(extra + arguments, name) ==
      (match FirstMatch(arguments, name) case None => None case Some(i) => Some(i + |extra|))
  {
    if extra != [] {
      assert (extra + arguments)[1..] == extra[1..] + arguments;
      FirstMatchSkips(extra[1..], arguments, name);
    } else {
      assert extra + arguments == arguments;
    }
  }

  /** Two argument lists that resolve every parameter alike give the same values. */
  lemma {:induction false} ConstructorValuesAgree(params: seq<CtorParam>, a: seq<Argument>, b: seq<Argument>)
    requires forall k | 0 <= k < |params| :: ArgumentFor(params[k], a) == ArgumentFor(params[k], b)
    ensures ConstructorValues(params, a) == ConstructorValues(params, b)
    decreases |params|
  {
    if params != [] {
      ConstructorValuesAgree(params[1..], a, b);
    }
  }

  /** With no arguments at all every parameter gets its type's default. */
  lemma NoArgumentsGiveDefaults(params: seq<CtorParam>)
    ensures ConstructorValues(params, []) ==
      Success(seq(|params|, k requires 0 <= k < |params| => DefaultValue(params[k].paramType)))
  {
    ConstructorValuesSucceed(params, [], seq(|params|, k requires 0 <= k < |params| => DefaultValue(params[k].paramType)));
  }

  /** A type with other than one constructor passes registration, yet every Create of it fails. */
  lemma ConstructorCountCheckedAtCreate(types: seq<PipeType>, i: nat, name: string, arguments: seq<Argument>)
    requires (forall k | 0 <= k < |types| :: Registrable(types[k])) && DistinctPipeNames(types)
    requires i < |types| && types[i].pipeName == Some(name) && |types[i].constructors| != 1
    ensures PipeMapping(types).Success?
    ensures CreatePipe(PipeActivator(PipeMapping(types).value), name, arguments)
      == Failure(SingleConstructorRequired(Name(types[i].cls)))
  {
    PipeMappingLaws(types);
  }

  /** The value a string constructor parameter called `name` receives: the text of the
      first key equal to `name` ignoring case, or null when there is none. */
  function StringArgument(arguments: seq<Argument>, name: string): Result<Option<string>, Error> {
    match FirstMatch(arguments, name)
    case None => Success(None)
    case Some(i) =>
      if arguments[i].value.None? then Failure(MissingArgumentValue(arguments[i].key))
      else Success(arguments[i].value)
  }

  /** A registered number pipe is created with the format argument, or fails with it. */
  lemma CreateNumberPipe(act: PipeActivator, name: string, arguments: seq<Argument>)
    requires name in act.pipes && act.pipes[name] == NumberPipeType
    ensures StringArgument(arguments, "format").Success? ==>
      CreatePipe(act, name, arguments) == Success(NumberPipe(StringArgument(arguments, "format").value))
    ensures StringArgument(arguments, "format").Failure? ==>
      CreatePipe(act, name, arguments) == Failure(StringArgument(arguments, "format").error)
  {
    var params := NumberPipeType.constructors[0];
    assert params[1..] == [];
  }

  /** A registered datetime pipe is created with the format argument, or fails with it. */
  lemma CreateDateTimePipe(act: PipeActivator, name: string, arguments: seq<Argument>)
    requires name in act.pipes && act.pipes[name] == DateTimePipeType
    ensures StringArgument(arguments, "format").Success? ==>
      CreatePipe(act, name, arguments) == Success(DateTimePipe(StringArgument(arguments, "format").value))
    ensures StringArgument(arguments, "format").Failure? ==>
      CreatePipe(act, name, arguments) == Failure(StringArgument(arguments, "format").error)
  {
    var params := DateTimePipeType.constructors[0];
    assert params[1..] == [];
  }

  /** A registered boolean pipe is created with the trueValue and falseValue arguments; a
      key present with a null value fails it, trueValue first. */
  lemma CreateBooleanPipe(act: PipeActivator, name: string, arguments: seq<Argument>)
    requires name in act.pipes && act.pipes[name] == BooleanPipeType
    ensures StringArgument(arguments, "trueValue").Success? && StringArgument(arguments, "falseValue").Success? ==>
      CreatePipe(act, name, arguments) ==
        Success(BooleanPipe(StringArgument(arguments, "trueValue").value, StringArgument(arguments, "falseValue").value))
    ensures StringArgument(arguments, "trueValue").Failure? ==>
      CreatePipe(act, name, arguments) == Failure(StringArgument(arguments, "trueValue").error)
    ensures StringArgument(arguments, "trueValue").Success? && StringArgument(arguments, "falseValue").Failure? ==>
      CreatePipe(act, name, arguments) == Failure(StringArgument(arguments, "falseValue").error)
  {
    var params := BooleanPipeType.constructors[0];
    assert params[1..][1..] == [];
  }

  /** The built-in registry of the library: the three pipes under their names. */
  lemma BuiltInRegistry()
    ensures PipeMapping([DateTimePipeType, NumberPipeType, BooleanPipeType])
      == Success(map["datetime" := DateTimePipeType, "number" := NumberPipeType, "boolean" := BooleanPipeType])
  {
    var m1 := map["datetime" := DateTimePipeType];
    var m2 := m1["number" := NumberPipeType];
    var m3 := m2["boolean" := BooleanPipeType];
    assert AddTypes(m2, [BooleanPipeType]) == AddTypes(m3, []);
    assert AddTypes(m1, [NumberPipeType, BooleanPipeType]) == AddTypes(m2, [BooleanPipeType]);
    assert PipeMapping([DateTimePipeType, NumberPipeType, BooleanPipeType]) == AddTypes(m1, [NumberPipeType, BooleanPipeType]);
  }
}
