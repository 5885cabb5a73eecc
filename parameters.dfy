/** The four parameter variants a template is bound against. Each is a named, read-only
    value whose text falls back to its own Name when the value is null. */
module Parameters {
  import opened Wrappers
  import opened Formatting

  datatype Parameter =
    | TextParameter(name: string, text: Option<string>)
    | NumberParameter(name: string, number: Option<Decimal>)
    | DateTimeParameter(name: string, dateTime: Option<DateTime>)
    | BooleanParameter(name: string, boolean: Option<bool>)
  {
    /** False exactly when the parameter was constructed with a null value. */
    predicate HasValue() {
      match this
      case TextParameter(_, v) => v.Some?
      case NumberParameter(_, v) => v.Some?
      case DateTimeParameter(_, v) => v.Some?
      case BooleanParameter(_, v) => v.Some?
    }
  }

  /** The full name of the variant's .NET type, as `parameter.GetType()` prints it. */
  function TypeName(p: Parameter): string {
    match p
    case TextParameter(_, _) => "TemplateBinder.Parameters.TextParameter"
    case NumberParameter(_, _) => "TemplateBinder.Parameters.NumberParameter"
    case DateTimeParameter(_, _) => "TemplateBinder.Parameters.DateTimeParameter"
    case BooleanParameter(_, _) => "TemplateBinder.Parameters.BooleanParameter"
  }

  /** bool.ToString(). */
  function BoolText(b: bool): string {
    if b then "True" else "False"
  }

  /** IParameter.GetText(): the value's default text form, or the Name when the value is null. */
  function GetText(p: Parameter, culture: Culture): (r: string)
    ensures !p.HasValue() ==> r == p.name
    ensures p.TextParameter? && p.text.Some? ==> r == p.text.value
    ensures p.BooleanParameter? && p.boolean.Some? ==> r == BoolText(p.boolean.value)
    ensures p.NumberParameter? && p.number.Some? ==> r == culture.decimalToString(p.number.value, None)
    ensures p.DateTimeParameter? && p.dateTime.Some? ==> r == culture.dateTimeToString(p.dateTime.value, Some(RoundTripFormat))
  {
    match p
    case TextParameter(name, v) => v.GetOr(name)
    case NumberParameter(name, v) => if v.Some? then culture.decimalToString(v.value, None) else name
    case DateTimeParameter(name, v) => if v.Some? then culture.dateTimeToString(v.value, Some(RoundTripFormat)) else name
    case BooleanParameter(name, v) => if v.Some? then BoolText(v.value) else name
  }

  /** The text of a parameter depends on its Name and value only: two parameters that agree
      on both render identically, and a valued parameter's text does not depend on its Name. */
  lemma TextIgnoresNameWhenValued(p: Parameter, q: Parameter, culture: Culture)
    requires p.HasValue() && q.HasValue()
    requires p.(name := q.name) == q
    ensures GetText(p, culture) == GetText(q, culture)
  {
  }

  /** Boolean parameters render as "True", "False" or their Name, so two boolean parameters
      with the same name render alike exactly when their values agree. */
  lemma BooleanTextDistinguishesValues(name: string, a: Option<bool>, b: Option<bool>, culture: Culture)
    requires name != "True" && name != "False"
    ensures GetText(BooleanParameter(name, a), culture) == GetText(BooleanParameter(name, b), culture) <==> a == b
  {
  }
}
