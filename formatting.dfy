/** The .NET value types the parameters carry and the culture-dependent formatting
    routines applied to them. Their internals are not modelled: `Decimal` and `DateTime`
    are opaque, and a `Culture` supplies the formatting functions, so every result below
    holds for whatever the runtime's formatting returns. */
module Formatting {
  import opened Wrappers

  /** System.Decimal. */
  type Decimal(==)

  /** System.DateTime. */
  type DateTime(==)

  /** The formatting the runtime performs. `None` as a format is a null format string,
      which .NET treats like the parameterless ToString(). The two `Rejected` functions
      say for which value and format string ToString(format) throws FormatException; the
      `ToString` functions give the text when it does not. */
  datatype Culture = Culture(
    decimalToString: (Decimal, Option<string>) -> string,
    dateTimeToString: (DateTime, Option<string>) -> string,
    decimalFormatRejected: (Decimal, string) -> bool,
    dateTimeFormatRejected: (DateTime, string) -> bool)

  /** The round-trip format specifier DateTimeParameter renders with. */
  const RoundTripFormat: string := "O"

  /** decimal.ToString(format) throws: a null format never does. */
  predicate RejectsDecimalFormat(culture: Culture, d: Decimal, format: Option<string>) {
    format.Some? && culture.decimalFormatRejected(d, format.value)
  }

  /** DateTime.ToString(format) throws: neither a null format nor the standard "O" does. */
  predicate RejectsDateTimeFormat(culture: Culture, t: DateTime, format: Option<string>) {
    format.Some? && format.value != RoundTripFormat && culture.dateTimeFormatRejected(t, format.value)
  }
}
