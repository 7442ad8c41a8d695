/** The failures of date, time and datetime construction and parsing. */
module DatetimeErrors {

  import opened Numeric

  datatype DatetimeError =
    | RangeError                          // a parsed or given value is out of range
    | ParseError(cause: ParseIntError)    // a field is not an unsigned integer of its width
    | TooFewArgumentsError                // fewer delimited fields than the format needs

  const ParseErrorPrefix := "Error occurred during parse integer: "

  /** The `Display` text of each variant. */
  function Message(e: DatetimeError): (m: string)
    ensures e.RangeError? ==> m == "This Datetime has values that are out of range."
    ensures e.ParseError? ==> m == ParseErrorPrefix + Describe(e.cause)
    ensures e.TooFewArgumentsError? ==> m == "Too few arguments."
  {
    match e
    case RangeError => "This Datetime has values that are out of range."
    case ParseError(cause) => ParseErrorPrefix + Describe(cause)
    case TooFewArgumentsError => "Too few arguments."
  }

  /** Different errors display different messages, so the message identifies the error. */
  lemma MessageIsInjective(e1: DatetimeError, e2: DatetimeError)
    ensures Message(e1) == Message(e2) ==> e1 == e2
  {
    if Message(e1) == Message(e2) {
      assert Message(e1)[0] == Message(e2)[0];
      if e1.ParseError? && e2.ParseError? {
        var d1, d2 := Describe(e1.cause), Describe(e2.cause);
        assert (ParseErrorPrefix + d1)[|ParseErrorPrefix|..] == d1;
        assert (ParseErrorPrefix + d2)[|ParseErrorPrefix|..] == d2;
        DescribeIsInjective(e1.cause, e2.cause);
      }
    }
  }

}
