/** The failures of task conversion, mirroring the datetime failures. */
module TaskErrors {

  import opened Numeric

  datatype TaskConversationError =
    | RangeError                          // bad datetime value or unknown proximity/status code
    | ParseError(cause: ParseIntError)    // a datetime field is not an unsigned integer
    | TooFewArgumentsError                // fewer fields than a task (or its datetime) needs

  const ParseErrorPrefix := "Error occurred during parse integer: "

  /** The `Display` text of each variant. */
  function Message(e: TaskConversationError): (m: string)
    ensures e.RangeError? ==> m == "This Task has values that are out of range."
    ensures e.ParseError? ==> m == ParseErrorPrefix + Describe(e.cause)
    ensures e.TooFewArgumentsError? ==> m == "Too few arguments."
  {
    match e
    case RangeError => "This Task has values that are out of range."
    case ParseError(cause) => ParseErrorPrefix + Describe(cause)
    case TooFewArgumentsError => "Too few arguments."
  }

  /** Different errors display different messages, so the message identifies the error. */
  lemma MessageIsInjective(e1: TaskConversationError, e2: TaskConversationError)
    ensures Message(e1) == Message(e2) ==> e1 == e2
  {
    if Message(e1) == Message(e2) {
      assert Message(e1)[0] == Message(e2)[0];
      if e1.ParseError? && e2.ParseError? {
        var d1, d2 := Describe(e1.cause), Describe(e2.cause);
        assert (ParseErrorPrefix + d1)[|ParseErrorPrefix|..] == d1;
        assert (ParseErrorPrefix + d2)[|ParseErrorPrefix|..] == d2;
        DescribeIsInjective(e1.cause, e2.cause);
      }
    }
  }

}
