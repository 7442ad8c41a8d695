/**
 * The older copy of the task codec, which takes owned strings and declares
 * its own conversion error. Its proximity, status and task values and its
 * `Display` text are those of `Tasks`; this module gives its parsers and
 * proves that they agree with the newer codec.
 */
module LegacyTasks {

  import opened Results
  import opened Strings
  import opened Calendar
  import opened Tasks
  import Numeric
  import DE = DatetimeErrors
  import TE = TaskErrors

  datatype TaskConversationError =
    | RangeError
    | ParseError(cause: Numeric.ParseIntError)
    | TooFewArgumentsError

  /** `TaskProximity::try_from(String)`: exactly the five codes, else `RangeError`. */
  function ProximityTryFrom(value: string): (r: Result<Proximity, TaskConversationError>)
    ensures r.Ok? <==> value in ProximityCodes
    ensures r.Ok? ==> ProximityCode(r.value) == value
    ensures r.Err? ==> r.error == RangeError
  {
    match value
    case "VH" => Ok(VeryHigh)
    case "H" => Ok(High)
    case "M" => Ok(Medium)
    case "L" => Ok(Low)
    case "VL" => Ok(VeryLow)
    case _ => Err(RangeError)
  }

  /** `TaskStatus::try_from(String)`: exactly the four codes, else `RangeError`. */
  function StatusTryFrom(value: string): (r: Result<Status, TaskConversationError>)
    ensures r.Ok? <==> value in StatusCodes
    ensures r.Ok? ==> StatusCode(r.value) == value
    ensures r.Err? ==> r.error == RangeError
  {
    match value
    case "Td" => Ok(Todo)
    case "In" => Ok(InProgress)
    case "Fn" => Ok(Finished)
    case "Dl" => Ok(Deleted)
    case _ => Err(RangeError)
  }

  /** This module's copy of the datetime error re-mapping. */
  function ConvertDatetimeError(e: DE.DatetimeError): (r: TaskConversationError)
    ensures r.RangeError? <==> e.RangeError?
    ensures r.ParseError? <==> e.ParseError?
    ensures r.TooFewArgumentsError? <==> e.TooFewArgumentsError?
    ensures e.ParseError? ==> r.cause == e.cause
  {
    match e
    case RangeError => RangeError
    case ParseError(cause) => ParseError(cause)
    case TooFewArgumentsError => TooFewArgumentsError
  }

  /** `Task::try_from(String)`: the same steps, in the same order, as `Tasks.ParseTask`. */
  function TaskTryFrom(value: string): (r: Result<Task, TaskConversationError>)
    ensures var tokens := Split(value, ' ');
      |tokens| < 4 ==> r == Err(TooFewArgumentsError)
    ensures var tokens := Split(value, ' ');
      |tokens| >= 4 && ParseDatetime(tokens[0]).Err? ==>
        r == Err(ConvertDatetimeError(ParseDatetime(tokens[0]).error))
    ensures var tokens := Split(value, ' ');
      r.Ok? ==> |tokens| >= 4 && IsValidTask(r.value) && r.value.content == tokens[3]
  {
    var tokens := Split(value, ' ');
    if |tokens| < 4 then Err(TooFewArgumentsError)
    else
      match ParseDatetime(tokens[0])
      case Err(e) => Err(ConvertDatetimeError(e))
      case Ok(datetime) =>
        match ProximityTryFrom(tokens[1])
        case Err(e) => Err(e)
        case Ok(proximity) =>
          match StatusTryFrom(tokens[2])
          case Err(e) => Err(e)
          case Ok(status) => Ok(Task(datetime, proximity, status, tokens[3]))
  }

  /** The one-to-one correspondence between this module's errors and `TaskErrors`'. */
  function FromTaskError(e: TE.TaskConversationError): (r: TaskConversationError)
    ensures r.RangeError? <==> e.RangeError?
    ensures r.ParseError? <==> e.ParseError?
    ensures r.TooFewArgumentsError? <==> e.TooFewArgumentsError?
    ensures e.ParseError? ==> r.cause == e.cause
  {
    match e
    case RangeError => RangeError
    case ParseError(cause) => ParseError(cause)
    case TooFewArgumentsError => TooFewArgumentsError
  }

  /** The two codecs accept the same lines, build the same tasks and fail with corresponding errors. */
  lemma {:induction false} TaskTryFromAgrees(value: string)
    ensures TaskTryFrom(value).Ok? <==> ParseTask(value).Ok?
    ensures TaskTryFrom(value).Ok? ==> TaskTryFrom(value).value == ParseTask(value).value
    ensures TaskTryFrom(value).Err? ==> TaskTryFrom(value).error == FromTaskError(ParseTask(value).error)
  {
    var tokens := Split(value, ' ');
    if |tokens| >= 4 && ParseDatetime(tokens[0]).Ok? && tokens[1] in ProximityCodes && tokens[2] in StatusCodes {
      ProximityCodeIsInjective(ProximityTryFrom(tokens[1]).value, ParseProximity(tokens[1]).value);
      StatusCodeIsInjective(StatusTryFrom(tokens[2]).value, ParseStatus(tokens[2]).value);
    }
  }

  /** A valid task whose content has no ' ' survives this codec's parse of its `Display` text. */
  lemma LegacyRoundTrip(t: Task)
    requires IsValidTask(t) && ' ' !in t.content
    ensures TaskTryFrom(FormatTask(t)) == Ok(t)
  {
    TaskRoundTrip(t);
    TaskTryFromAgrees(FormatTask(t));
  }

}
