/**
 * The task line codec: the proximity and status code tables, and a task
 * as one ' '-separated line `<datetime> <proximity> <status> <content>`.
 */
module Tasks {

  import opened Results
  import opened Strings
  import opened Calendar
  import DE = DatetimeErrors
  import TE = TaskErrors

  datatype Proximity = VeryHigh | High | Medium | Low | VeryLow

  datatype Status = Todo | InProgress | Finished | Deleted

  datatype Task = Task(datetime: Datetime, proximity: Proximity, status: Status, content: string)

  const ProximityCodes: set<string> := {"VH", "H", "M", "L", "VL"}

  const StatusCodes: set<string> := {"Td", "In", "Fn", "Dl"}

  // -------------------------------------------------------------- proximity

  /** `Display for TaskProximity`. */
  function ProximityCode(p: Proximity): (code: string)
    ensures code in ProximityCodes
  {
    match p
    case VeryHigh => "VH"
    case High => "H"
    case Medium => "M"
    case Low => "L"
    case VeryLow => "VL"
  }

  /** `TaskProximity::try_from`: exactly the five codes, case-sensitive; anything else is `RangeError`. */
  function ParseProximity(code: string): (r: Result<Proximity, TE.TaskConversationError>)
    ensures r.Ok? <==> code in ProximityCodes
    ensures r.Ok? ==> ProximityCode(r.value) == code
    ensures r.Err? ==> r.error == TE.RangeError
  {
    match code
    case "VH" => Ok(VeryHigh)
    case "H" => Ok(High)
    case "M" => Ok(Medium)
    case "L" => Ok(Low)
    case "VL" => Ok(VeryLow)
    case _ => Err(TE.RangeError)
  }

  lemma ProximityRoundTrip(p: Proximity)
    ensures ParseProximity(ProximityCode(p)) == Ok(p)
  {
  }

  /** No two proximities share a code. */
  lemma ProximityCodeIsInjective(p: Proximity, q: Proximity)
    ensures ProximityCode(p) == ProximityCode(q) ==> p == q
  {
    ProximityRoundTrip(p);
    ProximityRoundTrip(q);
  }

  // ----------------------------------------------------------------- status

  /** `Display for TaskStatus`. */
  function StatusCode(s: Status): (code: string)
    ensures code in StatusCodes
  {
    match s
    case Todo => "Td"
    case InProgress => "In"
    case Finished => "Fn"
    case Deleted => "Dl"
  }

  /** `TaskStatus::try_from`: exactly the four codes, case-sensitive; anything else is `RangeError`. */
  function ParseStatus(code: string): (r: Result<Status, TE.TaskConversationError>)
    ensures r.Ok? <==> code in StatusCodes
    ensures r.Ok? ==> StatusCode(r.value) == code
    ensures r.Err? ==> r.error == TE.RangeError
  {
    match code
    case "Td" => Ok(Todo)
    case "In" => Ok(InProgress)
    case "Fn" => Ok(Finished)
    case "Dl" => Ok(Deleted)
    case _ => Err(TE.RangeError)
  }

  lemma StatusRoundTrip(s: Status)
    ensures ParseStatus(StatusCode(s)) == Ok(s)
  {
  }

  /** No two statuses share a code. */
  lemma StatusCodeIsInjective(s: Status, t: Status)
    ensures StatusCode(s) == StatusCode(t) ==> s == t
  {
    StatusRoundTrip(s);
    StatusRoundTrip(t);
  }

  // ------------------------------------------------------------------- task

  /** The re-mapping of a datetime failure into a task failure, variant for variant. */
  function FromDatetimeError(e: DE.DatetimeError): (r: TE.TaskConversationError)
    ensures r.RangeError? <==> e.RangeError?
    ensures r.ParseError? <==> e.ParseError?
    ensures r.TooFewArgumentsError? <==> e.TooFewArgumentsError?
    ensures e.ParseError? ==> r.cause == e.cause
  {
    match e
    case RangeError => TE.RangeError
    case ParseError(cause) => TE.ParseError(cause)
    case TooFewArgumentsError => TE.TooFewArgumentsError
  }

  /** The re-mapping loses nothing, and keeps every message except the range error's, which names the task instead of the datetime. */
  lemma FromDatetimeErrorIsLossless(e1: DE.DatetimeError, e2: DE.DatetimeError)
    ensures FromDatetimeError(e1) == FromDatetimeError(e2) ==> e1 == e2
    ensures !e1.RangeError? ==> TE.Message(FromDatetimeError(e1)) == DE.Message(e1)
    ensures e1.RangeError? ==> TE.Message(FromDatetimeError(e1)) != DE.Message(e1)
  {
    if e1.RangeError? {
      assert |TE.Message(FromDatetimeError(e1))| != |DE.Message(e1)|;
    }
  }

  predicate IsValidTask(t: Task) {
    IsValidDatetime(t.datetime)
  }

  /**
   * `Task::try_from(&str)`: split on single ' ' (repeated spaces give empty
   * tokens); at least four tokens, else `TooFewArgumentsError`; then the
   * datetime (its error re-mapped), the proximity and the status in that
   * order, the first failure deciding the error; the content is token 3
   * alone, later tokens are dropped.
   */
  function ParseTask(line: string): (r: Result<Task, TE.TaskConversationError>)
    ensures var tokens := Split(line, ' ');
      |tokens| < 4 ==> r == Err(TE.TooFewArgumentsError)
    ensures var tokens := Split(line, ' ');
      |tokens| >= 4 && ParseDatetime(tokens[0]).Err? ==>
        r == Err(FromDatetimeError(ParseDatetime(tokens[0]).error))
    ensures var tokens := Split(line, ' ');
      |tokens| >= 4 && ParseDatetime(tokens[0]).Ok? && tokens[1] !in ProximityCodes ==>
        r == Err(TE.RangeError)
    ensures var tokens := Split(line, ' ');
      |tokens| >= 4 && ParseDatetime(tokens[0]).Ok? && tokens[1] in ProximityCodes && tokens[2] !in StatusCodes ==>
        r == Err(TE.RangeError)
    ensures var tokens := Split(line, ' ');
      |tokens| >= 4 && ParseDatetime(tokens[0]).Ok? && tokens[1] in ProximityCodes && tokens[2] in StatusCodes ==>
        r == Ok(Task(ParseDatetime(tokens[0]).value, ParseProximity(tokens[1]).value, ParseStatus(tokens[2]).value, tokens[3]))
    ensures var tokens := Split(line, ' ');
      r.Ok? ==>
        |tokens| >= 4 && IsValidTask(r.value) &&
        ParseDatetime(tokens[0]) == Ok(r.value.datetime) &&
        ProximityCode(r.value.proximity) == tokens[1] &&
        StatusCode(r.value.status) == tokens[2] &&
        r.value.content == tokens[3] && ' ' !in r.value.content
  {
    var tokens := Split(line, ' ');
    if |tokens| < 4 then Err(TE.TooFewArgumentsError)
    else
      assert tokens[3] in tokens;
      match ParseDatetime(tokens[0])
      case Err(e) => Err(FromDatetimeError(e))
      case Ok(datetime) =>
        match ParseProximity(tokens[1])
        case Err(e) => Err(e)
        case Ok(proximity) =>
          match ParseStatus(tokens[2])
          case Err(e) => Err(e)
          case Ok(status) => Ok(Task(datetime, proximity, status, tokens[3]))
  }

  /** `Display for Task`: the four fields joined by single spaces. */
  function FormatTask(t: Task): string {
    DatetimeToString(t.datetime) + " " + ProximityCode(t.proximity) + " " + StatusCode(t.status) + " " + t.content
  }

  /** The line ends with the content, and its only '\n' characters are the content's. */
  lemma FormatTaskEndsWithContent(t: Task)
    ensures var line := FormatTask(t);
      |line| > |t.content| + 3 && line[|line| - |t.content|..] == t.content
    ensures '\n' in FormatTask(t) <==> '\n' in t.content
  {
    var d := DatetimeToString(t.datetime);
    var head := d + " " + ProximityCode(t.proximity) + " " + StatusCode(t.status) + " ";
    assert FormatTask(t) == head + t.content;
    assert '\n' !in d && '\n' !in ProximityCode(t.proximity) && '\n' !in StatusCode(t.status);
  }

  /** The tokens of a formatted task: its three codes, then the words of its content. */
  lemma SplitFormatTask(t: Task)
    ensures Split(FormatTask(t), ' ') ==
      [DatetimeToString(t.datetime), ProximityCode(t.proximity), StatusCode(t.status)] + Split(t.content, ' ')
  {
    var d, p, s, c := DatetimeToString(t.datetime), ProximityCode(t.proximity), StatusCode(t.status), t.content;
    assert FormatTask(t) == d + [' '] + p + [' '] + s + [' '] + c;
    assert ' ' !in d;
    SplitThreeFields(d, p, s, c, ' ');
  }

  /** Parsing a formatted valid task gives it back with its content cut to the first ' '-separated word. */
  lemma ParseFormatTask(t: Task)
    requires IsValidTask(t)
    ensures ParseTask(FormatTask(t)) == Ok(t.(content := Split(t.content, ' ')[0]))
  {
    SplitFormatTask(t);
    DatetimeRoundTrip(t.datetime);
    ProximityRoundTrip(t.proximity);
    StatusRoundTrip(t.status);
  }

  /** A valid task whose content has no ' ' survives formatting and parsing unchanged. */
  lemma TaskRoundTrip(t: Task)
    requires IsValidTask(t) && ' ' !in t.content
    ensures ParseTask(FormatTask(t)) == Ok(t)
  {
    ParseFormatTask(t);
    SplitWithoutSeparator(t.content, ' ');
  }

  /** Content with a ' ' does not survive: it comes back truncated. */
  lemma MultiWordContentIsTruncated(t: Task)
    requires IsValidTask(t) && ' ' in t.content
    ensures ParseTask(FormatTask(t)).Ok?
    ensures ParseTask(FormatTask(t)).value.content != t.content
    ensures |ParseTask(FormatTask(t)).value.content| < |t.content|
  {
    ParseFormatTask(t);
    JoinSplit(t.content, ' ');
    var words := Split(t.content, ' ');
    assert words[0] in words;
    assert |words| > 1;
    assert Join(words, ' ') == words[0] + [' '] + Join(words[1..], ' ');
  }

  /** Tokens after the fourth are dropped. */
  lemma ExtraTokensIgnored(line: string, extra: string)
    requires |Split(line, ' ')| >= 4
    ensures ParseTask(line + " " + extra) == ParseTask(line)
  {
    SplitAround(line, extra, ' ');
  }

}
