/**
 * The task store: an in-memory sequence of tasks, replaced wholesale by a
 * best-effort load of newline-separated text and written back as one line
 * per task. The file system is outside the model: load receives the
 * outcome of reading the file, and save returns the text it would write.
 */
module Storage {

  import opened Results
  import opened Strings
  import opened Tasks
  import opened Calendar
  import opened Numeric
  import TE = TaskErrors

  /** A failed file read or write, described by the operating system. */
  datatype IoError = IoError(description: string)

  /** The successful parses of `lines`, in order; lines that fail to parse are skipped. */
  function ParseLines(lines: seq<string>): (tasks: seq<Task>)
    ensures |tasks| <= |lines|
    ensures forall t :: t in tasks ==> exists line :: line in lines && ParseTask(line) == Ok(t)
    ensures (forall line :: line in lines ==> ParseTask(line).Ok?) ==> |tasks| == |lines|
  {
    if lines == [] then []
    else
      var rest := ParseLines(lines[1..]);
      assert forall line :: line in lines[1..] ==> line in lines;
      match ParseTask(lines[0])
      case Ok(t) => [t] + rest
      case Err(_) => rest
  }

  /** The pipeline of `load_from_disk`: split on '\n', parse every line, keep the successes. */
  function LoadTasks(raw: string): (tasks: seq<Task>)
    ensures |tasks| <= |Split(raw, '\n')|
    ensures forall t :: t in tasks ==> IsValidTask(t) && ' ' !in t.content && '\n' !in t.content
  {
    var lines := Split(raw, '\n');
    var tasks := ParseLines(lines);
    assert forall t :: t in tasks ==> '\n' !in t.content by {
      forall t | t in tasks ensures '\n' !in t.content {
        var line :| line in lines && ParseTask(line) == Ok(t);
        ContentComesFromLine(line, t);
      }
    }
    tasks
  }

  /** Each task's line, as `Display` writes it. */
  function FormatLines(tasks: seq<Task>): (lines: seq<string>)
    ensures |lines| == |tasks|
    ensures forall i :: 0 <= i < |tasks| ==> lines[i] == FormatTask(tasks[i])
  {
    if tasks == [] then [] else [FormatTask(tasks[0])] + FormatLines(tasks[1..])
  }

  /** The text of `save_from_disk`: the task lines joined by '\n', plus one trailing '\n'. */
  function SaveText(tasks: seq<Task>): (text: string)
    ensures |text| >= 1 && text[|text| - 1] == '\n'
    ensures tasks == [] ==> text == "\n"
  {
    Join(FormatLines(tasks), '\n') + "\n"
  }

  class TaskStorage {

    var tasks: seq<Task>

    /** `TaskStorage::new`: an empty store. */
    constructor ()
      ensures tasks == []
    {
      tasks := [];
    }

    /**
     * `load_from_disk`, given the outcome of reading the file: on a read
     * failure the error is returned and the tasks are left alone; otherwise
     * the tasks are replaced by the parses of the file's lines.
     */
    method LoadFromDisk(file: Result<string, IoError>) returns (r: Result<(), IoError>)
      modifies this
      ensures file.Err? ==> r == Err(file.error) && tasks == old(tasks)
      ensures file.Ok? ==> r == Ok(()) && tasks == LoadTasks(file.value)
    {
      if file.Err? {
        return Err(file.error);
      }
      tasks := LoadTasks(file.value);
      return Ok(());
    }

    /** `save_from_disk` up to the write: the text it writes. The tasks are not changed. */
    method SaveFromDisk() returns (text: string)
      ensures text == SaveText(tasks)
    {
      text := Join(FormatLines(tasks), '\n') + "\n";
    }

  }

  // ------------------------------------------------------------------ lemmas

  /** A parsed task's content is a piece of its line, so it holds no character the line lacks. */
  lemma ContentComesFromLine(line: string, t: Task)
    requires ParseTask(line) == Ok(t)
    ensures forall c :: c in t.content ==> c in line
  {
    var tokens := Split(line, ' ');
    JoinSplit(line, ' ');
    JoinContainsPiece(tokens, 3, ' ');
  }

  lemma {:induction false} JoinContainsPiece(parts: seq<string>, i: nat, sep: char)
    requires i < |parts|
    ensures forall c :: c in parts[i] ==> c in Join(parts, sep)
    decreases |parts|
  {
    if |parts| > 1 {
      if i > 0 {
        JoinContainsPiece(parts[1..], i - 1, sep);
      }
      assert Join(parts, sep) == parts[0] + [sep] + Join(parts[1..], sep);
    }
  }

  lemma ParseLinesCons(line: string, rest: seq<string>)
    ensures ParseLines([line] + rest) ==
      (if ParseTask(line).Ok? then [ParseTask(line).value] else []) + ParseLines(rest)
  {
    assert ([line] + rest)[1..] == rest;
  }

  lemma ParseLinesConsOk(line: string, t: Task, rest: seq<string>)
    requires ParseTask(line) == Ok(t)
    ensures ParseLines([line] + rest) == [t] + ParseLines(rest)
  {
    assert ([line] + rest)[1..] == rest;
  }

  lemma ParseFormatLinesStep(head: Task, rest: seq<Task>)
    requires IsValidTask(head) && ' ' !in head.content
    requires ParseLines(FormatLines(rest)) == rest
    ensures ParseLines(FormatLines([head] + rest)) == [head] + rest
  {
    TaskRoundTrip(head);
    assert ([head] + rest)[1..] == rest;
    ParseLinesConsOk(FormatTask(head), head, FormatLines(rest));
  }

  /** Parsing distributes over concatenation of line sequences, so file order is kept. */
  lemma {:induction false} ParseLinesAppend(a: seq<string>, b: seq<string>)
    ensures ParseLines(a + b) == ParseLines(a) + ParseLines(b)
    decreases |a|
  {
    if a == [] {
      assert a + b == b;
    } else {
      assert (a + b)[1..] == a[1..] + b;
      ParseLinesAppend(a[1..], b);
    }
  }

  /** Loading two texts joined by a newline gives the first text's tasks, then the second's. */
  lemma LoadConcatenation(first: string, second: string)
    ensures LoadTasks(first + "\n" + second) == LoadTasks(first) + LoadTasks(second)
  {
    SplitAround(first, second, '\n');
    ParseLinesAppend(Split(first, '\n'), Split(second, '\n'));
  }

  /** The empty final segment after a trailing newline never yields a task. */
  lemma TrailingNewlineIgnored(raw: string)
    ensures LoadTasks(raw + "\n") == LoadTasks(raw)
  {
    LoadConcatenation(raw, "");
    assert raw + "\n" + "" == raw + "\n";
    assert ParseTask("") == Err(TE.TooFewArgumentsError);
  }

  /** Formatted valid tasks whose content has no ' ' parse back to themselves. */
  lemma {:induction false} ParseFormatLines(tasks: seq<Task>)
    requires forall i :: 0 <= i < |tasks| ==> IsValidTask(tasks[i]) && ' ' !in tasks[i].content
    ensures ParseLines(FormatLines(tasks)) == tasks
    decreases |tasks|
  {
    if tasks != [] {
      var head, rest := tasks[0], tasks[1..];
      ParseFormatLines(rest);
      ParseFormatLinesStep(head, rest);
      assert tasks == [head] + rest;
    }
  }

  /** Loading the saved text gives back the same tasks when every task is valid and its content holds neither ' ' nor '\n'. */
  lemma LoadSaveRoundTrip(tasks: seq<Task>)
    requires forall t :: t in tasks ==> IsValidTask(t) && ' ' !in t.content && '\n' !in t.content
    ensures LoadTasks(SaveText(tasks)) == tasks
  {
    var lines := FormatLines(tasks);
    var joined := Join(lines, '\n');
    assert SaveText(tasks) == joined + "\n";
    TrailingNewlineIgnored(joined);
    if tasks == [] {
      assert Split(joined, '\n') == [""];
      ParseLinesCons("", []);
      assert ParseTask("") == Err(TE.TooFewArgumentsError);
    } else {
      assert forall i :: 0 <= i < |tasks| ==> tasks[i] in tasks;
      ParseFormatLines(tasks);
      FormattedLinesHaveNoNewline(tasks);
      SplitJoin(lines, '\n');
      assert LoadTasks(joined) == ParseLines(Split(joined, '\n'));
    }
  }

  /** Lines formatted from tasks without '\n' in their content hold no '\n'. */
  lemma FormattedLinesHaveNoNewline(tasks: seq<Task>)
    requires forall t :: t in tasks ==> '\n' !in t.content
    ensures forall line :: line in FormatLines(tasks) ==> '\n' !in line
  {
    var lines := FormatLines(tasks);
    forall line | line in lines ensures '\n' !in line {
      var i :| 0 <= i < |lines| && lines[i] == line;
      assert tasks[i] in tasks;
      FormatTaskEndsWithContent(tasks[i]);
    }
  }

  /** Saving what was loaded from saved text reproduces that text, for any sequence of tasks. */
  lemma SaveLoadSaveIsStable(tasks: seq<Task>)
    requires forall t :: t in tasks ==> IsValidTask(t) && ' ' !in t.content && '\n' !in t.content
    ensures SaveText(LoadTasks(SaveText(tasks))) == SaveText(tasks)
  {
    LoadSaveRoundTrip(tasks);
  }

  /** The exact text saved for a store holding one task: its display line and a trailing '\n'. */
  lemma SaveOneTask(t: Task)
    requires t == Task(Datetime(Date(2023, 10, 22), Time(23, 10)), Medium, Todo, "Hello.")
    ensures SaveText([t]) == "2023-10-22.23:10 M Td Hello.\n"
  {
    var line := "2023-10-22.23:10 M Td Hello.";
    assert DateToString(t.datetime.date) == "2023-10-22" by {
      assert Decimal(2) == "2";
      assert Decimal(20) == "20";
      assert Decimal(202) == "202";
      assert Decimal(2023) == "2023";
      assert ZeroPad2(10) == "10" by { assert Decimal(1) == "1"; }
      assert ZeroPad2(22) == "22" by { assert Decimal(2) == "2"; }
    }
    assert TimeToString(t.datetime.time) == "23:10" by {
      assert ZeroPad2(23) == "23" by { assert Decimal(2) == "2"; }
      assert ZeroPad2(10) == "10" by { assert Decimal(1) == "1"; }
    }
    assert DatetimeToString(t.datetime) == "2023-10-22.23:10";
    assert FormatTask(t) == line;
    assert FormatLines([t]) == [line];
    assert SaveText([t]) == line + "\n";
  }

}
