# Task tracker core, modelled in Dafny

This project models the value logic of a small personal task tracker written in Rust:

- **Calendar primitives** (`Calendar`). `Date`, `Time` and `Datetime` are values. Range checks use the Gregorian leap-year rule. There are tuple constructors that truncate their `i32` inputs with `as` casts. The text format is `Y-MM-DD.HH:MM`: the year is unpadded and the other fields are zero-padded. The parsers split on `-`, `:` and `.` and report the first failing field.
- **Task line codec** (`Tasks`, and `LegacyTasks` for the older copy in `src/datatypes/task.rs`). Proximity has the codes `VH/H/M/L/VL` and status has `Td/In/Fn/Dl`. A task is one line `<datetime> <proximity> <status> <content>`, split on single spaces. Datetime failures are re-mapped variant for variant.
- **Task store** (`Storage`). A class holds the task sequence. Load replaces it with the successful parses of the `\n`-separated lines, silently dropping the lines that fail. Save produces the formatted tasks joined by `\n`, with a trailing `\n`.
- **Error enums** (`DatetimeErrors`, `TaskErrors`). Each has three variants and a fixed display text.
- **Rust library behaviour the core relies on** (`Numeric`, `Strings`):
  - `str::parse` for `u8`/`u16`;
  - `{}` and `{:0>2}` formatting;
  - `as` casts;
  - `split` and `join` on one character.

Integer widths are subset types of `int` (`u8`, `u16`, `i32`). The `as` casts are written out as `% 0x100` and `% 0x1_0000`. Dafny's `%` is Euclidean, which matches two's-complement truncation, negative inputs included.

Numeric parsing follows Rust's `from_str_radix` for unsigned types:
- `""` fails with `Empty`, and a lone `"+"` fails with `InvalidDigit`;
- one leading `+` is accepted;
- the digits are scanned left to right, and at each character the digit check comes before the overflow check.

So the parsers accept text the formatters never produce, such as `+2023-+1-+1.+9:+5`: `Numeric.ParseIgnoresLeadingPlus` states that a leading `+` does not change an integer parse, and the success clauses of `Calendar.ParseDate`, `Calendar.ParseTime` and `Calendar.ParseDatetime` state that any fields which parse as integers and are in range are accepted. Unpadded month, day, hour and minute are accepted too; `Calendar.UnpaddedDatetimeAccepted` shows it for `2023-1-1.10:50`, the text src/main.rs parses.

Two behaviours of the code are easy to miss:
- Task content is token 3 alone, not the rest of the line. `Tasks.MultiWordContentIsTruncated` shows that multi-word content does not survive a format/parse round trip.
- Date, time and datetime text may carry extra fields, which are ignored (`Calendar.ExtraFieldsIgnored`).

## Model

| member | source | states |
|---|---|---|
| `Numeric.AsU8` | src/datetime/mod.rs:56-57 | `as u8` gives the unique byte congruent to the input modulo 256, and leaves in-range values unchanged |
| `Numeric.AsU16` | src/datetime/mod.rs:55 | `as u16` gives the unique value congruent to the input modulo 65536, and leaves in-range values unchanged |
| `Numeric.Decimal` | src/datetime/mod.rs:103 | `{}` of an unsigned value is a non-empty digit string whose decimal value is that value, without padding: it has one digit exactly when the value is below 10 and starts with '0' only for the value 0 |
| `Numeric.ZeroPad2` | src/datetime/mod.rs:174 | `{:0>2}` gives at least two digits, exactly two below 100, with the same decimal value |
| `Numeric.ParseUnsigned` | src/datetime/mod.rs:70 | `parse::<uN>` fails with `Empty` on "" and succeeds iff the text after an optional '+' is non-empty, all digits and at most the type's maximum; the result is the digits' value |
| `Numeric.ParseDecimal` | src/datetime/mod.rs:70 | parsing the unpadded decimal text of any value that fits gives that value back |
| `Numeric.ParseZeroPad2` | src/datetime/mod.rs:75 | parsing the zero-padded text of any value that fits gives that value back |
| `Numeric.ParseIgnoresLeadingPlus` | src/datetime/mod.rs:70 | a leading '+' is accepted and ignored by the integer parse |
| `Numeric.Describe` | src/datetime/error.rs:17 | the integer-parse cause has a non-empty display text |
| `Numeric.DescribeIsInjective` | src/datetime/error.rs:17 | different integer-parse causes display different texts |
| `Strings.Split` | src/datetime/mod.rs:64 | `split` on one character yields at least one piece, and no piece holds the separator |
| `Strings.SplitAround` | src/datetime/mod.rs:193 | splitting text around one separator splits each side independently |
| `Strings.Join` | src/task_storage.rs:32 | `join` with one character; a single piece is returned as it is, and `SplitJoin` and `JoinSplit` make it the inverse of `Split` |
| `Strings.JoinSplit` | src/task_storage.rs:17 | joining the pieces of a split with the same separator restores the text |
| `Strings.SplitJoin` | src/task_storage.rs:32 | splitting a join of separator-free pieces restores the pieces |
| `DatetimeErrors.Message` | src/datetime/error.rs:10-22 | `RangeError` displays "This Datetime has values that are out of range.", `ParseError(e)` the integer-parse prefix followed by the cause's text, `TooFewArgumentsError` "Too few arguments." |
| `DatetimeErrors.MessageIsInjective` | src/datetime/error.rs:12-21 | different datetime errors display different messages |
| `Calendar.IsLeapYear` | src/datetime/mod.rs:29-34 | the Gregorian rule; what it decides is stated by `DaysInMonth` (February has 29 days exactly in a leap year), `YearLength` and `LeapYearCycle` |
| `Calendar.DaysInMonth` | src/datetime/mod.rs:36-48 | 31 exactly for months 1,3,5,7,8,10,12; 30 exactly for 4,6,9,11; 29 or 28 for February as the year is or is not a leap year; 0 exactly for a month outside 1..12; never above 31 |
| `Calendar.YearLength` | src/datetime/mod.rs:29-48 | the month table sums to 366 days in a leap year and 365 otherwise |
| `Calendar.LeapYearCycle` | src/datetime/mod.rs:29-34 | the leap-year rule (divisible by 4, not by 100 unless by 400) repeats every 400 years |
| `Calendar.IsValidDate` | src/datetime/mod.rs:24-27 | month in 1..12 and day in 1..the month's length; `DateNew` succeeds exactly on the dates it accepts, and `DateBoundaries` shows its edge cases |
| `Calendar.DateNew` | src/datetime/mod.rs:14-27 | succeeds iff 1 ≤ month ≤ 12 and 1 ≤ day ≤ days in that month of that year, returning exactly the given fields (so day ≤ 31); otherwise `RangeError` |
| `Calendar.DateBoundaries` | src/datetime/mod.rs:24-48 | 2000-2-29 and 2024-2-29 are accepted; 1900-2-29, 2023-2-29, 2023-4-31, month 13 and day 0 are `RangeError`; 2023-4-30 is accepted |
| `Calendar.IsValidTime` | src/datetime/mod.rs:123-126 | hour below 24 and minute below 60; `TimeNew` succeeds exactly on the times it accepts, and `TimeBoundaries` shows its edge cases |
| `Calendar.TimeNew` | src/datetime/mod.rs:113-126 | succeeds iff hour < 24 and minute < 60, returning exactly the given fields; otherwise `RangeError` |
| `Calendar.TimeBoundaries` | src/datetime/mod.rs:123-126 | 23:59 and 00:00 are accepted; 24:00 and 10:60 are `RangeError` |
| `Calendar.DateFromTuple` | src/datetime/mod.rs:51-59 | succeeds exactly when the truncated fields form a valid date; a success is valid and each field is congruent to its input modulo the field's width; a failure is `RangeError` |
| `Calendar.TimeFromTuple` | src/datetime/mod.rs:129-136 | succeeds exactly when the truncated fields form a valid time; a success is valid and each field is congruent to its input modulo 256; a failure is `RangeError` |
| `Calendar.TupleInRange` | src/datetime/mod.rs:53-57 | for inputs within the field widths the tuple constructors are exactly `Date::new` and `Time::new` |
| `Calendar.TupleWrapsAround` | src/datetime/mod.rs:51-136 | the casts wrap instead of failing: shifting any of the five fields by its width gives the same result, so (2023, 257, 1), (2023, -255, 1) and (2023, 1, 257) are accepted as 2023-01-01 and (10, 306) as 10:50 |
| `Calendar.DatetimeFromTuple` | src/datetime/mod.rs:183-188 | succeeds iff both tuple parts do; a date failure is reported before a time failure; a result is a valid datetime |
| `Calendar.DateToString` | src/datetime/mod.rs:101-105 | the date text holds only digits and '-', and for a valid date it is the year's digits plus six characters |
| `Calendar.TimeToString` | src/datetime/mod.rs:172-176 | the time text holds only digits and ':', and is five characters for a valid time |
| `Calendar.DatetimeToString` | src/datetime/mod.rs:212-216 | the datetime text holds only digits, '-', ':' and '.' |
| `Calendar.ParseDate` | src/datetime/mod.rs:61-92 | fewer than three '-' fields iff `TooFewArgumentsError`; year, then month, then day, the first that is not a u16/u8 gives `ParseError` with its cause; when all three parse the result is exactly `Date::new` of the parsed values, so a success is a valid date of those values and `RangeError` arises only when they are out of range |
| `Calendar.ParseTime` | src/datetime/mod.rs:138-164 | fewer than two ':' fields iff `TooFewArgumentsError`; hour checked before minute; when both parse the result is exactly `Time::new` of the parsed values, so a success is a valid time of those values and `RangeError` arises only when they are out of range |
| `Calendar.ParseDatetime` | src/datetime/mod.rs:190-204 | fewer than two '.' parts gives `TooFewArgumentsError`; any date error is reported before any time error; when both parts parse the result is the datetime of the two parses, and every success is a valid datetime built that way |
| `Calendar.DateRoundTrip` | src/datetime/mod.rs:61-105 | parsing the text of any valid date gives that date |
| `Calendar.TimeRoundTrip` | src/datetime/mod.rs:138-176 | parsing the text of any valid time gives that time |
| `Calendar.DatetimeRoundTrip` | src/datetime/mod.rs:190-216 | parsing the text of any valid datetime gives that datetime |
| `Calendar.UnpaddedDateAccepted` | src/datetime/mod.rs:61-92 | `2023-1-1`, with unpadded month and day, parses as 2023-01-01 |
| `Calendar.UnpaddedTimeAccepted` | src/datetime/mod.rs:138-164 | `10:50` parses as 10:50 |
| `Calendar.UnpaddedDatetimeAccepted` | src/main.rs:7 | the datetime text the program parses, `2023-1-1.10:50`, is accepted as 2023-01-01 10:50 |
| `Calendar.ExtraFieldsIgnored` | src/datetime/mod.rs:61-204 | fields after the third of a date, the second of a time and the second part of a datetime do not change the result |
| `TaskErrors.Message` | src/task/error.rs:10-22 | `RangeError` displays "This Task has values that are out of range.", `ParseError(e)` the integer-parse prefix followed by the cause's text, `TooFewArgumentsError` "Too few arguments." |
| `TaskErrors.MessageIsInjective` | src/task/error.rs:12-21 | different task errors display different messages |
| `Tasks.ProximityCode` | src/task/mod.rs:38-48 | every proximity formats as one of VH, H, M, L, VL |
| `Tasks.ParseProximity` | src/task/mod.rs:17-30 | accepts exactly VH, H, M, L, VL (case-sensitive), returning the proximity that formats as the input; anything else is `RangeError` |
| `Tasks.ProximityRoundTrip` | src/task/mod.rs:17-48 | parsing the code of any proximity gives it back |
| `Tasks.ProximityCodeIsInjective` | src/task/mod.rs:40-46 | the five proximity codes are pairwise distinct |
| `Tasks.StatusCode` | src/task/mod.rs:77-86 | every status formats as one of Td, In, Fn, Dl |
| `Tasks.ParseStatus` | src/task/mod.rs:57-69 | accepts exactly Td, In, Fn, Dl, returning the status that formats as the input; anything else is `RangeError` |
| `Tasks.StatusRoundTrip` | src/task/mod.rs:57-86 | parsing the code of any status gives it back |
| `Tasks.StatusCodeIsInjective` | src/task/mod.rs:79-84 | the four status codes are pairwise distinct |
| `Tasks.FromDatetimeError` | src/task/mod.rs:107-118 | a datetime error maps variant for variant: Range to Range, Parse(e) to Parse(e), TooFew to TooFew |
| `Tasks.FromDatetimeErrorIsLossless` | src/task/mod.rs:108-117 | the re-mapping is injective and keeps every message except the range error's |
| `Tasks.ParseTask` | src/task/mod.rs:95-133 | fewer than four ' ' tokens (empty ones count) gives `TooFewArgumentsError`; then datetime (re-mapped error), proximity, status in that order, the first failure deciding; when all three parse the result is the task of those parses with token 3 as content; a success is a valid task whose fields are the parses of tokens 0-2 and whose content is exactly token 3, with no ' ' |
| `Tasks.FormatTask` | src/task/mod.rs:141-151 | `Display for Task`; its meaning is stated by `FormatTaskEndsWithContent`, `SplitFormatTask` and the round trip `ParseFormatTask` |
| `Tasks.FormatTaskEndsWithContent` | src/task/mod.rs:141-151 | the display line ends with the content, is longer than the content plus three separators, and holds a '\n' exactly when the content does |
| `Tasks.SplitFormatTask` | src/task/mod.rs:143-149 | the ' ' tokens of a formatted task are its datetime text, its two codes, then the words of its content |
| `Tasks.ParseFormatTask` | src/task/mod.rs:95-151 | parsing a formatted valid task gives it back with the content cut to its first word |
| `Tasks.TaskRoundTrip` | src/task/mod.rs:95-151 | a valid task whose content has no ' ' survives format then parse unchanged |
| `Tasks.MultiWordContentIsTruncated` | src/task/mod.rs:126-131 | content with a ' ' comes back strictly shorter, so it does not round-trip |
| `Tasks.ExtraTokensIgnored` | src/task/mod.rs:98-131 | tokens after the fourth do not change the parse |
| `LegacyTasks.ProximityTryFrom` | src/datatypes/task.rs:20-33 | accepts exactly the five proximity codes, returning the proximity that formats as the input; else `RangeError` |
| `LegacyTasks.StatusTryFrom` | src/datatypes/task.rs:60-72 | accepts exactly the four status codes, returning the status that formats as the input; else `RangeError` |
| `LegacyTasks.ConvertDatetimeError` | src/datatypes/task.rs:110-121 | a datetime error maps variant for variant into this module's error, keeping the cause |
| `LegacyTasks.FromTaskError` | src/datatypes/task.rs:5-10 | a helper with no counterpart in the code, relating this file's error enum to the identically declared one of src/task/error.rs variant for variant, so that `TaskTryFromAgrees` can compare the two parsers' errors |
| `LegacyTasks.TaskTryFrom` | src/datatypes/task.rs:98-136 | fewer than four tokens gives `TooFewArgumentsError`; datetime errors are re-mapped and come first; a success is a valid task whose content is token 3 |
| `LegacyTasks.TaskTryFromAgrees` | src/datatypes/task.rs:98-136 | accepts the same lines as `Tasks.ParseTask`, builds the same tasks, and fails with the corresponding error |
| `LegacyTasks.LegacyRoundTrip` | src/datatypes/task.rs:144-154 | a valid task whose content has no ' ' survives this codec's parse of its display text |
| `Storage.ParseLines` | src/task_storage.rs:16-21 | keeps no more tasks than lines, every kept task is the parse of some line, and all lines are kept when all parse |
| `Storage.LoadTasks` | src/task_storage.rs:16-21 | at most one task per '\n' segment; every loaded task is valid and its content has neither ' ' nor '\n' |
| `Storage.FormatLines` | src/task_storage.rs:29-31 | one line per task, the i-th being the i-th task's display text |
| `Storage.SaveText` | src/task_storage.rs:29-34 | the saved text always ends in '\n', and is exactly "\n" for an empty store |
| `Storage.TaskStorage.constructor` | src/task_storage.rs:10-12 | a new store holds no tasks |
| `Storage.TaskStorage.LoadFromDisk` | src/task_storage.rs:14-26 | on a read failure returns that error and leaves the tasks unchanged; otherwise replaces them with the parses of the file's lines |
| `Storage.TaskStorage.SaveFromDisk` | src/task_storage.rs:28-35 | produces the save text of the current tasks without changing them |
| `Storage.ContentComesFromLine` | src/task/mod.rs:130 | a parsed task's content holds no character its line lacks |
| `Storage.ParseLinesAppend` | src/task_storage.rs:17-21 | parsing concatenated line sequences concatenates the results, so file order is kept |
| `Storage.LoadConcatenation` | src/task_storage.rs:16-21 | loading two texts joined by '\n' gives the first's tasks followed by the second's |
| `Storage.TrailingNewlineIgnored` | src/task_storage.rs:17-20 | the empty segment after a trailing '\n' never yields a task |
| `Storage.ParseFormatLines` | src/task_storage.rs:18-30 | formatted valid tasks without ' ' in their content parse back to the same sequence |
| `Storage.LoadSaveRoundTrip` | src/task_storage.rs:14-36 | loading the save text gives back the same tasks when every task is valid and its content holds neither ' ' nor '\n' |
| `Storage.SaveOneTask` | src/task_storage.rs:29-34 | a store holding the task 2023-10-22 23:10, M, Td, "Hello." saves exactly the text "2023-10-22.23:10 M Td Hello." followed by '\n' |
| `Storage.SaveLoadSaveIsStable` | src/task_storage.rs:28-36 | for such tasks, saving what was loaded from saved text reproduces that text |

## Left out

- File I/O. `fs::read_to_string` and `fs::write` (src/task_storage.rs:15,34) are not modelled. `LoadFromDisk` receives the outcome of the read as a parameter, and `IoError` stands for the boxed I/O error.
- Storage.TaskStorage.SaveFromDisk: returns the text to be written. It does not model the write or the error the write can return.
- `Into<String>` and `to_string` delegate to `Display`, which the formatting functions model.
- `#[derive(Debug)]` on the error enums is not modelled.
- src/main.rs parses one literal and prints it. The parse is stated by `Calendar.UnpaddedDatetimeAccepted`; the printing is not modelled.
- The `datatypes::datetime` module imported by src/datatypes/task.rs and src/main.rs is not part of this model. `LegacyTasks` and `Calendar.UnpaddedDatetimeAccepted` assume it behaves like src/datetime/mod.rs and use `Calendar`.
- `LegacyTasks` reuses the proximity, status and task values and the `Display` text of `Tasks`. Those are textually identical in src/datatypes/task.rs:12-18, 41-58, 80-96 and 144-154.
- Rust distinguishes `&str` from `String`. Both are `string` here.
- `ParseIntError` keeps only its kind. Its display texts are the standard library's wording, which is outside this repository. The kinds `NegOverflow` and `Zero` cannot arise when parsing unsigned integers.
- The store's task sequence is a public field that callers may change directly. No operation for that exists in the source, so none is modelled.
