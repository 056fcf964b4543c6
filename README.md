# Advent of Code 2019, day 1: fuel, input lists and errors

A Dafny model of the core of `advent-of-code-2019`, a Rust command-line tool. The model covers three parts:

- **Day 1 fuel** (`src/day1.rs`). A module's basic fuel is a third of its mass, rounded toward zero, minus two, and never below zero. The total is the sum of that over all masses. `Day1Runner::run` first checks that it got exactly one argument, the input file name. It then loads the masses and reports how many there are and the total.
- **Input lists** (`src/common/input_list.rs`). An `InputList` holds a text verbatim. `parse::<i32>` splits the text with `str::lines` and converts each line with `i32::from_str`. It returns every value in order, or the error of the first line that does not convert, with no partial list.
- **Errors** (`src/common/mod.rs`). `Error` wraps a closed enum `IOError | ParseError(String) | Other(String)`. Three `From` conversions decide which kind a failure becomes, and `Display` fixes the text the user sees. The module also defines the two exit codes.

The model is pure, like the source: datatypes, functions and lemmas. Rust's standard library is not part of this model. The two library behaviours the core depends on are written out as specification functions:

- `StrLines.Lines` models `str::lines`. It cuts the text at every `\n`, produces no line after a final `\n`, and drops one trailing `\r` from every piece.
- `I32Text.ParseI32` models `i32::from_str`. It accepts an optional `+` or `-` and then one or more ASCII digits. It folds the digits in with checked arithmetic, and the result must fit in `i32`.

Modules: `Results` (`Ok`/`Err`), `I32Text`, `StrLines`, `Common` (mod.rs), `InputLists` (input_list.rs) and `Day1` (day1.rs).

`Lines` follows the `str::lines` of the Rust releases from when this code was written (2019). Those releases drop a trailing `\r` from every piece, including a last piece with no `\n` after it. Current Rust releases drop the `\r` only before a `\n`. The two behaviours differ only for text that ends in a lone `\r`.

`ParseI32` also follows the Rust releases of that time. Its error kinds carry that era's names, `Empty | InvalidDigit | Overflow | Underflow`. An empty string and a lone sign both fail with kind `Empty`. An overflow is reported at the digit where it happens, even if a bad character comes later. The kind never reaches the user, because `From<ParseIntError>` throws it away.

## Model

| member | source | states |
|---|---|---|
| `Day1.ModuleFuel` | src/day1.rs:18-20 | the fuel is between 0 and `i32::MAX / 3 - 2`; for a mass of 9 or more it is `mass / 3 - 2`, and for any smaller mass, negative ones included, it is 0 |
| `Day1.TruncDiv3` | src/day1.rs:19 | Rust's `mass / 3` rounds toward zero: the quotient has the sign of the dividend, and three times the quotient is within three of the dividend, on the zero side |
| `Day1.ModuleFuelEuclidean` | src/day1.rs:19 | for every `i32` mass, rounding toward zero gives the same fuel as Euclidean division |
| `Day1.ModuleFuelMonotone` | src/day1.rs:19 | a heavier module never needs less fuel |
| `Day1.ModuleFuelExamples` | src/day1.rs:13-16 | the documented cases 12→2, 14→2, 1969→654, 100756→33583 |
| `Day1.TotalFuel` | src/day1.rs:37-42 | the total is 0 exactly when every mass is below 9, and at most the number of masses times the largest module fuel |
| `Day1.TotalFuelAppend` | src/day1.rs:37-42 | the total of two lists joined together is the sum of their totals |
| `Day1.TotalFuelRemove` | src/day1.rs:37-42 | taking one mass out of a list, wherever it stands, lowers the total by exactly that mass's fuel |
| `Day1.TotalFuelPermutation` | src/day1.rs:37-42 | any two lists with the same masses have the same total, whatever the order |
| `Day1.PartialSumsFitI32` | src/day1.rs:38-41 | when the total fits in `i32`, every running sum of the `i32` addition fits too, so the `i32` sum does not overflow |
| `Day1.TotalFuelExamples` | src/day1.rs:32-35 | the documented totals: [12]→2, [12,14]→4, [12,14,1969]→658, [12,14,1969,100756]→34241, and the empty list gives 0 |
| `Day1.Run` | src/day1.rs:47-70 | no arguments gives `Other` with the "Please provide the name…" message, and more than one gives `Other` with "Please provide only…". With one argument, a failed read gives `IOError` with its cause, and a failed parse of the text by `new_from_str` and `parse` gives `ParseError("numbers")`, shown as "Failed to parse input list into a list of numbers". Otherwise the run succeeds and reports the number of masses and `TotalFuel` of them |
| `Day1.RunChecksArgumentsFirst` | src/day1.rs:48-58 | with a wrong argument count the result does not depend on what the file read would return, and it is an `Other` error |
| `Day1.UsageMessagesDistinct` | src/day1.rs:48-58 | the two usage errors are shown as their own messages, and the two messages differ |
| `Day1.RunSampleFile` | src/day1.rs:60-69 | a file holding "12\n14\n1969\n100756" gives 4 modules and total fuel 34241 |
| `Day1.RunWordsFile` | src/day1.rs:60 | a file of words gives an error shown as "Failed to parse input list into a list of numbers" |
| `InputLists.New` | src/common/input_list.rs:13-15 | the list built from a borrowed text returns exactly that text from `raw()` |
| `InputLists.NewFromStr` | src/common/input_list.rs:18-20 | the list built from an owned text returns exactly that text from `raw()` |
| `InputLists.RawVerbatim` | src/common/input_list.rs:55-57 | `InputList.Raw` (`raw()`) returns exactly the text either constructor was given, and both constructors build the same list |
| `InputLists.InputList.Parse` | src/common/input_list.rs:47-53 | parsing succeeds exactly when every line of `Lines(raw)` converts. On success there is one value per line, in order, and value i is line i's conversion. On failure the error is that of the first line that fails |
| `InputLists.Collect` | src/common/input_list.rs:51-52 | collecting into a `Result` gives all values in order when every item converts, and otherwise the first failing item's error, with no partial list |
| `InputLists.ParseOfJoin` | src/common/input_list.rs:47-53 | a text made of plain lines joined with `\n` parses exactly as those lines convert |
| `InputLists.ParseRoundTrip` | src/common/input_list.rs:39-53 | rendering any `i32` values in decimal, joining them with `\n` and parsing the text gives back exactly those values |
| `InputLists.ParseNumbersExample` | src/common/input_list.rs:73-88 | "123\n234\n345" parses to [123, 234, 345] |
| `InputLists.ParseWordsFails` | src/common/input_list.rs:76-82 | "cat\ndog\nnotanumber" does not parse as `i32` values |
| `InputLists.LinesOfWordsExample` | src/common/input_list.rs:92-99 | the lines of "cat\ndog\nnumber" are exactly "cat", "dog", "number" and nothing more |
| `StrLines.Lines` | src/common/input_list.rs:49 | no line contains a `\n` |
| `StrLines.LineEnd` | src/common/input_list.rs:49 | the first line ends at the first `\n`, or at the end of the text if there is none |
| `StrLines.LinesCount` | src/common/input_list.rs:49 | there is one line per `\n`, plus one if the text does not end with `\n`, so an empty text has no lines |
| `StrLines.LinesOfFirst` | src/common/input_list.rs:49 | the text before the first `\n` is the first line, less one trailing `\r`, and the rest is split on its own |
| `StrLines.LinesOfLast` | src/common/input_list.rs:49 | non-empty text with no `\n` is a single line, less one trailing `\r` |
| `StrLines.LinesOfJoin` | src/common/input_list.rs:49 | lines with no `\n` and no trailing `\r`, joined with `\n` and ending in a non-empty line, split back into exactly those lines |
| `I32Text.ParseI32Spec` | src/common/input_list.rs:51 | converting a line succeeds exactly when it is an optional sign and one or more ASCII digits whose value fits in `i32`, and the result is that value |
| `I32Text.AccumulateSpec` | src/common/input_list.rs:51 | the digit loop fails on any non-digit; on digits it succeeds exactly when the value it is building fits in `i32`, and then returns that value |
| `I32Text.ParseToDecimal` | src/common/input_list.rs:51 | converting the decimal rendering of any `i32` gives back that `i32` |
| `Common.Display` | src/common/mod.rs:45-55 | an `Other` error shows exactly its message, a `ParseError` shows "Failed to parse input list into a list of " followed by the target type, and an `IOError` shows its cause's own text |
| `Common.FromIoError` | src/common/mod.rs:21-27 | an I/O failure becomes `IOError` with the same cause and shows as the cause does |
| `Common.FromParseIntError` | src/common/mod.rs:29-35 | any integer parse failure becomes a `ParseError` shown as "Failed to parse input list into a list of numbers" |
| `Common.FromParseIntErrorIgnoresCause` | src/common/mod.rs:29-35 | the conversion gives the same error whatever the cause of the parse failure |
| `Common.FromMessage` | src/common/mod.rs:37-43 | a message becomes an `Other` error shown as exactly that message |
| `Common.DisplayParseErrorInjective` | src/common/mod.rs:49-51 | two parse errors are shown with the same text exactly when they name the same target type |
| `Common.DisplayOtherInjective` | src/common/mod.rs:52 | two `Other` errors are shown with the same text exactly when their messages are equal |
| `Common.ExitCodesDistinct` | src/common/mod.rs:63-64 | the missing-day code is 1 and the unknown-day code is 2; they differ and neither is 0 |

## Left out

- `InputList::new_from_file` (src/common/input_list.rs:23-28) and the file read in `run`. This is file I/O. `Day1.Run` takes the read as a parameter that returns the file's text or an `IoCause`.
- The `println!` of `Day1Runner::run` (src/day1.rs:63-67). This is output only. `Day1.Run` returns the two printed numbers as a `Report`.
- The contents of an I/O error. They come from the operating system. `IoCause` keeps only the text its own `Display` would produce, and `Display` of an `IOError` returns that text.
- `fail` (src/common/mod.rs:67-73): it writes to standard error and ends the process.
- All of `src/main.rs`: reading the process arguments, choosing the runner by day name, printing the error, and the process exit. Only the two exit-code constants are modelled.
- The `DayRunner` trait and the `Debug` derives. `Run` is a plain function.
- `parse` for any type other than `i32`. `i32` is the only type it is used with.
- TotalFuel: returns an unbounded sum. Rust adds in `i32`, which panics on overflow in debug builds and wraps in release builds. Neither behaviour is modelled. `PartialSumsFitI32` states when the two sums agree, and `Run` reports the unbounded sum.
