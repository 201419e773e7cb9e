# morseytype, modelled in Dafny

morseytype is a terminal drill. It shows a phrase (`HELLO WORLD`), computes the
phrase's Morse code, and lets the user key that code with the Space bar.
A short press (under 300 ms) gives a dot and a longer one a dash. Enter types
a space, and Esc gives up. The loop ends by itself once the typed input,
trimmed, equals the expected code, trimmed.

The model covers the three parts of `src/main.rs` that carry logic:

- `morse_table.dfy` (module `MorseTable`): the letter table. It holds the 26
  letters of International Morse Code plus the entry that maps the space
  character to a one-space code. `Decode` reads the table backwards.
- `encoder.dfy` (module `Encoder`): the expected code. The phrase is
  upper-cased, every character with a table entry becomes its code, the rest
  are dropped, and the codes are joined with one space.
- `keying.dfy` (module `Keying`): one turn of the event loop as a pure
  function `Next` on a `SessionState`, and `Drive`, the loop over a finite
  run of timed events. The state is the typed input, the open press and the
  press count.
- `drill.dfy` (module `Drill`): the loop as the program runs it. A
  `Session` class keeps the three mutable loop variables as fields. `Step`
  handles one event in place, and `Run` feeds events until the loop ends.
  Each method is proved equal to `Next` or `Drive`, and each keeps the
  loop invariant.
- `strings.dfy` (module `Strings`) holds `join(" ")`, `trim` and, as
  the reader's inverse of the join, `split(' ')`. `wrappers.dfy` holds
  `Option`.
- `scenarios.dfy` (module `Scenarios`) holds complete sessions:
  - the code of `HELLO WORLD`;
  - the phrase `SOS` keyed to the end, through `Drive` and through the class;
  - a session cancelled with Esc while a press is open.

The loop invariant, `Keying.Consistent`:
- the input holds only dots, dashes and spaces;
- the press count equals the number of dots and dashes in the input.

The model follows the code, which has none of these:
- a glyph that turns from dot to dash live while Space is held;
- a separate word-commit key;
- a distinction between key-up and key-down events;
- a letter buffer committed by its own key.

In the code, every Space key event, of whatever kind, toggles the open press.
Enter appends one space. The banner says a dash is a press of more than
300 ms. The code makes a press of exactly 300 ms a dash, and the model follows
the code (`Keying.Classify`, `Keying.PressLength`).

## Model

| member | source | states |
|---|---|---|
| MorseTable.Lookup | src/main.rs:8-18 | exactly the 26 capital letters and the space have an entry; every code is 1 to 4 characters; a letter's code is only dots and dashes; the space's code is one space |
| MorseTable.DecodeLookup | src/main.rs:8-18 | reading a letter's code back through the inverse table gives the letter, so no two letters share a code |
| MorseTable.LookupDecode | src/main.rs:8-18 | every code the inverse table accepts is the table entry of the letter it decodes to |
| Encoder.ToUpper | src/main.rs:21 | ASCII upper-casing: the result is a capital letter exactly when the input is a letter of either case; a lower-case letter becomes the capital 32 code points below it; every other character is unchanged |
| Encoder.Upper | src/main.rs:21 | upper-casing keeps the length and works character by character |
| Encoder.ExpectedMorse | src/main.rs:20-26 | the expected code is written in `.`, `-` and space only, and is at most five characters per character of the phrase |
| Encoder.Codes | src/main.rs:22-24 | the per-character filter keeps at most one code per character; what it keeps is stated by `CodesWellFormed`, `CodesAppend`, `CodesOfLetters` and `CodesEmpty` |
| Encoder.CodesEmpty | src/main.rs:23 | no code is kept exactly when no character has a table entry |
| Encoder.CodesWellFormed | src/main.rs:23 | every code the filter keeps is 1 to 4 characters of `.`, `-` and space |
| Encoder.CodesAppend | src/main.rs:22-24 | the per-character filter distributes over concatenation |
| Encoder.CodesOfLetters | src/main.rs:23 | over capitals and spaces nothing is dropped, and the i-th code is the i-th character's table entry |
| Encoder.EmptyEncoding | src/main.rs:20-26 | the expected code is empty exactly when no upper-cased character of the phrase has a table entry |
| Encoder.CaseInsensitive | src/main.rs:21 | a phrase and its upper-cased form encode alike |
| Encoder.SameUpperSameEncoding | src/main.rs:21 | two phrases that agree once upper-cased encode alike |
| Encoder.DropUnmapped | src/main.rs:23 | inserting a character without a table entry anywhere leaves the code unchanged |
| Encoder.LetterByLetter | src/main.rs:20-26 | for a phrase of letters, splitting the code on single spaces gives one piece per letter, that letter's table code, which decodes back to the upper-cased letter |
| Encoder.WordGap | src/main.rs:16-25 | a space between two words that have codes comes out as exactly three spaces between their codes |
| Strings.Join | src/main.rs:25 | `join(" ")`: the parts with one space between neighbours; its meaning is stated by `SplitJoin`, `JoinSplit` and `JoinAppend` |
| Strings.SplitJoin | src/main.rs:25 | splitting a join of space-free parts on single spaces gives the parts back |
| Strings.JoinSplit | src/main.rs:25 | joining the pieces of any split gives the string back |
| Strings.JoinAppend | src/main.rs:25 | joining two non-empty lists puts exactly one space between their joins |
| Strings.TrimStart | src/main.rs:77 | removing the leading spaces never lengthens the text; `TrimStartSpec` states which suffix is kept |
| Strings.TrimEnd | src/main.rs:77 | removing the trailing spaces never lengthens the text; `TrimEndSpec` states which prefix is kept |
| Strings.Trim | src/main.rs:77 | `trim`: both ends trimmed, never longer than the text; `TrimSpec` and `TrimAppendSpace` state its meaning |
| Strings.TrimSpec | src/main.rs:77 | the trimmed text is empty exactly when the text is all spaces; otherwise it has no space at either end; text without blank ends is kept whole |
| Strings.TrimStartSpec | src/main.rs:77 | leading trim keeps the longest suffix that does not start with a space and cuts only spaces |
| Strings.TrimEndSpec | src/main.rs:77 | trailing trim keeps the longest prefix that does not end with a space and cuts only spaces |
| Strings.TrimAppendSpace | src/main.rs:77 | a trailing space never changes the trimmed text |
| Keying.Elapsed | src/main.rs:54 | the press length is the time since the press began, and zero if the clock went backwards |
| Keying.Classify | src/main.rs:55-61 | a dot exactly when the press is under 300 ms, a dash exactly when it is 300 ms or more |
| Keying.Matches | src/main.rs:77 | the completion test: trimmed input equals the trimmed expected code; `TrailingSpaceIrrelevant` and `ShorterNeverMatches` state its consequences |
| Keying.Next | src/main.rs:44-79 | one turn of the loop; `StopsOnEscOrMatch` states when it stops and `NextPreservesConsistent` the invariant it keeps |
| Keying.Drive | src/main.rs:43-80 | the loop over a run of events; `DriveEndsOnEscOrMatch`, `DriveStopsAtFirst`, `DrivePreservesConsistent` and `DriveAppend` state its behaviour |
| Keying.Handle | src/main.rs:44-75 | one event only ever appends to the input, by at most one character, and raises the press count by at most one |
| Keying.SpaceToggles | src/main.rs:47-67 | Space with no open press only records the time; with one open it appends exactly the classified symbol, closes the press and adds one to the count |
| Keying.PressLength | src/main.rs:54-61 | a press released before 300 ms appends a dot, one released at 300 ms or later a dash |
| Keying.EnterAppendsSpace | src/main.rs:68-72 | Enter appends one space and changes nothing else |
| Keying.OtherEventsIgnored | src/main.rs:44-75 | any key other than Space, Enter and Esc, and any non-key event, leaves the state unchanged |
| Keying.StopsOnEscOrMatch | src/main.rs:43-80 | Esc ends the loop at once with the state unchanged; any other event ends it exactly when the trimmed input equals the trimmed expected code |
| Keying.TrailingSpaceIrrelevant | src/main.rs:77 | an extra trailing space never turns a match into a mismatch or back, so no Enter is needed after the last letter |
| Keying.BlankTargetStopsAtOnce | src/main.rs:77-79 | with an all-blank expected code, the very first event ends the loop |
| Keying.SymbolCountAppend | src/main.rs:56-64 | appending a character adds one to the symbol count exactly when it is a dot or a dash |
| Keying.NextPreservesConsistent | src/main.rs:38-80 | every turn of the loop keeps the invariant that the input is over `.`, `-`, space and the count equals its dots and dashes |
| Keying.DrivePreservesConsistent | src/main.rs:43-80 | a whole run of events keeps that invariant |
| Keying.DriveEndsOnEscOrMatch | src/main.rs:43-80 | a run consumes every event unless the loop ends; it ends only on its last consumed event, which is Esc or leaves a match; the input only grows by appending and the count never drops |
| Keying.DriveStopsAtFirst | src/main.rs:43-80 | the run stops at the first event that is Esc or leaves a match: every consumed event before the last one, and the last one too when the loop did not end, is not Esc and leaves an input that does not match |
| Keying.DriveAppend | src/main.rs:43-80 | running two event runs back to back is one run over their concatenation when the first does not end the loop |
| Drill.Session.constructor | src/main.rs:38-40 | a session starts with empty input, no open press and a zero count, which satisfies the invariant |
| Drill.Session.Step | src/main.rs:44-79 | handling one event in place leaves exactly the state and the stop flag that `Next` gives, and keeps the invariant |
| Drill.Session.Run | src/main.rs:43-80 | the loop over a run of events leaves exactly the state, consumed count and stop flag that `Drive` gives, and keeps the invariant |
| Scenarios.HelloWorldCode | src/main.rs:29-31 | the drill's phrase `HELLO WORLD` encodes to its five letter codes, three spaces, and five more letter codes |
| Scenarios.SosCode | src/main.rs:20-26 | `SOS` encodes to three dots, three dashes and three dots |
| Scenarios.ShorterNeverMatches | src/main.rs:77 | input shorter than the trimmed expected code can never match it |
| Scenarios.KeyingSymbol | src/main.rs:47-79 | a press and a release key exactly one symbol, count one press, and end the loop exactly if the input then matches |
| Scenarios.KeyingEnter | src/main.rs:68-79 | Enter appends a space and ends the loop exactly if the input then matches |
| Scenarios.KeyingThree | src/main.rs:47-79 | three equal presses key three symbols, ending the loop only after the last one if no earlier input matched |
| Scenarios.SosSessionAgainst | src/main.rs:43-80 | keying `SOS` with two Enters and none at the end ends the loop on the twentieth event, the last release, with nine presses counted |
| Scenarios.SosSession | src/main.rs:43-80 | the same for the expected code computed from `SOS` |
| Scenarios.SosThroughSession | src/main.rs:38-80 | the class run over the same events ends the loop with the `SOS` code typed and nine presses |
| Scenarios.CancelledSession | src/main.rs:46 | Esc while a press is open ends the loop at once: the open press is not counted and the input does not match |

## Left out

- Terminal I/O is not modelled: the banner, the echo of each symbol
  with its flush, and the final report.
- The report's speed figure is a floating-point division and is not modelled.
- `read()` errors are not modelled. The program would return the `io::Result`
  error; the model's events always arrive.
- The clock is a parameter. Every event carries its time as a whole number
  of milliseconds, and `Instant` subtraction saturates at zero as in Rust.
  Sub-millisecond resolution is not modelled.
- The event source is finite. `Keying.Drive` and `Drill.Session.Run` take
  a sequence of events, where the program reads events forever until Esc
  or a match.
- Drill.Session.Step: the count is an unbounded `nat`. The program's `i32`
  count would overflow only after 2^31 - 1 presses, and that is not modelled.
- Encoder.ToUpper: only ASCII letters are upper-cased. Rust's Unicode
  `to_uppercase` also maps some non-ASCII characters onto capitals that have
  table entries: `ß` becomes `SS`, `ſ` becomes `S`, `ı` becomes `I` and `ﬁ`
  becomes `FI`. The program encodes those characters and the model drops
  them, so for phrases that contain them `Encoder.ExpectedMorse` gives less
  than the program does (for `ſos` the program gives `... --- ...` and the
  model `--- ...`).
- Encoder.DropUnmapped: its premise is about ASCII upper-casing. In the
  program, `ß`, `ſ`, `ı` and `ﬁ` are not dropped, as the previous line says.
- Strings.TrimSpec: only the space is treated as blank. Rust's `trim` strips
  all Unicode white space, but the input and the expected code only ever
  contain `.`, `-` and spaces, so the results agree.
