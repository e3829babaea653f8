# AoC2025 days 1–3 in Dafny

A Dafny model of the puzzle solvers for days 1, 2 and 3 of the AoC2025
repository. Each solver has a `process` function that reads the puzzle
input as text and returns the answer, or an error.

- **Day 1, the safe dial** (`day-01/src/part1.rs`, `day-01/src/part2.rs`).
  - A dial with marks 0–99 starts at 50.
  - Each input line is a rotation `L<n>` or `R<n>`.
  - Part 1 counts the rotations that leave the dial on 0.
  - Part 2 counts every single click, during any rotation, that lands on 0.
  - Both parts compute their answer with modular arithmetic and a closed
    form. The model defines the dial click by click (`Dial.Clicks`). It then
    proves that each part's formula counts the same thing as stepping the
    dial one click at a time.
- **Day 2, invalid product ids** (`day-02/src/part1.rs`,
  `day-02/src/part2.rs`).
  - The input is a comma-separated list of `start-stop` ranges.
    `extract_ranges` reads it.
  - Every id in every range is written in decimal and checked against a rule.
  - Part 1 calls an id invalid when its digits are one block written twice.
  - Part 2 calls an id invalid when its digits are one block written two or
    more times.
  - The answer is the sum of the invalid ids.
  - The loops are modelled as methods whose results are proved equal to
    declarative definitions (`RepeatedIds.HasPeriod`, `IdSums.TotalSum`).
- **Day 3, battery banks** (`day-03/src/part1.rs`).
  - Each line is a bank of single-digit batteries.
  - A bank's peak joltage is made of two parts:
    - the leftmost maximum among all batteries but the last;
    - the maximum of the batteries to the right of it.
  - The answer is the sum of the peaks.
  - The model proves that the peak is the largest two-digit value made by
    any ordered pair of batteries.

Shared pieces:
- `Results` holds the result types and the short-circuiting
  `collect`/`sum` over `Result`s.
- `Text` models `str::trim`, `split`, `split_once` and `lines` on ASCII
  text.
- `Decimal` models `to_string` and `u64::from_str` on naturals.

The example modules `DialExamples`, `IdExamples` and `JoltageExamples` prove
the repository's own example inputs give 3 and 6, 1227775554 and 4174379265,
and 357. For day 2, `IdExampleText` holds the example's tokens and ranges,
and `IdExampleInput` proves that `extract_ranges` reads the input as those
ranges.

Notes on the source as written:
- **`day-01/src/part1.rs` does not compile.**
  - Lines 21-22 use `delta`, but the value computed at line 19 is `dist_mod`.
  - The model rotates by `dist % 100`, which is what line 19 computes.
- **`day-01/src/part2.rs` does not compile either.**
  - Line 17 lacks the `.map_err(..)?;` that part 1 has.
  - Lines 18-35 use an undeclared `p` where the dial's `position` is meant.
  - They also use an undeclared `delta` where `dist % 100` is meant.
  - The model reads these as part 1 does:
    - a bad distance is an error;
    - `p` is the current position;
    - the rotation moves by the distance modulo 100.
- **Day 2 enumerates every id.** Both parts visit every number of every
  range and test its decimal text. Part 2 stops at the first block length
  that repeats. A bad start and a bad stop are reported as two different
  errors. The model follows these loops.
- **The `+` sign is modelled.** `u64::from_str` and `usize::from_str` accept
  one leading `+`, and `Decimal.ParseU64` models that.
- **A part 2 comment is wrong.** The comment at `day-02/src/part2.rs:16`
  lists 565565 as the invalid id of `565653-565659`. That number is outside
  the range. The id the code counts there is 565656 (`56|56|56`), and the
  example total 4174379265 includes it.
- **Day 3's right-side error cannot occur.**
  - The right-side error at `day-03/src/part1.rs:62-64` is unreachable.
  - A left peak exists only when the bank has at least two batteries.
  - The left peak lies before the last battery, so the slice after it is
    never empty.
  - The model therefore has a single no-left-peak error, and the model's
    own well-formedness checks prove that the slice is non-empty.

## Model

| member | source | states |
|---|---|---|
| Dial.ClicksClosedForm | day-01/src/part1.rs:1-6 | turning right `n` clicks from `p` lands on `(p + n) mod 100`, left on `(p - n) mod 100`, so the wrap-around at 0 and 99 is modular arithmetic |
| Dial.RotateIsClicks | day-01/src/part1.rs:19-22 | the code's update `(p + 100 - dist % 100) % 100` (left) or `(p + dist % 100) % 100` (right) is exactly where `dist` single clicks leave the dial |
| Dial.ClicksFullTurn | day-01/src/part1.rs:19 | a hundred clicks bring the dial back, so only the distance modulo 100 matters for where it stops |
| Dial.SameRemainderSameClicks | day-01/src/part1.rs:19 | two distances with the same remainder modulo 100 stop the dial on the same mark |
| Dial.Rotate | day-01/src/part1.rs:19-22 | a rotation to the right moves the mark up by the distance modulo 100, one to the left moves it down by that much |
| Dial.ParseRotation | day-01/src/part1.rs:16-28 | a line parses to a rotation exactly when its first letter is `L` or `R` and the rest is a `usize`; an unparsable distance is reported before a bad letter; an empty line, or one whose first character is not one byte long, is the `split_at(1)` panic |
| Dial.ParseWrittenRotation | day-01/src/part1.rs:16-28 | writing a rotation as `L<n>`/`R<n>` and parsing the line gives the rotation back |
| Dial.FailureIgnoresRest | day-01/src/part1.rs:15-28 | once a line has failed, the lines after it are never looked at, even ones `split_at(1)` could not split |
| Dial.ReadWrittenRotations | day-01/src/part1.rs:15-18 | rotations written one per line and read back through `lines()` and the line parser give the same rotations |
| Dial.DialAfterAppend | day-01/src/part1.rs:30 | unfolds `Dial.DialAfter`, the dial's position after a list of rotations, at its last rotation: the dial carries over between lines, so each rotation starts where the previous one stopped |
| DialPassword.ZeroEndingsStep | day-01/src/part1.rs:30-33 | the count of rotations ending on 0 grows by one exactly when the new rotation stops on 0 |
| DialPassword.Process | day-01/src/part1.rs:11-37 | the loop's count is the number of rotations after which the dial, clicked step by step from 50, points at 0; a bad line gives its parse error |
| DialCrossings.FirstZeroDistance | day-01/src/part2.rs:18-25 | the first landing on 0 is between 1 and 100 clicks away |
| DialCrossings.FirstZeroIsFirst | day-01/src/part2.rs:18-25 | `dist_to_first_zero` (`100 - p` right, `p` left, 100 when leaving 0 to the left) is the first click that reaches 0, and no earlier click does |
| DialCrossings.ZeroHits | day-01/src/part2.rs:26-30 | a rotation of `dist` clicks hits 0 at least `dist / 100` and at most `dist / 100 + 1` times, and not at all exactly when it stops short of the first 0 |
| DialCrossings.ZeroAfterFirst | day-01/src/part2.rs:26-30 | after the first hit, the dial is on 0 exactly every hundredth click |
| DialCrossings.ZeroHitsCountsClicks | day-01/src/part2.rs:26-30 | `num_hits` (0 before the first zero, else `1 + (dist - first) / 100`) equals the number of single clicks of the rotation that land on 0 |
| DialCrossings.ZeroPassesAppend | day-01/src/part2.rs:31-42 | unfolds `DialCrossings.ZeroPasses`, the landings on 0 over a list of rotations, at its last rotation: each rotation adds its own landings on 0, counted from where the previous rotations left the dial |
| DialCrossings.Process | day-01/src/part2.rs:11-46 | the loop's total is the number of single clicks, over the whole input, that leave the dial on 0; a bad line gives its parse error |
| DialExamples.ExamplePasswords | day-01/src/part1.rs:43-52 | the ten example rotations give 3 rotations ending on 0 and 6 clicks landing on 0 |
| DialExamples.BadLetterBeforeEmptyLine | day-01/src/part1.rs:15-28 | on `Q1`, an empty line, then `L5`, both parts give the bad-direction error of the first line |
| IdRanges.ParseBounds | day-02/src/part2.rs:79-88 | the start is parsed first: a bad start is an invalid-start error whatever the stop; otherwise a bad stop is an invalid-stop error; otherwise both `u64` values form the range |
| IdRanges.ParseRange | day-02/src/part2.rs:70-88 | a token is a malformed range exactly when its trimmed text has no `-`; any parsed bound is below 2^64 |
| IdRanges.SecondDashRejected | day-02/src/part2.rs:69-72 | only the first `-` splits: a token `a-b` whose start `a` parses and whose `b` holds a further dash fails on the stop, whatever whitespace `b` ends with |
| IdRanges.NoDashMalformed | day-02/src/part2.rs:73-78 | a token without `-` is rejected as a malformed range |
| IdRanges.EmptyStopRejected | day-02/src/part2.rs:86-88 | a token `a-` whose start parses fails on its empty stop text |
| IdRanges.EmptyStartRejected | day-02/src/part2.rs:79-85 | a token `-b` fails on its empty start text, whatever `b` is |
| IdRanges.ParseWrittenRange | day-02/src/part2.rs:69-90 | writing a range as `start-stop` and parsing the token gives the range back |
| IdRanges.ParseRangesSpec | day-02/src/part2.rs:69-93 | the tokens give one range each, in input order, exactly when every token parses; otherwise the result is the error of the first token that does not |
| IdRanges.ExtractRanges | day-02/src/part2.rs:64-94 | `extract_ranges` gives one range per comma-separated token, in input order, exactly when every token parses; otherwise the error of the first token that does not |
| IdRanges.ExtractWrittenRanges | day-02/src/part2.rs:64-94 | `extract_ranges` of ranges written comma-separated gives back the same ranges, in order |
| RepeatedIds.ChunksMatch | day-02/src/part2.rs:39-50 | comparing each block of length `interval` with the first finds a mismatch exactly when the text is not made of copies of its first block |
| RepeatedIds.HasRepeatedBlock | day-02/src/part2.rs:33-56 | the `'intervals` loop accepts an id exactly when some block length from 1 to half the length divides the length and repeats |
| RepeatedIds.SomePeriodFromIff | day-02/src/part2.rs:33-37 | trying the block lengths one after another from `L` decides whether some length from `L` to half the length repeats |
| RepeatedIds.HalvesEqualIffDoubled | day-02/src/part1.rs:55-58 | for an even-length id, equal halves are the same as the half length being a repeating block |
| RepeatedIds.HalvesMatch | day-02/src/part1.rs:47-60 | part 1's test (odd lengths skipped, halves compared) accepts exactly the ids made of one block written twice |
| RepeatedIds.DoubledIsRepeated | day-02/src/part1.rs:55-58 | every id part 1 counts as invalid, part 2 counts as invalid too |
| RepeatedIds.MultiplePeriod | day-02/src/part2.rs:33-55 | a block of length `L` that repeats also repeats at every multiple of `L` that divides the id's length (111111 repeats at 1, 2 and 3), which is why the loop leaves at the first match so that an id is added once |
| RepeatedIds.SingleDigitNeverRepeated | day-02/src/part2.rs:33 | a one-digit id has no block length to try and is never invalid |
| IdSums.Invalid | day-02/src/part1.rs:49-60 | an invalid id has two digits or more; one that part 1 counts has an even number of digits and is counted by part 2 as well |
| IdSums.TestId | day-02/src/part2.rs:30-56 | the decimal test of an id agrees with the rule's declarative definition of an invalid id |
| IdSums.SumRange | day-02/src/part2.rs:29-57 | the inner loop over `start..=stop` adds exactly the invalid ids of the range; an empty range (start after stop) adds nothing |
| IdSums.SumBetweenSplit | day-02/src/part2.rs:29 | the sum over consecutive ids splits at any point in between |
| IdSums.RangeSumSmall | day-02/src/part2.rs:29 | a range whose start is after its stop adds nothing; a one-id range adds that id exactly when it is invalid |
| IdSums.OddLengthAddsNothing | day-02/src/part1.rs:49-53 | an id with an odd number of digits never adds to part 1's sum |
| IdSums.SingleDigitsAddNothing | day-02/src/part2.rs:33 | no id below 10 is ever added, under either rule |
| IdSums.HalvesAtMostAnyBlock | day-02/src/part2.rs:4-5 | over any span of ids, the part 1 sum never exceeds the part 2 sum |
| IdSums.TotalHalvesAtMostAnyBlock | day-02/src/part1.rs:4-6 | over any list of ranges, the part 1 answer never exceeds the part 2 answer |
| IdSums.TotalSumConcat | day-02/src/part2.rs:28-29 | lists of ranges add up independently, so an id in two overlapping ranges is counted twice |
| IdSums.SumTokens | day-02/src/part1.rs:24-62 | part 1's interleaved loop gives the error of the first bad token, even after earlier ranges were summed; otherwise it gives the sum of every range's invalid ids |
| IdSums.ProcessHalves | day-02/src/part1.rs:20-65 | part 1's `process` gives the same answer as extracting every range first and summing the doubled-block ids |
| IdSums.SumRanges | day-02/src/part2.rs:28-58 | the outer loop adds up the sums of the ranges in order |
| IdSums.ProcessAnyBlock | day-02/src/part2.rs:23-61 | part 2's `process` gives `extract_ranges`' error or the sum of the repeated-block ids of all ranges |
| IdExampleInput.ExampleExtracted | day-02/src/part2.rs:105-110 | `extract_ranges` reads the test input as its eleven ranges, in order |
| IdExamples.ExampleAnswers | day-02/src/part2.rs:102-114 | the eleven example ranges give 1227775554 under the doubled-block rule and 4174379265 under the repeated-block rule |
| Joltage.ParseBattery | day-03/src/part1.rs:21-31 | a character is a battery exactly when it is an ASCII digit, of that digit's joltage; otherwise the error names the character |
| Joltage.ReadBatteriesSpec | day-03/src/part1.rs:18-32 | a trimmed line reads as a bank exactly when it is all digits, one battery per digit, in order |
| Joltage.ReadBatteriesError | day-03/src/part1.rs:20-32 | a line that fails reports its first non-digit character |
| Joltage.LeftmostMax | day-03/src/part1.rs:49-53 | `max_by_key` with key `(joltage, Reverse(i))` picks a battery of maximum joltage, and no earlier battery has that joltage |
| Joltage.FindLeftPeak | day-03/src/part1.rs:49-56 | a left-to-right scan with a strict comparison finds the leftmost maximum |
| Joltage.FindMax | day-03/src/part1.rs:58-64 | `max_right` is a joltage of the slice and no battery of the slice is higher |
| Joltage.Peak | day-03/src/part1.rs:45-68 | a bank's peak fails, with the no-left-peak error, exactly when it has fewer than two batteries; otherwise it is the number two of its batteries make in bank order |
| Joltage.PeakIsBestPair | day-03/src/part1.rs:43-67 | a bank's peak exists exactly when it holds two batteries or more, is below 100, and is the largest `10 * left + right` over every ordered pair; a smaller bank is a no-left-peak error |
| Joltage.BestPairUnique | day-03/src/part1.rs:36-42 | the best pair's value is determined by the bank, whichever positions achieve it |
| Joltage.PeakJoltage | day-03/src/part1.rs:45-68 | the per-bank computation gives the bank's peak, and fails exactly on banks of fewer than two batteries |
| Joltage.TotalBound | day-03/src/part1.rs:43-69 | a sum of peaks, each below 100, is at most 99 per bank |
| Joltage.AnswerOkIff | day-03/src/part1.rs:14-69 | the answer exists exactly when every trimmed line is all digits and at least two long |
| Joltage.AnswerSumsBestPairs | day-03/src/part1.rs:43-69 | a successful answer is the sum, line by line, of each bank's best pair value, and at most 99 per line |
| Joltage.ParseErrorWins | day-03/src/part1.rs:15-34 | every line is parsed before any peak is taken, so a bad character anywhere is the error, even when an earlier bank is too small |
| Joltage.Process | day-03/src/part1.rs:14-72 | `process` gives the first bad character, else the first too-small bank's error, else the sum of the peaks |
| JoltageExamples.ExampleAnswer | day-03/src/part1.rs:80-88 | the four example banks give peaks 98, 89, 78 and 92, and the answer 357 |
| Results.CollectSpec | day-03/src/part1.rs:32 | collecting results succeeds exactly when every item does, keeping the values in order; otherwise it gives the first failure's error |
| Results.CollectMapFailsAt | day-03/src/part1.rs:69 | mapping and collecting stops at the first failing item and returns its error |
| Text.SplitJoin | day-02/src/part2.rs:69 | splitting the comma-joined text of comma-free parts gives the parts back |
| Text.SplitTrimmedJoin | day-02/src/part2.rs:69 | `trim` then `split(',')` of one or more parts joined by commas gives the parts back, when no part holds a comma, the first part is non-empty and does not start with whitespace, and the last part is non-empty and does not end with whitespace |
| Text.SplitOnceParts | day-02/src/part2.rs:70-72 | `split_once('-')` fails exactly when there is no dash; otherwise it cuts at the first dash and the parts joined by it give the text back |
| Text.TrimSlice | day-02/src/part2.rs:69-71 | `trim` removes exactly the leading and trailing whitespace: the rest starts and ends with a non-space |
| Text.LinesSpec | day-01/src/part1.rs:15 | no line holds a newline, and an empty input has no lines |
| Text.LinesJoin | day-03/src/part1.rs:17 | `lines()` of one or more lines joined by `\n` gives the lines back, when no line holds `\n` or ends in `\r` and the last line is non-empty |
| Decimal.ToDecimalOfValue | day-02/src/part2.rs:30 | `to_string` is the inverse of reading a canonical decimal: no leading zero, at least one digit |
| Decimal.ParseToDecimal | day-02/src/part2.rs:79-88 | `u64::from_str` reads back any `u64` written with `to_string`, with or without a leading `+` |
| Decimal.ParseU64Digits | day-02/src/part2.rs:79-85 | text that parses is all ASCII digits, save one leading `+` |
| Decimal.ParseU64 | day-02/src/part2.rs:79-88 | empty text never parses, and every parsed value fits in a `u64` |

## Left out

- Tracing (`#[tracing::instrument]`) and the wording of `miette` error messages are left out. Errors are modelled as datatype values: one per reachable error site, plus `SplitPanic` for the `split_at(1)` panic.
- The conversion of the final answer to a `String` (`to_string` on the sum) is left out. Every answer is a natural.
- Joltage.Process: fixed-width overflow is not modelled, because all sums are unbounded naturals. The source adds peaks into a `u32` and ids into a `u64`, and a debug build panics on overflow. Parsed values keep their `u64`/`usize` bound: at most 2^64 - 1.
- IdSums.ProcessHalves: does not model the `u64` overflow of the running sum, for the same reason.
- The panic of `split_at(1)` on an empty line, or on one starting with a character longer than one byte, is modelled as the error value `SplitPanic`, which the program does not return: it aborts. As in the program, only a line reached before any other error triggers it.
- Whitespace and digits are ASCII only. `str::trim` and `char::to_digit(10)` are modelled on ASCII whitespace and `0`–`9`. The Unicode whitespace `trim` also removes is not modelled.
- The other days and shared workspace files of the repository are not part of this model.
