# Advent of Code 2023, days 1 and 2, in Dafny

A model of two small puzzle scripts and proofs about them.

**Calibration (`1.py`).** Each line of a calibration document is reduced to the
digits it holds. The line's calibration value is the two-digit number formed by
its first and last digits. The document's value is the sum of its line values.
There are two ways to find a line's digits:

- Part 1 (`extract_digits1`) keeps only the literal characters `0`-`9`.
- Part 2 (`extract_digits2`) also reads the words "one" to "nine". It checks
  every index of the line, so words that overlap both count: "eightwothree"
  gives 8, 2, 3.

**Cube game (`2.py`).** Each line records one game, written
`Game <id>: <round>; <round>; ...`. A round lists the cubes shown from a bag,
written `<count> <colour>, ...`. The script does three things:

- It parses the record into the game id and one colour-to-count map per round.
- Part 1 checks every round against the bag limits of 12 red, 13 green and
  14 blue, and sums the ids of the games that are possible.
- Part 2 sums, over all games, the "power": the product of the largest red,
  green and blue counts shown.

Module layout:

| file | module | models |
|---|---|---|
| `wrappers.dfy` | `Wrappers` | `Option` and `Result` |
| `sums.dfy` | `Sums` | Python's `sum` over values that may raise |
| `text.dfy` | `Text` | `str.split` with one separator, `str.strip`, and `int`/`str` on decimal numerals |
| `calibration.dfy` | `Calibration` | `1.py` |
| `cube_game.dfy` | `CubeGame` | `2.py` |
| `cube_game_examples.dfy` | `CubeGameExamples` | the `test_*` functions of `2.py`, proved as lemmas |

A Python exception becomes the `Failure` branch of a `Result`:

- `1.py` raises `ValueError` for a line with no digit. In the model this is
  `LineError.NoDigit`.
- In `2.py`, `IndexError`, `ValueError` and `KeyError` are the constructors of
  `CubeGame.Error`. Each arises under the same conditions as in Python, apart from the `int` inputs listed under Left out.

A file is modelled as the sequence of its lines.

`power_of_set_of_cubes` changes state step by step: it appends counts to lists
in nested loops, then multiplies into an accumulator. It is modelled as the
methods `AddRound`, `CollectCounts` and `MultiplyAll`, which have loops and
invariants. These methods are proved equal to the specification function
`Power`, and `Power` in turn is related to game possibility (`FewestCubes`).
Everything else in both scripts is pure, so it is modelled as functions and
lemmas.

## Model

| member | source | states |
|---|---|---|
| Text.Split | 2.py:21 | `s.split(sep)` has one more piece than `s` has separators, it is a single piece exactly when `s` holds no separator, and no piece contains the separator |
| Text.JoinSplit | 2.py:21 | joining the pieces of `s.split(sep)` with `sep` gives back `s` |
| Text.SplitJoin | 2.py:29 | splitting separator-free pieces that were joined with `sep` gives back those pieces |
| Text.TrimStart | 2.py:21 | `lstrip` removes a prefix made only of white space, and what remains does not start with white space |
| Text.TrimEnd | 2.py:21 | `rstrip` removes a suffix made only of white space, and what remains does not end with white space |
| Text.Strip | 2.py:21 | `strip` keeps a contiguous part of the string with only white space around it, and that part neither starts nor ends with white space |
| Text.StripPadded | 2.py:21 | `strip` gives back a string that was padded in front with white space, provided its own ends are not white space |
| Text.ParseNat | 2.py:25 | `int(s)` succeeds exactly on non-empty strings of decimal digits |
| Text.NatToString | 2.py:34 | the writer used by the round-trip lemmas, the inverse of the `int` call at that line (the script itself never calls `str`): a decimal numeral without a leading zero, unless `n` is 0 |
| Text.ParseNatToString | 2.py:34 | `int(str(n)) == n` |
| Text.TwoDigitValue | 1.py:70 | `int(a + b)` for two digit characters is 10 times the first digit plus the second |
| Sums.SumSucceeds | 2.py:64 | `sum` over a generator succeeds exactly when every element does |
| Sums.Sum | 1.py:75 | `sum` of values that may raise: a successful sum is at least each of its terms, all of which succeed, and a single value sums to itself (`SumSucceeds`, `SumFailsFirst`, `SumAppend` characterise it further) |
| Sums.SumFailsFirst | 2.py:64 | `sum` raises the error of the first element that raises |
| Sums.SumBounded | 1.py:75 | a sum of values that are each at most `b` is at most `b` times the number of values |
| Sums.SumAppend | 1.py:75 | a sum over a concatenation is the sum of the two sums, and it fails exactly when one of them fails |
| Calibration.IsDigit | 1.py:12-18 | membership in the digit table is exactly the ASCII range `0`-`9` |
| Calibration.ExtractDigits1 | 1.py:21-23 | the result is no longer than the line and holds only digits |
| Calibration.ExtractDigits1Subsequence | 1.py:21-23 | the result is an in-order subsequence of the line |
| Calibration.ExtractDigits1Count | 1.py:21-23 | the result has one character per index of the line that holds a digit |
| Calibration.ExtractDigits1OfDigits | 1.py:21-23 | a string made only of digits passes through unchanged |
| Calibration.ExtractDigits1Idempotent | 1.py:21-23 | `extract_digits1` is idempotent |
| Calibration.ExtractDigits1Empty | 1.py:21-23 | the result is empty exactly when the line holds no digit |
| Calibration.ExtractDigits1First | 1.py:21-23 | the first extracted character is the line's first digit |
| Calibration.ExtractDigits1Last | 1.py:21-23 | the last extracted character is the line's last digit |
| Calibration.StartsAtSlice | 1.py:41 | `startswith(word, i)` is the slice comparison `s[i:i+len(word)] == word` |
| Calibration.FirstWordFromFinds | 1.py:40-42 | the first-match loop over `digit_mapping` finds a digit exactly when some remaining word starts at `i`, and returns that word's digit |
| Calibration.WrittenOutDigitAt | 1.py:39-42 | a digit found at `i` is a digit, and it is the digit of some number word that starts at `i` (`WrittenOutDigitAtFinds` gives the converse and independence from the table order) |
| Calibration.WordsHaveDistinctStarts | 1.py:27-37 | no two number words can start at the same index |
| Calibration.WrittenOutDigitAtFinds | 1.py:39-42 | a digit is found exactly when some number word starts at `i`, and it is that word's digit, whatever the order of the table |
| Calibration.DigitAt | 1.py:44-48 | whatever `digit_at_index` returns is a digit |
| Calibration.DigitAtPrecedence | 1.py:44-48 | a literal digit at `i` wins; otherwise the result is the digit of the word starting at `i`, and nothing when no word starts there |
| Calibration.EmittedAt | 1.py:54-58 | each index contributes at most one digit, and a literal digit always contributes itself |
| Calibration.ExtractDigits2 | 1.py:50-59 | the result holds only digits and is no longer than the line |
| Calibration.ExtractDigits1SubsequenceOf2 | 1.py:44-59 | the part 1 digits of a line are an in-order subsequence of its part 2 digits |
| Calibration.TwoOneNine | 1.py:39-59 | "two1nine" gives "219" |
| Calibration.EightTwoThree | 1.py:39-59 | "eightwothree" gives "823": overlapping words both count |
| Calibration.OneEight | 1.py:39-59 | "oneight" gives "18" |
| Calibration.ParseLine | 1.py:65-70 | `parse_line` fails exactly when no digit is extracted; otherwise its value is 10 times the first digit plus the last, at most 99, and 11 times the digit when there is only one |
| Calibration.DigitsOnlyLineFails | 1.py:65-70 | with literal digits only, a line fails exactly when it holds no digit character |
| Calibration.DigitsOnlyLineValue | 1.py:65-70 | with literal digits only, a line's value is made from its first and last digit characters |
| Calibration.WordLineValues | 1.py:65-70 | "two1nine" is worth 29 and "eightwothree" 83 |
| Calibration.SumFile | 1.py:72-75 | a document sums to at most 99 per line; a successful sum is at least each line's value, and every line then has one; a one-line document is worth that line's value |
| Calibration.SumFileSucceeds | 1.py:72-75 | the sum succeeds exactly when every line yields a digit |
| Calibration.SumFileAppend | 1.py:72-75 | the sum is additive over concatenated documents, and fails exactly when one part fails |
| CubeGame.SplitRound | 2.py:20-21 | one entry per comma-separated part, each with at least one field |
| CubeGame.SplitRoundRecoversText | 2.py:20-21 | rejoining an entry's fields with spaces gives the stripped part, and rejoining the parts with commas gives the text |
| CubeGame.EntriesToRound | 2.py:25 | the dict comprehension succeeds exactly when every entry is a numeral followed by a colour, and otherwise raises `ValueError` |
| CubeGame.EntriesToRoundKeys | 2.py:25 | the keys of the map are exactly the colours named |
| CubeGame.EntriesToRoundLastWins | 2.py:25 | a colour named more than once keeps the count of its last entry |
| CubeGame.ParsedRoundNotEmpty | 2.py:24-25 | a round that parses has at least one colour |
| CubeGame.ParseRound | 2.py:24-25 | `parse_round` succeeds exactly when every entry of `split_round` is two fields with a numeral first, and otherwise raises `ValueError` (`ParseRoundOfWritten` and `ParsedRoundNotEmpty` give its results) |
| CubeGame.ParseRoundOfWritten | 2.py:24-25 | parsing a round written as `<count> <colour>, ...` gives back its counts and colours |
| CubeGame.CollectSucceeds | 2.py:29 | the list comprehension over rounds succeeds exactly when every round parses |
| CubeGame.CollectInOrder | 2.py:29 | the collected list is exactly the values of the results, in order |
| CubeGame.ParseRoundsSucceeds | 2.py:29 | parsing the rounds succeeds exactly when every round text parses |
| CubeGame.ParseRoundsInOrder | 2.py:29 | round `k` of the result is the parse of round text `k` |
| CubeGame.ParseRoundsOfParsed | 2.py:29 | round texts that each parse give those rounds, in order |
| CubeGame.ParseGame | 2.py:28-29 | a parsed game has one round per `;`-separated part, and a game that does not parse raises `ValueError` |
| CubeGame.ParseGameOfWritten | 2.py:28-29 | parsing a game written round by round gives back each round's map, in order |
| CubeGame.ParseLine | 2.py:32-34 | a line that parses contains a `:`; the errors come in Python's order: `IndexError` when the text before the first `:` has no space, `ValueError` when its second word is not a numeral, then `IndexError` when the line has no `:`, and otherwise only `ValueError` from the rounds |
| CubeGame.ParseLineOfRecord | 2.py:32-34 | `<word> <id>:<rounds>` parses to that id with `parse_game` of the rounds, whatever the word, and propagates its error |
| CubeGame.ParseLineOfWritten | 2.py:32-34 | a line written as `<word> <id>:<rounds>` gives back the id and the rounds |
| CubeGame.LimitOf | 2.py:42 | the limits are keyed by exactly red, green and blue |
| CubeGame.CheckRound | 2.py:41-43 | a round passes exactly when every colour it names is within its limit (an empty round passes), it fails exactly when it names another colour, and that failure is `KeyError` |
| CubeGame.FailedRounds | 2.py:47 | counts the rounds over the limits: at most one per round, zero exactly when every round passes; it fails exactly when a round fails, with `KeyError` |
| CubeGame.CheckGame | 2.py:46-47 | a game is possible exactly when every round passes `check_round`; it fails exactly when some round names an unknown colour, with `KeyError` |
| CubeGame.CountsShown | 2.py:51-54 | the collected counts of a colour are exactly the counts some round shows |
| CubeGame.SeqMax | 2.py:55 | `max` of a non-empty list is one of its elements, and no element exceeds it |
| CubeGame.MostShownIsShown | 2.py:55 | the largest count of a colour is shown in some round, and no round shows more |
| CubeGame.CountsEmpty | 2.py:51-55 | the list of counts of a colour is empty, so that `max` raises, exactly when no round shows the colour |
| CubeGame.ProductOfThree | 2.py:56-58 | the product of three numbers in order is `a * b * c` |
| CubeGame.Power | 2.py:50-59 | the power exists exactly when every round names only red, green and blue and each of the three is shown in some round; it fails with `KeyError` exactly when a round names another colour, and otherwise with `ValueError` (`FewestCubes` gives its value) |
| CubeGame.AddRound | 2.py:53-54 | appends each count of one round to its colour's list; `KeyError` exactly when the round names another colour |
| CubeGame.CollectCounts | 2.py:51-54 | after the nested loops, each colour's list holds the counts of that colour in round order; `KeyError` exactly when a round names another colour |
| CubeGame.MultiplyAll | 2.py:56-58 | the accumulator loop gives the product of the maxima |
| CubeGame.Maxima | 2.py:55 | `max` of each colour's list fails with `ValueError` exactly when a list is empty; otherwise each of the three results is in its list and no element of the list exceeds it |
| CubeGame.PowerOfSetOfCubes | 2.py:50-59 | the power is `KeyError` for an unknown colour, `ValueError` when a colour never shows, and otherwise the product of the largest red, green and blue counts |
| CubeGame.PossibleUnderByColour | 2.py:41-47 | for known colours, possibility under some limits is decided colour by colour |
| CubeGame.ColourWithinMostShown | 2.py:55 | a colour stays within a limit exactly when its largest count does |
| CubeGame.FewestCubes | 2.py:50-59 | a game is possible under some limits exactly when each limit is at least that colour's largest count, and the power is the product of those counts |
| CubeGame.PossibleGamePower | 2.py:46-59 | a game that passes `check_game` has a power of at most 12 * 13 * 14 |
| CubeGame.LineScore | 2.py:64 | one element of the `sum_file` generator: it is positive exactly when the line parses with a positive id and its game passes `check_game`; a success is 0 or the id; it fails exactly when the line does not parse (with the parse error unchanged) or its game names a colour other than red, green and blue (then with `KeyError`) |
| CubeGame.LinePower | 2.py:69 | one element of the `sum_file2` generator: it succeeds exactly when the line parses and `power` of its game succeeds, and its value is then the product of the largest red, green and blue counts; a parse error propagates unchanged, and for a parsed line the power fails with `KeyError` exactly when `check_game` fails |
| CubeGame.PossibleLinePower | 2.py:46-69 | a line whose game passes `check_game` adds at most 12 * 13 * 14 to `sum_file2` |
| CubeGame.SumFile | 2.py:62-64 | a successful `sum_file` is at least each line's score, and every line then succeeds; a one-line file is worth that line's score |
| CubeGame.SumFile2 | 2.py:67-69 | a successful `sum_file2` is at least each line's power, and every line then succeeds; a one-line file is worth that line's power |
| CubeGame.SumFileSucceeds | 2.py:62-64 | `sum_file` succeeds exactly when every line parses and its game names only red, green and blue |
| CubeGame.SumFileFailsFirst | 2.py:62-64 | `sum_file` raises the error of the first line that raises |
| CubeGame.SumFileUnknownColour | 2.py:41-64 | when the first line that fails parses but names a colour other than red, green and blue, `sum_file` raises `KeyError` |
| CubeGame.SumFileAppend | 2.py:62-64 | `sum_file` is additive over concatenated files |
| CubeGame.SumFile2Succeeds | 2.py:67-69 | `sum_file2` succeeds exactly when every line parses and `power` of its game succeeds |
| CubeGame.SumFile2FailsFirst | 2.py:67-69 | `sum_file2` raises the error of the first line that raises |
| CubeGame.SumFile2Append | 2.py:67-69 | `sum_file2` is additive over concatenated files |
| CubeGameExamples.TestParseRound | 2.py:72-75 | "50 green, 3 blue, 4 red" parses to {green: 50, blue: 3, red: 4} |
| CubeGameExamples.TestParseGame | 2.py:78-85 | "3 blue, 4 red; 1 red, 2 green, 6 blue; 2 green" parses to the three rounds of the test |
| CubeGameExamples.TestParseLine | 2.py:88-95 | "Game 1: ..." parses to id 1 with those three rounds |
| CubeGameExamples.TestCheckRound | 2.py:98-103 | "15 blue, 12 red, 13 green" fails `check_round`, and "13 green, 14 blue, 12 red" passes |
| CubeGameExamples.TestCheckGame | 2.py:106-109 | the game with a 15-blue round fails `check_game`, and the other game passes |

## Left out

- File handling: opening files, iterating over a file handle and the `with`
  blocks are not modelled. A file is the sequence of its lines.
- The drivers are not modelled: the module-level calls and `print` in `1.py`,
  and `main` in `2.py`.
- The closure factories `is_digit_`, `extract_digits2` and `sum_file` are not
  modelled as factories. They become plain functions over fixed tables. The
  extractor that `sum_file` closes over becomes the `Policy` parameter.
- `parse_file` is not a separate member. It is the per-line `ParseLine`
  inside `LineScore` and `LinePower`.
- Python's `int` is modelled only on non-empty strings of ASCII decimal
  digits. These inputs are not modelled:
  - signs, underscores and surrounding white space (e.g. `int("5\t")`);
  - non-ASCII digits.
- Text.ParseNat: accepts a numeral of any length. From Python 3.12, which the
  `type` statements at 1.py:7 and 2.py:11 require, CPython's `int` raises
  `ValueError` for a numeral longer than 4300 digits by default
  (`sys.set_int_max_str_digits` changes the bound). `EntriesToRound`,
  `ParseRound` and `ParseLine` inherit this difference: a count or an id of
  more than 4300 digits parses in the model but raises in the script.
- `str.strip` is modelled with the white-space characters below code point
  256. Unicode white space above that is left out.
- Dict insertion order is not modelled. A round is a `map`, and `AddRound`
  visits its colours in an unspecified order. Which exception is raised, and
  every value, does not depend on the order.
- Exception messages and payloads are not modelled, only the exception kind.
  `Error` and `LineError` carry no data. So when a round names two unknown
  colours, the model does not say which key the `KeyError` at 2.py:43 or
  2.py:54 names; in the script the dict's insertion order decides that.
- `CubeGame.ParseLine` does not check the word before the id, and neither
  does the code: `Foo 7: 1 red` parses as game 7. Text after a second `:` is
  ignored.
- A game that never shows one of the three colours makes
  `PowerOfSetOfCubes` fail with `ValueError`, because `max` of an empty list
  raises. The model follows the code. A description of the script that treats
  the missing colour's maximum as 0, giving a power of 0, does not match it.
- `CubeGame.Maxima`, which takes the maximum of each list, is a function
  rather than a loop. The dict comprehension it stands for has no loop
  variable to keep. It returns the maxima in the dict's order: red, green,
  blue.
