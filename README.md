# Advent of Code 2023, days 1–7, in Dafny

This project models the seven puzzle solvers of the repository, with file
reading and printing removed. Each solver becomes one module. Shared Python
text and integer behaviour lives in `common.dfy` (module `PyText`):

- `int()` on a string, `str(n)`;
- `split`, `join`, `strip`, `lstrip`, `rstrip`;
- the `\d+` scanner that `re.findall` is used for;
- the sum of per-line results.

A Python exception is modelled as an `Err` value of a `Result` datatype. `ValueError`, `IndexError` and `AssertionError` are kept apart. The `lines` parameters stand for the lines the solver reads: in 01 and 02 the raw lines of `readlines()`, in 03 to 07 the stripped lines `read_input()` returns. Where 04 and 06 strip such a line again, the model does too, which changes nothing. A loop of the source becomes a method with loop invariants. Each such method is proved equal to a function, and the properties the source promises are lemmas about that function.

| file | module | solver |
|---|---|---|
| `calibration.dfy` | `Calibration` | 01: first and last digit of each line, the forward and reverse rewriting of spelled-out digits |
| `cube_games.dfy` | `CubeGames` | 02: cube-set parsing, game validity against a bag, sum of valid game IDs |
| `part_numbers.dfy` | `PartNumbers` | 03: 8-neighbour checks on the grid, digit-by-digit sum of part numbers with the carried relevance flag |
| `scratch_cards.dfy` | `ScratchCards` | 04: card parsing, points `2^(n-1)` of `n` winners, sum of points |
| `almanac.dfy` | `Almanac` | 05: range entries, maps with the `or` fallback, line grouping, seed ranges, lowest location |
| `boat_races.dfy` | `BoatRaces` | 06: distance `t*(T-t)`, winning hold times, product of their counts |
| `camel_cards.dfy` | `CamelCards` | 07: card table, hand order, evaluator chain over count profiles, bucketed ranking and winnings |

## Model

| member | source | states |
|---|---|---|
| PyText.DigitValue | 01/main.py:13-14 | `int(c)` of an ASCII digit is at most 9 |
| PyText.DigitChar | 01/main.py:59 | `str(d)` of a digit value is the digit character whose value is `d` |
| PyText.DecimalValue | 02/main.py:24 | definition of the value `int()` reads from a digit run, most significant digit first; properties in `DecimalRoundTrip`, `ParseInt`, `ParseIntDigit` and `DecimalValueCons` |
| PyText.DecimalString | 04/main.py:24 | `str(n)` of a natural number is a non-empty run of digits |
| PyText.DecimalRoundTrip | 04/main.py:24 | reading the digits of `str(n)` gives back `n` |
| PyText.IntString | 02/main.py:12 | definition of `str(n)` for an int; properties in `IntStringChars` and `IntRoundTrip` |
| PyText.IntStringChars | 02/main.py:12 | `str(n)` is non-empty, ends in a digit, and is a digit run after an optional minus sign |
| PyText.LStrip | 01/main.py:22 | `lstrip` never makes the text longer |
| PyText.RStrip | 01/main.py:23-24 | `rstrip` never makes the text longer |
| PyText.LStripSpec | 01/main.py:22 | `lstrip(chars)` is a suffix of its input, everything removed is in `chars`, and its first character is not |
| PyText.RStripSpec | 01/main.py:23-24 | `rstrip(chars)` is a prefix of its input, everything removed is in `chars`, and its last character is not |
| PyText.LStripExact | 01/main.py:22 | `lstrip` removes exactly the leading run of characters in the class |
| PyText.RStripExact | 01/main.py:23-24 | `rstrip` removes exactly the trailing run of characters in the class |
| PyText.StripExact | 04/main.py:36 | `strip()` of a text with whitespace only outside `i..j` and non-blank ends there is `s[i..j]` |
| PyText.ParseInt | 02/main.py:24 | `int(s)` succeeds exactly when the stripped text is an optionally signed digit run, else `ValueError` |
| PyText.IntRoundTrip | 02/main.py:24 | `int(str(n)) == n` for every integer |
| PyText.Strip | 02/main.py:83 | definition of `strip()`; what it removes is stated by `StripExact`, `LStripSpec` and `RStripSpec` |
| PyText.ParseIntDigit | 01/main.py:13-14 | `int(c)` of one character succeeds exactly for a digit, giving its value |
| PyText.Split | 02/main.py:21 | `split(sep)` gives at least one piece and no piece contains `sep` |
| PyText.SplitWithout | 02/main.py:21 | a text without the separator splits into itself |
| PyText.SplitAfter | 02/main.py:21 | the first separator ends the first piece and the rest splits on its own |
| PyText.SplitTwo | 04/main.py:36 | a text with exactly one separator splits into its two sides |
| PyText.JoinWith | 02/main.py:44 | definition of `glue.join(parts)`; properties in `JoinWithFree` and `SplitJoined` |
| PyText.JoinWithFree | 02/main.py:44 | joining pieces and glue free of a character gives a text free of it |
| PyText.SplitJoined | 02/main.py:44 | splitting `"; ".join(parts)` at ';' gives back every part, the later ones after the gap |
| PyText.JoinSplit | 02/main.py:21 | `sep.join(s.split(sep)) == s` |
| PyText.DigitPrefixLength | 03/main.py:37-46 | the length of the leading digit run: all digits before it, a non-digit or the end at it |
| PyText.DigitRuns | 05/main.py:11-12 | every run `\d+` finds is a non-empty run of digits |
| PyText.Numbers | 05/main.py:11-12 | `parse_number_line` gives one number per digit run |
| PyText.KeepDigits | 05/main.py:11-12 | the digits of a text, in order |
| PyText.KeepDigitsAppend | 05/main.py:11-12 | the digits of `a + b` are the digits of `a` followed by those of `b` |
| PyText.KeepAllDigits | 05/main.py:11-12 | a text of digits keeps all of them |
| PyText.DigitRunsCoverDigits | 05/main.py:11-12 | the runs, concatenated left to right, are exactly the digits of the text |
| PyText.DigitRunsOfNonDigits | 05/main.py:11-12 | a text without digits has no runs |
| PyText.DigitRunsSplitAtNonDigit | 05/main.py:11-12 | a non-digit separates the runs of its two sides |
| PyText.DigitPrefixLengthExtend | 03/main.py:37-46 | text after a non-digit does not change the leading run |
| PyText.DigitRunsOfDigits | 05/main.py:11-12 | a non-empty digit text is a single run |
| PyText.DigitPrefixLengthAll | 03/main.py:37-46 | in an all-digit text the leading run is the whole text |
| PyText.SpacedCharacters | 05/main.py:41-42 | numbers written with single spaces hold only digits and spaces and start and end with a digit |
| PyText.NumbersOfSpaced | 05/main.py:41-42 | scanning numbers written with single spaces gives them back |
| PyText.Reversed | 01/main.py:66 | `s[::-1]` has the length of `s` |
| PyText.ReversedSpec | 01/main.py:66 | position `i` of `s[::-1]` holds `s[len - 1 - i]` |
| PyText.FindFrom | 01/main.py:59 | the first occurrence of a pattern from a position on, or none at all |
| PyText.ReplaceFirst | 01/main.py:59 | `replace(pat, repl, 1)` leaves a text without `pat` unchanged |
| PyText.ReplaceFirstAt | 01/main.py:59 | with the first occurrence at `i`, `replace(pat, repl, 1)` swaps exactly that occurrence |
| PyText.Collect | 02/main.py:69 | a list comprehension of parses succeeds exactly when every item does, with the items' values in order; else it fails with the failure of the first item that fails |
| PyText.ParseLines | 07/main.py:153-158 | parsing every line succeeds exactly when each line parses, with the values in order; else the failure of the first line that fails, all lines before it parsing |
| PyText.MapLines | 01/main.py:10-16 | one result per line |
| PyText.SumResults | 01/main.py:8-18 | definition of a summing loop over per-line results; properties in `SumResultsFailure`, `SumResultsBounds`, `SumResultsStops` and `SumResultsMonotone` |
| PyText.SumResultsNext | 01/main.py:10-16 | one more iteration of a summing loop: a success adds its value, a failure ends the whole sum |
| PyText.SumLinesStep | 01/main.py:10-16 | the same for the value a function gives the next line |
| PyText.SumLinesNext | 02/main.py:82-86 | the same for a value already computed for the next line |
| PyText.SumResultsFailure | 01/main.py:10-16 | a sum succeeds exactly when every line does; else it fails with the first failing line's failure |
| PyText.SumResultsBounds | 01/main.py:10-16 | per-line values in `lo..hi` give a sum in `n*lo..n*hi` |
| PyText.SumResultsMonotone | 02/main.py:82-86 | pointwise larger values, failing on the same lines, give a larger sum |
| PyText.SumResultsStep | 01/main.py:10-16 | a successful line adds its value to the running sum |
| PyText.SumResultsStops | 01/main.py:10-16 | the first failing line decides the failure of the whole sum |
| PyText.SumResultsStopsAt | 01/main.py:10-16 | a failure stays the result of every longer prefix |
| Calibration.TruncateLine | 01/main.py:21-25 | definition of `truncate_line`; properties in `TruncateLineSpec` and `TruncateLetterDigitLine` |
| Calibration.TruncateLineSpec | 01/main.py:21-25 | `truncate_line` is a contiguous piece of the line that neither starts nor ends with a lowercase letter |
| Calibration.TwoDigitValue | 01/main.py:13-16 | the value of two digit characters lies in 0..99 |
| Calibration.TwoDigitValueIsInt | 01/main.py:13-16 | it is `int(first) * 10 + int(last)`, failing as the first failing `int()` fails |
| Calibration.CalibrationValue | 01/main.py:11-16 | a line's value, when there is one, lies in 0..99 |
| Calibration.TruncateLetterDigitLine | 01/main.py:21-25 | for a line of letters and digits with trailing whitespace, truncation keeps exactly the first digit through the last |
| Calibration.CalibrationValueOfLetterDigitLine | 01/main.py:11-16 | such a line's value is `10 * first digit + last digit` |
| Calibration.CalibrationTotalBounds | 01/main.py:8-18 | the total of `n` lines lies in `0..99n` |
| Calibration.SumCalibrationValues | 01/main.py:8-18 | the loop of `main` computes the sum of the line values, or the first failure |
| Calibration.Words | 01/main.py:29-39 | the keys of `digit_map` in insertion order, word `k` standing for digit `k + 1`; properties in `DigitWordsAreLetterWords` and `ReversedKeys` |
| Calibration.ReversedKeys | 01/main.py:75 | one reversed word per digit word |
| Calibration.DigitWordsAreLetterWords | 01/main.py:29-39 | "one".."nine" are non-empty lowercase words |
| Calibration.ReversedKeysAreLetterWords | 01/main.py:75 | reversing them keeps them non-empty lowercase words |
| Calibration.FirstMatch | 01/main.py:57-61 | the word found is one the text starts with, tried in table order |
| Calibration.FirstMatchSpec | 01/main.py:57-61 | no earlier word matches, and no word at all when none is found |
| Calibration.RewriteAt | 01/main.py:59 | definition of one word replaced by its digit; properties in `RewriteAtSpec` and `RewriteKeepsNoWordBefore` |
| Calibration.RewriteAtSpec | 01/main.py:59 | rewriting word `k` at `i` puts the digit `k+1` there and keeps the text around it |
| Calibration.ForwardFrom | 01/main.py:50-64 | definition of the forward pass from an index on; properties in `ForwardFromSkips`, `ForwardUnchanged`, `ForwardRewritesFirstWord` and `ForwardPass` |
| Calibration.ForwardFromSkips | 01/main.py:51-64 | positions with no digit and no word do not change the forward pass |
| Calibration.ForwardUnchanged | 01/main.py:51-55 | with no digit word before the first digit, the forward pass leaves the line unchanged |
| Calibration.ForwardRewritesFirstWord | 01/main.py:50-64 | at the first position where a word starts, the forward pass replaces that one word by its digit and stops |
| Calibration.NoEarlierCopy | 01/main.py:59 | a word first found at `i` occurs nowhere before, so `replace(..., 1)` hits that occurrence |
| Calibration.ForwardPass | 01/main.py:50-64 | the loop with its `done` flag computes the forward pass |
| Calibration.RewriteKeepsNoWordBefore | 01/main.py:74-77 | after a rewrite at `i`, no word starts before `i + 1` |
| Calibration.ReverseFrom | 01/main.py:66-77 | definition of the reverse pass from an index on, with its `IndexError`; properties in `ReverseFromKeepsPrefix`, `ReverseRewritesFirstWord`, `ReverseUnchanged`, `ReverseFromSkips` and `ReversePass` |
| Calibration.ReverseFromKeepsPrefix | 01/main.py:68-77 | the reverse pass never changes the part it has read |
| Calibration.KeepsPrefixShorter | 01/main.py:68-77 | keeping a longer read part keeps a shorter one |
| Calibration.ReverseRewritesFirstWord | 01/main.py:68-77 | the first word found in the reversed text is replaced by its digit |
| Calibration.ReverseUnchanged | 01/main.py:68-72 | with no reversed word before the first digit, the reverse pass changes nothing |
| Calibration.ReverseFromSkips | 01/main.py:68-77 | positions with no digit and no word do not change the reverse pass |
| Calibration.ReverseRewriteStep | 01/main.py:74-77 | after a replacement the reverse pass goes on, re-reading the changed text at the next index |
| Calibration.ReverseSkipStep | 01/main.py:68-77 | a position where no word starts is stepped over |
| Calibration.ReversePass | 01/main.py:66-77 | the loop over the reversed line computes the reverse pass |
| Calibration.WordCalibrationValue | 01/main.py:47-85 | a line's `main2` value, when there is one, lies in 0..99 |
| Calibration.WordCalibrationLine | 01/main.py:47-85 | one line of `main2`: both passes, truncation, first digit from the end and last from the start |
| Calibration.WordCalibrationTotalBounds | 01/main.py:44-90 | the `main2` total of `n` lines lies in `0..99n` |
| Calibration.AddWordCalibrationLine | 01/main.py:85-88 | one iteration of `main2` adds the line's value or ends with its failure |
| Calibration.SumWordCalibrationValues | 01/main.py:44-90 | the loop of `main2` computes the sum of the line values, or the first failure |
| CubeGames.WithAmount | 02/main.py:26-31 | setting one colour's amount leaves the other two unchanged |
| CubeGames.ColourNamed | 02/main.py:26-33 | a known name gives its colour; an unknown one is a `ValueError`, and no colour has that name |
| CubeGames.ParseToken | 02/main.py:23-31 | a token parses exactly when, stripped and split at ' ', it is two words, an integer and a known colour name; otherwise it fails with `ValueError` |
| CubeGames.ParseTokens | 02/main.py:21-22 | one parse per ','-separated token |
| CubeGames.Assign | 02/main.py:19-35 | parsing a cube set succeeds exactly when every token parses; else it fails as the first failing token fails, all tokens before it parsing |
| CubeGames.ParseCubeSet | 02/main.py:14-35 | definition of `CubeSet.parse`; properties in `Assign`, `ParseCubeSetFailure`, `LastAmountWins` and `CubeSetRoundTrip` |
| CubeGames.ParseCubeSetFailure | 02/main.py:19-35 | `CubeSet.parse` can only fail with `ValueError` |
| CubeGames.LastAmountWins | 02/main.py:19-31 | a colour no token names stays 0; otherwise the last token naming it sets its amount |
| CubeGames.Parse | 02/main.py:15-35 | the loop of `CubeSet.parse` on a fresh cube set computes the parse |
| CubeGames.ColourChars | 02/main.py:12 | a colour name is a lowercase word without separators |
| CubeGames.TokenChars | 02/main.py:12 | "amount colour" has non-blank ends and none of ',', ';', ':' |
| CubeGames.StripLead | 02/main.py:23 | stripping removes only the whitespace in front of a token |
| CubeGames.TokenWords | 02/main.py:23 | "amount colour" splits at ' ' into the amount and the colour name |
| CubeGames.TokenRoundTrip | 02/main.py:23-31 | a written token, after any whitespace, parses back to its amount and colour |
| CubeGames.SplitThree | 02/main.py:21 | three tokens joined by ", " split back at ',' |
| CubeGames.CubeSetString | 02/main.py:11-12 | definition of `CubeSet.__str__`; properties in `CubeSetTokens`, `CubeSetChars` and `CubeSetRoundTrip` |
| CubeGames.CubeSetTokens | 02/main.py:11-12 | `str(cube_set)` splits at ',' into its three tokens |
| CubeGames.AssignThree | 02/main.py:19-35 | red, green and blue tokens in that order parse to exactly that cube set |
| CubeGames.CubeSetRoundTrip | 02/main.py:11-35 | `CubeSet.parse(str(c))` gives back `c`, also after leading whitespace |
| CubeGames.ParsedRuns | 02/main.py:69 | one parse per ';'-separated run |
| CubeGames.ParseGame | 02/main.py:60-71 | a parsed game carries the bag it was parsed against |
| CubeGames.GameString | 02/main.py:43-44 | definition of `GameConfig.__str__`; properties in `GameRoundTrip` |
| CubeGames.RunStrings | 02/main.py:44 | one text per run |
| CubeGames.CubeSetChars | 02/main.py:12 | `str(cube_set)` holds no ';' and no ':' |
| CubeGames.SplitRuns | 02/main.py:44 | the runs joined by "; " split back at ';' into the written runs |
| CubeGames.HeadAndRuns | 02/main.py:66-67 | "Game id: runs" splits at ':' into head and runs, and the head at ' ' into "Game" and the ID |
| CubeGames.GameRoundTrip | 02/main.py:43-71 | `GameConfig.parse(str(game))` gives back the game: its ID and its runs in order |
| CubeGames.Fits | 02/main.py:51-55 | definition of a run needing no more cubes of any colour than the bag; properties in `IsValid` and `ValidMonotone` |
| CubeGames.Valid | 02/main.py:50-57 | definition of `is_valid`; properties in `IsValid` and `ValidMonotone` |
| CubeGames.IsValid | 02/main.py:50-57 | `is_valid` is true exactly when every run fits the bag componentwise, so it is true with no runs |
| CubeGames.ValidMonotone | 02/main.py:50-57 | a larger bag keeps a valid game valid |
| CubeGames.Score | 02/main.py:83-86 | definition of one iteration of `main`'s loop; properties in `LineScore` and `SumPossibleGameIds` |
| CubeGames.LineScore | 02/main.py:83-86 | one line adds its game's ID when the game is valid, else nothing |
| CubeGames.AddGameScore | 02/main.py:82-86 | one iteration adds the line's score or ends with its failure |
| CubeGames.PossibleIdSum | 02/main.py:78-86 | definition of `main`'s sum of valid game IDs, or the first failure; properties in `SumPossibleGameIds` and `LargerBagLargerSum` |
| CubeGames.SumPossibleGameIds | 02/main.py:74-88 | `main` computes the sum of the IDs of the games valid against 12 red, 13 green and 14 blue cubes |
| CubeGames.LargerBagLargerSum | 02/main.py:78-86 | raising the bag keeps the same lines parsing and cannot lower the sum of non-negative IDs |
| CubeGames.ParseGameBag | 02/main.py:60-71 | parsing does not depend on the bag beyond storing it |
| PartNumbers.IsSpecial | 03/main.py:6-7 | definition of `is_special_char`: neither a digit nor '.'; properties in `NearSpecialSpec` and `AdjacentSpec` |
| PartNumbers.NearFromSpec | 03/main.py:21-34 | the offset check from offset `k` on is true exactly when a later offset is an in-grid special character |
| PartNumbers.OffsetIndexes | 03/main.py:1-3 | each of the eight neighbour offsets is in the offset table |
| PartNumbers.NearSpecialSpec | 03/main.py:17-34 | true exactly when one of the 8 surrounding cells, never the cell itself, is an in-grid special character |
| PartNumbers.NeighbourIsOffset | 03/main.py:1-3 | every neighbouring cell is reached by an offset in the table |
| PartNumbers.OffsetIsNeighbour | 03/main.py:1-3 | every offset in the table is a neighbour and not the cell itself |
| PartNumbers.Adjacent | 03/main.py:17-34 | definition of `has_adjacent_special_char`; properties in `AdjacentSpec`, `AdjacentTotal` and `AdjacentValue` |
| PartNumbers.AdjacentFrom | 03/main.py:21-34 | the offset loop can only fail with `IndexError` |
| PartNumbers.AdjacentFromSpec | 03/main.py:21-34 | on a rectangular grid it does not fail, and its answer is the offset check |
| PartNumbers.AdjacentSpec | 03/main.py:17-34 | `has_adjacent_special_char` on a rectangular grid is `NearSpecial` |
| PartNumbers.AdjacentTotal | 03/main.py:18-31 | with bounds taken from `lines[0]`, a rectangular grid never raises `IndexError` |
| PartNumbers.AdjacentValue | 03/main.py:17-34 | when it answers, its answer is `NearSpecial` |
| PartNumbers.HasAdjacentSpecialChar | 03/main.py:17-34 | the loop with early return computes it |
| PartNumbers.RunLength | 03/main.py:37-46 | the digit run from a position stays within the line |
| PartNumbers.RunLengthSpec | 03/main.py:37-46 | it is a run of digits, ended by a non-digit or the line end |
| PartNumbers.RunLengthOfRun | 03/main.py:37-46 | a maximal digit run has exactly that length |
| PartNumbers.DecimalPlace | 03/main.py:37-46 | definition of `get_decimal_place`; properties in `GetDecimalPlace` and `RightNearSpec` |
| PartNumbers.GetDecimalPlace | 03/main.py:37-46 | `get_decimal_place` counts the digits directly right of the position |
| PartNumbers.RightFrom | 03/main.py:52-59 | definition of the right-neighbour loop from one column on; properties in `RightFromTotal`, `RightFromTrue`, `RightFromFalse` and `HasRightNeighbourNearSpecial` |
| PartNumbers.RightFromTotal | 03/main.py:49-59 | on a rectangular grid the right-neighbour loop never fails |
| PartNumbers.RightFromTrue | 03/main.py:49-59 | a true answer means some digit of the run to the right is next to a special character |
| PartNumbers.RightFromFalse | 03/main.py:49-59 | a false answer means none is |
| PartNumbers.RightNearSpec | 03/main.py:49-59 | the right-neighbour check is true exactly when a digit of the run right of the position is near a special character |
| PartNumbers.RightNear | 03/main.py:49-59 | definition of the right-neighbour check; properties in `RightNearSpec` and `RightNearTotal` |
| PartNumbers.RightNearTotal | 03/main.py:49-59 | on a rectangular grid it never fails |
| PartNumbers.HasRightNeighbourNearSpecial | 03/main.py:49-59 | the loop with early return computes it |
| PartNumbers.Pow10 | 03/main.py:81 | `10 ** n` is at least 1 |
| PartNumbers.CellAt | 03/main.py:67-84 | definition of what the scan sees at one character; properties in `RowCellAt`, `RunCell`, `NonDigitResets` and `RaggedGridRaises` |
| PartNumbers.CellsFrom | 03/main.py:69 | one cell per character from the position on |
| PartNumbers.RowCells | 03/main.py:69 | one cell per character of the line |
| PartNumbers.CellsFromAt | 03/main.py:69-84 | cell `i` of the row is what the scan sees at column `i` |
| PartNumbers.RowCellAt | 03/main.py:69-84 | the same for the whole row |
| PartNumbers.ScanFromStep | 03/main.py:68-84 | one step of the scan updates the flag and the sum as the cell decides |
| PartNumbers.IsRelevant | 03/main.py:67-84 | one character: the debug print's calls, which may raise `IndexError` on any character, then the relevance condition: a digit near a special character, with such a digit to its right, or right after a relevant one |
| PartNumbers.PartNumberTotal | 03/main.py:60-86 | definition of `main`'s sum; properties in `PartNumberSum`, `RunCounted` and `CarriedIntoNextRow` |
| PartNumbers.PartNumberSum | 03/main.py:62-86 | the nested loops of `main` compute the scan's sum |
| PartNumbers.DecimalValueCons | 03/main.py:80-81 | a leading digit is worth `digit * 10^places` more than the rest |
| PartNumbers.Distribute | 03/main.py:80-81 | helper: the arithmetic step of `DecimalValueCons`, a sum times ten regrouped |
| PartNumbers.ConsDigits | 03/main.py:80-81 | a digit in front of digits gives digits |
| PartNumbers.AllOrNothing | 03/main.py:75-84 | in a run whose relevance spreads leftwards, every digit counts or none does |
| PartNumbers.SliceDigits | 03/main.py:40-46 | a slice is all digits exactly when every position in it is a digit |
| PartNumbers.RunCell | 03/main.py:75-81 | a digit of a maximal run is relevant exactly when the run is near a special character, and is worth `digit * 10^places` |
| PartNumbers.RunRowCell | 03/main.py:75-81 | the same, read from the row |
| PartNumbers.RunCells | 03/main.py:75-84 | a maximal run is all digit cells whose relevance spreads leftwards |
| PartNumbers.RunWorth | 03/main.py:80-81 | the counted digits of a run add up to the run's decimal value |
| PartNumbers.RunCounted | 03/main.py:75-84 | a whole run adds its decimal value exactly when it, or the carried flag, is relevant |
| PartNumbers.CarriedIntoNextRow | 03/main.py:66-84 | a relevant digit ending one line makes a run starting the next line count |
| PartNumbers.NonDigitResets | 03/main.py:70-84 | a non-digit resets the flag and adds nothing once the debug print's checks answer, which they always do on a rectangular grid |
| PartNumbers.RaggedGridRaises | 03/main.py:17-31 | on the ragged grid `["...", "."]` the debug print's check of the first character raises `IndexError` |
| ScratchCards.ToSet | 04/main.py:41-42 | `set(numbers)` holds exactly the numbers in the list |
| ScratchCards.Pow2 | 04/main.py:30 | `2 ** n` is at least 1 |
| ScratchCards.Value | 04/main.py:27-30 | definition of `value`; properties in `ValueZero`, `ValuePowerOfTwo`, `ValueSymmetric` and `ValueBound` |
| ScratchCards.Winners | 04/main.py:28 | definition of the intersection of the winning and scratched sets; properties in `ValueZero`, `ValueBound` and `IntersectionSize` |
| ScratchCards.ValueZero | 04/main.py:27-30 | a card is worth 0 exactly when its winning and scratched sets do not meet |
| ScratchCards.ValuePowerOfTwo | 04/main.py:30 | otherwise it is worth `2^(n-1)` for `n` common numbers, a power of two |
| ScratchCards.ValueSymmetric | 04/main.py:28 | swapping the two lists does not change the value |
| ScratchCards.Pow2Monotone | 04/main.py:30 | `2 ** n` grows with `n` |
| ScratchCards.IntersectionSize | 04/main.py:28 | the intersection is no larger than the winning set |
| ScratchCards.ValueBound | 04/main.py:27-30 | a card is worth less than `2^k` for `k` winning numbers |
| ScratchCards.DropFive | 04/main.py:37 | definition of `[5:]`, empty on a shorter text; properties in `ParseCard` and `CardRoundTrip` |
| ScratchCards.ParseCard | 04/main.py:33-44 | `ScratchCard.parse` fails only with `ValueError` or `IndexError` |
| ScratchCards.SpacedFree | 04/main.py:11-15 | numbers written with spaces hold no ':' and no '\|' |
| ScratchCards.NumbersPadded | 04/main.py:11-15 | spaces around written numbers do not change what `parse_number_str` reads |
| ScratchCards.CardRoundTrip | 04/main.py:33-44 | parsing "Card id: winning \| scratched" gives the ID and the sets of both lists |
| ScratchCards.DuplicatesIgnored | 04/main.py:41-42 | repeating a number in a list does not change the card |
| ScratchCards.Points | 04/main.py:53-55 | definition of one iteration of `main`'s loop; properties in `LinePoints` and `SumOfPoints` |
| ScratchCards.LinePoints | 04/main.py:53-55 | one line: parse the card and take its value |
| ScratchCards.AddCardPoints | 04/main.py:52-55 | one iteration adds the card's points or ends with its failure |
| ScratchCards.SumOfPoints | 04/main.py:47-57 | `main` computes the sum of the values of all cards, or the first failure |
| ScratchCards.SumZero | 04/main.py:50-55 | a sum of non-negative values is non-negative, and 0 exactly when every value is 0 |
| ScratchCards.TotalZero | 04/main.py:50-55 | the total is never negative, and it is 0 exactly when no card has a scratched winning number |
| Almanac.EntryMap | 05/main.py:25-32 | an entry maps `num` exactly when `src <= num < src + len`, to `dest + (num - src)`, inside `[dest, dest + len)` |
| Almanac.EntryMapInverse | 05/main.py:25-32 | the entry with source and destination swapped maps the result back |
| Almanac.ParseEntry | 05/main.py:35-39 | an entry parses exactly when the line has three numbers, read as dest, src and len; else `AssertionError` |
| Almanac.WithoutSpaces | 05/main.py:56 | `replace(' ', '')` leaves no space |
| Almanac.SplitFirst | 05/main.py:56 | the digits-and-spaces and has-a-digit tests, one character at a time |
| Almanac.NumericLine | 05/main.py:56 | the line check passes exactly when the line has only digits and spaces and at least one digit |
| Almanac.WithoutSpacesDigits | 05/main.py:56 | without its spaces a line is all digits exactly when it held only digits and spaces |
| Almanac.WithoutSpacesKeepsDigits | 05/main.py:56 | such a line keeps something exactly when it has a digit |
| Almanac.ParseMapLine | 05/main.py:55-58 | a map line parses exactly when it passes the check and has three numbers; else `AssertionError` |
| Almanac.EntryString | 05/main.py:41-42 | definition of `NumberMapEntry.__str__`; properties in `EntryRoundTrip` and `NumberMapRoundTrip` |
| Almanac.EntryRoundTrip | 05/main.py:35-42 | the written entry parses back to the entry |
| Almanac.Mapped | 05/main.py:62-67 | definition of `map_number`; properties in `LastHitAt`, `LastHitNone`, `ZeroIsNoMatch` and `MapNumber` |
| Almanac.LastHit | 05/main.py:62-67 | the value the `or` chain keeps is never 0 |
| Almanac.LastHitAt | 05/main.py:64-65 | the last entry giving a non-zero value decides |
| Almanac.LastHitNone | 05/main.py:62-67 | nothing is kept exactly when no entry gives a non-zero value |
| Almanac.ZeroIsNoMatch | 05/main.py:65-67 | an entry that maps to 0 changes nothing, as if it did not match |
| Almanac.ZeroIsNoMatchExample | 05/main.py:65-67 | an entry sending 5 to 0 leaves 5 mapped to itself |
| Almanac.MapNumber | 05/main.py:62-67 | the loop of `NumberMap.map_number` computes the mapping |
| Almanac.NumberMapOf | 05/main.py:52-60 | parsing a map can only fail with `AssertionError` |
| Almanac.ParseNumberMap | 05/main.py:52-60 | the loop skips the header and appends every checked entry in input order |
| Almanac.NumberMapRoundTrip | 05/main.py:52-70 | a header and the written entries parse back to the map |
| Almanac.Segments | 05/main.py:94-100 | splitting at blank lines gives at least one segment |
| Almanac.Grouped | 05/main.py:91-100 | definition of the grouping of lines; properties in `GroupedKeepsLines` and `GroupLines` |
| Almanac.Merge | 05/main.py:91-100 | the grouping keeps one group per segment |
| Almanac.FlattenAppend | 05/main.py:91-100 | flattening distributes over concatenation |
| Almanac.FlattenOne | 05/main.py:91-100 | flattening one group gives it back |
| Almanac.SegmentsKeepLines | 05/main.py:94-100 | the segments hold every non-blank line, in order |
| Almanac.FlattenMerged | 05/main.py:91-100 | appending into group -1 first puts the first two segments together |
| Almanac.FlattenFirstTwo | 05/main.py:91-100 | flattening after the first two segments |
| Almanac.MergeKeeps | 05/main.py:91-100 | the grouping loses and reorders no line |
| Almanac.GroupedKeepsLines | 05/main.py:91-100 | the groups hold every non-blank line after the first, in order |
| Almanac.MergeOpen | 05/main.py:95-98 | a blank line opens a new empty group |
| Almanac.MergeGrow | 05/main.py:100 | a line goes into the group `current_idx` points at |
| Almanac.GroupedStep | 05/main.py:94-100 | one iteration of the grouping loop |
| Almanac.GroupLines | 05/main.py:91-100 | the grouping loop with its `current_idx` counter computes the grouping |
| Almanac.MapsOf | 05/main.py:102-106 | parsing the groups can only fail with `AssertionError` |
| Almanac.MapsOfStops | 05/main.py:102-106 | a failing group makes the whole parse fail |
| Almanac.ParseMaps | 05/main.py:102-106 | the loop skips empty groups and parses the others in order |
| Almanac.SeedRanges | 05/main.py:73-80 | one range per complete (start, length) pair |
| Almanac.RangesOf | 05/main.py:77-78 | one range per pair of numbers |
| Almanac.ParseSeeds | 05/main.py:73-80 | the loop of `parse_seeds` computes the ranges |
| Almanac.SeedRangePairs | 05/main.py:77-78 | range `i` starts at number `2i` and has length number `2i+1` |
| Almanac.TrailingSeedDropped | 05/main.py:73-80 | a trailing unpaired number is dropped |
| Almanac.RangesOfTrailing | 05/main.py:77 | the same, on the numbers |
| Almanac.Location | 05/main.py:118-122 | definition of a seed's location; properties in `LocationCompose` and `ApplyMaps` |
| Almanac.LocationCompose | 05/main.py:120-122 | applying maps `a + b` is applying `a`, then `b` |
| Almanac.ApplyMaps | 05/main.py:118-122 | the loop over the maps computes the composition |
| Almanac.Locations | 05/main.py:114-124 | definition of `seeds_out` after some ranges; properties in `LocationOfSeed`, `SeedOfLocation` and `SeedLocations` |
| Almanac.RangeLocations | 05/main.py:117-124 | one location per seed of a range |
| Almanac.LocationOfSeed | 05/main.py:116-124 | every seed's location is among the collected ones |
| Almanac.SeedOfLocation | 05/main.py:116-124 | every collected location is some seed's location |
| Almanac.RangeLocationsStep | 05/main.py:117-124 | one more seed appends its location |
| Almanac.SeedLocations | 05/main.py:114-124 | the nested loops collect the location of every seed, range by range |
| Almanac.Min | 05/main.py:126 | `min` is an element no larger than any other |
| Almanac.ParsedMaps | 05/main.py:89-106 | definition of the maps `main` builds from the lines after the seed line; properties in `MapsOf`, `GroupedKeepsLines` and `LowestLocation` |
| Almanac.LowestLocation | 05/main.py:83-126 | `main`: `IndexError` with no lines, `AssertionError` for a bad map or not exactly 7 maps, `ValueError` with no seed; otherwise the lowest location over all seeds, reached by some seed |
| BoatRaces.Distance | 06/main.py:15-22 | the special case agrees with the product `hold * (time - hold)` |
| BoatRaces.DistanceSymmetric | 06/main.py:19-22 | holding for `t` or `T - t` goes the same distance |
| BoatRaces.Wins | 06/main.py:27-29 | definition of a hold beating the record; properties in `EndsNeverWin` and `WinsContiguous` |
| BoatRaces.WinsBelow | 06/main.py:24-32 | definition of the winning holds below a bound, in increasing order; properties in `WinsBelowSpec` and `WinningTimes` |
| BoatRaces.Ways | 06/main.py:24-32 | definition of the number of winning times; properties in `WinsBelowSpec`, `EndsNeverWin` and `WinsContiguous` |
| BoatRaces.WinsBelowSpec | 06/main.py:24-32 | the collected times are exactly the winning `t` in `[0, n)`, strictly increasing, at most `n` of them |
| BoatRaces.WinningTimes | 06/main.py:24-32 | the loop of `get_winning_times` collects the winning times below the race time |
| BoatRaces.EndsNeverWin | 06/main.py:16-17 | with a non-negative record, holding for 0 or for the whole race never wins |
| BoatRaces.DistanceChange | 06/main.py:19-22 | how the distance changes between two holds |
| BoatRaces.WinsContiguous | 06/main.py:24-32 | a hold between two winning holds wins too |
| BoatRaces.ProductSign | 06/main.py:56 | a positive number times a non-negative one is non-negative |
| BoatRaces.Races | 06/main.py:54-55 | `zip` pairs times and records by position, cut to the shorter list |
| BoatRaces.WaysProduct | 06/main.py:52-56 | definition of the product of the counts; properties in `WaysProductZero` |
| BoatRaces.WaysProductZero | 06/main.py:52-56 | the product is never negative, and 0 exactly when some race cannot be won |
| BoatRaces.Answer | 06/main.py:46-56 | definition of `main`'s answer; properties in `ProductOfWays` |
| BoatRaces.ProductOfWays | 06/main.py:46-58 | `main` computes the product of the winning counts, 1 with no race, `IndexError` with fewer than two lines |
| CamelCards.FromLabel | 07/main.py:22-38 | a label gives a card exactly when it is A, K, Q, J, T or 2..9, with a value in 2..14 |
| CamelCards.FromLabelTable | 07/main.py:22-38 | A, K, Q, J, T give 14, 13, 12, 11, 10 and a digit gives its value |
| CamelCards.FromLabelInjective | 07/main.py:22-44 | different labels give cards of different value |
| CamelCards.Values | 07/main.py:40-44 | the values the comparisons read, card by card |
| CamelCards.CardsFromLabels | 07/main.py:84 | the cards parse exactly when every label is valid, keeping their order |
| CamelCards.FromStr | 07/main.py:82-85 | `Hand.from_str` fails unless there are exactly 5 valid labels; card `i` is the card of label `i`, and the bid is kept |
| CamelCards.HandEqual | 07/main.py:67-72 | definition of `__eq__`; properties in `HandComparisonTrichotomy` |
| CamelCards.HandLess | 07/main.py:74-79 | definition of `__lt__`; properties in `LexLessFirstDifference`, `LexLessTransitive` and `HandComparisonTrichotomy` |
| CamelCards.LexLess | 07/main.py:74-79 | definition of `__lt__` on the zipped values; properties in `LexLessFirstDifference`, `LexLessTransitive`, `LexLessAsymmetric`, `LexLessIrreflexive` and `LexTrichotomy` |
| CamelCards.LexLessFirstDifference | 07/main.py:74-79 | hand `<` holds exactly when the first differing value is smaller |
| CamelCards.LexLessTransitive | 07/main.py:74-79 | `<` is transitive |
| CamelCards.LexLessAsymmetric | 07/main.py:74-79 | `<` is asymmetric |
| CamelCards.LexTrichotomy | 07/main.py:67-79 | on equal lengths, `==` holds exactly for equal values, and exactly one of `<`, `>`, `==` holds |
| CamelCards.LexLessIrreflexive | 07/main.py:74-79 | no hand is `<` itself |
| CamelCards.HandComparisonTrichotomy | 07/main.py:67-79 | five-card hands are equal exactly when their values are, and exactly one of `<`, `>`, `==` holds |
| CamelCards.Occurrences | 07/main.py:101 | a `Counter` entry is positive exactly for values in the hand |
| CamelCards.Without | 07/main.py:101 | removing a value keeps every other value and its count |
| CamelCards.InsertDescending | 07/main.py:102 | inserting a count keeps the others and adds it to the sum |
| CamelCards.InsertDescendingBelow | 07/main.py:102 | inserting keeps counts below a bound |
| CamelCards.InsertDescendingSorted | 07/main.py:102 | inserting keeps the counts sorted descending |
| CamelCards.CountProfile | 07/main.py:101-102 | the `most_common()` counts are sorted descending and positive |
| CamelCards.ProfileSum | 07/main.py:101-102 | the counts add up to the number of cards |
| CamelCards.ProfileLength | 07/main.py:96-102 | there is one count per distinct value |
| CamelCards.ProfileEntries | 07/main.py:101-102 | every value's count is in the profile, and every count is some value's |
| CamelCards.MostCommonIsHead | 07/main.py:102 | `most_common()[0]` holds the largest count |
| CamelCards.SumBounds | 07/main.py:101-110 | positive counts add up to at least their number, and to at least the first plus the rest |
| CamelCards.PartitionsOfFive | 07/main.py:94-133 | a five-card hand has one of the seven count profiles |
| CamelCards.PartitionsOfFiveEntries | 07/main.py:94-133 | the case analysis behind it |
| CamelCards.SumUnfold | 07/main.py:94-133 | the sum of at most five counts written out |
| CamelCards.Evaluate | 07/main.py:88-138 | definition of `evaluator.evaluate(hand)`; properties in `FirstMatchWins`, `ChainOnHand` and `StrengthByValues` |
| CamelCards.ChainOnCounts | 07/main.py:58-65 | definition of the evaluator chain on a count profile; properties in `ChainOnHand` and `ChainOnProfiles` |
| CamelCards.EvaluateCounts | 07/main.py:94-138 | definition of the seven evaluators on a count profile; properties in `ChainOnProfiles` |
| CamelCards.EvaluateHandStrength | 07/main.py:58-65 | definition of `evaluate_hand_strength`; properties in `FirstMatchWins`, `ChainOnHand` and `StandardChainClassifies` |
| CamelCards.FirstMatchWins | 07/main.py:58-65 | the chain returns the first non-None result, after only None results; `AssertionError` when all give None |
| CamelCards.ChainOnHand | 07/main.py:58-65 | the chain reads only the number of distinct values and the count profile |
| CamelCards.ChainOnProfiles | 07/main.py:94-149 | [5], [4,1], [3,2], [3,1,1], [2,2,1], [2,1,1,1] and all distinct give 6 down to 0, and `most_common()[1]` is read only with two entries |
| CamelCards.StandardChainClassifies | 07/main.py:58-65 | the standard chain never fails or reaches the assert, and the category is the index of the hand's profile |
| CamelCards.Category | 07/main.py:149 | the category lies in 0..6 |
| CamelCards.CategoryClassifies | 07/main.py:58-65 | it is the chain's result and the index of the hand's profile |
| CamelCards.WithinConcat | 07/main.py:167-169 | strength bands of consecutive buckets concatenate |
| CamelCards.CategoryRates | 07/main.py:162-163 | every five-card hand has a category |
| CamelCards.Bucket | 07/main.py:162-163 | a bucket holds only hands of its category |
| CamelCards.InsertByStrength | 07/main.py:168 | insertion adds one hand to the multiset |
| CamelCards.SortDescending | 07/main.py:168 | `sorted` is a permutation; its order and stability are stated by `SortDescendingSorted` and `SortDescendingStable` |
| CamelCards.InsertByStrengthBelow | 07/main.py:168 | inserting keeps every hand not above a bound |
| CamelCards.InsertByStrengthSorted | 07/main.py:168 | inserting keeps the strongest-first order |
| CamelCards.SortDescendingSorted | 07/main.py:168 | `sorted(reverse=True)` puts the hands strongest first |
| CamelCards.WithValues | 07/main.py:67-79 | the hands of a list that `__eq__` cannot tell apart from given card values, in list order, all from the list |
| CamelCards.WithValuesAppend | 07/main.py:168-169 | selecting those hands distributes over concatenation |
| CamelCards.WithValuesNone | 07/main.py:168 | a list without such a hand selects nothing |
| CamelCards.WithValuesOne | 07/main.py:168 | helper: selecting from a single hand |
| CamelCards.StrongestFirstTail | 07/main.py:168 | helper: the tail of a list sorted strongest first is sorted too |
| CamelCards.ConcatAssociative | 07/main.py:169 | helper: list concatenation is associative |
| CamelCards.InsertInFrontStable | 07/main.py:168 | a hand stronger than the head of a sorted list equals none of its hands |
| CamelCards.InsertByStrengthStable | 07/main.py:168 | inserting into a sorted list puts the hand after every equal hand |
| CamelCards.SortDescendingStable | 07/main.py:168 | `sorted` is stable: equal hands keep their input order |
| CamelCards.AtLeastSplit | 07/main.py:160-169 | the hands of strength at least `k` are those above `k` plus bucket `k` |
| CamelCards.AtLeastBounds | 07/main.py:160-169 | strength at least 0 is every hand, at least 7 is none |
| CamelCards.StrongBuckets | 07/main.py:165-169 | definition of `total_order` after the buckets down to a strength; properties in `StrongBucketsPermutation`, `StrongBucketsStrengths`, `StrongBucketsOrdered` and `StrongBucketsWithValues` |
| CamelCards.StrongBucketsPermutation | 07/main.py:165-169 | concatenating the buckets from the strongest down is a permutation of the hands of those strengths |
| CamelCards.SortedBucket | 07/main.py:168 | a sorted bucket stays within its category |
| CamelCards.StrongBucketsStrengths | 07/main.py:165-169 | the concatenation stays within the categories appended |
| CamelCards.AppendRanked | 07/main.py:169 | extending by a weaker sorted bucket keeps the order |
| CamelCards.StrongBucketsOrdered | 07/main.py:165-169 | the concatenation is ordered by category, then by hand, descending |
| CamelCards.TotalOrder | 07/main.py:160-169 | definition of `total_order`; properties in `TotalOrderRanksAllHands` and `TotalOrderStable` |
| CamelCards.TotalOrderRanksAllHands | 07/main.py:160-169 | `total_order` is a permutation of the hands, by category and then hand, descending |
| CamelCards.StrengthByValues | 07/main.py:58-65 | hands with equal card values get the same strength from any evaluator chain |
| CamelCards.BucketKeepsValues | 07/main.py:162-163 | the bucket of their strength holds all hands with given values, in input order |
| CamelCards.BucketOthersNone | 07/main.py:162-163 | every other bucket holds none of them |
| CamelCards.StrongBucketsStep | 07/main.py:167-169 | extending by a sorted bucket appends that bucket's hands with given values, in input order |
| CamelCards.StrongBucketsAboveNone | 07/main.py:167-169 | the buckets above their strength hold none of the hands with given values |
| CamelCards.StrongBucketsWithValues | 07/main.py:167-169 | once their bucket is appended, all of them stand in the order, in input order |
| CamelCards.TotalOrderStable | 07/main.py:160-169 | hands that compare equal keep their input order in `total_order`, so which one gets the higher rank is fixed |
| CamelCards.AscendingRankSumAppend | 07/main.py:171-175 | a sum of rank × bid grows by one term per hand |
| CamelCards.Winnings | 07/main.py:171-175 | definition of the winnings of a total order; properties in `WeakestHandHasRankOne` and `SumWinnings` |
| CamelCards.WeakestHandHasRankOne | 07/main.py:173-175 | `rank = len - idx` gives the weakest hand rank 1, so winnings are Σ rank × bid from the weakest up |
| CamelCards.BucketHands | 07/main.py:160-163 | the loop files every hand under its category, keeping input order in each bucket |
| CamelCards.SumWinnings | 07/main.py:171-175 | the loop computes Σ rank × bid, 0 with no hands |
| CamelCards.RankHands | 07/main.py:160-175 | bucketing, sorting and concatenation give the total order, and the winnings follow |
| CamelCards.ParseHandLine | 07/main.py:153-158 | a line parses exactly when it has two tokens, an integer bid and five valid labels |
| CamelCards.ParsedHands | 07/main.py:153-158 | every parsed hand has five cards |
| CamelCards.TotalWinnings | 07/main.py:148-177 | `main` succeeds exactly when every line parses, and then gives the winnings of the total order; else the failure of the first line that fails, all lines before it parsing |

## Left out

- Reading `input.txt`, every `print`, the `compare()` function and the results file of 01 are not modelled. The lines are parameters, and the answers are results. The debug print of 03 is kept only as the calls it makes, because they can raise; its text is not modelled.
- Python's regular-expression engine is not modelled. `\d+` is a hand-written scanner of maximal ASCII digit runs.
- Character classes are ASCII only: `isnumeric`, `string.ascii_lowercase`, and the whitespace that `strip()` removes. `int()` accepts an optional sign and ASCII digits after stripping. Underscores and non-ASCII digits are not modelled.
- Python integers are unbounded, so no width is modelled.
- The classes `CubeSet`, `GameConfig`, `ScratchCard`, `Race`, `NumberMapEntry`, `NumberMap`, `Card` and `Hand` are modelled as values. Their fields are only set on freshly created objects while parsing, so nothing aliases them. The parse loops are methods with local accumulators.
- `__hash__` and `__repr__` are not modelled. `__str__` of `CubeSet`, `GameConfig`, `NumberMapEntry` and `NumberMap` appears only as the formatter of the round-trip lemmas.
- `ScratchCard.__str__` is not modelled. It appends the card's value and lists set elements in Python's iteration order, so its text cannot be parsed back. `CardRoundTrip` uses the puzzle input's own card format instead.
- The order of `Counter.most_common()` among equal counts is not modelled. Only the counts are read, as a sorted count profile.
- No joker mode exists in 07, so none is modelled.
- The worked example of 07 (five hands giving 6440) is not evaluated. The general statements about the total order and the winnings are proved instead.
- The running time of the seed enumeration in 05 is not modelled.
- CubeGames.GameRoundTrip: stated for games with at least one run. A game with no runs prints as "Game n: ", and its empty run text fails to parse.
- ScratchCards.CardRoundTrip: stated for cards with at least one scratched number, so that the written line ends in a digit.
- ScratchCards.ParseCard: its contract names only the failure kinds. What a successful parse gives is stated by `CardRoundTrip`.
- PartNumbers: the totality lemmas (`AdjacentTotal`, `RightFromTotal`, `RightNearTotal`) and the run lemmas are stated for rectangular grids. On a ragged grid the model raises `IndexError` where the source does, including in the debug print's checks of characters that are not digits (`RaggedGridRaises`).
