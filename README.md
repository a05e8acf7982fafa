# Advent of Code 2024 solutions, days 1–8, in Dafny

This project models the puzzle solvers of an Advent of Code 2024 crate and
proves what each one computes. Each solver takes its puzzle input as a
string and returns a number. Every day is one module, and the parts of each
day are stated against a specification function on the parsed input:

- `Day1` — Historian Hysteria. Each line holds two location ids separated by
  three spaces.
  - Part 1 sorts both columns and sums the distances of the pairs. The
    distance does not depend on the order of the input lines, is symmetric,
    and is zero exactly when the two columns hold the same multiset.
  - Part 2 counts the right column in a map and sums each left id times its
    count.
- `Day2` — Red-Nosed Reports. A report is safe when every step is 1 to 3
  and all steps go the same way.
  - Part 1 counts safe reports.
  - Part 2 runs the source's own trial sequence on a copy of the report:
    the whole report, then without the first level, without the last, and
    without the level at the first break, the one before it and the one
    after it. Every report it accepts is safe or is made safe by removing a
    single level. The last trial never accepts anything: removing the level
    after the first break leaves that break in place.
- `Day3` — Mull It Over. A scanner skips characters until it can parse
  `mul(a,b)`, `do()` or `don't()`. Part 1 sums all the products. Part 2
  sums only the products that are enabled.
- `Day4` — Ceres Search. The grid is parsed by dropping newlines from the
  input. The width of the square is the position of the first newline.
  - Part 1 counts "XMAS" in the eight directions, under the source's own
    direction names: `NorthEast` steps up and left, `NorthWest` steps up and
    right.
  - Part 2 counts the crossed "MAS" patterns.
- `Day5` — Print Queue. The rules are read into a map from each page to the
  pages that must follow it.
  - Part 1 sums the middle pages of the updates that are already sorted
    under the source's pairwise `sorted` test.
  - Part 2 sorts the other updates with the source's comparator and sums
    their middle pages.
  - The comparator is characterised in terms of the rules. Without
    conflicting rules it is antisymmetric and the sort produces a sorted
    update. With conflicting rules it is not antisymmetric; the source does
    not guard against this.
- `Day7` — Bridge Repair. The two search methods use an explicit stack of
  `(value, next operand)` pairs, as in the source.
  - A completion of the stack-based search is exactly an assignment of
    operators that evaluates to the test value.
  - Concatenation is the number written as the digits of one operand
    followed by the digits of the other.
  - Part 2 prunes every branch whose value already exceeds the test value.
    That pruning is exact when all operands are positive. With a zero
    operand it loses solutions: `1: 2 3 0 1` is solvable as `2 * 3 * 0 + 1`,
    but every branch is pruned before the `0`.
  - The unit test of part 2 expects 3749, the part 1 answer. The code
    computes 11387 on that input, which is the published answer for part 2.
    The model follows the code.
- `Day8` — Resonant Collinearity. `Map` is a class with the source's
  fields.
  - Its constructor scans the trimmed lines.
  - Its two antinode operations add points to the `antinodes` set in place.
    Part 1 adds the two reflections of every pair of antennas of one
    frequency. Part 2 walks from each pair in both directions to the edge of
    the grid, and counts the antennas themselves.
  - Both operations are proved equal to a set specification. That
    specification is bounded by the grid, and the part 1 set is contained in
    the part 2 set.
  - The display of a parsed grid reproduces the grid.

Text handling, for all days, is modelled in `Text`: lines, splitting,
trimming and number parsing.
- The model reads the input string as a sequence of characters. Whitespace
  is the ASCII whitespace set.
- `Wrappers` holds the `Option` type.

There is no day 6 here: `src/day6.rs` is entirely commented out.

## Model

| member | source | states |
|---|---|---|
| Text.ParseNatToString | src/day1.rs:7-8 | parsing the decimal rendering of a number gives that number back |
| Text.ParseIntToString | src/day2.rs:21 | parsing the decimal rendering of a signed number gives that number back |
| Text.ParseIntPrefixToString | src/day3.rs:25-27 | the prefix integer parser consumes exactly the rendered number and leaves the text after it |
| Text.ParseIntPrefixToken | src/day3.rs:25-27 | the text an integer read consumed is, on its own, a whole integer with the same value |
| Text.ParseIntPrefixExtend | src/day3.rs:25-27 | a whole integer followed by text that does not begin with a digit reads as the same value and leaves that text |
| Text.JoinSplit | src/day2.rs:21 | joining the pieces of a split with the separator gives the original string |
| Text.SplitJoin | src/day5.rs:14 | splitting a join of separator-free pieces gives those pieces back |
| Text.LinesUnlines | src/day1.rs:19 | the lines of newline-terminated newline-free rows are those rows |
| Text.Find | src/day7.rs:33 | the result is the first position where the pattern occurs, or no position has it |
| Text.SplitWhitespaceJoin | src/day7.rs:38 | splitting a space-joined list of words on whitespace gives the words back |
| Text.TrimNoop | src/day8.rs:78 | trimming a string with no whitespace at either end leaves it unchanged |
| Day1.ParseLine | src/day1.rs:4-11 | splits on three spaces and reads two naturals; Day1.ParseLineRoundTrip proves that a rendered pair is read back |
| Day1.ParseLineRoundTrip | src/day1.rs:5-11 | a line rendered as two numbers and three spaces parses back to the same pair |
| Day1.Pairs | src/day1.rs:21-22 | one parsed pair per input line |
| Day1.Sort | src/day1.rs:27-28 | the sorted column is a permutation of the input |
| Day1.Insert | src/day1.rs:27-28 | inserting one element adds exactly that element to the multiset |
| Day1.SortSorted | src/day1.rs:27-28 | the sorted column is in ascending order |
| Day1.SortCharacterized | src/day1.rs:27-28 | any ascending permutation of the column is the sort's result |
| Day1.SortedUnique | src/day1.rs:27-28 | two ascending sequences with the same multiset are equal |
| Day1.ReadColumns | src/day1.rs:19-25 | the two lists are the left and right columns of the lines, in order |
| Day1.SumDistances | src/day1.rs:30-32 | the sum is the total of the absolute differences of paired entries |
| Day1.Part1 | src/day1.rs:13-36 | part 1 is the distance of the parsed pairs: both columns sorted, then summed |
| Day1.DistanceUpToSymmetric | src/day1.rs:31 | the absolute difference is symmetric, so the partial distance is too |
| Day1.TotalDistanceZero | src/day1.rs:30-32 | two equal-length lists have distance zero exactly when they are equal |
| Day1.DistanceOrderFree | src/day1.rs:21-28 | the distance depends only on the multisets of the two columns, not on line order |
| Day1.DistanceSwap | src/day1.rs:30-32 | swapping the two columns keeps the distance |
| Day1.DistanceZero | src/day1.rs:13-36 | the distance is zero exactly when both columns hold the same multiset |
| Day1.CountOneMore | src/day1.rs:49-56 | the entry-or-insert step keeps the map equal to the multiplicities of the right column read so far |
| Day1.ReadCounts | src/day1.rs:44-57 | the list is the left column and the map counts each id of the right column |
| Day1.SumSimilarity | src/day1.rs:59-61 | the sum is each left id times its number of occurrences on the right, where absent means zero |
| Day1.Part2 | src/day1.rs:38-64 | part 2 is the similarity score of the left column against the right column |
| Day2.DiffInRange | src/day2.rs:4-8 | a step is in range when its absolute value is 1 to 3; Day2.DiffInRangeValues lists the accepted steps |
| Day2.DiffInRangeValues | src/day2.rs:5-8 | a difference is in range exactly when it is one of -3..-1 or 1..3 |
| Day2.SameMonotonicity | src/day2.rs:10-13 | two steps go the same way when their signs are equal; Day2.SameMonotonicityMeaning spells the cases out |
| Day2.SameMonotonicityMeaning | src/day2.rs:10-13 | equal signum means both positive, both negative or both zero |
| Day2.NoBreakIffSafe | src/day2.rs:35-44 | comparing each step with the previous one accepts exactly the reports whose every step is in range and goes the same way as the first |
| Day2.FirstBreak | src/day2.rs:53-80 | None exactly for a safe report; otherwise the first level whose step fails the check |
| Day2.FirstBreakFrom | src/day2.rs:68-78 | scanning from a level on returns the first failing level at or after it, or None when no later level fails |
| Day2.SubsetIsGoodUntil | src/day2.rs:53-80 | the loop returns the first failing level, or None when the report is safe |
| Day2.ReportSafe | src/day2.rs:20-46 | the per-report loop of part 1 accepts exactly the safe reports |
| Day2.ParseRender | src/day2.rs:21 | the rendered levels parse back to the same levels |
| Day2.LevelsRoundTrip | src/day2.rs:21 | a space-joined report line parses back to its levels |
| Day2.Reports | src/day2.rs:20-21 | one report per input line |
| Day2.CountSafe | src/day2.rs:17-49 | the count is the number of safe reports |
| Day2.RemoveAt | src/day2.rs:107 | removing level i shifts the later levels down by one |
| Day2.InsertAt | src/day2.rs:113 | inserting at i puts the value at i and shifts the later levels up by one |
| Day2.Part1 | src/day2.rs:15-50 | part 1 counts the safe reports of the input's lines |
| Day2.InsertRemove | src/day2.rs:107-121 | removing a level and inserting it back at the same place restores the report |
| Day2.LastBreakPrefixSafe | src/day2.rs:102-122 | a report whose first break is at its last level is safe without that level, so the final trial never removes past the end |
| Day2.TryWithout | src/day2.rs:107-113 | one trial says whether the report without level i is safe, and leaves the report as it found it |
| Day2.Tolerate | src/day2.rs:93-133 | the per-report body of part 2 accepts exactly the reports its trial sequence accepts |
| Day2.Tolerated | src/day2.rs:94-133 | part 2's verdict on one report; Day2.ToleratedTrials, Day2.SafeTolerated and Day2.ToleratedSound characterise it |
| Day2.ToleratedTrials | src/day2.rs:94-128 | for an unsafe report with its first break at i, part 2 accepts exactly when the report is safe without its first level, its last level, level i or level i - 1 |
| Day2.SafeTolerated | src/day2.rs:94-133 | a safe report is accepted by part 2 |
| Day2.ToleratedSound | src/day2.rs:94-128 | part 2 accepts a report only if it is safe or safe after removing one level |
| Day2.NextRemovalKeepsBreak | src/day2.rs:121-127 | removing the level after a break keeps the break, so the last trial of part 2 never finds the report safe |
| Day2.SafeExamples | src/day2.rs:148-155 | the test's first, second and fourth reports are safe, unsafe and unsafe |
| Day2.ToleratedExample | src/day2.rs:160-168 | the test's report `1 3 2 4 5` is accepted by part 2 |
| Day2.SafeCountAtMostTolerated | src/day2.rs:83-140 | part 2's count is at least part 1's count on the same reports |
| Day2.CountTolerated | src/day2.rs:85-139 | the count is the number of reports part 2 accepts |
| Day2.Part2 | src/day2.rs:83-140 | part 2 counts the reports accepted by the trial sequence |
| Day2Examples.MoreSafeExamples | src/day2.rs:148-155 | the test reports `9 7 6 2 1` and `8 6 4 4 1` are unsafe, `1 3 6 7 9` is safe, and `1 2 4 6 8 9 13` is unsafe |
| Day2Examples.JumpRejected | src/day2.rs:161 | part 2 rejects `1 2 7 8 9`: every one of its trials still has the jump of 5 |
| Day2Examples.DropRejected | src/day2.rs:162 | part 2 rejects `9 7 6 2 1`: every one of its trials still has the drop of 4 |
| Day2Examples.RepeatAccepted | src/day2.rs:164 | part 2 accepts `8 6 4 4 1` once a repeated 4 is removed |
| Day2Examples.EdgeDroppingFirst | src/day2.rs:173-176 | part 2 accepts `48 46 47 49 51 54 56`, `1 1 2 3 4 5` and `5 1 2 3 4 5` by dropping their first level |
| Day2Examples.EdgeDroppingFirstShort | src/day2.rs:177-178 | part 2 accepts `1 4 3 2 1` and `1 6 7 8 9` by dropping their first level |
| Day2Examples.EdgeLastLevel | src/day2.rs:175 | part 2 accepts `1 2 3 4 5 5`, whose only break is at its last level |
| Day2Examples.EdgeLastLevelShort | src/day2.rs:179-180 | part 2 accepts `1 2 3 4 3` and `9 8 7 6 7`, whose only break is at their last level |
| Day2Examples.EdgeTurnAccepted | src/day2.rs:181 | part 2 accepts `7 10 8 10 11` by removing a level at its first break |
| Day2Examples.EdgeLongAccepted | src/day2.rs:182 | part 2 accepts `29 28 27 25 26 25 22 20` by removing a level at its first break |
| Day2Examples.Part1Example | src/day2.rs:146-156 | exactly two of the six test reports are safe, the count part 1 returns on them |
| Day2Examples.Part2Example | src/day2.rs:158-169 | part 2 accepts exactly four of the six test reports |
| Day2Examples.EdgeExample | src/day2.rs:171-186 | part 2 accepts all ten reports of the edge test |
| Day2Examples.BadExample | src/day2.rs:189-194 | the single report `1 2 4 6 8 9 13` is not counted by part 1 |
| Day3.Tag | src/day3.rs:24 | a tag matches exactly when it is a prefix, and leaves the rest |
| Day3.IntThen | src/day3.rs:25-28 | a successful integer-and-delimiter read consumes part of the input |
| Day3.ParseMul | src/day3.rs:23-31 | a successful parse starts with `mul(`, yields a `Mul` and consumes part of the input |
| Day3.IntThenToken | src/day3.rs:25-28 | a successful integer-and-delimiter read consumed a whole integer and then the delimiter |
| Day3.IntThenOfToken | src/day3.rs:25-28 | a whole integer followed by a delimiter that is not a digit is read with the rest of the input |
| Day3.ParseMulParts | src/day3.rs:23-31 | a successful parse went through the tag `mul(`, an integer with `,`, and an integer with `)` |
| Day3.ParseMulShape | src/day3.rs:23-31 | a successful parse of `Mul(a, b)` consumed exactly `mul(`, a whole integer a, `,`, a whole integer b and `)` |
| Day3.MulShapeOfParts | src/day3.rs:23-31 | the three steps of a parse consumed exactly `mul(`, two whole integers separated by `,`, and `)` |
| Day3.ParseMulOfShape | src/day3.rs:23-31 | conversely, every text of that shape parses to `Mul(a, b)` and leaves what follows |
| Day3.ParseDont | src/day3.rs:33-36 | `don't()` parses to Disable and consumes exactly that tag |
| Day3.ParseDo | src/day3.rs:38-41 | `do()` parses to Enable and consumes exactly that tag |
| Day3.ParseInstr | src/day3.rs:43-47 | a successful parse consumes part of the input |
| Day3.ParseUntilNextInstr | src/day3.rs:49-52 | a successful scan consumes part of the input |
| Day3.ParseUntilNextInstrFirst | src/day3.rs:49-52 | the scanner returns the instruction at the first position where one parses, or there is none at any position |
| Day3.IntThenRoundTrip | src/day3.rs:25-27 | a rendered integer followed by its delimiter is read back with the rest of the input |
| Day3.ParseMulRoundTrip | src/day3.rs:23-31 | `mul(a,b)` written out parses to `Mul(a, b)` and leaves the rest |
| Day3.ParseInstrSwitches | src/day3.rs:43-47 | `do()` and `don't()` parse to Enable and Disable |
| Day3.ParseMulExample | src/day3.rs:98-101 | `mul(2,4)` parses to `Mul(2, 4)` |
| Day3.ParseUntilNextInstrExample | src/day3.rs:104-107 | the scanner skips `x` and finds `Mul(2, 4)` |
| Day3.Part1 | src/day3.rs:54-66 | part 1 is the sum of the products of all scanned instructions |
| Day3.Product | src/day3.rs:14-20 | a multiplication gives the product of its operands and a switch gives 0; Day3.Part1 and Day3.Part2 sum it over the scanned instructions |
| Day3.Part2 | src/day3.rs:68-91 | part 2 sums the products that come while enabled; the scan starts enabled |
| Day3.EnabledSumNoDisable | src/day3.rs:68-91 | without `don't()`, part 2 equals part 1 |
| Day3.EnabledSumDisabled | src/day3.rs:77-84 | once disabled with no later `do()`, nothing more is added |
| Day3Examples.UnclosedNone | src/day3.rs:23-47 | `mul(a,b` followed by anything but a digit or `)` parses to nothing |
| Day3Examples.InstructionsSkipJunk | src/day3.rs:49-66 | a stretch with no `m` or `d` contributes no instruction to the scan |
| Day3Examples.InstructionsFalseStart | src/day3.rs:49-66 | a stretch that does not parse where it starts, and has no `m` or `d` after its first character, contributes no instruction |
| Day3Examples.InstructionsMul | src/day3.rs:23-66 | a written-out `mul(a,b)` contributes `Mul(a, b)` where it stands |
| Day3Examples.InstructionsSwitch | src/day3.rs:33-66 | `do()` and `don't()` contribute Enable and Disable where they stand |
| Day3Examples.Part1Instructions | src/day3.rs:109-114 | the scan of part 1's test memory finds exactly `mul(2,4)`, `mul(5,5)`, `mul(11,8)` and `mul(8,5)` |
| Day3Examples.Part1Example | src/day3.rs:109-114 | the products of part 1's test memory sum to 161, the value part 1 returns on it |
| Day3Examples.Part2Instructions | src/day3.rs:116-121 | the scan of part 2's test memory finds the four products, a `don't()` after the first and a `do()` before the last |
| Day3Examples.Part2Example | src/day3.rs:116-121 | the enabled products of part 2's test memory sum to 48, the value part 2 returns on it |
| Day4.Transform | src/day4.rs:31-47 | one step in a direction, kept only inside the square; Day4.TransformStep states the resulting coordinate |
| Day4.TransformStep | src/day4.rs:32-46 | a move gives the neighbouring coordinate when it stays inside the square, and none otherwise |
| Day4.TransformExamples | src/day4.rs:302 | South from (3, 9) in a 10-square is (4, 9) |
| Day4.AllDirectionsComplete | src/day4.rs:167-176 | the direction table lists all eight directions |
| Day4.IndexToCoordinate | src/day4.rs:138-143 | an index becomes the row `index / size` and the column `index % size`; Day4.IndexRoundTrip proves the conversion back gives the index |
| Day4.CoordinateToIndex | src/day4.rs:145-150 | a coordinate becomes `row * size + column`; Day4.CoordinateRoundTrip proves the conversion back gives the coordinate |
| Day4.IndexRoundTrip | src/day4.rs:139-150 | an index converted to a coordinate and back is the same index |
| Day4.CoordinateRoundTrip | src/day4.rs:139-150 | a coordinate with column inside the square converted to an index and back is the same coordinate |
| Day4.CoordinateExamples | src/day4.rs:318-328 | the test's coordinate conversions in a 10-wide grid |
| Day4.AtIndex | src/day4.rs:134-136 | a cell exists exactly at the indices inside the letters, and holds that letter |
| Day4.AtDirection | src/day4.rs:153-162 | a neighbour found in a direction is a cell of the grid, with its index and that direction |
| Day4.AtDirectionStep | src/day4.rs:153-162 | the neighbour in a direction exists exactly when the moved coordinate is inside the square, at index row times size plus column |
| Day4.WithoutNewlines | src/day4.rs:124 | the retained letters contain no newline |
| Day4.Parse | src/day4.rs:113-126 | the size is the position of the first newline and the letters are the input without newlines |
| Day4.WithoutNewlinesUnlines | src/day4.rs:124 | dropping the newlines of a rendered grid gives its rows concatenated |
| Day4.DisplayRoundTrip | src/day4.rs:73-89 | parsing a square grid and displaying it reproduces the input, as the test at line 317 asserts |
| Day4.XmasAt | src/day4.rs:189-219 | the count for one X is the number of directions along which "XMAS" reads |
| Day4.Part1 | src/day4.rs:165-223 | part 1 is the number of (X, direction) pairs spelling "XMAS" |
| Day4.XmasFromNotX | src/day4.rs:185-187 | a cell that is not an X starts no "XMAS" |
| Day4.XmasFromAtMost | src/day4.rs:189-219 | an X starts at most one "XMAS" per direction tried |
| Day4.XmasAtMostEightPerX | src/day4.rs:178-222 | the part 1 count is at most eight times the number of X's |
| Day4.CrossCheck | src/day4.rs:234-291 | the per-A checks accept exactly an A with an M–S pair on each diagonal |
| Day4.Part2 | src/day4.rs:225-295 | part 2 is the number of A's crossed by two "MAS" diagonals |
| Day5.RuleRoundTrip | src/day5.rs:55-57 | a rendered rule `before|after` parses back to the pair |
| Day5.ParseRender | src/day5.rs:14 | rendered pages parse back to the same pages |
| Day5.UpdateRoundTrip | src/day5.rs:14 | a comma-joined update line parses back to its pages |
| Day5.Rules | src/day5.rs:54-57 | one rule per rule line |
| Day5.Updates | src/day5.rs:11-14 | one update per update line, each with at least one page |
| Day5.OrdersOfRepresents | src/day5.rs:52-70 | the map has an entry for `before` containing `after` exactly for each rule, and no empty entry |
| Day5.ParseOrdering | src/day5.rs:52-70 | the entry-or-insert loop builds the map of the rules |
| Day5.Sorted | src/day5.rs:72-98 | the pair `a`, `b` is in order unless `b`'s rule set holds `a`; Day5.SortedMeaning restates this in terms of the rules |
| Day5.SortedMeaning | src/day5.rs:72-98 | `a` may precede `b` exactly when there is no rule `b|a` |
| Day5.Cmp | src/day5.rs:100-134 | the comparator of the sort; Day5.CmpMeaning and Day5.CmpGreaterIffNotSorted characterise it by the rules |
| Day5.CmpMeaning | src/day5.rs:100-134 | the comparator says Greater, Less or Equal according to which of the rules `b|a` and `a|b` exist |
| Day5.CmpGreaterIffNotSorted | src/day5.rs:72-134 | the comparator says Greater exactly when the pairwise test says not sorted |
| Day5.CmpAntisymmetric | src/day5.rs:100-134 | without conflicting rules, `a` is Greater than `b` exactly when `b` is Less than `a` |
| Day5.CmpConflictExample | src/day5.rs:109-115 | with rules `1|2` and `2|1` both orders compare Greater |
| Day5.SortedUnder | src/day5.rs:169 | without rules against its neighbours, the test's update `75,47,61,53,29` is sorted |
| Day5.NotSortedUnder | src/day5.rs:173-174 | rules `97|75` and `29|13` make the test's two updates unsorted |
| Day5.ExampleRulesDecide | src/day5.rs:146-166 | the test's rules contain the deciding pairs and none of the excluding ones |
| Day5.InsertBySorted | src/day5.rs:41 | inserting a page into a sorted update keeps it sorted when rules do not conflict |
| Day5.InsertBy | src/day5.rs:41 | inserting adds exactly the page to the multiset |
| Day5.SortBy | src/day5.rs:41 | sorting gives a permutation of the update |
| Day5.SortBySorted | src/day5.rs:41 | without conflicting rules the result is sorted under the pairwise test |
| Day5.SortByKeepsSorted | src/day5.rs:41 | an update that is already sorted is left unchanged |
| Day5.SumSorted | src/day5.rs:15-24 | the sum is the middle pages of the updates that are already sorted |
| Day5.SumResorted | src/day5.rs:35-45 | the sum is the middle pages of the unsorted updates after sorting |
| Day5.Part1 | src/day5.rs:7-25 | part 1 is the middle-page sum of the sorted updates of the input |
| Day5.Part2 | src/day5.rs:27-46 | part 2 is the middle-page sum of the resorted unsorted updates of the input |
| Day5.PartsPartition | src/day5.rs:15-35 | the two parts split the updates: their sums add up to the total over all updates |
| Day7.ParseOperandsRender | src/day7.rs:35-40 | rendered operands parse back to the same operands |
| Day7.ParseLine | src/day7.rs:32-42 | reads the test value before `:` and the operands after it; Day7.ParseRender proves that a rendered equation is read back |
| Day7.ParseRender | src/day7.rs:32-42 | an equation written as `test: a b c` parses back to the same equation |
| Day7.ParseOperands | src/day7.rs:38-40 | a successful parse gives one operand per word |
| Day7.NumDigitsLength | src/day7.rs:73 | the digit count used by concatenation is the length of the decimal rendering |
| Day7.Concat | src/day7.rs:71-75 | joins the decimal digits of two numbers; Day7.ConcatDigits proves the rendering of the result is the two renderings joined |
| Day7.ConcatDigits | src/day7.rs:71-75 | for a positive first operand, the concatenation's decimal rendering is the two renderings joined |
| Day7.ConcatExamples | src/day7.rs:122-125 | `11 || 11 == 1111` and `12 || 345 == 12345` |
| Day7.ConcatAtLeast | src/day7.rs:71-75 | the concatenation is at least its first operand |
| Day7.CompletesIffReaches | src/day7.rs:44-69 | the search tree has a matching leaf exactly when some choice of operators evaluates to the test value |
| Day7.CompletesWithConcat | src/day7.rs:77-112 | any equation solvable without concatenation is solvable with it |
| Day7.PrunedSound | src/day7.rs:95-108 | every pruned search success is a real solution |
| Day7.PrunedComplete | src/day7.rs:95-108 | with positive operands, pruning branches above the test value loses no solution |
| Day7.PruningNeedsPositive | src/day7.rs:97-107 | with operands `2 3 0 1` and test 1 a solution exists but pruning misses it |
| Day7.CompletesBounded | src/day7.rs:97-107 | with positive operands no intermediate value of a solution exceeds the test value, which is why pruning is safe |
| Day7.Expand | src/day7.rs:51-66 | one pop of the stack either finds a matching leaf or pushes both children, preserving what remains to be found and shrinking the work left |
| Day7.HasValidPermutation | src/day7.rs:44-69 | the stack search says yes exactly when the operands with + and * can reach the test value |
| Day7.PushIfAtMost | src/day7.rs:97-107 | a child is pushed only if it does not exceed the test value |
| Day7.ExpandPruned | src/day7.rs:84-109 | one pop of the pruned stack finds a leaf or pushes the children within the bound |
| Day7.HasValidPermutationConcat | src/day7.rs:77-112 | the pruned stack search says yes exactly when the pruned search tree has a matching leaf |
| Day7.Equations | src/day7.rs:19-21 | every line gives an equation with at least one operand |
| Day7.SumValid | src/day7.rs:4-14 | the sum is the test values of the equations solvable with + and * |
| Day7.SumValidConcat | src/day7.rs:19-29 | the sum is the test values of the equations the pruned search accepts |
| Day7.Part1 | src/day7.rs:2-15 | part 1 is the calibration of the input's equations without concatenation |
| Day7.Part2 | src/day7.rs:17-30 | part 2 is the calibration under the pruned search with concatenation |
| Day7.PrunedCalibrationExact | src/day7.rs:17-30 | with positive operands part 2 is the calibration with concatenation |
| Day7.CalibrationGrows | src/day7.rs:2-30 | adding concatenation never lowers the calibration |
| Day7.PartsOrdered | src/day7.rs:2-30 | with positive operands part 2 is at least part 1 |
| Day7.SingleOperand | src/day7.rs:45-47 | an equation with a single operand is valid exactly when the operand is the test value |
| Day7.ExampleValid | src/day7.rs:129-137 | the first, second and last equations of the test are solvable with + and * |
| Day7.ExampleInvalid | src/day7.rs:129-137 | the other six equations of the test are not |
| Day7.ExampleValidPruned | src/day7.rs:144-152 | the equations solvable in part 1 stay accepted by the pruned search |
| Day7.ExampleConcatenated | src/day7.rs:144-152 | `156`, `7290` and `192` become solvable with concatenation |
| Day7.ExampleInvalidPruned | src/day7.rs:144-152 | `83`, `161011` and `21037` stay unsolvable |
| Day7.Part1Example | src/day7.rs:128-140 | the calibration of the test input is 3749 |
| Day7.Part2Example | src/day7.rs:143-155 | the part 2 calibration of the test input is 11387 |
| Day8.IndexToCoordinateAsWritten | src/day8.rs:185-190 | the row is the index divided by the height, as the code is written |
| Day8.AsWrittenCollides | src/day8.rs:185-190 | on a 2-wide, 3-high grid the indices 0 and 2 both map to (0, 0), while the index of (1, 0) is 2 |
| Day8.AsWrittenOnSquare | src/day8.rs:185-190 | on a square grid the written conversion agrees with division by the width |
| Day8.AsWrittenAntinodesOnSquare | src/day8.rs:105-190 | on a square grid the antinodes computed with the conversion as written are exactly the model's antinodes, in both parts |
| Day8.FrequencyAsWrittenOnSquare | src/day8.rs:107-177 | on a square grid one frequency's antinodes are the same under both conversions |
| Day8.UnionPairsAgree | src/day8.rs:111-116 | the union over the pairs of a frequency depends only on the antinodes of each pair |
| Day8.AsWrittenMissesOnWideGrid | src/day8.rs:111-135 | on the one-row grid `aa..` the conversion as written places the second antenna off the row, and the pair gives no part 1 antinode |
| Day8.AntinodeOnWideGrid | src/day8.rs:111-135 | on the same grid, with the row taken as the index divided by the width, the pair gives the part 1 antinode at index 2 |
| Day8.IndexToCoordinate | src/day8.rs:185-190 | the corrected conversion gives a column inside the grid width |
| Day8.CoordinateToIndex | src/day8.rs:192-197 | a coordinate becomes `row * width + column`; Day8.CoordinateRoundTrip proves the corrected conversion back gives the coordinate |
| Day8.IndexRoundTrip | src/day8.rs:185-197 | an index converted to a coordinate and back is the same index |
| Day8.CoordinateRoundTrip | src/day8.rs:185-197 | a coordinate with its column inside the width converted to an index and back is the same coordinate |
| Day8.IndexToCoordinateInjective | src/day8.rs:185-190 | distinct antenna indices have distinct coordinates |
| Day8.IndexOf | src/day8.rs:193-197 | an in-bounds coordinate has an index below width times height |
| Day8.PairAntinodes1In2 | src/day8.rs:122-135 | for distinct antennas, each reflection of part 1 is among the points part 2 walks over |
| Day8.WalkBounded | src/day8.rs:165-175 | every point of a walk is inside the grid |
| Day8.WalkMembers | src/day8.rs:165-175 | every point `start + k * step` reached without leaving the grid is on the walk |
| Day8.WalkOnly | src/day8.rs:165-175 | the walk holds nothing but such points |
| Day8.PairAntinodesBounded | src/day8.rs:117-175 | every antinode of one pair is inside the grid |
| Day8.UnionPairsMembers | src/day8.rs:111-116 | the union over all pairs `a < b` of a frequency holds a point exactly when one of the pairs produces it |
| Day8.AntinodesAmongStep | src/day8.rs:107-137 | adding one frequency's antinodes to those of the others gives the antinodes of all of them |
| Day8.TrimAll | src/day8.rs:77-78 | one trimmed row per input line |
| Day8.ScanIndexed | src/day8.rs:77-94 | after scanning, the frequency lists and the cell map agree, each list is nonempty and strictly increasing, and all indices lie in the scanned rows |
| Day8.ScanCells | src/day8.rs:77-94 | the cell map holds exactly the non-`.` cells of the rows, at row times width plus column |
| Day8.ScanValid | src/day8.rs:68-103 | a scanned grid whose rows fit the width gives frequency lists without repeats and a nonzero width where pairs exist |
| Day8.AntinodesBounded | src/day8.rs:105-181 | every antinode lies inside the grid, when the antennas of part 2 are on the grid |
| Day8.FrequencyPart1InPart2 | src/day8.rs:105-181 | one frequency's part 1 antinodes are among its part 2 antinodes |
| Day8.Part1InPart2 | src/day8.rs:105-181 | the part 1 antinodes are a subset of the part 2 antinodes |
| Day8.LoneAntenna | src/day8.rs:108-110 | a frequency with a single antenna adds no antinodes |
| Day8.TwoAntennas | src/day8.rs:117-175 | antennas at (3, 4) and (5, 5) on a 10-by-10 grid give antinodes at (1, 3) and (7, 6), and in part 2 also the antennas and (9, 7) |
| Day8.Map.Parse | src/day8.rs:68-103 | the width is the trimmed first line's length, the height the number of lines, and the maps are those of scanning the trimmed lines; no antinodes yet |
| Day8.ScanLines | src/day8.rs:77-94 | the loop over the lines builds the scan of the trimmed lines |
| Day8.ScanLine | src/day8.rs:78-91 | the loop over one line records each non-`.` cell in both maps |
| Day8.Map.CalculateAntinodesPart1 | src/day8.rs:105-140 | the antinodes gain exactly the part 1 antinodes of all frequencies |
| Day8.Map.CalculateAntinodesPart2 | src/day8.rs:142-181 | the antinodes gain exactly the part 2 antinodes of all frequencies |
| Day8.Map.AddFrequency | src/day8.rs:108-136 | one frequency contributes its antinodes: nothing for a single antenna, and in part 2 the antennas too |
| Day8.Map.AddPairs | src/day8.rs:111-136 | the loop over pairs adds the union of the pair antinodes |
| Day8.Map.AddPair | src/day8.rs:117-135 | one pair adds its antinodes |
| Day8.Map.AddReflections | src/day8.rs:117-135 | the two reflections are added when they lie inside the grid |
| Day8.Map.AddHarmonics | src/day8.rs:159-175 | part 2 adds the walks away from both antennas of a pair |
| Day8.Map.AddWalk | src/day8.rs:164-175 | the loop adds exactly the walk from its start to the edge of the grid |
| Day8.RenderRowAt | src/day8.rs:222-228 | each character of a rendered row is the cell at that coordinate |
| Day8.RenderRow | src/day8.rs:222-229 | a rendered row has one character per column |
| Day8.RenderLength | src/day8.rs:219-235 | the display has one line of width characters and a newline per row |
| Day8.Map.Display | src/day8.rs:219-235 | the map drawn row by row, antennas and `.`; Day8.DisplayParsed and Day8.ParseDisplay prove that displaying a parsed grid gives the grid back |
| Day8.Map.DisplayAntinodes | src/day8.rs:237-255 | the map with antinodes drawn as `#` where no antenna stands; Day8.RenderAt states the character at each row and column |
| Day8.RenderAt | src/day8.rs:237-255 | the character at row r and column c is the antenna there, else `#` for an antinode, else `.` |
| Day8.DisplayParsed | src/day8.rs:219-235 | displaying the scan of rectangular rows reproduces the rows |
| Day8.GridOfRows | src/day8.rs:69-78 | the lines of rendered rows are those rows, and trimming leaves them unchanged |
| Day8.ParseDisplay | src/day8.rs:274-277 | parsing a rectangular grid and displaying it reproduces the input, as the test asserts |
| Day8.Part1 | src/day8.rs:207-211 | part 1 is the number of part 1 antinodes of the parsed map |
| Day8.Part2 | src/day8.rs:213-217 | part 2 is the number of part 2 antinodes of the parsed map |

## Left out

- Fixed-width integer overflow (`u32`, `u64`, `i32`, `usize`) is not modelled. All arithmetic is on unbounded integers.
- Day 3 reads `i32` operands with nom. The model reads integers of any size, so a number that overflows `i32` is accepted by the model but rejected by the source.
- Whitespace is the ASCII whitespace set. Rust's `trim` and `split_whitespace` also strip Unicode whitespace.
- Lines are split on `'\n'` only. A `'\r'` before the newline is not removed as `str::lines` would remove it.
- Day 8 reads bytes. The model reads characters.
- Panics on malformed input are modelled as preconditions: each `unwrap` of a parse becomes a `WellFormed` requirement on the lines. This applies to days 1, 2, 5 and 7, and to the input of day 8 (`Lines(input) != []`).
- Day2.Part1: requires every report to have at least two levels, where the source panics.
- Day2.Part2: requires every report to fit the source's `ArrayVec` capacity of 12, where the source panics.
- Day4.Parse: requires the input to contain a newline and only the letters X, M, A, S and newlines. The source reinterprets the bytes as letters through a `transmute`, and any other byte is undefined behaviour.
- Day4.Part1, Day4.Part2: require a grid width above zero, where the source would divide by zero.
- Day8.Part1: requires a nonzero width when any frequency has two antennas, where the source would divide by zero.
- Day8.Part2: additionally requires that no frequency lists an index twice. With the corrected conversion, distinct indices are distinct positions, so every walk has a nonzero step. With the conversion as written, two distinct indices can share a position on a grid that is not square, and the source then loops forever: on the grid `a.`, `a.`, `..` the antennas at indices 0 and 2 both land on (0, 0). A zero step is taken to give an empty walk in the specification.
- Day8.Part1: computes antenna positions with the row taken as the index divided by the width, not by the height as the source does. The two agree on square grids (Day8.AsWrittenAntinodesOnSquare). On other grids the source's answer can differ: on `aa..` the source counts 0 antinodes and the model 1 (Day8.AsWrittenMissesOnWideGrid, Day8.AntinodeOnWideGrid).
- Day8.Part2: uses the same corrected conversion. On square grids it agrees with the source; on the grid `a.`, `a.`, `..` the source never finishes, while the model counts the antinodes of the intended positions.
- Day8.Map.CalculateAntinodesPart1: adds the antinodes of the positions given by the corrected conversion, for the reasons given for Day8.Part1.
- Day8.Map.CalculateAntinodesPart2: adds the antinodes of the positions given by the corrected conversion, for the reasons given for Day8.Part2.
- Hash-map iteration order is not modelled. The frequencies are visited in an arbitrary order chosen in the loop, and the result is a set, so the order does not affect it.
- Rust's sort algorithms are modelled by insertion sorts with the same comparator. Both are stable, so they give the same result whenever the comparator is a total order on the values sorted, as it is for day 1. For day 5 the source's result is unspecified otherwise; the model's result may differ from it there, and it is proved sorted only when the rules do not conflict.
- Day 7's iterator chains are modelled as loops over the parsed equations, and the bodies of its search loops as helper methods.
- The `Display` implementations return the string rather than writing to a formatter. The unit tests' `trim()` of the output is not modelled.
- `Direction::step` in day 8 is not used by the solvers and is not modelled.
- `Map::len` in day 8 is an unnamed intermediate and is not modelled.
- The aoc-runner attributes and generators are not modelled.
- The 12-by-12 examples of day 8 (14 and 34 antinodes) are not evaluated. Smaller concrete cases are proved instead.
- The large example grids of day 4 (18, 9, and the 12-by-12 grid of `part1_test2` with 8) and of day 5 (143 and 123) are not evaluated: counting over a whole literal grid is beyond what the verifier evaluates within its resource bound. Their deciding facts are proved instead.
- The test examples of day 2 are stated on the parsed report lists; Day2.Part1 and Day2.Part2 tie those counts to the solvers. Parsing the tests' literal input text into those lists is not evaluated. The examples of day 3 are stated on the test memories themselves, which Day3.Part1 and Day3.Part2 read.

## Findings

| source | as written | input that shows it | evidently intended | confidence | as-written member | corrected member |
|---|---|---|---|---|---|---|
| src/day8.rs:188 | the row of an index is computed as `index / height` | a grid 2 wide and 3 high (`a.`, `a.`, `..`): the antennas at indices 0 and 2 both map to (0, 0), so the pair's step is (0, 0) and the part 2 walk never leaves the grid | `index / width`, the inverse of `coordinate_to_index` | not executed | Day8.AsWrittenCollides | Day8.CoordinateRoundTrip |
| src/day8.rs:188 | the row of an index is computed as `index / height` | the one-row grid `aa..`: index 1 maps to (1, 1), off the grid, so part 1 finds no antinode where (0, 2) is one | `index / width` | not executed | Day8.AsWrittenMissesOnWideGrid | Day8.AntinodeOnWideGrid |
