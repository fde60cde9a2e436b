# Advent of Code 2023, days 1 to 5, in Dafny

This project models the puzzle solvers of a Rust Advent of Code 2023 repository and proves their properties.

**Day 5, the main part.** This is the piecewise-offset range map engine. A map is a list of `(dest_start, src_start, len)` triples.
- `get` looks a value up: the first triple that holds it applies its offset, and a value no triple holds maps to itself.
- `complete` adds identity triples for every gap of `[0, MAX]`, where `MAX = u64::MAX / 2`.
- `_merge` and `merge` compose two maps. They intersect the left map's destination ranges with the right map's source ranges.
- An `Almanac` chains seven such maps. `get_lowest_loc` pushes seeds through the chain. The second part turns seed ranges into identity triples, composes them with the whole chain and reads the smallest destination start.

**The smaller days:**
- **Day 4 (scratchcards), and its stand-alone copy `test.rs`:** the number-list parsers, the sorted two-list walks `calc_score` and `count_matches`, and the copy counter over a 202-entry array.
- **Day 3 (engine schematic):** the position-tracking tokenizer, the ring of cells around a number, and the part-number and gear-ratio sums.
- **Day 2 (cube game):** the recursive-descent game parsers with their per-colour limits, sums and maxima.
- **Day 1 (calibration):** the first and last digit of a line, and the number-word variant with its two regular expressions.

**Modules** (one per file):
- `Wrappers`, `Text` and `Sorting` are shared helpers:
  - `Text` models nom's `digit1`, `tag` and `many0(char)`, and `str::parse` of digit strings;
  - `Sorting` models Rust's stable `sort`/`sort_by`.
- `RangeMap` holds the map as a value: lookup and completion.
- `RangeMerge` holds `_merge` as a recursive function, with the composition law.
- `Almanac` holds the classes `Map` and `Almanac`, whose methods change their triple lists in place, as the Rust methods do.
- `Scratchcards` models day 4, and `ScratchcardsTest` models `test.rs`.
- `Schematic` holds the day 3 value part: the ring and the scanner. `SchematicEngine` holds the day 3 parsers that push into a list, a set and a map, and the two parts.
- `CubeGame` models day 2, and `Calibration` models day 1.

**Modelling choices:**
- Where the Rust code panics, the model returns an error value (`None`, or `ok == false`). Panics include `unwrap` on a failed parse, `first()` of an empty list, `ch[1]` of an odd seed list, and an index past the card array.
- Reading standard input is modelled as a sequence of lines given to the part functions.
- Integers are unbounded `nat`s; see "Left out".

Grammar-side lemmas prove the parsers correct on inputs built by a renderer, e.g. `RenderLine` for a day 2 record: on such inputs the parse gives back the value the input was built from.

## Model

| member | source | states |
|---|---|---|
| Text.Digit1 | src/day-04.rs:13 | `digit1` succeeds iff the input starts with a digit; it splits off the longest non-empty digit run, and what is left does not start with a digit |
| Text.Digit1Of | src/day-04.rs:13 | a digit run followed by a non-digit is split exactly at its end |
| Text.Tag | src/day-02.rs:62 | `tag(t)` succeeds iff the input starts with `t`, leaving exactly what follows it |
| Text.TagOf | src/day-02.rs:62 | a tag in front of any text is accepted and leaves that text |
| Text.SkipChar | src/day-04.rs:12 | `many0(char(c))` drops only leading `c`s, and what is left does not start with `c` |
| Text.SkipCharSuffix | src/day-04.rs:12 | what `many0(char(c))` leaves is a suffix of its input |
| Text.SkipSpacesOf | src/day-04.rs:12 | skipping spaces after exactly n spaces leaves the text that followed them |
| Text.DigitsValue | src/day-02.rs:111 | `str::parse` of the decimal spelling of n gives n |
| Sorting.SortBy | src/day-05.rs:62 | the stable sort keeps the length and exactly the elements of its input |
| Sorting.SortBySorted | src/day-05.rs:62 | the sort's result is ordered by the key |
| Sorting.SortByPermutes | src/day-05.rs:62 | the sort's result is a permutation of its input |
| Sorting.InsertSorted | src/day-05.rs:62 | inserting into a sorted list keeps it sorted |
| Sorting.InsertPermutes | src/day-05.rs:62 | insertion adds exactly one occurrence of the element |
| RangeMap.LookupUncovered | src/day-05.rs:51-58 | `get` returns `src` unchanged when no triple's source range holds it |
| RangeMap.Lookup | src/day-05.rs:51-58 | no contract of its own: `get`, the first triple holding the value maps it, otherwise it is returned unchanged; stated by `LookupUncovered`, `LookupFirst` and `LookupCovered` |
| RangeMap.LookupFirst | src/day-05.rs:52-55 | `get` of a value inside triple k, with no earlier triple holding it, is `src - s + d` of triple k |
| RangeMap.LookupAgrees | src/day-05.rs:51-58 | when every triple that holds `src` gives the same value, `get` returns it |
| RangeMap.LookupCovered | src/day-05.rs:51-58 | on a functional map, any triple that holds `src` gives `get`'s answer |
| RangeMap.LookupAppend | src/day-05.rs:51-58 | `get` on `a + b` answers from `a` where `a` covers the value, and from `b` elsewhere |
| RangeMap.LookupIdentities | src/day-05.rs:51-58 | a map of identity triples maps every value to itself |
| RangeMap.SameTriplesLookup | src/day-05.rs:62 | reordering a functional map, as the sorts do, changes neither coverage nor `get` |
| RangeMap.DisjointIsFunctional | src/day-05.rs:51-58 | with disjoint source ranges the order of the triples does not matter to `get` |
| RangeMap.SortBySrc | src/day-05.rs:62 | sorting by source start keeps exactly the triples |
| RangeMap.SortByDest | src/day-05.rs:88 | sorting by destination start keeps exactly the triples |
| RangeMap.Completed | src/day-05.rs:60-84 | no contract of its own: the map sorted by source, followed by `Additional` of it; stated by `CompletedKeeps`, `CompletedFills`, `CompletedLookup` and `CompletedTiles` |
| RangeMap.Leading | src/day-05.rs:65-68 | no contract of its own: the identity triple from 0 to the first source start, if that is positive; stated by `GapsShape` and `GapBounds` |
| RangeMap.GapsBefore | src/day-05.rs:70-75 | no contract of its own: the identity triples filling each gap between consecutive source ranges; stated by `GapsAreIdentities`, `GapsShape` and `GapsHave` |
| RangeMap.TailFill | src/day-05.rs:77-81 | no contract of its own: the identity triple from the last source end up to `MAX`, if that end is below it; stated by `GapBounds` and `CoverFrom` |
| RangeMap.Additional | src/day-05.rs:63-81 | no contract of its own: the leading, gap and tail fills in order; stated by `AdditionalOrdered`, `CrossDisjoint` and `CoverFrom` |
| RangeMap.CompletedKeeps | src/day-05.rs:60-84 | `complete` keeps every original triple, with its multiplicity |
| RangeMap.CompletedFills | src/day-05.rs:63-83 | on a map whose triples have positive lengths and pairwise disjoint source ranges, `complete` appends only non-empty identity triples, each disjoint from every original source range |
| RangeMap.CompletedLookup | src/day-05.rs:60-84 | on a functional map (every triple holding a value maps it the same way), `get` answers the same before and after `complete`, for every input |
| RangeMap.GapsAreIdentities | src/day-05.rs:70-75 | every window fill is a non-empty identity triple |
| RangeMap.GapsShape | src/day-05.rs:70-75 | each window fill is `(s1+l1, s1+l1, s2-(s1+l1))` of a window with a hole |
| RangeMap.GapsHave | src/day-05.rs:70-75 | every window with a hole yields its fill |
| RangeMap.AdditionalOrdered | src/day-05.rs:63-81 | the leading fill, the window fills and the tail fill come out ascending and non-overlapping |
| RangeMap.CrossDisjoint | src/day-05.rs:63-81 | each fill is disjoint from each original triple of a sorted, source-disjoint map |
| RangeMap.CoverFrom | src/day-05.rs:70-81 | every value from a triple's start up to MAX lies in some piece of the completed map |
| RangeMap.CompletedTiles | src/day-05.rs:60-84 | on a non-empty map with disjoint non-empty ranges, the completed ranges are non-empty, disjoint and cover `[0, MAX]`; on a map inside the domain they cover exactly `[0, MAX]` |
| RangeMap.GapBounds | src/day-05.rs:63-81 | fills end no later than MAX + 1 |
| RangeMap.TiledAddsNothing | src/day-05.rs:66-79 | on a map that already tiles `[0, MAX]` no guard fires: `complete` only sorts |
| RangeMap.CompleteIdempotent | src/day-05.rs:60-84 | a second `complete` adds nothing; it only re-sorts the first one's result |
| RangeMerge.Compose | src/day-05.rs:33-38 | the emitted triple has `l3 = ub - lb`, which is `> 0` when both heads are non-empty; its source range lies inside the left head's and its destination range inside the right head's; it holds exactly the values that the left head and then the right head map, and maps them as the two heads in sequence do |
| RangeMerge.Walk | src/day-05.rs:18-44 | `_merge` returns `dest` when either list is empty, and otherwise only appends to it |
| RangeMerge.WalkEmits | src/day-05.rs:18-44 | everything `_merge` appends is the composition of an overlapping pair, one triple from each list |
| RangeMerge.WalkFinds | src/day-05.rs:18-44 | with the left list sorted by destination and the right by source, `_merge` emits the composition of every overlapping pair |
| RangeMerge.MergedTriples | src/day-05.rs:86-94 | `merge` holds exactly the compositions of the overlapping pairs |
| RangeMerge.Merged | src/day-05.rs:86-94 | no contract of its own: every pair of the sorted maps composed, in order; stated by `MergedTriples`, `MergedCovered` and `MergedLookup` |
| RangeMerge.MergedCovered | src/day-05.rs:86-94 | the merged map holds x iff some left triple holds x and some right triple holds its image |
| RangeMerge.MergedLookup | src/day-05.rs:86-94 | where both maps are defined, `get` on the merged map is `other.get(self.get(x))` |
| RangeMerge.MergedUncovered | src/day-05.rs:86-94 | elsewhere the merged map leaves x unchanged |
| RangeMerge.MergedWellFormed | src/day-05.rs:86-94 | merging keeps maps functional, non-empty and inside the domain |
| RangeMerge.CompletedFacts | src/day-05.rs:60-84 | a completed well-formed map is functional, total on `[0, MAX]` and agrees with the partial one |
| RangeMerge.LookupInDomain | src/day-05.rs:51-58 | a covered value of a map whose destinations stay in the domain maps into `[0, MAX]` |
| RangeMerge.MergeCompleted | src/day-05.rs:86-94 | `merge` of two completed maps gets `other.get(self.get(x))` on all of `[0, MAX]` |
| RangeMerge.MergeAssociative | src/day-05.rs:151-159 | merging is associative on every value where three maps chain, and the result is the three lookups in sequence |
| Almanac.Map.Add | src/day-05.rs:47-49 | `add` pushes exactly one triple at the end |
| Almanac.Map.Get | src/day-05.rs:51-58 | the early-return loop computes the lookup |
| Almanac.Map.Complete | src/day-05.rs:60-84 | an empty map is the panic case; otherwise the map becomes its sorted list followed by the fills |
| Almanac.Fills | src/day-05.rs:63-81 | the pushes into `additional` build the leading fill, one fill per window with a hole, then the tail fill |
| Almanac.Map.Merge | src/day-05.rs:86-94 | `merge` sorts this map by destination and `other` by source, in place, and returns a fresh map of the composition |
| Almanac.ChainLast | src/day-05.rs:126-134 | the seven-stage chain is the last stage applied after the others |
| Almanac.Chain | src/day-05.rs:126-134 | no contract of its own: the value passed through every stage's `get` in order; stated by `ChainLast`, `ChainCompleted` and `MergeChainLookup` |
| Almanac.CompletedStages | src/day-05.rs:141-149 | completing the stages keeps their number; `ChainCompleted` states that the chain is unchanged |
| Almanac.MergeChain | src/day-05.rs:151-159 | no contract of its own: the stages folded with `merge`; `MergeChainLookup` states that its `get` is the chain |
| Almanac.ChainCompleted | src/day-05.rs:141-149 | when every stage satisfies `GoodStage` (non-empty, positive lengths, disjoint source ranges, bounded ends), completing every stage does not change any seed's location |
| Almanac.MergeChainLookup | src/day-05.rs:151-159 | the composition of completed stages is total on `[0, MAX]` and gives every value's chained location |
| Almanac.SeedRanges | src/day-05.rs:259 | `chunks(2)` becomes one identity triple per pair; an odd count is the panic case |
| Almanac.CompletedChain | src/day-05.rs:245-261 | the composition `part2` builds from well-formed stages is functional and gives every value its chained location |
| Almanac.Part2Minimum | src/day-05.rs:259-266 | under the data's guarantees `part2` answers: no seed of any range reaches a smaller location, and some seed reaches exactly it |
| Almanac.Part2Result | src/day-05.rs:245-267 | no contract of its own: the smallest destination start of the merged triples that meet a seed range; `Part2Minimum` states that it is the least location any seed reaches |
| Almanac.SeedsReach | src/day-05.rs:261 | every seed of a range reaches its chained location through the final composition |
| Almanac.FirstIsLeast | src/day-05.rs:262-266 | the first triple by destination start bounds every value the map produces from below |
| Almanac.FirstIsReached | src/day-05.rs:262-266 | the first destination start of the composed seed map is reached by some seed |
| Almanac.Almanac.constructor | src/day-05.rs:110-120 | the almanac holds the seeds and seven distinct stage maps |
| Almanac.Almanac.LowestLocation | src/day-05.rs:123-139 | `get_lowest_loc` is the least seven-stage location over the seeds, and `u64::MAX` when there are none |
| Almanac.Almanac.Complete | src/day-05.rs:141-149 | each stage is completed in order; an empty stage is the panic case |
| Almanac.Almanac.CompleteStages | src/day-05.rs:141-149 | on the whole list of stages: every stage completed, or the panic case |
| Almanac.Almanac.MergeAll | src/day-05.rs:151-159 | the result is seed-to-soil merged with each following stage in turn, and each merge leaves its operands sorted |
| Almanac.Part2 | src/day-05.rs:245-267 | `part2` on a parsed almanac returns the first destination start of the sorted composition, or the panic case |
| Scratchcards.ParseNum | src/day-04.rs:11-15 | `parse_num` succeeds iff a digit follows the leading spaces |
| Scratchcards.ParseNumOf | src/day-04.rs:11-15 | n spaces, a digit run and a non-digit read back as the run's value |
| Scratchcards.ManyNums | src/day-04.rs:19 | `many1(parse_num)` succeeds iff one number can be read; it then reads at least one |
| Scratchcards.Many0NumsOf | src/day-04.rs:19 | `many0(parse_num)` reads back exactly the numbers of a spaced list |
| Scratchcards.ManyNumsOf | src/day-04.rs:19 | `many1(parse_num)` reads back exactly the numbers of a non-empty list |
| Scratchcards.SkipPast | src/day-04.rs:18 | `take_until(":")` then `tag(":")` succeeds iff the line has a `:`, leaving what follows the first one |
| Scratchcards.NumberListsOf | src/day-04.rs:19-21 | two lists around the vertical-bar separator read back as the two lists |
| Scratchcards.NumberLists | src/day-04.rs:19-21 | when it succeeds both lists are non-empty; `NumberListsOf` states what it reads from rendered lists |
| Scratchcards.CountMatches | src/day-04.rs:75-93 | the match count never falls below the starting count |
| Scratchcards.ScoreNext | src/day-04.rs:67 | points go from 0 to 1 on the first match, and double on each later one |
| Scratchcards.CalcScore | src/day-04.rs:51-73 | no contract of its own: the recursive scorer over the two sorted lists; `CalcScoreIsScore` states that it is the score of the matches |
| Scratchcards.CalcScoreIsScore | src/day-04.rs:51-93 | `calc_score` is `count_matches` followed by the score of the count, on every input |
| Scratchcards.MatchingPermutes | src/day-04.rs:23-24 | what counts as a match does not depend on the order of your numbers |
| Scratchcards.MatchingSameWinners | src/day-04.rs:23-24 | what counts as a match depends on the winning numbers only as a set |
| Scratchcards.CountMatchesCounts | src/day-04.rs:75-93 | on sorted lists `count_matches` adds the number of your entries, with repeats, that are winning numbers |
| Scratchcards.SortedMatches | src/day-04.rs:23-28 | sorting first is enough: the walk then counts the matches and scores `2^(k-1)` for k of them, 0 for none |
| Scratchcards.ParseCard | src/day-04.rs:17-30 | `parse_card` succeeds iff the header and both lists parse, and then returns the score of the card's matches |
| Scratchcards.SkipPastOf | src/day-04.rs:18 | `take_until(":")` and `tag(":")` on a header without a colon leave exactly what follows the colon |
| Scratchcards.ParseCardOf | src/day-04.rs:17-30 | `parse_card` of a written card gives its score and leaves nothing |
| Scratchcards.CardHeader | src/day-04.rs:33-34 | when `Card`, the spaces, the number and `:` parse, what is left is shorter than the input; `ParseCard2` states the whole card |
| Scratchcards.ParseCard2 | src/day-04.rs:32-49 | `parse_card2` succeeds iff `Card`, the number, `:` and both lists parse, and then returns the card number and the match count |
| Scratchcards.Total | src/day-04.rs:95-99 | the fold succeeds iff every line does |
| Scratchcards.TotalAppend | src/day-04.rs:95-99 | the total of two batches of lines is the sum of their totals |
| Scratchcards.Part1 | src/day-04.rs:95-99 | `part1` has an answer iff every card parses |
| Scratchcards.TotalScores | src/day-04.rs:95-99 | when every card's points are present, the total is the sum of the cards' scores |
| Scratchcards.Part1Of | src/day-04.rs:95-99 | on written cards, `part1` is the sum of every card's score |
| Scratchcards.AddCopies | src/day-04.rs:105-109 | the copy step keeps the array's length |
| Scratchcards.AddCopiesInPlace | src/day-04.rs:105-109 | processing card i adds `card_counts[i]` to exactly indices i+1 .. i+matches and changes nothing else |
| Scratchcards.CardStep | src/day-04.rs:102-110 | one card's step keeps the number of counts; `CountsGrow` states that no count shrinks |
| Scratchcards.CountsAfter | src/day-04.rs:102-110 | all cards' steps keep the number of counts; `CountsGrow` states that no count shrinks |
| Scratchcards.CountsGrow | src/day-04.rs:102-110 | counts never decrease |
| Scratchcards.Part2AtLeast | src/day-04.rs:102-111 | every card is counted at least once, so the answer is at least 202 |
| Scratchcards.Part2Result | src/day-04.rs:101-112 | no contract of its own: the sum of the counts after every card; `Part2AtLeast` states that it is at least the number of cards, and `Part2` computes it |
| Scratchcards.Part2 | src/day-04.rs:101-112 | `part2` sums the 202 counts after every line's copies; an unparsable line, card 0 or an index past 202 is the panic case |
| ScratchcardsTest.CalcScoreAgrees | src/test.rs:29-51 | the copy's `calc_score` agrees with day 4's on every input |
| ScratchcardsTest.CalcScore | src/test.rs:29-51 | no contract of its own: the scorer of `test.rs`; `CalcScoreAgrees` states that it equals day 4's |
| ScratchcardsTest.CalcScoreOnSorted | src/test.rs:36-50 | on sorted lists the copy scores 0 without matches and `2^(k-1)` for k matches, where repeats of your numbers each count |
| ScratchcardsTest.ParseCard | src/test.rs:17-27 | the copy's `parse_card` gives the same result as day 4's |
| Schematic.Adjacent | src/day-03.rs:90-102 | the nested loops build the ring list, row by row and column by column |
| Schematic.Ring | src/day-03.rs:90-102 | no contract of its own: the cells around a number; `RingCells` states that they are exactly the neighbours, none on the number, without repeats |
| Schematic.RowCellsStep | src/day-03.rs:95-97 | one inner step appends the cell unless it lies on the number |
| Schematic.RowsShape | src/day-03.rs:93-98 | the cells come out in reading order |
| Schematic.RowsMembers | src/day-03.rs:93-98 | after some rows, exactly the non-number cells of those rows of the box have been pushed |
| Schematic.RingCells | src/day-03.rs:93-98 | `adjacent` returns exactly the box `max(r-1,0)..=r+1` by `max(c-1,0)..=c+len` minus the number's own cells, and no cell twice |
| Schematic.RingSizeAll | src/day-03.rs:93-98 | the ring has one row fewer at row 0 and one column fewer at column 0 |
| Schematic.RingSize | src/day-03.rs:93-98 | for r > 0 and c > 0 the ring has exactly `2*len + 6` cells |
| Schematic.ParseDots | src/day-03.rs:25-29 | `parse_dots` succeeds iff the input starts with a dot; it takes the whole run, moves the column by its length and records nothing |
| Schematic.ScanDotsStep | src/day-03.rs:25-29 | a run of dots changes nothing that is recorded |
| Schematic.ScanDigitsStep | src/day-03.rs:31-42 | `parse_number` records (start, digit count, value) and moves the column by the digit count |
| Schematic.ScanSymbolStep | src/day-03.rs:44-55 | `parse_symbol` records the character at the current cell and moves one column |
| Schematic.RunUnique | src/day-03.rs:35-37 | two maximal digit runs that overlap are the same run |
| Schematic.ScanInOrder | src/day-03.rs:70-78 | every token moves the column forward, so a line's numbers lie in its row, at or after the start column, in strictly increasing columns |
| Schematic.ScanNumbers | src/day-03.rs:70-78 | a line's recorded numbers are exactly its maximal digit runs, each at its own cell with its length and value, listed once each in left-to-right order |
| Schematic.ScanSymbols | src/day-03.rs:70-78 | a line's recorded symbols are exactly the cells holding a character outside `".0123456789"`, each with that character |
| Schematic.Scan | src/day-03.rs:70-78 | no contract of its own: one line read into numbers and symbols; `ScanNumbers` and `ScanSymbols` state what it finds |
| SchematicEngine.Grid.Read | src/day-03.rs:105-114 | the `part1` reading fold records every line's numbers and symbol cells, line k at row k |
| SchematicEngine.Grid.Read2 | src/day-03.rs:127-136 | the `part2` reading fold records every line's numbers, and its symbols in the map |
| SchematicEngine.Grid.ParseNumber | src/day-03.rs:31-42 | `parse_number` pushes exactly the digit run's number and touches nothing else |
| SchematicEngine.Grid.ParseSymbol | src/day-03.rs:44-55 | `parse_symbol` adds exactly the current cell to the set |
| SchematicEngine.Grid.ParseSymbol2 | src/day-03.rs:57-68 | `parse_symbol2` enters the current cell as `(ch, 0, 1)` |
| SchematicEngine.Grid.ParseLine | src/day-03.rs:70-78 | `parse_line` pushes the line's numbers and symbol cells and moves to column 0 of the next row |
| SchematicEngine.Grid.ParseLine2 | src/day-03.rs:80-88 | the same for `parse_line2`, with the symbols entered in the map |
| SchematicEngine.Grid.BumpStars | src/day-03.rs:140-147 | the inner loop bumps exactly the stars among the cells it visits |
| SchematicEngine.AllNumsAre | src/day-03.rs:105-114 | the numbers read are exactly the maximal digit runs of the input, their cells strictly increasing in reading order, so no run is listed twice for the sums of `part1` and `part2` |
| SchematicEngine.AllSymsAre | src/day-03.rs:105-114 | the symbol cells read are exactly the input's symbol cells |
| SchematicEngine.AllGearsAre | src/day-03.rs:127-136 | after reading, the map holds exactly the symbol cells, each as `(ch, 0, 1)` |
| SchematicEngine.ReadingOrderAppend | src/day-03.rs:105-114 | the numbers of earlier lines, all in rows above line k, followed by line k's in reading order, stay in reading order |
| SchematicEngine.AnyIn | src/day-03.rs:118 | `any` is true iff some cell of the list is in the set |
| SchematicEngine.Part1 | src/day-03.rs:104-124 | `part1` sums exactly the numbers that have a symbol in some cell of their ring |
| SchematicEngine.BumpAt | src/day-03.rs:140-147 | a list without repeats bumps each of its stars exactly once and nothing else |
| SchematicEngine.BumpRing | src/day-03.rs:138-147 | a number bumps exactly the stars in its ring, once each |
| SchematicEngine.SpreadAt | src/day-03.rs:138-148 | after all numbers, each star has counted the numbers around it and multiplied their values; other symbols are untouched |
| SchematicEngine.GearSumRemove | src/day-03.rs:150-159 | the fold over the map does not depend on the order of its entries |
| SchematicEngine.SumRatios | src/day-03.rs:150-159 | the final fold adds `prod` for every entry whose count is 2 |
| SchematicEngine.Part2 | src/day-03.rs:126-160 | `part2` is that sum over the map left after every number has bumped its ring |
| SchematicEngine.Part2Gears | src/day-03.rs:138-158 | that map has one entry per symbol cell; a star holds the count and product of its numbers; any other symbol is still `(ch, 0, 1)` |
| CubeGame.ParseCubeOf | src/day-02.rs:26-38 | `"<n> <colour>"` is read back as n |
| CubeGame.ParseCube | src/day-02.rs:26-38 | when the shared colour parser succeeds, what is left is shorter than the input; `ParseCubeOf` and `ParseCubeOther` states what it reads |
| CubeGame.ParseCubeOther | src/day-02.rs:26-38 | a cube of another colour is rejected |
| CubeGame.ParseColor2 | src/day-02.rs:33-38 | when `parse_color2` succeeds, what is left is shorter than the input and the colour returned is the one it was given; `ParseAnyColor2Of` states what it reads |
| CubeGame.ParseColor | src/day-02.rs:26-31 | when `parse_color` succeeds, what is left is shorter than the input; `ParseAnyColorOf` states what it reads |
| CubeGame.ParseAnyColorOf | src/day-02.rs:40-46 | `parse_any_color` accepts any cube and reports `n <= 12`, `13` or `14` for red, green or blue |
| CubeGame.ParseAnyColor | src/day-02.rs:40-46 | when `parse_any_color` succeeds, what is left is shorter than the input; `ParseAnyColorOf` states what it reads |
| CubeGame.ParseAnyColor2Of | src/day-02.rs:48-54 | `parse_any_color2` returns the cube's colour and amount |
| CubeGame.ParseAnyColor2 | src/day-02.rs:48-54 | when `parse_any_color2` succeeds, what is left is shorter than the input; `ParseAnyColor2Of` states what it reads |
| CubeGame.Add | src/day-02.rs:72-76 | the amount goes to its own colour, and the other two are untouched |
| CubeGame.ParseShowOf | src/day-02.rs:56-67 | `parse_show` is true iff every cube of the show is within its colour's limit; a possible show is read to its end |
| CubeGame.ParseShow | src/day-02.rs:56-67 | when `parse_show` succeeds, what is left is shorter than the input; `ParseShowOf` states what it reads |
| CubeGame.ShowStopsEarly | src/day-02.rs:59-60 | `parse_show` stops at the first cube over its limit |
| CubeGame.ParseShow2Of | src/day-02.rs:69-82 | `parse_show2` adds the show's per-colour totals to the triple it was given |
| CubeGame.ParseShow2 | src/day-02.rs:69-82 | when `parse_show2` succeeds, what is left is shorter than the input; `ParseShow2Of` states what it reads |
| CubeGame.Join | src/day-02.rs:100 | the running triple is the componentwise maximum |
| CubeGame.RenderGameSplit | src/day-02.rs:90-91 | a game is its first show, `"; "`, then the rest |
| CubeGame.ParseGameOf | src/day-02.rs:84-95 | `parse_game` is true iff every `"; "`-separated show is possible |
| CubeGame.ParseGame | src/day-02.rs:84-95 | when `parse_game` succeeds, what is left is shorter than the input; `ParseGameOf` states what it reads |
| CubeGame.ParseGame2Of | src/day-02.rs:97-106 | `parse_game2` returns the per-colour maximum of the show totals, joined with its accumulator |
| CubeGame.ParseGame2 | src/day-02.rs:97-106 | when `parse_game2` succeeds, what is left is shorter than the input; `ParseGame2Of` states what it reads |
| CubeGame.HeaderOf | src/day-02.rs:109 | `"Game <id>: "` is read back as id |
| CubeGame.Header | src/day-02.rs:109 | when the `Game n: ` header succeeds, what is left is shorter than the input; `HeaderOf` states what it reads |
| CubeGame.ParseLineOf | src/day-02.rs:108-112 | `parse_line` yields the game's id when it is possible, and nothing otherwise |
| CubeGame.ParseLine | src/day-02.rs:108-112 | when `parse_line` succeeds, what is left is shorter than the input; `ParseLineOf` states what it reads |
| CubeGame.ParseLine2Of | src/day-02.rs:114-118 | `parse_line2` yields `r*g*b` of the per-colour maxima |
| CubeGame.ParseLine2 | src/day-02.rs:114-118 | when `parse_line2` succeeds, what is left is shorter than the input; `ParseLine2Of` states what it reads |
| CubeGame.MaxCountBounds | src/day-02.rs:97-106 | each component of the maximum is at least that colour's total in every show |
| CubeGame.MaxCountAttained | src/day-02.rs:97-106 | and some show attains it |
| CubeGame.FewestCubes | src/day-02.rs:97-106 | a bag fits every show iff it holds at least the per-colour maxima |
| CubeGame.PowerZero | src/day-02.rs:117 | the power is 0 when some colour never appears |
| CubeGame.CountAbsent | src/day-02.rs:73-75 | a colour that does not appear in a show totals 0 |
| CubeGame.ShowWithinBag | src/day-02.rs:56-67 | when a show names each colour at most once, `parse_show`'s verdict is the bag test |
| CubeGame.GameWithinBag | src/day-02.rs:84-95 | for such games, `parse_game` is true iff the 12/13/14 bag fits every show |
| CubeGame.RepeatedColor | src/day-02.rs:56-67 | a show that names a colour twice is judged cube by cube, not by its total |
| CubeGame.Sum1 | src/day-02.rs:120-124 | the fold succeeds iff every line parses |
| CubeGame.Part1 | src/day-02.rs:120-124 | `part1` has an answer iff every line parses |
| CubeGame.Part1Sums | src/day-02.rs:122 | the fold adds the ids of the possible games and 0 for the others |
| CubeGame.Part1Of | src/day-02.rs:120-124 | on the lines of a list of games, `part1` is the sum of the possible games' ids |
| CubeGame.Sum2 | src/day-02.rs:126-130 | the fold succeeds iff every line parses |
| CubeGame.Part2 | src/day-02.rs:126-130 | `part2` has an answer iff every line parses |
| CubeGame.Part2Sums | src/day-02.rs:128 | the fold adds every game's power |
| CubeGame.Part2Of | src/day-02.rs:126-130 | on the lines of a list of games, `part2` is the sum of their powers |
| Calibration.FirstDigit | src/day-01.rs:7-8 | there is no digit iff the line holds none, and a digit is below 10 |
| Calibration.FirstDigitIs | src/day-01.rs:7-8 | `find_map` returns the leftmost digit |
| Calibration.LastDigit | src/day-01.rs:10-12 | there is no digit iff the line holds none, and a digit is below 10 |
| Calibration.LastDigitIs | src/day-01.rs:10-12 | the reversed `find_map` returns the rightmost digit |
| Calibration.LineValue | src/day-01.rs:7-15 | a line has a value iff it holds a digit (otherwise `unwrap` panics), and the value is below 100 |
| Calibration.LineValueIs | src/day-01.rs:7-13 | the value is 10 times the first digit plus the last |
| Calibration.SingleDigit | src/day-01.rs:8-13 | a line with one digit uses it twice |
| Calibration.Total | src/day-01.rs:5-16 | the fold succeeds iff every line does |
| Calibration.TotalBound | src/day-01.rs:5-16 | the sum is at most 99 per line |
| Calibration.Part1 | src/day-01.rs:4-18 | `part1` has an answer iff every line holds a digit, and it is at most 99 per line |
| Calibration.WordValue | src/day-01.rs:41-44 | the search from index k finds word i and answers i + 1, or finds no word |
| Calibration.CaptureValue | src/day-01.rs:41-45 | no contract of its own: a captured word or digit converted to its value; stated by `WordValues`, `DigitCapture` and `OtherDecimalCapture` |
| Calibration.WordsDistinct | src/day-01.rs:20-22 | the nine number words are pairwise different |
| Calibration.WordValues | src/day-01.rs:20-44 | `NUM_WORDS[i]` converts to i + 1, so `"one"` gives 1 and `"nine"` gives 9 |
| Calibration.DigitCapture | src/day-01.rs:45 | a captured ASCII digit converts with `to_digit(10)` to its value |
| Calibration.OtherDecimalCapture | src/day-01.rs:45 | a captured decimal digit outside ASCII is not a word and `to_digit(10)` rejects it, so the capture has no value |
| Calibration.WordAtIs | src/day-01.rs:25-27 | the alternation at a position matches a number word iff one starts there |
| Calibration.CaptureAt | src/day-01.rs:25-27 | no contract of its own: the word or decimal character the pattern matches at a position; stated by `WordAtIs` and `OccursIff` |
| Calibration.OccursIff | src/day-01.rs:25-27 | the group matches at a position iff a Unicode decimal digit (the class `\d`) stands there or a number word starts there, and it captures that digit or the first such word |
| Calibration.FirstHit | src/day-01.rs:26 | the lazy prefix picks the leftmost position where the group matches |
| Calibration.LastHit | src/day-01.rs:27 | the greedy prefix picks the last position where the group matches |
| Calibration.FirstHitIs | src/day-01.rs:26 | the lazy scan stops exactly at the first true position |
| Calibration.LastHitIs | src/day-01.rs:27 | the greedy scan stops exactly at the last true position |
| Calibration.FrontScan | src/day-01.rs:26 | the front regex takes the group at the line's first match |
| Calibration.BackScan | src/day-01.rs:27 | the back regex takes the group at the line's last match |
| Calibration.LineValue2At | src/day-01.rs:32-50 | the line's value is 10 times the value read at the first match plus the value read at the last, and there is none if either capture fails to convert |
| Calibration.CaptureConverts | src/day-01.rs:32-48 | a capture converts iff it is not a decimal digit outside ASCII, and then to a value below 10 |
| Calibration.MatchDig | src/day-01.rs:32-48 | no contract of its own: the value of a capture, `None` without one; `CaptureConverts` states when it has one |
| Calibration.LineValue2Range | src/day-01.rs:32-50 | a line has a value iff the group matches somewhere and neither its first nor its last match is a decimal digit outside ASCII (otherwise an `unwrap` panics); on a line without such digits, iff an ASCII digit or a word occurs; the value is below 100 |
| Calibration.LineValue2 | src/day-01.rs:32-50 | no contract of its own: the first and last capture combined; `LineValue2At` and `LineValue2Range` state its value |
| Calibration.NoWordsAgree | src/day-01.rs:24-51 | on a line without number words and without decimal digits outside ASCII, part 2's value is part 1's |
| Calibration.OtherDecimalDiffers | src/day-01.rs:26-47 | on `"\u{663}1"` (an Arabic-Indic three, then `1`) part 1 reads 11 while part 2 has no value: `\d` captures the Arabic-Indic digit and `to_digit(10)` rejects it |
| Calibration.Overlap | src/day-01.rs:26-27 | on `"twone"`, words may overlap: the front match is `two` and the back match is `one`, giving 21 |
| Calibration.Part2 | src/day-01.rs:24-52 | `part2` has an answer iff every line has a value (which LineValue2Range characterises), and it is at most 99 per line |

## Left out

- Integer widths: all values are unbounded `nat`s.
  - `u32`/`u64` overflow panics are not modelled: `str::parse` beyond `u32`, `r + amt` and `r*g*b` on day 2, `prod *= n` on day 3, and the sums of every part.
  - Day 5 keeps `MAX = u64::MAX / 2` and `u64::MAX` as constants. Its lemmas state the range facts the data guarantees (`SrcBounded`, `DestBounded`) as requirements instead.
- The input and output:
  - reading standard input, `println!` and `main`;
  - day 5's `Map::print`;
  - the `unwrap` of each `line`.
  - Each part takes the lines as a sequence.
- Day 5's input parsing: `parse_seeds`, `parse_entry`, `parse_map` and `parse_almanac` with their boxed, peekable iterators. The almanac is built by its constructor from already parsed triples and seeds. `Map.Add` models the `add` that `parse_map` calls.
- The internals of nom and of the `regex` engine. The combinators in use are stated as functions: `digit1`, `tag`, `many0`, `many1`, `alt`, `is_a`, `none_of` and `take_until`. The two calibration regexes are stated by the positions they select (`FirstHit`, `LastHit`). Their `\d` is the Unicode class Nd, taken from Unicode 15.0; a `regex` crate built on a later Unicode version also matches the digit blocks added since. `.` not matching a newline does not matter within one line.
- `HashMap` and `HashSet` iteration order: the sets and maps are Dafny's, and the final fold over the map is proved independent of order (`GearSumRemove`).
- Day 6 entirely: it is floating-point root finding.
- Almanac.Part2Minimum: it requires every seed range to have a positive length. A zero-length range that starts strictly inside a source range of the chain still yields an empty triple in the composition. Its destination start can then be the answer, though no seed reaches it.
- Almanac.Part2Minimum: it also requires every stage to satisfy `GoodStage`: non-empty, positive lengths, pairwise disjoint source ranges and ends within the bounds of the data. A zero-length triple in a stage, or two triples whose source ranges overlap, can again put into the merge a destination start that no seed reaches, and the answer can then be that start.
- RangeMap.CompletedLookup and Almanac.ChainCompleted: `complete` re-sorts the triples by source start. On a map where two triples hold the same value but map it differently, that can change which one `get` finds first, so `get` after `complete` may differ. The lemmas state the property only for functional maps and for stages satisfying `GoodStage`.
- The in-place `sort()` calls of `parse_card` and `parse_card2` (days 4 and `test.rs`): they are the value function `SortBy` on local lists, because the sorted lists are never seen again.
- `test.rs` shares day 4's `parse_num` and number-list parsers, which are identical in the two files.
- The `unwrap` of `part1` on day 2 and day 4: a line that does not parse gives `None` for the whole sum.
- Destination-disjointness of the left map, which the merge seems to rely on, is not needed. `RangeMerge.MergedLookup` holds, on the values where both maps are defined (the left map covers x and the right map covers its image), whenever each map is functional, i.e. all triples holding a value agree on it.
