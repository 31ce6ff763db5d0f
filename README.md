# advent_2015 in Dafny

A model of the `advent_2015` repository: independent Rust crates, one per
puzzle of the 2015 Advent of Code, each a `Solution` object that collects
parsed input with `add_*`/`set_*` methods and fills `answer_part1` and
`answer_part2` in `analyse`. One Dafny module per crate:

- `D1p1`, `D1p2`: floor counting over parentheses.
- `D2p2`: wrapping paper and ribbon with `i32` overflow made explicit.
- `D3p2`: two walkers taking alternate moves and the houses they visit.
- `Day5`: the two naughty/nice rule sets.
- `Day6`: the rectangle light commands, on/off and brightness.
- `Day7`: the 16-bit wire circuit and its repeated passes.
- `Day8`: string-literal decoding (`memory`) and re-encoding (`encode`).
- `Day9` and `Extremes`: shortest and longest route by recursive search.
- `Day10`: the look-and-say step.
- `Day11`: the base-26 password increment and its validity rules.
- `Day13`: seating happiness around a circular table.
- `Day14`: the reindeer race, by formula and second by second.
- `Day15`: cookie recipe scoring.
- `Day16`: matching the aunts against the MFCSAM reading.
- `Day17`: counting container combinations.
- `Day18`: the light grid's Game of Life with stuck corners.
- `Day19`: molecule replacements and the greedy reduction to "e".
- `Day20`: the divisor-sum sieves and the threshold search.
- `Day21` and `BossStats`: the melee fight and the shop loadouts.
- `Day22`: the wizard fight with spell timers, hard mode and the shared best-cost cache.
- `Day23`: the two-register machine and its parser.
- `Day24`: balancing the sleigh's packages.
- `Day25`: the diagonal code generator.
- `CykGrammar` and `Cyk`: the grammar normalisation of the CYK crate, its tokenizer, the dense nonterminal index and the length-1 base layer.
- `Common`: `Option`, counting, decimal digits, UTF-8 byte length and `trim`, shared by the modules.

Objects whose fields the Rust code updates are classes with `modifies`
clauses. Loops are methods proved against specification functions. A Rust
panic (an `unwrap` on `None`, `unreachable!`, an arithmetic overflow) is
an error value of the model or a precondition, as listed below;
the integer overflows that are not modelled are listed there too.

## Model

| member | source | states |
|---|---|---|
| D1p1.AnswerCounts | d1p1/src/lib.rs:37-50 | the floor is the number of '(' minus the number of ')', and lies between -len and len |
| D1p1.AnswerAppend | d1p1/src/lib.rs:37-50 | the floor of concatenated instructions is the sum of their floors |
| D1p1.AnswerParity | d1p1/src/lib.rs:37-50 | the floor has the parity of the number of instructions |
| D1p1.KnownResultsGround | d1p1/src/lib.rs:71 | "(())" and "()()" end on floor 0 |
| D1p1.KnownResultsUp | d1p1/src/lib.rs:72-73 | "(((", "(()(()(" and "))(((((" end on floor 3 |
| D1p1.KnownResultsDown | d1p1/src/lib.rs:74-75 | "())" and "))(" end on floor -1, ")))" and ")())())" on floor -3 |
| D1p2.PrefixStep | d1p2/src/lib.rs:44-50 | each instruction moves the running floor by its delta |
| D1p2.Solution.Analyse | d1p2/src/lib.rs:42-58 | for any input whose characters after the first basement may be anything (the walk returns before reading them), the answer is the smallest 1-based position whose prefix floor is -1, every earlier prefix floor being at least 0; it is None exactly when the whole input is parentheses and no prefix floor is -1 |
| D1p2.FirstBasementUnique | d1p2/src/lib.rs:52-55 | the first basement position is unique |
| D1p2.FirstBasementOdd | d1p2/src/lib.rs:43-56 | the first basement position is odd |
| D1p2.KnownResults | d1p2/src/lib.rs:82 | ")" gives 1 and "()())" gives 5 |
| D1p2.KnownResultNewline | d1p2/src/lib.rs:42-58 | the line `load` reads, ")\n" with its newline kept, meets the walk's precondition and gives 1 |
| D2p2.Min3 | d2p2/src/lib.rs:57 | the nested `min` is no larger than any of its three arguments and equals one of them |
| D2p2.PaperFitsI32 | d2p2/src/lib.rs:55-59 | under the range precondition no `i32` product of `required_paper` overflows and the paper fits an `i32` |
| D2p2.PaperIsAreaPlusSmallestFace | d2p2/src/lib.rs:55-59 | paper = 2lw + 2wh + 2hl plus the area of a face no larger than any other face |
| D2p2.RibbonIsPerimeterPlusVolume | d2p2/src/lib.rs:60-64 | ribbon = l·w·h plus the smallest of the three face perimeters 2(l+w), 2(w+h), 2(h+l) |
| D2p2.PaperPermutationInvariant | d2p2/src/lib.rs:55-59 | swapping or rotating the sides does not change the paper |
| D2p2.RibbonPermutationInvariant | d2p2/src/lib.rs:60-64 | swapping or rotating the sides does not change the ribbon |
| D2p2.KnownResults | d2p2/src/lib.rs:102-118 | 2x3x4 needs paper 58 and ribbon 34; 1x1x10 needs paper 43 and ribbon 14 |
| D2p2.TotalRibbonAppend | d2p2/src/lib.rs:77 | the ribbon total is additive over a split of the present list |
| D2p2.Solution.Add | d2p2/src/lib.rs:72-74 | appends the present at the end and keeps the answer |
| D2p2.Solution.Analyse | d2p2/src/lib.rs:76-79 | stores the sum of the ribbons of all presents, which must fit an `i64` |
| D3p2.FromChar | d3p2/src/lib.rs:73-83 | '^', 'v', '>' and '<' map to North, South, East and West, each iff the character is that one; every other character is the unreachable case |
| D3p2.Parse | d3p2/src/lib.rs:57-62 | parsing succeeds iff every character is a direction, and then yields one move per character in order |
| D3p2.MoveIsUnit | d3p2/src/lib.rs:42-47 | a move changes exactly one coordinate, by one, so it never stays put |
| D3p2.WalkerStep | d3p2/src/lib.rs:40-47 | move i moves walker i mod 2 and leaves the other walker where it is |
| D3p2.TurnStep | d3p2/src/lib.rs:40-47 | move i moves walker i mod 2 one step, leaves the other walker in place, and adds the house it reaches to the visited ones |
| D3p2.VisitedBounds | d3p2/src/lib.rs:37-50 | the origin is visited, and 1 <= visited houses <= moves + 1 |
| D3p2.WalkersVisited | d3p2/src/lib.rs:38-48 | each walker's current house is among the visited ones |
| D3p2.Bump | d3p2/src/lib.rs:38-48 | `entry(h).or_insert(0) += 1` adds exactly h to the keys |
| D3p2.NumHouses | d3p2/src/lib.rs:34-51 | the loop over the two walkers' position arrays returns the number of distinct houses visited by either walker, origin included |
| D3p2.UpDownWalkers | d3p2/src/lib.rs:40-47 | with alternating '^' and 'v' walker 0 climbs and walker 1 descends one house per turn |
| D3p2.UpDownVisited | d3p2/src/lib.rs:37-50 | with alternating '^' and 'v' each move reaches a new house |
| D3p2.KnownResultsShort | d3p2/src/lib.rs:93 | "^v" parses to North, South and visits 3 houses |
| D3p2.KnownResultSquare | d3p2/src/lib.rs:94 | "^>v<" visits 3 houses |
| D3p2.KnownResultLong | d3p2/src/lib.rs:95 | "^v^v^v^v^v" visits 11 houses |
| D3p2.Solution.Analyse | d3p2/src/lib.rs:26-28 | stores the number of visited houses and keeps the moves |
| Day5.VowelsFrom | day5/src/lib.rs:77-81 | the vowels counted from an index on are at most the characters left |
| Day5.CountVowelsIsSum | day5/src/lib.rs:77-81 | `count_vowels` is the number of occurrences of a, e, i, o and u added up |
| Day5.ContainsFromIff | day5/src/lib.rs:83-85 | the substring search holds iff the pattern occurs at some start index at or after the one given |
| Day5.ContainsNaughtyPartIff | day5/src/lib.rs:83-85 | `contains_naughty_part` iff "ab", "cd", "pq" or "xy" occurs somewhere |
| Day5.DoubleFromIff | day5/src/lib.rs:87-96 | the double-letter function holds iff two equal adjacent characters start at or after the index |
| Day5.ContainsPair | day5/src/lib.rs:87-96 | the loop over `last` returns true iff some two adjacent characters are equal |
| Day5.Judge1 | day5/src/lib.rs:102-112 | Nice iff at least 3 vowels, none of the four forbidden pairs and a double letter |
| Day5.JumpFromIff | day5/src/lib.rs:144-157 | the jump function holds iff some s[i] == s[i+2] at or after the index |
| Day5.HasJumpPair | day5/src/lib.rs:144-157 | the loop over `last1`/`last2` returns true iff some s[i] == s[i+2] |
| Day5.PairFromIff | day5/src/lib.rs:122-142 | a given pair is found from an index on iff it starts at some position at or after it |
| Day5.RepeatFromIff | day5/src/lib.rs:122-142 | the repeated-pair function holds iff two equal pairs start at i and j with j - i >= 2 |
| Day5.RecordStep | day5/src/lib.rs:125-131 | appending position i to the list of its pair keeps every pair recorded, with its first and last occurrence |
| Day5.RecordPairs | day5/src/lib.rs:123-133 | after the first loop every pair of adjacent characters is a key whose list starts and ends at occurrences of that pair and spans all of them |
| Day5.AnyDistant | day5/src/lib.rs:134-141 | the `filter`/`any` is true iff some pair's list has two entries whose first and last are two or more apart |
| Day5.DistantIffRepeated | day5/src/lib.rs:122-142 | over fully recorded pairs, a distant list exists iff some pair repeats without overlap |
| Day5.HasDuplicatePair | day5/src/lib.rs:122-142 | `has_duplicate_pair` iff some two-character pair occurs at i and j with j - i >= 2 |
| Day5.Judge2 | day5/src/lib.rs:163-173 | Nice iff a non-overlapping repeated pair and a jump pair both occur |
| Day5.KnownNicePart1 | day5/src/lib.rs:185 | "aaa" is nice under the first rules |
| Day5.KnownNaughtyPart1 | day5/src/lib.rs:186 | "jchzalrnumimnmhp" is naughty under the first rules: it has no double letter |
| Day5.NiceResultPart1 | day5/src/lib.rs:184 | "ugknbfddgicrmopn" is nice under the first rules |
| Day5.NaughtyPairPart1 | day5/src/lib.rs:187 | "haegwjzuvuyypxyu" is naughty under the first rules: it holds "xy" |
| Day5.NaughtyVowelsPart1 | day5/src/lib.rs:188 | "dvszwmarrgswjxmb" is naughty under the first rules: it has only one vowel |
| Day5.KnownNicePart2 | day5/src/lib.rs:201 | "xxyxx" is nice under the second rules |
| Day5.KnownNaughtyPart2 | day5/src/lib.rs:203 | "ieodomkazucvgmuy" is naughty under the second rules: no pair repeats |
| Day5.MoreNicePart2 | day5/src/lib.rs:200 | "qjhvhtzxzqqjkmpb" is nice under the second rules |
| Day5.MoreNaughtyPart2 | day5/src/lib.rs:202 | "uurcxstgmygtbstg" is naughty under the second rules: no letter repeats with one between |
| Day5.Solution.AddString | day5/src/lib.rs:57-59 | appends the string and keeps both answers |
| Day5.Solution.Analyse | day5/src/lib.rs:43-55 | each answer is the number of strings judged nice by its rule set |
| Day6.ParseMode | day6/src/lib.rs:138-146 | "turn on", "turn off" and "toggle" map to On, Off and Toggle, each iff the text is that one; any other text is the unreachable case |
| Day6.Xor1 | day6/src/lib.rs:70 | `v ^ 1` turns 0 into 1 and 1 into 0 |
| Day6.NewValueRules | day6/src/lib.rs:67-93 | part 1 keeps a light in {0, 1} and toggling flips it; part 2 keeps brightness non-negative, Off gives max(0, v-1), On and Toggle increase it |
| Day6.Rect | day6/src/lib.rs:65-66 | the cells of `sx..=ex` × `sy..=ey` are exactly those inside the inclusive rectangle |
| Day6.Apply | day6/src/lib.rs:64-95 | after one instruction the stored cells are the old ones plus the rectangle |
| Day6.EmptyRect | day6/src/lib.rs:65-86 | a rectangle with sx > ex or sy > ey leaves the lights unchanged |
| Day6.RunAllInvariant | day6/src/lib.rs:63-97 | a light is stored iff some instruction covered it; part 1 values stay in {0, 1} and part 2 values stay non-negative |
| Day6.SumRemove | day6/src/lib.rs:76-78 | the total does not depend on the order the map is visited in |
| Day6.SumBounds | day6/src/lib.rs:75-79 | values in {0, 1} sum to at most the number of cells; non-negative values sum to a non-negative total |
| Day6.AnswerBounds | day6/src/lib.rs:75-102 | the part 1 answer lies between 0 and the number of distinct cells touched; the part 2 answer is non-negative |
| Day6.ApplyInstruction | day6/src/lib.rs:65-95 | the nested loops over the rectangle give the lights after the instruction: each cell inside gets its new value computed from its old one, every other cell is unchanged |
| Day6.Sum | day6/src/lib.rs:75-78 | the summing loop over the map's pairs returns the total of its values |
| Day6.Solution.AddInstruction | day6/src/lib.rs:58-60 | appends the instruction and keeps both answers |
| Day6.Solution.Analyse | day6/src/lib.rs:62-103 | the answer is the sum of the lights after every instruction in order, under the part's rules |
| Day6.Solution.AnalyseBoth | day6/src/lib.rs:43-46 | stores both parts' answers and keeps the instructions |
| Day7.SignalValueCases | day7/src/lib.rs:168-173 | a constant reads as itself, an unknown wire as None, a known wire as its stored value |
| Day7.GateNeedsInputs | day7/src/lib.rs:126-156 | a binary gate has a value iff both inputs have one (and, for a shift, the amount is below 16); NOT has a value iff its input has; Set, NOT, AND and OR never panic |
| Day7.NotIsComplement | day7/src/lib.rs:127 | the 16-bit complement is 65535 - v, shares no bit with v and covers every other bit |
| Day7.U16RoundTrip | day7/src/lib.rs:75-80 | a `u16` widened to `i64` lies in [0, 65536) and converts back unchanged |
| Day7.KnownGates | day7/src/lib.rs:229-236 | with x = 123 and y = 456: AND 72, OR 507, LSHIFT 2 492, RSHIFT 2 114, NOT 65412; a gate on an unknown wire has no value |
| Day7.GetTarget | day7/src/lib.rs:110-119 | every variant returns its own target wire |
| Day7.UpdateWire | day7/src/lib.rs:121-158 | only the target wire is written, with the gate's value; every other wire keeps its value; a shift by 16 or more is the overflow panic |
| Day7.PassSnoc | day7/src/lib.rs:65-88 | a pass over one more instruction is the shorter pass followed by that instruction |
| Day7.PassKeepsSkipped | day7/src/lib.rs:83-85 | the skipped wire keeps its preset value through a pass |
| Day7.PassKeepsWires | day7/src/lib.rs:121-158 | a pass never removes a wire |
| Day7.RunPass | day7/src/lib.rs:65-88 | the `for` loop over the instructions computes one pass, skipping the given target, and reports a panic |
| Day7.PassNoneStays | day7/src/lib.rs:143-156 | once a shift panics, the pass panics |
| Day7.PassesPrefix | day7/src/lib.rs:64-74 | if n passes run without a panic, so do all fewer passes |
| Day7.UnsettledMeaning | day7/src/lib.rs:71-93 | the loop condition has failed before pass k iff every earlier pass ran and left wire a unknown |
| Day7.FirstSettledUnique | day7/src/lib.rs:71-73 | the first pass after which wire a is known is unique, so the answer is determined |
| Day7.SettledHere | day7/src/lib.rs:71-75 | stopping after the first pass that leaves wire a known reports its value |
| Day7.NextPass | day7/src/lib.rs:64-68 | before the settling pass, the next pass runs without a panic |
| Day7.Settle | day7/src/lib.rs:62-96 | the repeated passes stop after the first pass that leaves wire a known and report its value; needs the circuit to settle without a panic |
| Day7.ParseSignal | day7/src/lib.rs:213-219 | a constant comes only from a non-empty all-digit string; any string with a non-digit becomes a wire of that name |
| Day7.ParseDecimal | day7/src/lib.rs:213-215 | the decimal digits of a `u16` parse back to that constant |
| Day7.KnownSignals | day7/src/lib.rs:228-240 | whole test lines such as "123 -> x" contain a space and so become wire names |
| Day7.Solution.AddInstruction | day7/src/lib.rs:58-60 | appends the instruction and keeps both answers |
| Day7.Solution.AnalysePart1 | day7/src/lib.rs:62-76 | passes from no wires report wire a after the first pass that sets it |
| Day7.Solution.AnalysePart2 | day7/src/lib.rs:78-96 | wire b is preset to part 1's answer, instructions targeting b are skipped, and wire a is reported as in part 1 |
| Day7.Solution.Analyse | day7/src/lib.rs:43-46 | part 1's answer is stored and then used to preset wire b for part 2 |
| Day8.RunAppend | day8/src/lib.rs:108-151 | scanning a concatenation scans the parts one after the other with the flags carried over |
| Day8.RunCountsAtMostOnePerChar | day8/src/lib.rs:109-150 | each character adds at most one to the memory count |
| Day8.Memory | day8/src/lib.rs:102-153 | the character loop over the `escape`, `in_hex`, `in_string` and `hex_remaining` flags returns the memory length the match arms define; inputs that reach `unreachable!` are excluded |
| Day8.RunPiece | day8/src/lib.rs:114-147 | a plain character, `\\`, `\"` or `\xHH` inside the quotes counts exactly one |
| Day8.RunPieces | day8/src/lib.rs:108-151 | a body of valid pieces counts one per piece and ends inside the string with no escape pending |
| Day8.LiteralMemory | day8/src/lib.rs:102-153 | every well-formed quoted literal scans without a panic, and its memory length is the number of pieces: escapes and other characters count one, the enclosing quotes nothing |
| Day8.RenderAllLength | day8/src/lib.rs:102-153 | a body takes at least one character per piece |
| Day8.MemoryBelowCode | day8/src/lib.rs:102-160 | a well-formed literal's memory length plus 2 is at most its length in characters, which is at most its byte length |
| Day8.EncodePieces | day8/src/lib.rs:90-98 | `encode` writes one valid piece per character of its input |
| Day8.EncodeBodyIsRender | day8/src/lib.rs:90-98 | the encoded body is the rendering of those pieces |
| Day8.EncodeMemory | day8/src/lib.rs:90-153 | scanning `encode(s)` gives back the length of s: encoding always produces a well-formed literal that holds s |
| Day8.EncodeLength | day8/src/lib.rs:90-99 | `encode(s)` has length \|s\| + 2 + the number of quotes and backslashes in s, and starts and ends with a quote |
| Day8.EncodeBodyLength | day8/src/lib.rs:91-98 | the encoded body adds one character per quote or backslash |
| Day8.EncodeBodyAppend | day8/src/lib.rs:91-98 | encoding works character by character, so it distributes over concatenation |
| Day8.KnownEncodings | day8/src/lib.rs:195-196 | `""` encodes to `"\"\""` and `"abc"` to `"\"abc\""` |
| Day8.KnownEncodingEscapedQuote | day8/src/lib.rs:197 | `"aaa\"aaa"` encodes to `"\"aaa\\\"aaa\""` |
| Day8.KnownEncodingHex | day8/src/lib.rs:198 | `"\x27"` encodes to `"\"\\x27\""` |
| Day8.KnownMemory | day8/src/lib.rs:179-182 | `""`, `"abc"` and `"\x27"` hold 0, 3 and 1 characters in memory |
| Day8.KnownMemoryEscapedQuote | day8/src/lib.rs:181 | `"aaa\"aaa"` holds 7 characters in memory |
| Day8.KnownCodeLengths | day8/src/lib.rs:179-182 | `""`, `"abc"` and `"\x27"` are 2, 5 and 6 bytes long |
| Day8.KnownCodeLengthEscapedQuote | day8/src/lib.rs:181 | `"aaa\"aaa"` is 10 bytes long |
| Day8.ParseEntry | day8/src/lib.rs:159-168 | the entry records the byte length, the memory length and the text of the line |
| Day8.MemoryBelowCodeTotal | day8/src/lib.rs:61-69 | over parsed entries the total memory length is at most the total code length, so part 1 is never negative |
| Day8.Solution.AddEntry | day8/src/lib.rs:57-59 | appends the entry and keeps both answers |
| Day8.Solution.AnalysePart1 | day8/src/lib.rs:61-69 | part 1 is the total code length minus the total memory length |
| Day8.Solution.AnalysePart2 | day8/src/lib.rs:71-79 | part 2 is the total length of the encoded inputs minus the total code length |
| Day8.Solution.Analyse | day8/src/lib.rs:61-79 | stores both answers and keeps the entries |
| Extremes.Combine | day9/src/lib.rs:119-142 | the running `min`/`max` update is at least as good as the new cost and the old best, and equals one of them |
| Extremes.Extreme | day9/src/lib.rs:108-146 | the best of a set of costs is missing exactly for no costs, and otherwise is a member at least as good as every other |
| Extremes.ExtremeAdd | day9/src/lib.rs:77-102 | folding one more cost into the running best gives the best of the larger set, in whatever order the set is visited |
| Day9.Reverse | day9/src/lib.rs:163-165 | `reverse` swaps the endpoints and keeps the distance |
| Day9.ReverseTwice | day9/src/lib.rs:163-165 | reversing twice gives back the path |
| Day9.SamePathIgnoresDistance | day9/src/lib.rs:156-160 | two paths are equal iff they differ at most in their distance, and reversing both keeps the answer |
| Day9.FindMatches | day9/src/lib.rs:114-134 | `find` fails iff no stored path joins the two locations, and otherwise returns a stored path that does |
| Day9.FindFirst | day9/src/lib.rs:114-134 | `find` returns the first stored path joining the two locations |
| Day9.LocationsAreEnds | day9/src/lib.rs:65-69 | the fold collects exactly the endpoints of the stored paths |
| Day9.Candidates | day9/src/lib.rs:110-114 | the locations the loop steps to are known, unvisited, and reached by a path |
| Day9.BestUnfold | day9/src/lib.rs:108-126 | the search from a location is the best over the candidates of edge plus the continuation |
| Day9.BestNone | day9/src/lib.rs:108-125 | `analyse_part1_r`/`analyse_part2_r` return None iff no unvisited location is directly reachable |
| Day9.ValuesAdd | day9/src/lib.rs:110-123 | looking at one more location adds its cost exactly when it is a candidate |
| Day9.ExploreStep | day9/src/lib.rs:110-123 | one turn of the loop updates the running best with the edge plus the continuation, which counts 0 for a dead end, or leaves it unchanged |
| Day9.BestIsRoute | day9/src/lib.rs:108-146 | a result of the search is the length of some complete route: a sequence of candidate steps that ends where none is left |
| Day9.RouteBounds | day9/src/lib.rs:108-146 | no complete route is shorter (part 1) or longer (part 2) than the search's result |
| Day9.ShortestAtMostLongest | day9/src/lib.rs:108-146 | for the same arguments both searches find something or neither does, and the minimum is at most the maximum |
| Day9.NoLoopsMove | day9/src/lib.rs:59-98 | with both directions stored and no line from a location to itself, every location has a step, so the `unwrap`s succeed |
| Day9.StartsAdd | day9/src/lib.rs:73-82 | one more start adds its search result to the costs compared |
| Day9.OverallIsRoute | day9/src/lib.rs:64-106 | with some path stored the answer exists and is the length of a complete route from some start |
| Day9.OverallBounds | day9/src/lib.rs:64-106 | no complete route from any start beats the answer |
| Day9.OverallNone | day9/src/lib.rs:64-106 | there is no answer exactly when no path is stored |
| Day9.Part1AtMostPart2 | day9/src/lib.rs:64-106 | part 1 never exceeds part 2, and both exist or neither does |
| Day9.KnownSinglePath | day9/src/lib.rs:59-106 | the single line "A to B = 7" gives 7 for both parts |
| Day9.Explore | day9/src/lib.rs:108-146 | the recursive search leaves `visited` as it found it and returns the best over its candidates |
| Day9.Step | day9/src/lib.rs:111-123 | a visited or unreachable location gives nothing; otherwise the location is marked for the inner search, unmarked afterwards, and the cost is the edge plus the inner result or 0 |
| Day9.Solution.AddPath | day9/src/lib.rs:59-62 | stores the reverse and then the path, keeping every stored path's reverse stored |
| Day9.Solution.Search | day9/src/lib.rs:72-105 | the loop over the locations searches from each with only that location marked and keeps the best result |
| Day9.Solution.AnalysePart1 | day9/src/lib.rs:64-84 | part 1 is the shortest route over all starts |
| Day9.Solution.AnalysePart2 | day9/src/lib.rs:86-106 | part 2 is the longest route over all starts |
| Day9.Solution.Analyse | day9/src/lib.rs:44-47 | stores both answers and keeps the paths |
| Day10.Repeat | day10/src/lib.rs:81-83 | a run of n copies has length n and holds only its character |
| Day10.RunsSnoc | day10/src/lib.rs:75-89 | the runs after one more character: the last run grows when it repeats the character, otherwise a new run of one starts |
| Day10.ExtendLastRun | day10/src/lib.rs:81-83 | extending the last run keeps the runs a maximal decomposition |
| Day10.ExtendDecomposition | day10/src/lib.rs:81-83 | a decomposition whose last run repeats c stays one for the string with c appended once that run is one longer |
| Day10.ExtendExpands | day10/src/lib.rs:81-83 | lengthening the last run appends its character to the spelled-out string |
| Day10.RepeatSnoc | day10/src/lib.rs:82 | n + 1 copies are n copies and one more |
| Day10.ExpandSnoc | day10/src/lib.rs:75-94 | one more run at the end appends its copies |
| Day10.ReplaceLastKeepsNeighbours | day10/src/lib.rs:81-83 | replacing the last run by one of the same character keeps neighbouring runs different |
| Day10.StartNewRun | day10/src/lib.rs:84-88 | starting a new run with a different character keeps the runs a maximal decomposition |
| Day10.StartDecomposition | day10/src/lib.rs:77-88 | a decomposition whose last run does not repeat c stays one with a new run of one c |
| Day10.RunsDecompose | day10/src/lib.rs:75-94 | every string is cut into maximal runs: non-empty, neighbours different, spelling out the string, the last ending with its last character |
| Day10.Step | day10/src/lib.rs:71-99 | the loop over `last_char` and `count` outputs, for each maximal run in order, its decimal length followed by its character; the `is_none` branch is never taken |
| Day10.EmptyStep | day10/src/lib.rs:95-97 | an empty input gives an empty output |
| Day10.EmitShortRuns | day10/src/lib.rs:85-96 | runs shorter than 10 each write two characters |
| Day10.StepLength | day10/src/lib.rs:84-97 | when every run is shorter than 10 the output is twice as long as the number of runs |
| Day10.KnownSteps | day10/src/lib.rs:71-99 | "1" becomes "11", "11" becomes "21" and "21" becomes "1211" |
| Day10.IteratedLength | day10/src/lib.rs:51-69 | the loop applies the step the given number of times and returns the byte length of the result |
| Day10.Solution.SetInput | day10/src/lib.rs:47-49 | stores the input and keeps both answers |
| Day10.Solution.AnalysePart1 | day10/src/lib.rs:51-59 | part 1 is the byte length after 40 steps |
| Day10.Solution.AnalysePart2 | day10/src/lib.rs:61-69 | part 2 is the byte length after 50 steps |
| Day10.Solution.Analyse | day10/src/lib.rs:32-35 | stores both answers and keeps the input |
| Day11.Next | day11/src/lib.rs:94-111 | the increment keeps the length and leaves every position right of `pos` unchanged |
| Day11.KnownIncrements | day11/src/lib.rs:94-111 | "ab" becomes "ac", "xz" becomes "ya" and "zz" wraps to "aa" |
| Day11.ValueBound | day11/src/lib.rs:94-111 | a lowercase string of length n spells a base-26 number below 26^n |
| Day11.ValueInjective | day11/src/lib.rs:94-111 | two lowercase strings of one length spelling the same number are equal |
| Day11.NextIncrements | day11/src/lib.rs:94-111 | on a lowercase string the increment adds one, modulo 26^(pos+1), to the number spelled by the first pos+1 letters, and keeps the string lowercase |
| Day11.CarryIncrements | day11/src/lib.rs:97-103 | the carry case: a 'z' becomes 'a' and the letter to its left is incremented, which still adds one modulo the cycle |
| Day11.Successor | day11/src/lib.rs:53-56 | repeated increments of an eight-letter lowercase password stay eight lowercase letters |
| Day11.PairsCountSound | day11/src/lib.rs:68-76 | two elements in the set of doubled pairs mean two different doubled letters |
| Day11.PairsCountComplete | day11/src/lib.rs:68-76 | two different doubled letters put at least two elements in the set |
| Day11.ContainsTwoPairs | day11/src/lib.rs:68-76 | the set-collecting loop answers true exactly when two different letters are each doubled among the first eight positions |
| Day11.ContainsRun | day11/src/lib.rs:78-88 | the early-return loop answers true exactly when three consecutive letters increase by one at some start 0 to 5 |
| Day11.CheckPermitted | day11/src/lib.rs:64-92 | true exactly when none of 'i', 'o', 'l' occurs, there are two different pairs and a straight |
| Day11.WitnessPermitted | day11/src/lib.rs:90-92 | "abcdffaa" is a permitted eight-letter lowercase password |
| Day11.DistanceStep | day11/src/lib.rs:55 | each increment reaches a given target or brings it one step closer around the cycle of 26^8 passwords |
| Day11.DistanceAfter | day11/src/lib.rs:55 | the same for any password whose base-26 value is one more, around the cycle |
| Day11.NonePermittedExtend | day11/src/lib.rs:54-60 | a rejected candidate extends the run of rejected passwords by one |
| Day11.NextPassword | day11/src/lib.rs:52-62 | the loop terminates and returns the first permitted password strictly after the input, every increment before it rejected |
| Day11.Solution.SetInput | day11/src/lib.rs:48-50 | stores the input and keeps both answers |
| Day11.Solution.Analyse | day11/src/lib.rs:33-36 | part 1 is the first permitted password after the input and part 2 the first one after part 1 |
| Day13.ParseSign | day13/src/lib.rs:172-182 | "gain" and "lose" map to their signs, and every other word is the panic case |
| Day13.SignedScoreDetermines | day13/src/lib.rs:152-155 | the signed score gives back the scale, and the sign whenever the scale is not zero |
| Day13.PairSymmetric | day13/src/lib.rs:107-118 | seating two people side by side scores the same whichever of them is named first |
| Day13.SeatedUnfold | day13/src/lib.rs:102-129 | with people left to seat, the result is the largest of the totals over each choice of the next neighbour |
| Day13.ArrangementIsPermutation | day13/src/lib.rs:81-104 | a seating order seats every remaining person exactly once and nobody else |
| Day13.TotalsHas | day13/src/lib.rs:104-126 | the total of every choice of the next neighbour is among the totals compared |
| Day13.SeatedIsArrangement | day13/src/lib.rs:73-131 | every result is the happiness of some seating order of the remaining people, closed back to `first` |
| Day13.ArrangementBound | day13/src/lib.rs:73-131 | no seating order of the remaining people beats the result |
| Day13.CircleThroughUnknown | day13/src/lib.rs:51-53 | a circle closed through a person nobody has an opinion about scores like the open row of the others |
| Day13.MeOpensTheCircle | day13/src/lib.rs:51-53 | with "Me" at the head, each circle is worth its row of everybody else |
| Day13.BestCircle | day13/src/lib.rs:47-50 | the search from a first guest returns the happiness of a circle of everybody opened at that guest, and no circle opened at that guest beats it (also lines 73-131) |
| Day13.BestRow | day13/src/lib.rs:51-131 | part 2 is the best happiness of an open row of the original guests |
| Day13.NewcomerUnknown | day13/src/lib.rs:51-53 | a name no rule mentions is someone nobody has an opinion about |
| Day13.Arrange | day13/src/lib.rs:73-131 | the recursion with its loop over the unseated people returns the best closed-circle total, and no result when nobody is seated |
| Day13.Seat | day13/src/lib.rs:105-122 | one turn of the loop adds both directed scores with `last` and takes the best total with `person` seated next |
| Day13.TotalsStep | day13/src/lib.rs:123-126 | comparing one more candidate total keeps the running maximum the maximum of the totals seen |
| Day13.Solution.AddRule | day13/src/lib.rs:66-71 | both names join the table, the ordered pair gets the new score replacing any earlier one, and every other pair keeps its score |
| Day13.Solution.Analyse | day13/src/lib.rs:47-54 | part 1 is the best circle started at some guest; part 2 adds "Me" and starts the circle there |
| Day14.CycleStep | day14/src/lib.rs:138-154 | a full fly-and-rest cycle adds exactly `flytime` flying seconds |
| Day14.ShortRace | day14/src/lib.rs:141-151 | within the first cycle the loop runs once and flies for the smaller of the time and `flytime` |
| Day14.LongRace | day14/src/lib.rs:141-151 | each full pass of the loop flies `flytime` seconds and rests `resttime` seconds |
| Day14.LoopDistanceIsFormula | day14/src/lib.rs:138-154 | the loop covers speed × (whole cycles × flytime + min(time mod cycle, flytime)) |
| Day14.DistanceBound | day14/src/lib.rs:138-154 | a reindeer flies at most the whole time and so covers at most speed × time |
| Day14.Distance | day14/src/lib.rs:138-154 | `Reindeer::distance` returns the closed-form distance (the loop ends only when fly + rest is positive or the time is 0) |
| Day14.KnownDistances | day14/src/lib.rs:183-203 | Comet covers 1120 km and Dancer 1056 km in 1000 seconds |
| Day14.Tick | day14/src/lib.rs:88-107 | one second counts down, moves by `speed` exactly when flying, keeps the score and never leaves a zero count |
| Day14.InitState | day14/src/lib.rs:81-84 | the fold creates one entry per name, flying, at position 0 with score 0 |
| Day14.InitStateEntry | day14/src/lib.rs:81-84 | with distinct names every reindeer starts with its own `flytime` left |
| Day14.MoveAll | day14/src/lib.rs:86-108 | the first inner loop keeps the names of the state and its readiness |
| Day14.MoveAllFrame | day14/src/lib.rs:86-108 | moving never lowers a position, never touches a score and leaves names without a rule alone |
| Day14.MoveAllLead | day14/src/lib.rs:95-97 | the tracked maximum bounds every moved position and, with at least one reindeer, is reached by one of them |
| Day14.ScoreAll | day14/src/lib.rs:109-115 | the scoring loop keeps the names of the state |
| Day14.ScoreAllFacts | day14/src/lib.rs:109-115 | scoring changes only scores, never lowers one, leaves names without a rule alone and gives every leader a point |
| Day14.ScoreAllExact | day14/src/lib.rs:109-115 | with distinct names, a reindeer at the lead position gains exactly one point and every other reindeer keeps its score |
| Day14.Second | day14/src/lib.rs:85-117 | one second keeps the names and the readiness of the state |
| Day14.Race | day14/src/lib.rs:81-117 | after any number of seconds the state still has exactly one entry per name |
| Day14.SomeoneScoresEachSecond | day14/src/lib.rs:86-115 | each second somebody in the lead scores and no score drops |
| Day14.MoveAllEntry | day14/src/lib.rs:87-107 | with distinct names each rule ticks its own entry exactly once per second |
| Day14.FlyingStep | day14/src/lib.rs:138-154 | one more second adds a flying second exactly when the reindeer is in the flying part of its cycle |
| Day14.TickFollowsPhase | day14/src/lib.rs:88-107 | the countdown of part 2 keeps a reindeer in the phase and at the position that the cycle formula gives, second by second |
| Day14.LoneFollowsDistance | day14/src/lib.rs:88-107 | a reindeer ticking on its own is at every second in the phase that the cycle formula gives |
| Day14.SecondMatches | day14/src/lib.rs:85-117 | one second of the whole race keeps a reindeer in step with a lone copy of itself |
| Day14.RunMatchesLone | day14/src/lib.rs:85-117 | over any number of seconds each reindeer in the race behaves as if it raced alone |
| Day14.RaceFollowsDistance | day14/src/lib.rs:85-154 | with distinct names and positive phases, the part 2 position of every reindeer after t seconds is `distance(t)` |
| Day14.BuildState | day14/src/lib.rs:81-84 | the fold builds the initial state map |
| Day14.MoveSecond | day14/src/lib.rs:86-108 | the first inner loop ticks every rule's entry and tracks the largest position from 0 |
| Day14.ScoreSecond | day14/src/lib.rs:109-115 | the second inner loop gives a point to every rule's entry at the lead position |
| Day14.BestScore | day14/src/lib.rs:119-125 | the `max` over the final map is the largest score, and none for an empty map |
| Day14.OneSecond | day14/src/lib.rs:86-115 | one second moves everybody, then scores the leaders |
| Day14.ScoreRace | day14/src/lib.rs:81-126 | part 2 runs the given number of seconds and returns the best score of the final state |
| Day14.Solution.AddRule | day14/src/lib.rs:60-62 | appends one reindeer and keeps both answers |
| Day14.Solution.AnalysePart1 | day14/src/lib.rs:64-78 | the largest distance any reindeer covers in 2503 seconds, and none without reindeer |
| Day14.Solution.AnalysePart2 | day14/src/lib.rs:80-126 | the best score after 2503 seconds of leader points |
| Day14.Solution.Analyse | day14/src/lib.rs:45-48 | stores both answers and keeps the reindeer |
| Day15.SignedDecimal | day15/src/lib.rs:159 | the decimal text of a factor starts with a minus sign exactly when the factor is negative |
| Day15.Clamp | day15/src/lib.rs:133-139 | clamping leaves no negative amount, keeps the name and every non-negative amount, and changes nothing on a clamped ingredient |
| Day15.ClampIdempotent | day15/src/lib.rs:133-139 | clamping twice is clamping once |
| Day15.TextParts | day15/src/lib.rs:144-159 | a scaled name begins with its factor followed by "x" and the old name; a joined name begins with the left name |
| Day15.ScaleZero | day15/src/lib.rs:157-166 | no spoons of an ingredient contribute nothing |
| Day15.ScaleAdds | day15/src/lib.rs:142-166 | spoons add up: a + b spoons hold the amounts of a spoons added to b spoons |
| Day15.AddAmounts | day15/src/lib.rs:142-152 | adding ingredients is commutative and associative on the amounts, with the default ingredient as identity |
| Day15.ScoreNonNegative | day15/src/lib.rs:78 | a clamped recipe never scores below 0 |
| Day15.Leaf | day15/src/lib.rs:74-106 | the final score is the product of the four totals, and in part 2 it is 0 unless the recipe has exactly 500 calories |
| Day15.Inner | day15/src/lib.rs:72-119 | the search never returns a negative score |
| Day15.Upto | day15/src/lib.rs:82-91 | the running best over a prefix of the spoon loop, starting from 0, is never negative |
| Day15.InnerScore | day15/src/lib.rs:72-119 | `inner_part1`/`inner_part2` with their spoon loops compute the search |
| Day15.UptoAttained | day15/src/lib.rs:82-91 | the best of the spoon loop is the score of one of its spoon counts |
| Day15.UptoBound | day15/src/lib.rs:82-91 | no spoon count of the loop scores more than its best |
| Day15.SumNonNegative | day15/src/lib.rs:83 | spoon counts that are all non-negative add up to a non-negative total |
| Day15.InnerIsRecipe | day15/src/lib.rs:72-119 | with n >= 0 spoons left, the result is the score of a recipe whose non-negative spoon counts add up to exactly n |
| Day15.InnerBound | day15/src/lib.rs:72-119 | no recipe whose non-negative spoon counts add up to the spoons left scores more than the result |
| Day15.BestRecipe | day15/src/lib.rs:64-70 | each answer is the score of some recipe of exactly 100 teaspoons, and no recipe of 100 teaspoons scores more |
| Day15.Part2AtMostPart1 | day15/src/lib.rs:95-119 | the 500-calorie best never beats the unrestricted best |
| Day15.Solution.AddIngredient | day15/src/lib.rs:60-62 | appends one ingredient and keeps both answers |
| Day15.Solution.Analyse | day15/src/lib.rs:45-70 | both answers are the searches from the first ingredient with 100 spoons and the default mix, and part 2 is at most part 1 |
| Day16.CheckMatches | day16/src/lib.rs:111-151 | the loop over the reading returns false at the first recorded count the rule rejects and true otherwise |
| Day16.MatchesMeaning | day16/src/lib.rs:111-151 | an aunt matches exactly when every compound both she and the reading mention has an accepted count |
| Day16.MatchesAnyOrder | day16/src/lib.rs:113-127 | whatever order the reading's map is visited in, the result is the same map-level agreement |
| Day16.ReadingListsTarget | day16/src/lib.rs:66-96 | the reading visited lists the ten compounds of the `map!` once each with their counts |
| Day16.EmptyRecordMatches | day16/src/lib.rs:111-151 | an aunt who records nothing matches under both rules |
| Day16.UnrelatedCompounds | day16/src/lib.rs:113-128 | a compound the reading does not mention, or one the aunt does not record, changes nothing |
| Day16.PartsAgreeElsewhere | day16/src/lib.rs:130-146 | the two rules differ only for cats, trees, pomeranians and goldfish |
| Day16.FirstMatchMeaning | day16/src/lib.rs:78-100 | the answer is the id of the first matching aunt in list order, and there is none exactly when nobody matches |
| Day16.Solution.AddAunt | day16/src/lib.rs:61-63 | appends one aunt and keeps both answers |
| Day16.Solution.Analyse | day16/src/lib.rs:46-101 | part 1 is the first aunt matching exactly; part 2 the first one matching with cats and trees as lower and pomeranians and goldfish as upper bounds |
| Day17.Prepend | day17/src/lib.rs:74 | putting a container in front of every combination keeps their number and order |
| Day17.SubsetsAreCombinations | day17/src/lib.rs:67-87 | every listed combination is a strictly increasing list of container indices |
| Day17.SubsetsComplete | day17/src/lib.rs:67-87 | every combination of the containers is listed |
| Day17.SubsetsDistinct | day17/src/lib.rs:67-87 | no combination is listed twice |
| Day17.IncreasingFromFirst | day17/src/lib.rs:67-87 | in an increasing index list the first index is the smallest |
| Day17.DistinctHalves | day17/src/lib.rs:69-83 | the combinations taking a container differ from one another and from those skipping it |
| Day17.HitsAppend | day17/src/lib.rs:83 | counting matches over two lists of combinations adds up, with and without a size |
| Day17.HitsPrepend | day17/src/lib.rs:71-76 | taking a container lowers the litres to fill by its size and uses one more container |
| Day17.VolumeSign | day17/src/lib.rs:67-87 | with positive sizes the litres of a combination are never negative and are zero only for the empty one |
| Day17.NonPositiveHits | day17/src/lib.rs:77-80 | with nothing left to fill only the empty combination matches, and overfilling matches none |
| Day17.Part1Counts | day17/src/lib.rs:67-87 | with positive sizes, `analyse_part1_step` counts the combinations of the remaining containers holding exactly the litres |
| Day17.EmptyExtra | day17/src/lib.rs:107 | past the last container the step adds nothing |
| Day17.ExtraStep | day17/src/lib.rs:107-123 | the combinations by size split into those taking the container and those skipping it |
| Day17.TalliedGet | day17/src/lib.rs:100-124 | the step adds to the count for each size the number of matching combinations of that many more containers |
| Day17.TalliedKeys | day17/src/lib.rs:116 | the step creates a key exactly where it adds something |
| Day17.SizeSumIsHits | day17/src/lib.rs:89-98 | the counts by size add up to the total count |
| Day17.SizeSumEmpty | day17/src/lib.rs:89-98 | an empty list contributes to no size |
| Day17.SizeSumSplit | day17/src/lib.rs:89-98 | the first combination adds one to the sum of sizes when it matches |
| Day17.SubsetsShort | day17/src/lib.rs:100-124 | no combination uses more containers than there are |
| Day17.Part2CountsMeaning | day17/src/lib.rs:89-124 | with positive sizes, the map holds for each size the number of combinations of that many containers holding 150 litres, has keys only for sizes that occur, and its counts add up to part 1 |
| Day17.Part2Step | day17/src/lib.rs:100-124 | the recursion updates the shared map as the tally function says |
| Day17.SmallestKeyCount | day17/src/lib.rs:93-97 | the count under the smallest key, and none exactly when the map is empty |
| Day17.Solution.Add | day17/src/lib.rs:59-61 | appends one container and keeps both answers |
| Day17.Solution.Analyse | day17/src/lib.rs:44-98 | part 1 counts the ways to hold 150 litres; part 2 is the count for the fewest containers, none when no combination fits |
| Day18.NeighbourBound | day18/src/lib.rs:107-126 | a light has at most eight lit neighbours |
| Day18.LifeRules | day18/src/lib.rs:132-138 | a lit light stays lit exactly with 2 or 3 lit neighbours, a dark one lights exactly with 3, and the result is '#' or '.' |
| Day18.AddAround | day18/src/lib.rs:113-123 | the two offset loops count each of the eight cells around a lit light once more and touch no other count |
| Day18.LitAroundAdd | day18/src/lib.rs:109-124 | scanning one more light adds one to the count of each of its neighbours exactly when it is lit |
| Day18.GenNeigh | day18/src/lib.rs:107-126 | `gen_neigh` gives every position the number of lit lights among its eight neighbours, 0 when none |
| Day18.Step1Keeps | day18/src/lib.rs:128-141 | a step adds and removes no light and keeps every light '#' or '.' |
| Day18.Iterate1Keeps | day18/src/lib.rs:77-79 | any number of part 1 steps keeps every light '#' or '.' |
| Day18.Corners | day18/src/lib.rs:143-148 | turning the corners on keeps a grid of '#' and '.' |
| Day18.Box | day18/src/lib.rs:153-154 | the positions the two loops visit are those from (0, 0) to (maxx, maxy) |
| Day18.Step2Keeps | day18/src/lib.rs:150-183 | after a part 2 step every light is '#' or '.' and the four corners are lit |
| Day18.Iterate2Keeps | day18/src/lib.rs:92-94 | any number of part 2 steps keeps every light '#' or '.', with the corners lit after the first |
| Day18.LitBound | day18/src/lib.rs:80-88 | no more lights are lit than there are lights |
| Day18.LitInAdd | day18/src/lib.rs:81-87 | one more light adds 1 to the count when it is '#' and 0 when it is '.' |
| Day18.CountLit | day18/src/lib.rs:80-103 | the counting loop over the values returns the number of lit lights |
| Day18.UpdateAll | day18/src/lib.rs:130-140 | the `iter_mut` loop sets every light from the counts of the grid before the step, in any order |
| Day18.UpdateRow | day18/src/lib.rs:154-181 | the inner loop updates one row of the box, inserting a missing light as dark and keeping corners lit |
| Day18.Partial2Done | day18/src/lib.rs:153-182 | once all rows are done, every light of the box holds its new value and the lights outside keep theirs |
| Day18.UpdateBox | day18/src/lib.rs:153-182 | the two nested loops give the part 2 step |
| Day18.Solution.Set | day18/src/lib.rs:65-74 | writes the light into both grids and keeps the largest coordinates seen |
| Day18.Solution.Part1Step | day18/src/lib.rs:128-141 | the first grid becomes its simultaneous life step; nothing else changes |
| Day18.Solution.Part2Step | day18/src/lib.rs:150-183 | the second grid becomes its step with the corners stuck on; nothing else changes |
| Day18.Solution.Animate1 | day18/src/lib.rs:77-79 | after the loop the first grid is the part-1 step iterated that many times, still made of '#' and '.'; only the first grid changes |
| Day18.Solution.Animate2 | day18/src/lib.rs:92-94 | after the loop the second grid is the part-2 step iterated that many times, still made of '#' and '.'; only the second grid changes |
| Day18.Solution.AnalysePart1 | day18/src/lib.rs:76-89 | after 100 steps the answer is the number of lit lights |
| Day18.Solution.AnalysePart2 | day18/src/lib.rs:91-104 | after 100 steps with stuck corners the answer is the number of lit lights |
| Day18.Solution.Analyse | day18/src/lib.rs:50-53 | stores the lit counts of both grids after 100 steps |
| Day19.Replace | day19/src/lib.rs:95-104 | replacing a part changes the length by the difference of the two lengths |
| Day19.ReplaceBack | day19/src/lib.rs:95-151 | replacing a part and then its replacement back at the same place restores the molecule |
| Day19.ResultantIsReplace | day19/src/lib.rs:95-104 | both branches of the `format!` build the molecule with the source at `idx` replaced by the target |
| Day19.ResultantsAdd | day19/src/lib.rs:82-109 | a position where the rule does not apply adds no molecule |
| Day19.MatchesAdd | day19/src/lib.rs:84-85 | one more position adds itself to the matches exactly when the rule's source occurs there |
| Day19.ResultantsBound | day19/src/lib.rs:81-110 | there are never more distinct molecules than matches |
| Day19.DistinctAtMostMatches | day19/src/lib.rs:110 | part 1 is at most the number of (start, rule) matches |
| Day19.ResultantMembers | day19/src/lib.rs:82-107 | a molecule is counted exactly when some rule's source occurs at a start before the end and replacing it there gives that molecule |
| Day19.GridStep | day19/src/lib.rs:82-83 | the two nested loops visit each (start, rule) pair once, row by row |
| Day19.DistinctResultants | day19/src/lib.rs:80-111 | the nested loops collect exactly the set of molecules one replacement makes |
| Day19.FirstOccurrenceMeaning | day19/src/lib.rs:144-151 | the first occurrence found is an occurrence with none before it, and there is none exactly when the part never occurs |
| Day19.Chosen | day19/src/lib.rs:136-148 | the rule held after looking at some rules is one of them |
| Day19.ChosenMeaning | day19/src/lib.rs:136-148 | the loop picks a rule exactly when some target occurs in the molecule, and then the one with the longest occurring target, the later of equal ones |
| Day19.SelectRule | day19/src/lib.rs:136-148 | the selection loop computes that choice |
| Day19.ReductionStep | day19/src/lib.rs:128-156 | the recursion follows the reduction: the goal returns the count, a short molecule or no occurring target panics, otherwise the first occurrence of the chosen target becomes its source |
| Day19.StepNeverLengthens | day19/src/lib.rs:16 | with no rule's source longer than its target, a reverse step never lengthens the molecule (also line 151) |
| Day19.StuckWhen | day19/src/lib.rs:133-154 | a molecule other than "e" of at most one element, or one holding no rule's target, panics |
| Day19.ReachedNeverLonger | day19/src/lib.rs:128-156 | when the reduction reaches the goal, the goal is no longer than the starting molecule |
| Day19.ReachedCount | day19/src/lib.rs:130-152 | the answer is the starting count plus one per step, and equals the starting count exactly when the molecule already is the goal |
| Day19.DerivationAppend | day19/src/lib.rs:80-111 | a chain of single replacements extends by one more resultant |
| Day19.ReverseStep | day19/src/lib.rs:151 | the molecule before a reverse step is one forward replacement of the molecule after it |
| Day19.ReachedIsDerivation | day19/src/lib.rs:113-156 | when part 2 answers n, there is a chain of n forward single replacements from "e" to the medicine |
| Day19.Solution.AddReplacement | day19/src/lib.rs:72-74 | appends one rule; everything else stays |
| Day19.Solution.SetMolecule | day19/src/lib.rs:76-78 | sets the medicine; everything else stays |
| Day19.Solution.Analyse | day19/src/lib.rs:55-126 | part 1 is the number of distinct single replacements; part 2 is the reduction to "e", present exactly when it reached "e" |
| Day20.DividesMultiple | day20/src/lib.rs:67 | every multiple of an elf's number is a house that elf visits |
| Day20.DividesStep | day20/src/lib.rs:67 | stepping by the elf's number keeps divisibility |
| Day20.MultiplesApart | day20/src/lib.rs:67 | two houses one elf visits lie at least its number apart |
| Day20.DivSumSaturates | day20/src/lib.rs:66-70 | elves beyond a house leave nothing there, so the elves up to the last house bring σ(h) |
| Day20.DivSumMonotone | day20/src/lib.rs:66-70 | more elves never bring fewer presents |
| Day20.SigmaAtLeast | day20/src/lib.rs:66-70 | 1 and the house itself divide every house beyond the first |
| Day20.LazyAtMost | day20/src/lib.rs:86-90 | the elves that stop after 50 houses bring at most what the tireless ones bring |
| Day20.DividesOne | day20/src/lib.rs:66-67 | elf 1 visits every house |
| Day20.Elf1Done | day20/src/lib.rs:67-69 | once elf i has passed the last house, each house holds ten times its divisor sum up to i |
| Day20.Elf1 | day20/src/lib.rs:67-69 | the inner loop adds 10 × i to exactly the multiples of i up to the limit |
| Day20.Sieve1 | day20/src/lib.rs:64-70 | the nested loops give every house from 1 to target / 10 exactly 10 × σ(h) presents, and nothing else |
| Day20.MulStep | day20/src/lib.rs:87-88 | the next multiple is one elf number further, and the first 50 stay below the 51st |
| Day20.Elf2 | day20/src/lib.rs:87-89 | the inner loop adds 11 × i to the first 50 multiples of i |
| Day20.Elf2Done | day20/src/lib.rs:87-89 | after its 50 deliveries each house holds 11 times the sum of its divisors whose elves still visit it |
| Day20.Sieve2 | day20/src/lib.rs:84-90 | the nested loops give each house 11 × the sum of the divisors d ≤ target / 11 with h ≤ 50·d, and have entries only for such houses |
| Day20.FirstHouse | day20/src/lib.rs:72-100 | the search stops at the first house from 0 up whose presents reach the target, and never stops exactly when none does |
| Day20.LazyBelow | day20/src/lib.rs:86-88 | elf d visits only houses d to 50·d |
| Day20.AnalysePart1 | day20/src/lib.rs:63-81 | part 1 is the first house whose tireless-elf presents reach the target; it loops for ever exactly when none does |
| Day20.AnalysePart2 | day20/src/lib.rs:83-101 | part 2 is the first house whose lazy-elf presents reach the target; it loops for ever exactly when none does |
| Day20.Part1Stops | day20/src/lib.rs:63-81 | from 20 presents on, the last house filled reaches the target, so part 1 stops |
| Day20.Part1Endless | day20/src/lib.rs:63-81 | below 10 presents no house is filled and from 11 to 19 only house 1 with 10, so part 1 never stops |
| Day20.KnownFirstHouse | day20/src/lib.rs:63-81 | houses 1 to 4 get 10, 30, 40 and 70 presents, so the first house with 70 is house 4 |
| Day20.Solution.SetTarget | day20/src/lib.rs:59-61 | stores the target and keeps both answers |
| Day20.Solution.Analyse | day20/src/lib.rs:42-101 | no answers without a target; otherwise the first house of each part, where the source's loops end |
| BossStats.IndexOf | day21/src/lib.rs:62-64 | `split_once(':')` splits at the first ':', and there is none exactly when no ':' occurs |
| BossStats.Lower | day21/src/lib.rs:67 | ASCII lower-casing keeps the length |
| BossStats.ParseU64 | day21/src/lib.rs:65 | a parsed value fits in a `u64` |
| BossStats.AttributeNamed | day21/src/lib.rs:67-72 | "hit points", "damage" and "armor" name the three attributes; any other name is the `unreachable!` case |
| BossStats.KnownBlank | day21/src/lib.rs:58-61 | an empty line changes nothing |
| BossStats.ParseUpdateAt | day21/src/lib.rs:62-65 | a trimmed line with its first ':' at k reads the name before k and the value after it |
| BossStats.ParseAssign | day21/src/lib.rs:62-72 | a line whose name and value parse assigns that value to that attribute |
| BossStats.KnownUpdateArmor | day21/src/lib.rs:57-74 | "Armor: 2" sets the armour to 2 |
| Day21.Hit | day21/src/lib.rs:242-256 | a blow does the damage less the armour, but at least 1 |
| Day21.Blows | day21/src/lib.rs:240-262 | at least one blow is needed to bring down any fighter |
| Day21.BlowsIsLeast | day21/src/lib.rs:240-262 | the number of blows is the least that is enough to bring the hit points to zero |
| Day21.WinsByBlows | day21/src/lib.rs:240-262 | the player, striking first, wins exactly when it needs no more blows than the boss |
| Day21.Fight | day21/src/lib.rs:240-262 | the alternating-blow loop ends and returns whether the boss falls first |
| Day21.Same | day21/src/lib.rs:264-270 | two empty slots are the same, two items are the same exactly when their names are, and an item never matches an empty slot |
| Day21.ShopPrices | day21/src/lib.rs:77-100 | every weapon costs at least 8, every ring at least 20, and the dagger costs 8 with damage 4 |
| Day21.InnerPairsMember | day21/src/lib.rs:107-114 | the inner ring loop yields exactly the second slots of its range that `same` does not skip |
| Day21.RingPairsMember | day21/src/lib.rs:106-114 | the two ring loops yield exactly the pairs whose second slot is in the first one's range and that are not skipped |
| Day21.WithArmour | day21/src/lib.rs:106-151 | one loadout per ring pair, with the given weapon and armour |
| Day21.WithArmourMember | day21/src/lib.rs:105-151 | the loadouts for one armour are exactly those with its weapon, armour and an allowed ring pair |
| Day21.WithWeaponMember | day21/src/lib.rs:105-151 | the loadouts for one weapon are exactly those with it, any armour slot and an allowed ring pair |
| Day21.LoadoutsMember | day21/src/lib.rs:104-154 | the four loops try exactly the combinations of a weapon, an armour slot and an allowed ring pair |
| Day21.CandidatesMember | day21/src/lib.rs:104-154 | one weapon, any armour slot, a second ring only after a first and never the same ring twice; as written, every loadout tried has a first ring |
| Day21.AsWrittenCosts | day21/src/lib.rs:106-114 | as written, every loadout tried has a ring and costs at least 28 (also lines 264-267) |
| Day21.CheapestIsMinimum | day21/src/lib.rs:103-155 | part 1 is the least cost of a winning loadout, present exactly when some loadout wins |
| Day21.DearestIsMaximum | day21/src/lib.rs:185-237 | part 2 is the greatest cost of a losing loadout, present exactly when some loadout loses |
| Day21.NoRingsAsWritten | day21/src/lib.rs:106-114 | as written, part 1 against a boss with 1 hit point and no damage costs at least 28 (also lines 264-267) |
| Day21.CheapestAttained | day21/src/lib.rs:146-150 | a winning loadout no dearer than any other gives the answer |
| Day21.CandidatesCost | day21/src/lib.rs:115 | every loadout costs at least the cheapest weapon |
| Day21.NoRingsCorrected | day21/src/lib.rs:106-114 | corrected, part 1 against that boss is the lone dagger's 8 |
| Day21.Search | day21/src/lib.rs:103-155 | the loop over the loadouts adds up cost and stats item by item and keeps the running minimum over winners or maximum over losers (also lines 185-237) |
| Day21.Solution.UpdateBoss | day21/src/lib.rs:57-74 | blank lines change nothing, a recognised line sets its attribute, and a missing ':' or bad number is an error that keeps the boss |
| Day21.Solution.AnalysePart1 | day21/src/lib.rs:76-156 | the cheapest winning loadout among those the four loops try as written, each of which has a first ring (`same(None, None)` skips the ring-less one) |
| Day21.Solution.AnalysePart2 | day21/src/lib.rs:158-238 | the dearest losing loadout among the loadouts the loops try as written, the ring-less one never among them |
| Day21.Solution.Analyse | day21/src/lib.rs:40-45 | stores both answers of the program as written, over loadouts that all have a first ring, and keeps the boss |
| Day22.Cost | day22/src/lib.rs:330-339 | waiting is free, and every spell costs between 53 and 229 mana |
| Day22.DecrementTimers | day22/src/lib.rs:307-313 | each running timer goes down by exactly one, a zero timer stays, and no timer appears or disappears |
| Day22.Effects | day22/src/lib.rs:306-369 | the effects panic exactly when a timer runs on a spell without an effect or the Shield's armour cannot be taken back; otherwise they tick and act |
| Day22.EffectsKeep | day22/src/lib.rs:306-369 | for a player whose timers run only on effects and whose armour is 7 exactly while the Shield is up, the effects never panic, keep that, and leave the armour at most 7 |
| Day22.DecrementStep | day22/src/lib.rs:307-313 | visiting one more timer decrements it |
| Day22.PendingStep | day22/src/lib.rs:307-315 | one more effect acting, as the loop body does it |
| Day22.PendingStart | day22/src/lib.rs:307 | before the loop nothing has acted |
| Day22.PendingDone | day22/src/lib.rs:306-316 | after the loop every effect has acted |
| Day22.ApplySpells | day22/src/lib.rs:306-316 | the loop over a copy of the timers, in any order the map yields them, has the combined effect |
| Day22.BossTurn | day22/src/lib.rs:243-266 | the boss turn either kills the boss through the effects, keeping the mana spent, or hits the player for at least 1 |
| Day22.Cast | day22/src/lib.rs:169-266 | an unaffordable spell becomes a free wait, a spell whose timer still runs ends the branch, and a cast that goes on costs the player hit points unless it is Drain |
| Day22.Penalised | day22/src/lib.rs:155-161 | in hard mode the player loses one hit point at the start of its turn and is left with at least one (the fatal case is excluded and handled by the round); nothing else changes |
| Day22.Round | day22/src/lib.rs:145-266 | a hard player at 1 hit point dies; a round that goes on spends nothing or the spell's cost, and costs hit points unless Drain was cast |
| Day22.RoundIsCast | day22/src/lib.rs:155-168 | when neither the penalty nor the effects end the fight, the round is the cast |
| Day22.BossTurnKeeps | day22/src/lib.rs:243-266 | the boss turn never panics for a player keeping the invariant, and keeps it |
| Day22.CastIsBossTurn | day22/src/lib.rs:170-248 | a cast that neither ends the branch nor kills the boss at once hands over to the boss turn |
| Day22.PaidKeeps | day22/src/lib.rs:180-233 | paying for a spell whose timer has run keeps the invariant, with armour at most 7, so the `panic!("ffs")` is never reached |
| Day22.CastKeeps | day22/src/lib.rs:169-266 | a cast never panics for a player keeping the invariant, and keeps it |
| Day22.RoundKeeps | day22/src/lib.rs:145-266 | a round never panics for a player keeping the invariant, and keeps it into the next round |
| Day22.PlayBossTurn | day22/src/lib.rs:243-266 | the boss turn, changing the characters in place, is as specified |
| Day22.PlayCast | day22/src/lib.rs:169-233 | the cast, changing the characters in place, is as specified |
| Day22.PlayRound | day22/src/lib.rs:145-266 | the round, changing the characters in place, is as specified |
| Day22.Keep | day22/src/lib.rs:116-119 | keeping the lower of the best cost and a new one: a missing new one changes nothing (also lines 276-279) |
| Day22.RoundProgress | day22/src/lib.rs:145-266 | every round that goes on pays mana or loses hit points, so the search ends |
| Day22.Pass | day22/src/lib.rs:125-291 | the cache never rises, and every cost found is at least the mana already used |
| Day22.PassFrom | day22/src/lib.rs:245-291 | after the round the cache never rises and every cost found is at least the mana used |
| Day22.Explore | day22/src/lib.rs:267-281 | the loop over the spells never raises the cache and finds no cost below the mana used |
| Day22.ReplayStep | day22/src/lib.rs:125-291 | a fight played with a list of spells is its first round, then the rest |
| Day22.PassSound | day22/src/lib.rs:125-291 | every cost `fight_pass` returns is what some sequence of casts starting with its spell costs |
| Day22.PassFromSound | day22/src/lib.rs:245-291 | every cost found after a round is what some continuation costs |
| Day22.ExploreSound | day22/src/lib.rs:267-281 | every new best from the spell loop is the cost of a fight starting with one of the spells |
| Day22.FightSound | day22/src/lib.rs:105-123 | the answer of `fight` is the mana of a real win |
| Day22.ExploreKeeps | day22/src/lib.rs:111-121 | the `Some(bc) if bc < cost` update never lets the best of the spell loop rise |
| Day22.PassCache | day22/src/lib.rs:125-291 | when a pass leaves the cache below what it was given, its own result is a win no dearer than the new cache |
| Day22.PassFromCache | day22/src/lib.rs:282-288 | the same after the round: the cache only falls to the best win that is also returned |
| Day22.ExploreCache | day22/src/lib.rs:267-281 | over the spell loop the cache only falls to a cost the loop's own best matches or beats |
| Day22.PassOptimal | day22/src/lib.rs:131-144 | a win whose total is at most the cache is never cut by the `mana_used > best` test, and the pass returns it or a cheaper one |
| Day22.PassFromOptimal | day22/src/lib.rs:245-291 | after the round, a continuation winning within the cache is matched or beaten |
| Day22.ExploreOptimal | day22/src/lib.rs:267-281 | the spell loop matches or beats a win starting with one of its spells, even when earlier branches lowered the cache |
| Day22.FightOptimal | day22/src/lib.rs:105-123 | no fight won for at most 1400 mana costs less than the answer of `fight` |
| Day22.FightIsCheapest | day22/src/lib.rs:105-123 | once some fight of at most 1400 mana is won, the answer is the cost of a real win and no win of any cost is cheaper |
| Day22.ReplayCost | day22/src/lib.rs:169-181 | a fight costs at most the sum of its spells' costs, since an unaffordable spell is a free wait |
| Day22.KnownFirstRound | day22/src/lib.rs:145-266 | in the example the first round casts Poison for 173 mana, Poison ticks once and the boss hits for 8, leaving the player 2 hit points and 77 mana |
| Day22.KnownSecondRound | day22/src/lib.rs:145-266 | in the second round Poison ticks, Magic Missile hits for 4 and Poison finishes the boss in its turn, for 53 mana |
| Day22.ReplayTwo | day22/src/lib.rs:125-291 | a two-round fight ending in a kill costs what its rounds cost |
| Day22.KnownFight | day22/src/lib.rs:125-291 | Poison then Magic Missile win the example fight for 226 mana |
| Day22.FightPass | day22/src/lib.rs:125-291 | `fight_pass`, with the shared best-known cost, returns and updates the cache as the search says |
| Day22.FinishPass | day22/src/lib.rs:245-291 | the rest of `fight_pass` after its round |
| Day22.ExploreAll | day22/src/lib.rs:267-281 | the loop over every spell but `None`, the cache passed from one branch to the next |
| Day22.Fight | day22/src/lib.rs:105-123 | the cache starts at 1400, every first spell is tried, and the result is the search `FightSpec`, which `FightSound` and `FightOptimal` show to be the cheapest win |
| Day22.Solution.UpdateBoss | day22/src/lib.rs:66-83 | blank lines change nothing, a recognised line sets its attribute, and a missing ':' or bad number is an error that keeps the boss |
| Day22.Solution.Analyse | day22/src/lib.rs:49-103 | part 1 fights with 50 hit points and 500 mana, part 2 the same in hard mode |
| Day23.JumpTarget | day23/src/lib.rs:99-106 | a taken jump lands on `index + delta` or, when that is off either end, on the program's length |
| Day23.TakeJump | day23/src/lib.rs:99-106 | a taken jump panics exactly when `(ip + 1) + delta` reaches 2^63 and overflows `i64`; otherwise the pointer moves to the jump's target |
| Day23.JumpTargetInRange | day23/src/lib.rs:100-105 | the landing point never exceeds the length, and it is `index + delta` exactly when that lies in `[0, len]` |
| Day23.StepSpec | day23/src/lib.rs:79-146 | hlf, tpl and inc change only their own register (halve, triple, add one) and advance by one; jumps change no register; jie jumps exactly on an even register and jio exactly on a register equal to 1, otherwise they fall through; a jump taken without a panic did not overflow `i64` |
| Day23.ExecMonotone | day23/src/lib.rs:77-149 | more steps do not change a run that has halted |
| Day23.ExecDeterministic | day23/src/lib.rs:77-149 | every halting run from a state ends in the same state |
| Day23.HaltsAtEnd | day23/src/lib.rs:77-105 | a run that starts inside the program halts with the pointer exactly at its length |
| Day23.RunProgram | day23/src/lib.rs:72-151 | the loop returns the registers of the halted run, whose pointer is the length (or the starting pointer when that was already past the end) |
| Day23.WordsFromClean | day23/src/lib.rs:177-180 | no word of the split is empty or holds a space or comma |
| Day23.WordsClean | day23/src/lib.rs:177-180 | the same for a whole line |
| Day23.ParseI64 | day23/src/lib.rs:211 | an accepted offset lies in the range of `i64` |
| Day23.ParseI64Decimal | day23/src/lib.rs:211 | a number's own digits parse back to it, with `+`, and negated with `-` |
| Day23.ParseSigned | day23/src/lib.rs:211 | a sign followed by digits parses to the signed number |
| Day23.ParseParams | day23/src/lib.rs:182-188 | a successful parse has one operand per word |
| Day23.KnownWordsShort | day23/src/lib.rs:177-180 | "inc a" splits into its two words |
| Day23.KnownWordsComma | day23/src/lib.rs:177-180 | "jio a, +19" splits into three words, the comma dropped |
| Day23.KnownOffset | day23/src/lib.rs:206-213 | "+19" is the offset 19 and "a" the register a |
| Day23.KnownParams | day23/src/lib.rs:182-188 | the operands of "jio a, +19" are register a and offset 19 |
| Day23.KnownInstructions | day23/src/lib.rs:174-200 | "inc a" and "jio a, +19" parse to the corresponding instructions |
| Day23.KnownRun | day23/src/lib.rs:72-151 | the puzzle's example program halts after four steps with 2 in register a |
| Day23.KnownJumpOverflow | day23/src/lib.rs:99-106 | `jmp` by the largest `i64` offset panics on the overflow, while one less lands past the end and halts |
| Day23.Solution.AddInstruction | day23/src/lib.rs:41-43 | appends one instruction and leaves the answers alone |
| Day23.Solution.AnalysePart1 | day23/src/lib.rs:62-65 | the answer is register b after the run from a = 0, b = 0 |
| Day23.Solution.AnalysePart2 | day23/src/lib.rs:67-70 | the answer is register b after the run from a = 1, b = 0 |
| Day23.Solution.Analyse | day23/src/lib.rs:45-50 | stores both answers and keeps the program |
| Day24.SumRemove | day24/src/lib.rs:95-120 | the sum of a set of weights is any member plus the sum of the rest |
| Day24.ProductRemove | day24/src/lib.rs:97 | the entanglement of a set is any member times the entanglement of the rest |
| Day24.SumOf | day24/src/lib.rs:95 | the loop adds up exactly the held weights |
| Day24.ProductOf | day24/src/lib.rs:97 | the loop multiplies exactly the held weights |
| Day24.Shrinks | day24/src/lib.rs:115-119 | holding one more unheld listed weight leaves strictly fewer weights to try, so the recursion ends |
| Day24.AnyFitsMeaning | day24/src/lib.rs:140-156 | the loop of `can_find` succeeds exactly when some later package fits, is not held, and leads to success |
| Day24.AnyFitsWitness | day24/src/lib.rs:140-156 | a success of the loop names the package it went through |
| Day24.CanFindWitness | day24/src/lib.rs:135-157 | a success names a set of listed, unheld weights adding up to `remaining` |
| Day24.CanFindFrom | day24/src/lib.rs:135-157 | any set of listed, unheld weights adding up to `remaining` makes `can_find` succeed |
| Day24.CanFindMeaning | day24/src/lib.rs:135-157 | `can_find` succeeds exactly when such a set exists |
| Day24.CanFindGroup | day24/src/lib.rs:135-157 | the loop with early return computes `can_find` |
| Day24.UpdateMeaning | day24/src/lib.rs:123-129 | the update keeps the preferred of the old best and the new group (fewer packages, then smaller entanglement), the old one on a tie |
| Day24.FindGroup | day24/src/lib.rs:86-133 | the method computes the recursive search `find` |
| Day24.SearchLoop | day24/src/lib.rs:103-132 | the `for` loop, with its `continue`s and `break`, computes the search from `start` |
| Day24.SumAdd | day24/src/lib.rs:118-121 | adding an unheld weight adds it to the sum |
| Day24.FoundFromWiden | day24/src/lib.rs:118-123 | a group grown after the package at `idx` is grown from the earlier start too |
| Day24.FindSound | day24/src/lib.rs:94-102 | a search returns nothing, the best it was given, or the score of an accepted group (second group of the same weight found among the rest) grown from the held packages |
| Day24.SearchSound | day24/src/lib.rs:103-132 | the loop keeps that soundness over every package it takes |
| Day24.SoundStep | day24/src/lib.rs:112-130 | one package taken keeps the result sound and shrinks what is left to try |
| Day24.SearchNoWorse | day24/src/lib.rs:107-132 | once there is a best group, the loop never ends with a worse one |
| Day24.PositiveSum | day24/src/lib.rs:94 | with positive weights, a non-empty group has a positive sum |
| Day24.FindOptimal | day24/src/lib.rs:86-133 | with positive weights, a search that can still reach an accepted group ends with one at least as good, despite the `break` |
| Day24.SearchOptimal | day24/src/lib.rs:103-132 | the same for the loop from a given package |
| Day24.SkipOptimal | day24/src/lib.rs:112-129 | passing a package outside the target group keeps the group within reach |
| Day24.TakeOptimal | day24/src/lib.rs:118-129 | taking a package of the target group finds one at least as good |
| Day24.ListedLater | day24/src/lib.rs:103-106 | weights still to add, none at `idx`, are listed after `idx` |
| Day24.BestGroup | day24/src/lib.rs:71-133 | the search from scratch finds an accepted group exactly when one exists, and none is better than the one it finds |
| Day24.Insert | day24/src/lib.rs:66 | inserting keeps every element and adds one |
| Day24.SortDescending | day24/src/lib.rs:66 | the sorted list is a permutation of the input |
| Day24.InsertAtMost | day24/src/lib.rs:66 | inserting a weight below a bound keeps every element below it |
| Day24.InsertDescending | day24/src/lib.rs:66 | inserting into a heaviest-first list keeps it heaviest first |
| Day24.ConsDescending | day24/src/lib.rs:66 | a head no lighter than the rest extends a heaviest-first list |
| Day24.SortDescendingSorted | day24/src/lib.rs:66 | the sorted list is heaviest first and holds the same packages |
| Day24.GroupWeight | day24/src/lib.rs:67-80 | the group weight is the total divided by the number of groups, rounded down |
| Day24.ValuesOfPermutation | day24/src/lib.rs:65-66 | reordering the packages keeps the set of weights |
| Day24.CanFindSameValues | day24/src/lib.rs:135-157 | `can_find` depends only on the set of weights, not their order |
| Day24.AnswerIsBest | day24/src/lib.rs:64-84 | with positive weights, each part's answer is the entanglement of a best accepted group of a third or a quarter of the total, none when there is none, and the input order does not matter |
| Day24.TotalInsert | day24/src/lib.rs:67 | inserting a weight adds it to the total |
| Day24.TotalSorted | day24/src/lib.rs:66-67 | sorting keeps the total |
| Day24.Solution.AddPackage | day24/src/lib.rs:43-45 | appends one weight and leaves the answers alone |
| Day24.Solution.AnalysePart | day24/src/lib.rs:64-84 | the answer of either part for three or four groups |
| Day24.Solution.Analyse | day24/src/lib.rs:47-52 | stores the answers for three and four groups and keeps the packages |
| Day25.Next | day25/src/lib.rs:70-77 | the walk never leaves the grid |
| Day25.TriClosedForm | day25/src/lib.rs:70-77 | the number of cells on the first `k` diagonals is `k(k+1)/2` |
| Day25.IndexClosedForm | day25/src/lib.rs:60-78 | the walk reaches (r, c) after (r+c-2)(r+c-1)/2 + c - 1 steps |
| Day25.NextIndex | day25/src/lib.rs:70-77 | each step of the walk advances the index by one; r + c stays within a diagonal and grows by one at each wrap |
| Day25.TriMonotone | day25/src/lib.rs:70-77 | later diagonals start later |
| Day25.IndexInjective | day25/src/lib.rs:60-78 | distinct cells are reached after distinct numbers of steps, so the walk visits each cell once |
| Day25.CodeBounded | day25/src/lib.rs:68-69 | every code is below 33554393, so `code * 252533` cannot overflow a `u64` |
| Day25.Solution.AnalysePart1 | day25/src/lib.rs:59-79 | the loop stops at (row, column) with the code obtained after the closed-form number of steps, below the modulus |
| Day25.Solution.Analyse | day25/src/lib.rs:42-83 | part 1 is that code and part 2 is always none |
| Day25.KnownCodes | day25/src/lib.rs:62-69 | the first codes of the grid are 20151125, 31916031 and 18749137 |
| Cyk.Split | cyk/src/lib.rs:82-91 | the tokens are non-empty and concatenate back to the input |
| Cyk.SplitIsTokenization | cyk/src/lib.rs:82-91 | `split` cuts the string exactly before each uppercase letter: uppercase letters only open tokens, and every token but the first opens with one |
| Cyk.BeheadConcat | cyk/src/lib.rs:82-91 | dropping the first character of the first token drops the first character of the concatenation |
| Cyk.ConcatCons | cyk/src/lib.rs:82-91 | the concatenation of a token list is its first token followed by the rest |
| Cyk.BeheadTokenization | cyk/src/lib.rs:82-91 | a cut of a string without its first character is a cut of the rest, opening with an uppercase letter exactly when the first token had one character |
| Cyk.SplitUnique | cyk/src/lib.rs:82-91 | that cut is unique, so it characterises `split` |
| Cyk.KnownSplitsShort | cyk/src/lib.rs:82-91 | the empty string has no tokens and "e" is one token |
| Cyk.KnownSplitHOH | cyk/src/lib.rs:82-91 | "HOH" splits into "H", "O", "H" |
| Cyk.KnownSplitCaRn | cyk/src/lib.rs:82-91 | "CaRn" splits into "Ca", "Rn" |
| Cyk.IndexNonterminals | cyk/src/lib.rs:97-105 | each rule source gets a distinct number below the number of sources |
| Cyk.BaseLayer | cyk/src/lib.rs:109-116 | the marked cells P[1, s, v] are exactly those where some rule with source number `v` has the single token `words[s]` as target |
| Cyk.Solution.AddRule | cyk/src/lib.rs:74-76 | appends the rule to the raw grammar |
| Cyk.Solution.SetInput | cyk/src/lib.rs:78-80 | replaces the input and leaves the answers alone |
| Cyk.Solution.AnalysePart1 | cyk/src/lib.rs:93-119 | the answer is none; the nonterminal index is dense over the sources of the converted grammar and the base cells are those of the split input |
| Cyk.Solution.Analyse | cyk/src/lib.rs:57-123 | both answers are none |
| CykGrammar.CnfRulesAppend | cyk/src/grammar/mod.rs:45-56 | the conversion of a concatenation of rule lists is the concatenation of their conversions, so each rule is kept or dropped on its own |
| CykGrammar.CnfRulesSound | cyk/src/grammar/mod.rs:45-56 | every converted rule has a target of one or two tokens and is the split of a raw rule with the same source |
| CykGrammar.CnfRulesComplete | cyk/src/grammar/mod.rs:46-48 | every raw rule whose split target has one or two tokens is kept |
| CykGrammar.CnfRulesLength | cyk/src/grammar/mod.rs:45-56 | the conversion never yields more rules than it was given |
| CykGrammar.CnfGrammar.AddRule | cyk/src/grammar/mod.rs:75-77 | appends a copy of the rule |
| CykGrammar.Grammar.AddRule | cyk/src/grammar/mod.rs:20-22 | appends a copy of the rule and keeps the earlier ones |
| CykGrammar.Grammar.ConvertToCnf | cyk/src/grammar/mod.rs:24-58 | returns a new grammar holding, in order, the converted rules, and leaves the raw grammar unchanged |

## Left out

- File reading (`load`), the `main.rs` binaries, logging and colouring: every `Solution` takes parsed records through its `add_*`/`set_*` methods.
- The regex-based `FromStr` parsers (d2p2's presents, day6's and day7's instruction lines, day9, day13, day14, day15, day16, day19, day25, and the grammar rules of the CYK crate): the model starts from the records they produce. The hand-written parsers are modelled (day6 modes, day7 signals, day23 instructions, d3p2 directions, the boss attributes of day21 and day22).
- d4p1 and d4p2: they search over the MD5 digests of the foreign `md5` crate.
- day12: it sums `f64` values inside a `serde_json::Value`; a foreign library and floating point.
- The full CYK recogniser (spans of two or more tokens, derivation counting): the crate stops after the length-1 base layer, which it only logs; the model returns the marked cells instead.
- The `Rule` trait of the CYK grammar: only its one implementation `SimpleRule` is modelled, as a datatype.
- The order of `HashMap`/`HashSet` iteration: the CYK nonterminal numbers are proved dense and distinct but not fixed; day9 and day13 results are proved whatever the order of locations or guests; day16 is proved for any listing of the reading.
- Day13.Solution.Analyse: the starting guest comes from the set's iteration order; the model proves the result is the best circle through some guest, not that it is the same for every start (rotation).
- day22's global `GLOBAL_BEST_KNOWN` mutex: a global cache, not real concurrency; it is the `BestKnown` object shared by the calls.
- The day6 test module, which names a type that does not exist in that crate, and the commented-out day9 test: not restated as lemmas.
- Day5 and Day8 test vectors are stated separately, one string per lemma.
- Day7.Solution.Analyse: the passes repeat until wire a is set, which may never happen; the model requires that some number of passes settles it.
- Day23.Solution.Analyse: a program may loop for ever or panic; the model requires that it halts (`Halts`), which also excludes a run that overflows a `u64` register, overflows the `i64` pointer sum of a taken jump (`TakeJump`), or reaches an instruction that is not well formed (the `unreachable!`); `Exec` runs on a step bound and reports those panics as `Panicked`.
- Day19.Solution.Analyse: the greedy reduction may cycle with rules of equal length; it runs on a step bound (`fuel`) whose exhaustion is its own outcome, and panics of the source are the `Stuck` outcome.
- Day19: molecules are sequences of a generic element type and are sliced by element, where the source slices UTF-8 bytes; the two agree on ASCII input.
- Day14.Distance: the loop never ends when flight and rest times are both 0; the model requires it to terminate (`Terminates`).
- Day14.Solution.AnalysePart2: a reindeer with a flight or rest time of 0 makes the `u64` countdown underflow; the model requires positive times (`PhasesPositive`).
- Day20.Solution.Analyse: the search loops for ever when no filled house reaches the target; the model requires one that does (`Reaches1`, `Reaches2`).
- Day11.NextPassword: requires 8 lowercase letters, the input the source assumes; a longer string or another character (which `from_u32` would step past 'z') is not modelled.
- Day13.Solution.Analyse: requires at least one guest; the source unwraps the first one.
- Day25.Solution.AnalysePart1: requires a row and a column of at least 1; the source's walk starts at (1, 1) and never reaches row 0 or column 0, so for those it loops for ever, a defect of the source the precondition excludes.
- Day22.Fight: optimality (`FightOptimal`) covers wins of at most 1400 mana, the cache `fight` starts from; when no such win exists the answer is still a real win (`FightSound`) but may not be the cheapest.
- Day15.Solution.Analyse: requires at least one ingredient, because of `len() - 1`.
- Day15: the ingredient names joined by `add_assign` and `mul` are kept as a symbolic label with its rendering, not as concatenated strings.
- Day17: the meaning lemmas (`Part1Counts`, `Part2CountsMeaning`) need positive container sizes and a positive target; a container of size 0 is counted by the steps but not covered by those lemmas.
- Day24: a group is accepted when one more group of the same weight exists among the rest, as in the source; whether the remaining packages split into two or three groups is not checked by the source and not claimed by the model. Weights must be positive for the optimality lemmas, and duplicate weights collapse as in the source's `HashSet`.
- Day24.SortDescending: `sort_by` is modelled as an insertion sort on values with the same result; the in-place Rust sort is not.
- D2p2.Solution.Analyse: requires that no `i32` intermediate overflows and that the total fits an `i64`, where Rust would panic.
- D1p1, D1p2, D3p2, Day6, Day8, Day9, Day10, Day13, Day14, Day15, Day17, Day20, Day21, Day22, Day24 fixed-width arithmetic: sums, counts and products are unbounded integers; an overflow the source would panic on is not modelled. This covers d1p1's `i32` floor sum and d1p2's `i32` running floor, d3p2's `i32` walker coordinates and visit counts, day6's `i64` brightness values and totals, day8's `i64` code, memory and encoded totals, day9's `i64` route sums, day10's `i32` run counts, day13's `i64` happiness sums, day15's `i64` scaled amounts and the product of its four totals, and the `u64` arithmetic of day14, day17, day20, day21, day22 and day24. The `usize` to `i64` casts of the answers (day5, day10) are taken as exact. D2p2's `i32` products and `i64` total are preconditions, and day7's shifts, day23's registers and jump targets (as `Panicked`, which `Halts` excludes from the answers), day25's codes and the boss attributes are bounded as in the source.
- Day7.ParseSignal: accepts ASCII digits only, where Rust's `char::is_numeric` also accepts other Unicode numerals.
- D3p2: `load` keeps the trailing newline of the line it reads, which would reach `unreachable!`; the model takes the parsed moves.
- Day21.Solution.UpdateBoss and Day22.Solution.UpdateBoss: require a known attribute name; any other reaches `unreachable!`.
- Cyk.IsUpper: uppercase is ASCII 'A' to 'Z', where `char::is_uppercase` also accepts other Unicode uppercase letters.
- Common.IsWhitespace: whitespace is ' ', '\t', '\n' and '\r' only, where `trim` and `split_whitespace` (day21, day22, day23) strip every Unicode White_Space character, including '\x0B', '\x0C', U+0085, U+00A0 and U+2028.
- BossStats.Lower: lower-casing maps ASCII 'A' to 'Z' only and keeps the length, where `to_lowercase` also lowers other Unicode letters and can change the length (for 'İ').
- D1p2.Solution.Analyse: requires that every character the walk reads is a parenthesis (`ReadsOnlyParens`); a character reached before the first basement is the `unreachable!()` panic. Characters after the first basement, such as the newline `load` keeps, are allowed.
- Day18.Solution.Analyse, AnalysePart1, AnalysePart2, Part1Step, Part2Step, Animate1 and Animate2: require `IsGrid`, every light '#' or '.'; any other character reaches the `unreachable!` of the two steps and of the counting loops (day18/src/lib.rs:85, 100, 137, 178).
- Day9.Solution.Analyse, AnalysePart1 and AnalysePart2: require `EveryStartMoves`, the `unwrap` in `analyse_part1` and `analyse_part2`; `NoLoopsMove` shows it holds for paths stored in both directions, as `add_path` stores them, when no line joins a location to itself.

## Findings

| source | as written | input that shows it | evidently intended | confidence | as-written member | corrected member |
|---|---|---|---|---|---|---|
| day21/src/lib.rs:106-114, 188-196, 264-270 | `same(None, None)` is true, so the loadout with no rings (second ring `None` after first ring `None`) is skipped and never fought | boss with 1 hit point, 0 damage, 0 armour: as written the cheapest win costs at least 28 (a dagger and the cheapest ring) | the lone dagger, costing 8, wins and is the answer | not executed | Day21.NoRingsAsWritten | Day21.NoRingsCorrected |
