# Advent of Code solvers, modelled in Dafny

This project models the puzzle solvers of an Advent of Code repository written in Rust. There are fifteen of them under `src/bin/`: four from 2015 and ten from 2020. Each solver reads the lines of its puzzle input and computes a number or a yes/no answer.
- 2015 solvers:
  - floor counting over parentheses;
  - paper and ribbon for boxes;
  - a delivery walk with several movers;
  - "nice" strings;
  - a grid of lights.
- 2020 solvers:
  - two-sum and three-sum over an expense report;
  - password policies;
  - trees on a toroidal slope;
  - passport validation;
  - binary boarding passes;
  - customs answers;
  - bag containment;
  - a three-instruction console;
  - a sliding-window cipher;
  - an adapter chain.

Each solver file is one Dafny module. Four helper modules hold what the solvers take from the Rust standard library:
- `Wrappers`: `Option`.
- `Text`: `split`, `lines` and `trim` on strings.
- `Numbers`: `parse` of decimal `u32` and `i32`.
- `Sorting`: an ascending sort, with the permutation proved.

The model keeps the form of the code:
- Loops that update variables, sets and maps are methods with loop invariants. Each method is proved against a function or predicate that states the result.
- The light grid is an `array2` that the two commands update in place.
- Pure helpers are functions, and the facts about them are lemmas.
- Integers are unbounded.
- A panic is either a precondition or a `None` result:
  - a panic on bad data deep inside a loop, such as an `unwrap` on an index or a `usize` subtraction that underflows, is a precondition;
  - a panic because a search found nothing is a `None` result.
- The unit tests in each file are lemmas or methods whose assertions restate the expected values against the contracts.

Where the tests and the code disagree, the model follows the code:
- The unit test at src/bin/2020-02.rs:134-136 expects "3-12 v: zbvlbpxcrnvvwjpwl" to fail the count policy. The password holds 'v' three times, so `validate_letter_count` accepts it. `Passwords.LetterCountThreeExample` proves the acceptance.
- An empty list of adapters has no meaningful answer. `fix_input` turns it into [0, 3], and `Adapters.FixInput` does the same.

## Model

| member | source | states |
|---|---|---|
| Floors.DecodeParen | src/bin/2015-01.rs:20-26 | '(' gives +1 and ')' gives -1; any other character is an error |
| Floors.ProcessFloors | src/bin/2015-01.rs:29-31 | defined exactly when every character is a parenthesis, and then the floor is the number of '(' minus the number of ')' |
| Floors.Floor | src/bin/2015-01.rs:29-31 | the floor after n instructions is at most n floors from the ground, and it is even exactly when n is |
| Floors.FloorCounts | src/bin/2015-01.rs:29-31 | the running floor of an all-parenthesis text is its count of '(' minus its count of ')' |
| Floors.FloorAppend | src/bin/2015-01.rs:29-31 | the floor of two texts one after the other is the sum of their floors |
| Floors.StopsBeforeFloor | src/bin/2015-01.rs:38-55 | returns the first 1-based position whose prefix reaches the desired floor, no earlier position reaches it, and none is returned when no prefix reaches it or a non-parenthesis comes first |
| Floors.FloorExamples | src/bin/2015-01.rs:62-74 | the unit tests: '(' and ')' decode to 1 and -1, "((()" ends on floor 2 and "))" on floor -2 |
| Floors.FloorsOfExample | src/bin/2015-01.rs:81-82 | "()())" first reaches floor -1 at position 5 |
| Floors.FloorsOfUpwardExample | src/bin/2015-01.rs:84-85 | "()()(()" first reaches floor 2 at position 6 |
| Packages.WrappingPaper | src/bin/2015-02.rs:24-41 | the paper is twice every side's area plus a slack equal to one of the sides and no larger than any of them, and never negative for a box without negative dimensions |
| Packages.Ribbon | src/bin/2015-02.rs:44-54 | the ribbon is twice the sum of the two shortest edges plus the volume, and never negative for a box without negative dimensions |
| Packages.RibbonPermutation | src/bin/2015-02.rs:44-54 | the ribbon depends only on the multiset of the three dimensions |
| Packages.WrappingPaperRotation | src/bin/2015-02.rs:24-41 | the paper is the same after rotating or swapping the box's dimensions |
| Packages.TotalWrappingPaper | src/bin/2015-02.rs:75-78 | the total paper is never negative when no box has a negative dimension |
| Packages.TotalRibbon | src/bin/2015-02.rs:80-83 | the total ribbon is never negative when no box has a negative dimension |
| Packages.TotalsAppend | src/bin/2015-02.rs:76-83 | both totals are additive over concatenated package lists |
| Packages.TotalsSingle | src/bin/2015-02.rs:76-83 | the totals of one package are its paper and its ribbon |
| Packages.SampleTotals | src/bin/2015-02.rs:76-83 | the totals of two packages are the sums of their paper and of their ribbon |
| Packages.PackageExamples | src/bin/2015-02.rs:127-162 | the unit tests: 2x3x4 needs 58 paper and 34 ribbon, 1x1x10 needs 43 and 14, together 101 and 48 |
| Packages.DecodePackage | src/bin/2015-02.rs:91-110 | a line decodes exactly when it splits on 'x' into three pieces that each parse as an `i32`, and the package then holds those three numbers in order |
| Packages.DecodeEncode | src/bin/2015-02.rs:91-110 | decoding the "LxWxH" spelling of a package with `i32` dimensions gives the package back |
| Packages.DecodeAllPackages | src/bin/2015-02.rs:71-73 | the input decodes exactly when every line does, into one package per line in order |
| Packages.DecodeLines | src/bin/2015-02.rs:71-73 | a list of lines decodes exactly when every line does, into one package per line in order |
| Packages.Collect | src/bin/2015-02.rs:71-73 | collecting decoded lines gives every value in order when all are present, and nothing when one is missing |
| Packages.DecodeAllEncode | src/bin/2015-02.rs:71-73 | decoding the text of a package list, one package per line, gives the list back |
| Packages.DecodeExample | src/bin/2015-02.rs:141-144 | the unit test: "1x2x3" decodes to 1, 2, 3 |
| Packages.DecodeAllExample | src/bin/2015-02.rs:117-124 | the unit test: "2x3x4\n1x1x10\n" decodes to the two packages |
| Deliveries.Add | src/bin/2015-03.rs:9-13 | `+=` moves a point by the other point's offsets on both axes |
| Deliveries.AddProperties | src/bin/2015-03.rs:9-13 | adding points is commutative and associative with the origin as identity |
| Deliveries.FromChar | src/bin/2015-03.rs:36-44 | exactly '^', 'v', '>' and '<' decode, each to the direction spelled by that character |
| Deliveries.FromToChar | src/bin/2015-03.rs:36-44 | every direction decodes back from its character |
| Deliveries.Movement | src/bin/2015-03.rs:48-55 | every movement is one step along exactly one axis |
| Deliveries.MovementAxes | src/bin/2015-03.rs:48-55 | north is up (negative y), south down, east right, west left, and different directions move differently |
| Deliveries.OppositesCancel | src/bin/2015-03.rs:48-55 | opposite directions cancel |
| Deliveries.DecodeDirections | src/bin/2015-03.rs:72-74 | the input decodes exactly when every character is a direction, one direction per character |
| Deliveries.DecodeEncode | src/bin/2015-03.rs:72-74 | decoding the spelling of a direction list gives it back |
| Deliveries.TurnIsMod | src/bin/2015-03.rs:89 | the mover taking step k is k modulo the number of movers |
| Deliveries.FindUniqueLocations | src/bin/2015-03.rs:78-98 | the set holds the origin and every point a mover stands on after its move, with the movers taking turns |
| Deliveries.NextPositions | src/bin/2015-03.rs:88-93 | each step moves only the mover whose turn it is, by the step's movement |
| Deliveries.OtherTurnsStill | src/bin/2015-03.rs:88-93 | a mover not on turn stays where it is |
| Deliveries.VisitedBounds | src/bin/2015-03.rs:79-93 | the origin is always visited and k steps visit at most k + 1 points |
| Deliveries.VisitedMeans | src/bin/2015-03.rs:79-93 | a point is visited exactly when it is the origin or where the moving mover lands on some step |
| Deliveries.SingleMover | src/bin/2015-03.rs:88-93 | with one mover, its position is the plain walk of the directions so far |
| Deliveries.DecodeExamples | src/bin/2015-03.rs:105-135 | the unit tests: (0,1) + (1,1) = (1,2), '>' is east, "><^v" decodes to east, west, north, south |
| Deliveries.EastWalk | src/bin/2015-03.rs:141-145 | the unit test case ">" with one mover visits 2 houses |
| NiceStrings.IsNice1 | src/bin/2015-05.rs:23-27 | nice exactly when the string has at least three vowels, no window "ab", "cd", "pq" or "xy", and a letter doubled at some position; a nice string has at least three characters |
| NiceStrings.ContainsNVowels | src/bin/2015-05.rs:35-38 | finding n vowels needs at least n characters, and zero vowels are always found |
| NiceStrings.CountVowels | src/bin/2015-05.rs:36-38 | the vowel count is at most the length of the string |
| NiceStrings.CountVowelsOccurrences | src/bin/2015-05.rs:36-38 | the count is the number of a, e, i, o and u in the string, whatever their order |
| NiceStrings.ContainsMeans | src/bin/2015-05.rs:41-43 | `contains` holds exactly when the word occurs at some position of the string |
| NiceStrings.Blocklisted | src/bin/2015-05.rs:40-43 | a string is blocklisted exactly when one of its two-letter windows is "ab", "cd", "pq" or "xy" |
| NiceStrings.ContainsRepeating | src/bin/2015-05.rs:45-54 | holds exactly when some character equals the one `above` positions after it |
| NiceStrings.PairPositionsMeans | src/bin/2015-05.rs:63-67 | the positions recorded for a pair are exactly the (i, i + 1) where that pair starts, and nothing else |
| NiceStrings.RecordPairs | src/bin/2015-05.rs:59-67 | the map records, for every pair present, the positions of all its occurrences in order, and holds every pair of the string |
| NiceStrings.HasDisjoint | src/bin/2015-05.rs:85-92 | finds two recorded occurrences exactly when one ends before the other begins |
| NiceStrings.SearchPairs | src/bin/2015-05.rs:73-96 | true exactly when some pair's recorded positions hold two that do not overlap |
| NiceStrings.Pairs | src/bin/2015-05.rs:57-97 | true exactly when some two-letter pair occurs twice without overlapping; the source needs a non-empty string |
| NiceStrings.NoDisjointNoRepeat | src/bin/2015-05.rs:73-96 | when no recorded pair has two disjoint occurrences, no pair repeats without overlap |
| NiceStrings.PositionsGiveRepeat | src/bin/2015-05.rs:85-91 | two disjoint recorded positions of one pair are a repeated pair |
| NiceStrings.IsNice2 | src/bin/2015-05.rs:31-33 | nice exactly when a pair repeats without overlap and a letter repeats two positions on |
| NiceStrings.VowelExamples | src/bin/2015-05.rs:104-115 | the unit tests: "aeiou" and "ugknbfddgicrmopn" have three vowels, "bcdfg" has not |
| NiceStrings.BlocklistExamples | src/bin/2015-05.rs:118-129 | the unit tests: "abcdefg" is blocklisted, "asdf" and "ugknbfddgicrmopn" are not |
| NiceStrings.RepeatExamples | src/bin/2015-05.rs:132-146 | the unit tests of `contains_repeating` at distances 1 and 2 |
| NiceStrings.Nice1Examples | src/bin/2015-05.rs:160-174 | the unit tests: "ugknbfddgicrmopn" and "aaa" are nice, the three others are not |
| Lights.ParseAction | src/bin/2015-06.rs:21-28 | exactly "turn on", "turn off" and "toggle" parse, each to the action it spells; anything else is an error |
| Lights.ParseShowAction | src/bin/2015-06.rs:21-28 | every action parses back from its spelling |
| Lights.Light1 | src/bin/2015-06.rs:89-93 | a light ends on or off: turn on lights it, turn off darkens it, toggle lights it exactly when it was not on |
| Lights.Light2 | src/bin/2015-06.rs:106-112 | turn on adds one to the brightness, toggle adds two, and turn off takes one away but never goes below zero |
| Lights.ToggleTwice | src/bin/2015-06.rs:92 | toggling an on/off light twice restores it |
| Lights.OffUndoesOn | src/bin/2015-06.rs:106-112 | turn off undoes turn on, two turn offs undo a toggle, and a toggle brightens as much as two turn ons |
| Lights.ApplyCommand1 | src/bin/2015-06.rs:84-96 | every light inside the inclusive rectangle gets the first rules' new state, every other light is unchanged, and an all on/off grid stays on/off |
| Lights.ApplyCommand2 | src/bin/2015-06.rs:101-115 | every light inside the inclusive rectangle gets the second rules' new brightness, every other light is unchanged |
| ExpenseReport.FindPair | src/bin/2020-01.rs:25-47 | returns the first entry that completes a pair with an earlier entry, with its partner, and none (the source panics) exactly when no entry does |
| ExpenseReport.FindThreePair | src/bin/2020-01.rs:56-100 | returns the entries of the first triple in loop order whose first and second and whose second and third positions differ, and none (the source panics) exactly when there is no such triple |
| ExpenseReport.FindThreeDistinct | src/bin/2020-01.rs:66-74 | the search as its comment intends it: the first triple of three different positions, none exactly when there is no such triple |
| ExpenseReport.ReuseAdmitted | src/bin/2020-01.rs:64-75 | with target 4 and entries [1, 2] the first triple the loops admit uses the first entry twice, giving (1, 2, 1), while no three different entries sum to 4 |
| Passwords.ValidLetterCount | src/bin/2020-02.rs:59-70 | a valid entry's lower bound is at most its upper bound and the password's length, and a letter that does not occur passes exactly when the lower bound is zero |
| Passwords.ValidLetterCountMeans | src/bin/2020-02.rs:59-70 | an entry is valid exactly when the letter occurs between num1 and num2 times, both inclusive |
| Passwords.ValidLetterPosition | src/bin/2020-02.rs:73-87 | valid exactly when one, and only one, of the 1-based positions num1 and num2 holds the letter; equal positions are never valid |
| Passwords.ValidPositionExactlyOne | src/bin/2020-02.rs:86 | the exclusive or spelled out: the letter at the first position and not the second, or at the second and not the first |
| Passwords.CountValidLetterCounts | src/bin/2020-02.rs:90-95 | the count is at most the number of entries, all of them exactly when every entry is valid, and zero exactly when none is |
| Passwords.CountValidLetterCountsAppend | src/bin/2020-02.rs:90-95 | the count is additive over concatenated entry lists |
| Passwords.CountValidLetterPositions | src/bin/2020-02.rs:98-103 | the count is at most the number of entries, all of them exactly when every entry is valid, and zero exactly when none is |
| Passwords.CountValidLetterPositionsAppend | src/bin/2020-02.rs:98-103 | the count is additive over concatenated entry lists |
| Passwords.LetterCountExample | src/bin/2020-02.rs:130-132 | the unit test: nine v's satisfy 3-12 |
| Passwords.LetterCountThreeExample | src/bin/2020-02.rs:134-136 | the code accepts "3-12 v: zbvlbpxcrnvvwjpwl", which has three v's; the unit test expects a rejection |
| Passwords.LetterPositionExample | src/bin/2020-02.rs:143-145 | the unit test: "xxvxxxxxxxxxxxxx" has v at position 3 and not at 12 |
| Slopes.VisitsRoundUp | src/bin/2020-03.rs:29 | stepping through the lines by `down_by` visits the ceiling of the remaining lines over the step, at least one when any line is left |
| Slopes.TreesFrom | src/bin/2020-03.rs:24-43 | the trees met never outnumber the lines visited |
| Slopes.TreesFromZero | src/bin/2020-03.rs:32-39 | no tree is counted exactly when no visited line holds `#` at its wrapped column |
| Slopes.TreeAtShift | src/bin/2020-03.rs:32-35 | the j-th visit from a line is the (j-1)-th visit from the next visited line, one column step further |
| Slopes.CountTrees | src/bin/2020-03.rs:24-43 | the loop over every `down_by`-th line, at column `index * right_by` wrapped by the line length, counts exactly the trees of the specification, at most one per visited line |
| Slopes.SampleTrees | src/bin/2020-03.rs:61-68 | the unit test: the sample map meets 7 trees going down 1 and right 3 |
| Passports.ValidateNumberInclusive | src/bin/2020-04.rs:37-40 | both bounds are accepted, the numbers just outside them are not, and a number is accepted exactly when it lies between the bounds |
| Passports.InsertField | src/bin/2020-04.rs:65-75 | one field fails, which is the panic of `unwrap`, exactly when it is non-empty and has no ':' |
| Passports.FieldsOkMeans | src/bin/2020-04.rs:65-75 | the fields of a line are fine exactly when each is empty or holds a ':' |
| Passports.InsertFieldsNone | src/bin/2020-04.rs:64-75 | inserting the fields of a line succeeds exactly when they are fine |
| Passports.InsertFieldsKeys | src/bin/2020-04.rs:64-75 | after the insertion, a key is present exactly when it was present before or some non-empty field names it |
| Passports.InsertFieldsLastWins | src/bin/2020-04.rs:74 | a key takes the value of the last field that sets it |
| Passports.InsertFieldsStaysNone | src/bin/2020-04.rs:70-72 | once one field fails, inserting more fields cannot succeed |
| Passports.Classify | src/bin/2020-04.rs:54-56 | a line ends the passport exactly when it is all whitespace |
| Passports.StepFacts | src/bin/2020-04.rs:53-75 | one line is read unless its fields fail, and only a blank line adds a finished passport |
| Passports.ScanFacts | src/bin/2020-04.rs:53-76 | the lines are read unless some field fails, and the finished passports number the blank lines |
| Passports.ScanStaysNone | src/bin/2020-04.rs:53-76 | once one line fails, reading more lines cannot succeed |
| Passports.ParseCount | src/bin/2020-04.rs:43-82 | the parse succeeds exactly when every line can be read, and then yields one passport more than there are blank lines |
| Passports.ParsePassports | src/bin/2020-04.rs:43-82 | the method reads the input's lines into the passports of the specification |
| Passports.ReadPassports | src/bin/2020-04.rs:53-81 | the loop over the lines yields the specification's passports, the last one pushed after the loop |
| Passports.ScanLinesFails | src/bin/2020-04.rs:70-72 | a line that fails makes the whole parse fail |
| Passports.ReadLine | src/bin/2020-04.rs:54-75 | the body of the loop reads one line as the specification's step does |
| Passports.InsertLine | src/bin/2020-04.rs:64-75 | the inner loop inserts the fields of one line as the specification does, skipping empty ones |
| Passports.ParseWritten | src/bin/2020-04.rs:43-82 | lines written from blocks of plain fields parse back to the passports of those blocks |
| Passports.ParseText | src/bin/2020-04.rs:43-82 | the text of those lines joined by newlines parses back to the same passports |
| Passports.ValidateFields | src/bin/2020-04.rs:84-97 | the fields are valid exactly when every key is a required field and every required field but "cid" is present |
| Passports.ValidateFieldsMeans | src/bin/2020-04.rs:85-97 | adding or removing "cid" does not change whether the fields are valid |
| Passports.ValidFieldsKnownKeys | src/bin/2020-04.rs:85-97 | a passport with valid fields has only required keys, so checking its contents cannot reach `unreachable!` |
| Passports.IsHex | src/bin/2020-04.rs:99-106 | as written, every hexadecimal digit passes and '#' does not |
| Passports.ValidField | src/bin/2020-04.rs:111-155 | "cid" always passes; "ecl" passes exactly for the seven eye colours; a passing year lies in 1920-2030 at the widest; a passing height ends in "cm" or "in"; a passing "hcl" has seven characters and a passing "pid" nine that parse as a `u32` |
| Passports.ValidFieldFacts | src/bin/2020-04.rs:147-154 | "cid" is always valid, and so is any nine-digit "pid" |
| Passports.YearField | src/bin/2020-04.rs:112-123 | a four-digit year is valid exactly when it lies in 1920-2002 for "byr", 2010-2020 for "iyr" and 2020-2030 for "eyr" |
| Passports.HeightField | src/bin/2020-04.rs:124-138 | a height in inches is valid exactly when it lies in 59-76 |
| Passports.HeightCm | src/bin/2020-04.rs:124-138 | a height in centimetres is valid exactly when it lies in 150-193 |
| Passports.HairField | src/bin/2020-04.rs:139-145 | the "hcl" check is the as-written hair-colour rule |
| Passports.ValidateContents | src/bin/2020-04.rs:109-171 | the loop returns true exactly when every field of the passport has a valid value, stopping at the first invalid one |
| Passports.HairColorAcceptsZ | src/bin/2020-04.rs:99-106 | "zzzzzzz" passes the "hcl" rule as written, because `is_hex` accepts every lowercase letter and the leading '#' is never checked; the intended rule rejects it |
| Passports.IntendedHairColorMeans | src/bin/2020-04.rs:139-145 | the intended rule accepts only values the as-written rule accepts: a '#' and six characters from 0-9 and a-f |
| Passports.SampleFirstFields | src/bin/2020-04.rs:214-219 | the unit test: the first sample passport has every required field |
| Passports.SampleSecondFields | src/bin/2020-04.rs:214-220 | the unit test: the second sample passport lacks "hgt" |
| Passports.IsHexExample | src/bin/2020-04.rs:205-211 | the unit test: `is_hex` accepts 'a' and rejects '.' |
| Passports.ValidSampleContents | src/bin/2020-04.rs:223-228 | the unit test: every field of the valid passport is valid |
| Passports.InvalidSampleContents | src/bin/2020-04.rs:223-231 | the unit test: the invalid passport's "eyr" of 1972 is invalid |
| Seats.Partition | src/bin/2020-05.rs:27-44 | the letters add up to 0 or less than twice the first step, so a partition over `space` stays inside it |
| Seats.BinarySpacePartition | src/bin/2020-05.rs:27-44 | the loop adds the step for every 'B' or 'R' and halves it after every letter, computing the specification's partition, never more than `space` |
| Seats.PartitionBinary | src/bin/2020-05.rs:28-30 | with `k` letters over `2^k` places the partition is the letters read as a binary number, B and R as ones |
| Seats.DecodeSeat | src/bin/2020-05.rs:47-52 | the row over `ROWS` = 127 is at most 127 and the column over `COLUMNS` = 7 at most 7 |
| Seats.DecodeSeatBinary | src/bin/2020-05.rs:47-52 | a ten-letter pass decodes to its row letters and column letters read in binary |
| Seats.SeatId | src/bin/2020-05.rs:55-57 | with a column below `ROW_WIDTH`, the ID divided by 8 is the row and its remainder the column |
| Seats.SeatIdInjective | src/bin/2020-05.rs:55-57 | distinct seats in range have distinct IDs |
| Seats.SeatIdBinary | src/bin/2020-05.rs:47-57 | the ID of a ten-letter pass is the whole pass read as one binary number |
| Seats.SeatIds | src/bin/2020-05.rs:61-65 | one ID per pass, in order, each the ID of the decoded pass |
| Seats.FindMissingValue | src/bin/2020-05.rs:60-84 | as written: one more than the sorted ID at the first interior position whose neighbours are not two apart, and `None`, the panic, exactly when there is no such position |
| Seats.FindMissingSeat | src/bin/2020-05.rs:59-84 | as intended: the lowest free seat whose neighbours on both sides are taken, and `None` exactly when there is none |
| Seats.RowExample | src/bin/2020-05.rs:101-106 | the unit test: "BFFFBBF" over 127 rows is row 70 |
| Seats.ColumnExample | src/bin/2020-05.rs:108-109 | the unit test: "RRR" over 7 columns is column 7 |
| Seats.DecodeExample | src/bin/2020-05.rs:112-118 | the unit test: "BFFFBBFRRR" is row 70, column 7 |
| Seats.SampleIds | src/bin/2020-05.rs:124-129 | the four passes of the unit test have the IDs 606, 606, 608 and 609 |
| Seats.AsWrittenOnPasses | src/bin/2020-05.rs:120-131 | on those passes the as-written search returns 609, the ID of the fourth pass, as the unit test expects |
| Seats.IntendedOnPasses | src/bin/2020-05.rs:59 | on those passes the intended search returns 607, the seat free between 606 and 608 |
| Customs.AnswerSet | src/bin/2020-06.rs:32 | a person's answers are exactly the characters of the line |
| Customs.ScanNext | src/bin/2020-06.rs:25-33 | a blank line pushes the group being filled and starts an empty one; any other line adds one person to it |
| Customs.ParseGroups | src/bin/2020-06.rs:21-38 | the loop over the lines of the input, with the last group pushed after it, yields the groups of the specification |
| Customs.ScanFacts | src/bin/2020-06.rs:25-33 | while reading, the finished groups number the blank lines, and they and the current group hold every non-blank line's person in order |
| Customs.GroupsFacts | src/bin/2020-06.rs:21-38 | there is one group more than there are blank lines, and the groups together hold every person in order |
| Customs.ScanExtends | src/bin/2020-06.rs:27 | a finished group is never changed again |
| Customs.DoubleBlankEmptyGroup | src/bin/2020-06.rs:26-29 | two blank lines in a row produce an empty group |
| Customs.UniqueQuestions | src/bin/2020-06.rs:41-53 | the loop counts the questions anyone in the group answered |
| Customs.Holders | src/bin/2020-06.rs:62-67 | the tally of one question never exceeds the number of people |
| Customs.HoldersAll | src/bin/2020-06.rs:71 | a question's tally equals the group's size exactly when everyone answered it |
| Customs.HoldersNone | src/bin/2020-06.rs:62-67 | a question nobody answered has a zero tally |
| Customs.TallyPerson | src/bin/2020-06.rs:63-66 | the inner loop raises by one the tally of every question the person answered and leaves the others as they were |
| Customs.TallyNext | src/bin/2020-06.rs:62-67 | after each person the map holds, for every answered question, how many people so far answered it |
| Customs.TalliedCommon | src/bin/2020-06.rs:69-72 | the questions whose tally is the group's size are the questions everyone answered |
| Customs.AllAnswered | src/bin/2020-06.rs:56-73 | the method counts the questions everyone in the group answered |
| Customs.CommonWithinUnion | src/bin/2020-06.rs:41-73 | what everyone answered is among what anyone answered, and an empty group answered nothing |
| Customs.CommonOfPeople | src/bin/2020-06.rs:56-73 | in a non-empty group a question is common exactly when each person answered it |
| Customs.PersonBetween | src/bin/2020-06.rs:41-73 | each person's answers lie between the common answers and all answers |
| Customs.SampleGroups | src/bin/2020-06.rs:79-90 | the unit test: the sample splits into groups of one, three and two people, the first answering a, b and c |
| Customs.SampleAnswerSets | src/bin/2020-06.rs:89 | the lines of the sample give the answer sets the unit test compares against |
| Bags.ChildLower | src/bin/2020-07.rs:71-79 | under a ranking of the rules every child with rules of its own ranks below its parent, so the recursion terminates |
| Bags.CanContain | src/bin/2020-07.rs:56-82 | "shiny gold" holds itself, and any other bag that can hold it has a rule with at least one child |
| Bags.AnyChildCanMeans | src/bin/2020-07.rs:71-81 | the loop over the children returns true exactly when some child from the current one on is "shiny gold" or can hold it |
| Bags.CanContainChain | src/bin/2020-07.rs:56-82 | a bag can hold "shiny gold" exactly when a chain of contains-rules leads from it to "shiny gold" |
| Bags.ChainOf | src/bin/2020-07.rs:56-82 | a bag that can hold "shiny gold" has such a chain |
| Bags.ChainCan | src/bin/2020-07.rs:56-82 | a bag at the head of such a chain can hold "shiny gold" |
| Bags.UnknownHoldsNothing | src/bin/2020-07.rs:65-68 | a bag with no rule, other than "shiny gold" itself, holds nothing |
| Bags.ContainerCount | src/bin/2020-07.rs:22-26 | the Part 1 count of bags other than "shiny gold" that can hold it is at most the number of other bags with rules |
| Bags.FoldShares | src/bin/2020-07.rs:93-95 | the fold is at least the share of each child, and zero exactly when every count is zero |
| Bags.ChildBags | src/bin/2020-07.rs:85-96 | a bag without a rule holds nothing, and a bag with one holds at least the sum of the counts its rule lists |
| Bags.ChildBagsFacts | src/bin/2020-07.rs:85-96 | a bag holds no bags exactly when it has no rule or every count in its rule is zero, and it holds at least each child's count plus that many times the child's contents |
| Bags.TwoOf | src/bin/2020-07.rs:93-95 | a bag holding two of one bag holds two plus twice that bag's contents |
| Bags.CanContainExamples | src/bin/2020-07.rs:132-140 | the unit test: "shiny gold" and "bright white" can hold "shiny gold", "faded blue" cannot |
| Bags.ChildBagsExample | src/bin/2020-07.rs:142-148 | the unit test: "shiny gold" holds 126 bags in the second sample |
| Handheld.ParseInstruction | src/bin/2020-08.rs:14-25 | an instruction parses exactly when it is "nop", "acc" or "jmp", and it parses to the instruction spelled that way |
| Handheld.ParseName | src/bin/2020-08.rs:14-25 | every instruction parses back from its spelling |
| Handheld.ParseLine | src/bin/2020-08.rs:34-46 | a line parses exactly when its first three characters name an instruction and the text from the fifth character on is an `i32`; the parameter is in the `i32` range |
| Handheld.ParseShowLine | src/bin/2020-08.rs:34-46 | every line with an `i32` parameter, written with a sign, parses back to itself |
| Handheld.OnlyAccChanges | src/bin/2020-08.rs:81-88 | a step changes the accumulator only on an `acc` line inside the program, by that line's parameter |
| Handheld.NoAccKeepsZero | src/bin/2020-08.rs:81-88 | a program without `acc` lines keeps the accumulator at 0 |
| Handheld.SeenMeans | src/bin/2020-08.rs:72-76 | the visited set after k steps holds exactly the positions of the first k states |
| Handheld.FreshDistinct | src/bin/2020-08.rs:72-76 | when every step came to a position not yet in the visited set, the visited positions of the run are all different |
| Handheld.InsideBound | src/bin/2020-08.rs:67 | a set of positions inside the program has at most as many members as there are lines, which bounds the loops |
| Handheld.RanNext | src/bin/2020-08.rs:71-90 | one round of the loop advances the run by one step and records the position left |
| Handheld.RunUntilDuplicate | src/bin/2020-08.rs:63-91 | the loop returns the accumulator at the first step whose position was already visited, reached within as many steps as there are lines |
| Handheld.Halted | src/bin/2020-08.rs:105-108 | once the position is outside the program the run stays where it is |
| Handheld.Cycles | src/bin/2020-08.rs:110-113 | once a position repeats, every later position is one already visited |
| Handheld.StaysAfterRepeat | src/bin/2020-08.rs:110-113 | once a visited position comes back, the run never gets past the last line |
| Handheld.WillComplete | src/bin/2020-08.rs:96-129 | (true, the accumulator) exactly when the run gets past the last line, which it does within as many steps as there are lines; otherwise (false, 0) and the run never gets past the last line |
| Handheld.Flip | src/bin/2020-08.rs:134-141 | the copy differs from the program at most in the instruction of the chosen line, and a `nop` or `jmp` there changes into the other |
| Handheld.FlipTwice | src/bin/2020-08.rs:136-141 | swapping the same line twice gives back the program |
| Handheld.FlipUntilComplete | src/bin/2020-08.rs:132-157 | the accumulator of the first swapped program that completes; `None`, the panic, exactly when no swap completes |
| Handheld.ParseExamples | src/bin/2020-08.rs:163-178 | the unit tests: "jmp" parses to `Jmp` and "acc +3" to an `acc` with 3 |
| Handheld.SampleLines | src/bin/2020-08.rs:180-201 | the lines of the test programs parse: "nop 0" to a `nop` with 0 and "jmp -1" to a `jmp` with -1 |
| Handheld.LoopTrace | src/bin/2020-08.rs:180-189 | "nop 0\njmp -1" alternates between its two lines with the accumulator at 0 |
| Handheld.OneNopTrace | src/bin/2020-08.rs:191-201 | "nop 0" runs past its only line after one step |
| Handheld.StuckTrace | src/bin/2020-08.rs:203-212 | swapping the `nop` of "nop 0\njmp -1" gives a program that never leaves line 0 |
| Handheld.EndTrace | src/bin/2020-08.rs:203-212 | swapping the `jmp` of "nop 0\njmp -1" gives a program that runs past both lines |
| Xmas.HasPairSum | src/bin/2020-09.rs:45-62 | the nested loops find a sum exactly when two numbers of the window at different positions add up to the number |
| Xmas.FindFirstInvalid | src/bin/2020-09.rs:25-75 | the first number after the first `previous_count` that is not the sum of two of the `previous_count` numbers before it; `None`, the panic, exactly when every such number is valid |
| Xmas.ShortestRunUnique | src/bin/2020-09.rs:82-103 | the shortest leftmost run adding up to the target is unique |
| Xmas.FindAnyThatSum | src/bin/2020-09.rs:82-103 | as written: the shortest, then leftmost, run of at least two numbers adding up to the target among the runs that stop before the last number |
| Xmas.FindRunThatSums | src/bin/2020-09.rs:77-103 | as intended: the shortest, then leftmost, run of at least two numbers adding up to the target anywhere in the list |
| Xmas.LastNumberMissed | src/bin/2020-09.rs:93-94 | on [1, 2] with target 3 the as-written search has no run to find, while the whole list is one |
| Xmas.Min | src/bin/2020-09.rs:111 | the minimum is an element and no element is smaller |
| Xmas.Max | src/bin/2020-09.rs:111 | the maximum is an element and no element is larger |
| Xmas.SumMinMax | src/bin/2020-09.rs:105-112 | the sum of two elements of the list, one no larger and one no smaller than every element |
| Xmas.SampleValid | src/bin/2020-09.rs:118-127 | the unit test: each number of the sample from position 5 up to 182 is the sum of two of the five before it |
| Xmas.SampleInvalid | src/bin/2020-09.rs:118-127 | the unit test: 127 is not the sum of two of the five numbers before it |
| Xmas.SamplePairs | src/bin/2020-09.rs:130-136 | no two neighbouring numbers of the sample before the last add up to 127 |
| Xmas.SampleTriples | src/bin/2020-09.rs:130-136 | no three neighbouring numbers of the sample before the last add up to 127 |
| Xmas.SampleShortest | src/bin/2020-09.rs:130-136 | the unit test: 15, 25, 47, 40 is the shortest leftmost run adding up to 127 |
| Xmas.SumMinMaxExample | src/bin/2020-09.rs:138-142 | the unit test: the minimum plus the maximum of [1, 2, 3] is 4 |
| Adapters.FixInput | src/bin/2020-10.rs:22-26 | the result starts with the outlet's 0, ends 3 above the highest rating, holds the ratings in between as a permutation, and is ascending |
| Adapters.StepCountOccurs | src/bin/2020-10.rs:33-43 | a step size is counted exactly when it occurs among the consecutive differences |
| Adapters.SumValuesBump | src/bin/2020-10.rs:41-42 | raising one counter of the histogram raises its total by one |
| Adapters.CountSteps | src/bin/2020-10.rs:30-46 | the histogram's keys are exactly the differences that occur, each value counts how often it occurs, and the values add up to the number of differences |
| Adapters.NegativeStepNeverCounted | src/bin/2020-10.rs:28-29 | on ascending ratings no difference is negative, so the `usize` subtraction cannot underflow |
| Adapters.BreakIsSafe | src/bin/2020-10.rs:82-87 | on ascending ratings, once an adapter is more than 3 jolts above, no later one can follow either, so the `break` loses no chain |
| Adapters.CountPaths | src/bin/2020-10.rs:50-97 | with a sound memo, the memoised recursion returns the reference count of chains, keeps the memo sound and changes no entry already present |
| Adapters.PathsAtEnd | src/bin/2020-10.rs:54-57 | the last adapter has exactly one chain |
| Adapters.PathsAllGapsThree | src/bin/2020-10.rs:79-91 | when every step is exactly 3 jolts there is one chain |
| Adapters.GapsThreeSorted | src/bin/2020-10.rs:79-91 | ratings three apart are ascending, 3 jolts per position |
| Adapters.PathsPositive | src/bin/2020-10.rs:79-91 | when no step exceeds 3 jolts at least one chain exists from every position |
| Adapters.PathsExamples | src/bin/2020-10.rs:130-156 | the unit tests: [0, 1] has one chain and [0, 1, 2, 3] has four |
| Adapters.StepCountExamples | src/bin/2020-10.rs:112-128 | the unit tests: three steps of 1 and two of 3 in the first input, seven of 1 and five of 3 in the second once fixed |
| Adapters.SortedOfThree | src/bin/2020-10.rs:103-110 | the unit test: the only ascending arrangement of 4, 232 and 65 is 4, 65, 232 |
| Adapters.HistogramOfExample | src/bin/2020-10.rs:116-120 | the unit test: the only histogram the contract of `CountSteps` admits for [0, 1, 4, 7, 8, 9] is {1: 3, 3: 2} |
| Text.Split | src/bin/2020-04.rs:64 | `str::split`: at least one piece, no piece holds the separator, and the pieces joined by it give back the string |
| Text.SplitJoin | src/bin/2015-02.rs:92 | splitting pieces that hold no separator, once joined by it, gives back the pieces |
| Text.SplitSeveral | src/bin/2020-04.rs:70-72 | a split has a second piece exactly when the separator occurs, so the second `unwrap` fails exactly when it does not |
| Text.Lines | src/bin/2015-02.rs:72 | `str::lines`: no line holds a newline |
| Text.LinesJoin | src/bin/2020-06.rs:25 | lines without a newline or a final '\r', joined by newlines and ending in a non-empty line, split back into themselves |
| Text.LinesUnlines | src/bin/2015-02.rs:72 | lines without a newline or a final '\r', each ended by a newline, split back into themselves |
| Text.LinesCrlf | src/bin/2015-02.rs:72 | lines without newlines, each ended by "\r\n", split back into themselves without the '\r' |
| Text.LinesCrExample | src/bin/2020-04.rs:53 | in "a\r\nb\r" the '\r' before the newline goes and the final one stays: the lines are "a" and "b\r" |
| Text.Trim | src/bin/2020-04.rs:54-56 | `str::trim` gives nothing exactly when the line is all whitespace, and never a longer string |
| Text.Occurrences | src/bin/2020-02.rs:59-70 | the count of a character is at most the length, and zero exactly when the character does not occur |
| Text.OccurrencesMultiset | src/bin/2020-02.rs:59-70 | the number of occurrences of a character is its multiplicity in the string |
| Numbers.ParseU32 | src/bin/2020-04.rs:149 | a parsed `u32` is below 2^32 |
| Numbers.ParseI32 | src/bin/2015-02.rs:97-100 | a parsed `i32` lies between -2^31 and 2^31 - 1 |
| Numbers.ParseShowU32 | src/bin/2020-04.rs:149 | every `u32` written in decimal parses back to itself |
| Numbers.NineDigitsParse | src/bin/2020-04.rs:147-153 | nine decimal digits always parse as a `u32` |
| Numbers.ParseShowI32 | src/bin/2015-02.rs:99 | every `i32` written in decimal parses back to itself |
| Sorting.Sort | src/bin/2020-05.rs:66 | `sort`: the result is ascending and a permutation of the input |
| Sorting.SortedUnique | src/bin/2020-10.rs:23 | two ascending permutations of one another are equal, so the sorted result is determined by the input |

## Left out

- src/bin/2015-04.rs is not part of this model. It is a brute-force search over MD5 from a foreign crate, with no contract to state.
- src/lib.rs and src/utils.rs are not part of this model. They read the input file and set up logging. `decode_line`, which parses every line with `FromStr` and panics on failure, is replaced by inputs that are already parsed.
- The regular-expression parsers are left out: `Command::from_str` (2015-06), `PasswordEntry::from_str` (2020-02) and `parse_bags` (2020-07) depend on the `regex` crate. Their resulting records and maps are the inputs of the model, so the `parse_bags` unit test is left out too.
- The `main` functions are left out. They hold the sums and products over all answers, the logging and the `lazy_static` setup. The constant sets are plain Dafny constants.
- Fixed-width overflow of `i32`, `i64`, `u32` and `usize` arithmetic is left out. Sums, products, the histogram counters and the path count are unbounded. Only the ranges that `parse` enforces are modelled.
- The in-place sorts are left out: `faces.sort()` (2015-02), `seats.sort()` (2020-05) and `jolts.sort()` (2020-10). Their results are the functional `Sorting.Sort` on a sequence: ascending and a permutation. `fix_input`'s `insert` and `push` on the vector return a new sequence.
- Iteration order of `HashMap` and `HashSet` is left out. No answer depends on it. `validate_contents` picks its keys in any order.
- Deliveries.FindUniqueLocations: the unit tests "^>v<" and "^v^v^v^v^v", with one and with two movers, are not restated. Only ">" with one mover is (`Deliveries.EastWalk`).
- Handheld.RunUntilDuplicate: the source's two `unwrap`s are the precondition `StaysInside`, so every position of the run lies inside the program.
- Handheld.WillComplete: the source's `try_from` `unwrap` is the precondition `NeverNegative`.
- Handheld.FlipUntilComplete: the precondition `FlipsSafe` covers only the changed programs that are tried.
- Handheld.ParseLine: the slices `s[..3]` and `s[4..]`, which panic on short lines, are preconditions.
- Bags.CanContain: the model demands a ranking of the colours in which every child with a rule ranks below its parent, so that the recursion provably ends. This excludes some cyclic maps on which the Rust recursion still ends, for instance one where "bright white" and "shiny gold" contain each other: the search from "bright white" returns true at its first child (src/bin/2020-07.rs:72-74).
- Bags.ChildBags: the same ranking is demanded. When a cycle can be reached from the bag, the Rust fold recurses without end.
- Passports.ValidateContents: the `unreachable!` on an unknown key and the slice of the last two characters of "hgt" are the precondition `Checkable`. `Passports.ValidFieldsKnownKeys` shows that the first part holds whenever `validate_fields` passed first.
- Xmas.FindAnyThatSum and Xmas.FindRunThatSums: the search never ends when no run exists, so the existence of a run is a precondition.
- Xmas.ShortestRunUnique: this lemma needs no proof steps of its own.
- Seats.DecodeSeat: the source slices bytes and the model slices characters. They agree on the ASCII letters of a boarding pass.
- Passports.ValidField: strings are sequences of characters, while `str::len` and the slices of the "hgt" and "hcl" rules count bytes. On ASCII values the two agree. On other values they differ: the source accepts "é12345" as a hair colour (seven bytes) and panics when slicing "12é3" inside the 'é', while the model rejects both.
- Handheld.ParseLine: `s[..3]` and `s[4..]` are byte slices, and the model takes characters. They agree on ASCII lines; "nopé+1" panics in the source and parses as `nop +1` in the model.
- Slopes.CountTrees: the column wraps by `line.len()`, a byte count, and `chars().nth` then reads a character. The model wraps by the number of characters. They agree on ASCII lines; on "é.#" with right 3 the source reads past the last character and panics, while the model reads 'é'.
- NiceStrings.Pairs: the window `&input[index..=index + 1]` is a byte slice, and the model takes two characters. They agree on ASCII strings; "éé" panics in the source and gives false in the model.
- NiceStrings.RecordPairs: the recorded pairs and positions are two characters and character positions, where the source records two-byte slices at byte positions and panics on a slice inside a multi-byte character. They agree on ASCII strings.
- Slopes.CountTrees: `step_by(0)` and an empty visited line panic, so `down_by >= 1` and `VisitedNonEmpty` are preconditions.

## Findings

| source | as written | input that shows it | evidently intended | confidence | as-written member | corrected member |
|---|---|---|---|---|---|---|
| src/bin/2020-01.rs:68-75 | the third loop skips only `idx2 == idx3`, so the first entry can be used again as the third | target 4, entries [1, 2]: returns (1, 2, 1) | three different entries, as the comment at lines 65-66 says ("We can't reuse numbers"); on this input, no solution | not executed | ExpenseReport.ReuseAdmitted | ExpenseReport.FindThreeDistinct |
| src/bin/2020-04.rs:100-106, 139-145 | `is_hex` accepts every lowercase letter, and the leading '#' of "hcl" is never checked | "zzzzzzz" is a valid hair colour | '#' followed by six of 0-9 and a-f | not executed | Passports.HairColorAcceptsZ | Passports.IntendedHairColorMeans |
| src/bin/2020-05.rs:71-77 | returns one more than the ID at the first interior position whose neighbours are not two apart | the passes of the unit test, IDs [606, 606, 608, 609]: returns 609, a taken seat | the lowest free seat whose two neighbours are taken, as the comment at line 59 says; here 607 | not executed | Seats.AsWrittenOnPasses | Seats.FindMissingSeat |
| src/bin/2020-09.rs:93-94 | runs end at `pos` for `pos` in `nums..lines.len()`, so no run includes the last number | [1, 2] with target 3: no run is ever found and the loop never ends | `nums..=lines.len()` | not executed | Xmas.LastNumberMissed | Xmas.FindRunThatSums |
