# Verified models of the ici algorithms

`ici` is a static-analysis driver. Most of it moves data between external tools; the algorithms it
implements itself are modelled here in Dafny and proved against independent specifications:

- **Expected findings** (`ExpectedMatching`): augmenting-path matching of expectation slots to
  observed findings computes a *maximum* matching, although a failed slot is never retried.
- **Viewer JSON parser** (`Utf8`, `JsonText`, `JsonStandard`, `JsonReader`, `JsonParser`,
  `JsonSurrogates`, `JsonRoundTrip`, `JsonAcceptance`): a class with a position and a line, proved against
  parsing functions that accept exactly the texts of a grammar slightly larger than that of RFC 8259, and
  give their meaning.
- **Type-2 clone pipeline** (`DuplicateSignal`, `RollingHash`, `CoveredIntervals`, `DuplicateRuns`,
  `WindowIndex`, `SeedLog`, `SeedMatching`, `SameFileMatches`, `MatchFilter`, `CloneGraph`,
  `CloneClustering`, `CloneOrder`): each fast stage refines a plain specification, for every record hash, collisions
  included.
- **Region projection and line provenance** (`RegionProjection`, `SplicedSource`).
- **Transactional publication** of `assemble_pyz` (`Publication`, `AssemblyTransaction`): all
  outputs old or all outputs new, for every schedule of failing steps, the first of which decides the outcome.
- **C++ cognitive score** (`ControlTokens`, `ControlReader`, `ControlParser`, `StatementTrees`,
  `TokenRuns`, `CognitiveScore`, `ConditionalExpressions`, `LabelledStatements`, `StatementBounds`,
  `Bracing`, `ExpressionScore`, `CognitiveMetric`): the stateful parser scores spelled statement trees as the
  recursive definition does, and refuses exactly the trees beyond its bounds and those in which it
  cuts a statement where it must not.
- **Compiler evidence** (`BoundaryMerge`, `MergeOrder`, `MergedList`, `MergeWarnings`, `IncludeForest`,
  `IncludeTrace`, `TraceLines`): merging of observations from many configurations, and include traces as preorder
  listings of forests.

`Basics` and `Orders` hold the option type, sorting and order facts used by several of them.

Code that changes state step by step is modelled by methods and classes; each is proved equal to a
specification function or against a specification predicate, and the main theorems are lemmas about
those. Tables, characters, bounds and orders that a method and its specification share are stated once more
in their own terms (`JsonStandard`, `CloneOrder`, `MergedList`, `TraceLines` and single lemmas elsewhere).
`dafny verify dfyconfig.toml` checks the whole project.

## Where the code differs from what one would expect

The model follows the code; each of these is proved, with the exact condition.

- Consecutive high surrogates: RFC 8259 section 7 pairs the last of them with a following low one, but
  the JSON parser consumes escapes two at a time. It reads a string in the standard way exactly when no
  maximal run of high surrogates of even length stands before a low one
  (`JsonSurrogates.GreedyIsStandardIff`, `JsonSurrogates.LostPairExample`).
- The JSON parser also accepts numbers such as `01` and `1.`, which RFC 8259 does not have
  (`JsonStandard.LenientNumbers`); up to that it accepts exactly the texts of the standard with at most 200
  containers around a value (`JsonAcceptance.AcceptedIff`).
- A colon outside parentheses and braces ends a simple statement of the control-flow parser, also the
  colon of `c ? a : b`, and square brackets do not hide it: the statement is read in pieces, and what
  controls it gets the first one only. A function body is accepted exactly when it stays within the bounds
  and no such statement is the unbraced end of the guarded part of an `if` with an `else`, of a `do` body, or
  of a handler followed by another one (`ConditionalExpressions.BodyIsScored`); `{ do x = c ? a : b; while (y); }` is refused
  (`ConditionalExpressions.DoExample`), and so are `{ if (x) v[c ? a : b]; else y; }`
  (`ConditionalExpressions.IndexExample`) and `{ switch (x) case k: break; }`, whose second piece is read
  outside the switch (`ConditionalExpressions.SwitchExample`).
- A label that is itself controlled, as in `switch (x) case k: while (y) z;`, is taken for the whole
  controlled statement, and what it labels is scored in the list around it. The score falls short of the
  one meant by the increments of each labelled statement, once per level that its label stands deeper than
  the list (`LabelledStatements.LabelledScore`); it is the one meant exactly when there is no such level or
  no such increment (`LabelledStatements.LabelledPair`, `LabelledStatements.LabelExample`: 2 instead of 3).
  Before an `else` the same statement is refused (`LabelledStatements.LabelBeforeElse`).
- The tokenizer takes two closing square brackets side by side as one attribute delimiter, so that
  `a[b[i]]` is refused by the delimiter check (`CognitiveMetric.JoinedBracketsRefused`,
  `CognitiveMetric.JoinedBracketsExample`); written apart they are neutral
  (`CognitiveMetric.SeparateBrackets`).
- Braces around controlled statements never lower the control-flow score, and they keep it exactly when
  none is put around the `if` that continues an `else` (`Bracing.BracingKeepsCognitiveIff`):
  `else if (h) S` scores 1 + n, `else { if (h) S }` scores n + 2 more (`Bracing.LinkExample`). All other
  braces change the metric by one when a logical sequence runs from the condition into the statement, and
  not otherwise (`CognitiveMetric.BracingMetric`, `CognitiveMetric.CutSequenceExample`).
- Within one file, a maximal run is reported exactly when it is no longer than the distance of its two
  copies (`SameFileMatches.ReportedIffApart`). A longer one comes in pieces as long as that distance, each
  placed by the seed it was grown from (`SameFileMatches.PieceLies`). A pair of equal seeds is covered whole
  if the run of equal lines through it is no longer than the distance of the seeds, and otherwise exactly
  when one of the pieces holds it (`SameFileMatches.SeedOutcome`). Of five equal lines, in windows of two,
  the seeds at 1 and 3 are covered in part only (`SameFileMatches.PartlyCovered`).
- Merged boundaries are sorted with a missing start column counted as 0, so that a missing column and
  column 0 would tie (`MergeOrder.OrderMattersIffTied`, `MergeOrder.TieMeans`). No producer writes column
  0: `_number` (src/ici/analysis/_cpp_diagnostics.py:207) refuses it. For columns that count from 1 the
  returned list does not depend on the order of the observations (`MergeOrder.MergedIsOrderFree`).
- A metric warning of a merge depends on the order of the observations exactly when some location on its
  line has two observations of one shape that differ in their metrics, and no location there whose
  observations all have one shape does (`MergeWarnings.OrderDecidesMetricsIff`,
  `MergeWarnings.MetricOrderExample`). No other warning depends on it, and neither does whether there is any
  (`MergeWarnings.WarningsOrderFree`).
- A listed path with a line end in it is cut where the text is split into lines: a printed include forest is
  read back exactly when no path is empty, starts with white space or holds a line end
  (`IncludeTrace.ReadBackIff`, `IncludeTrace.CutPathExample`).

## Model

| member | source | states |
|---|---|---|
| ExpectedMatching.Matcher.Assign | quality-zoo/runner/report_contract.py:559-568 | one augmenting search: on success the slots served before stay served and the new one is added; on failure nothing changes and the visited findings are closed under their holders' candidates |
| ExpectedMatching.ClosedSetBound | quality-zoo/runner/report_contract.py:556-583 | slots left over, each confined to findings frozen in a closed set, leave no matching larger than the present one |
| ExpectedMatching.ConfinedSlotUnservable | quality-zoo/runner/report_contract.py:559-583 | a slot confined to a closed set cannot be served beside the slots already served, by any rearrangement |
| ExpectedMatching.GreedyVerdictUnique | quality-zoo/runner/report_contract.py:570-583 | which slots fail is the same for every matching that serves each slot possible beside the earlier ones |
| ExpectedMatching.AssignSlots | quality-zoo/runner/report_contract.py:570-583 | one assignment per slot in order gives a matching, failures for exactly the unserved slots, and a closed set confining them |
| ExpectedMatching.FailuresCount | quality-zoo/runner/report_contract.py:570-583 | no failure is listed exactly when every slot is served |
| ExpectedMatching.AllServed | quality-zoo/runner/report_contract.py:570-583 | every slot is served exactly when some matching serves every slot |
| ExpectedMatching.ExpandSlots | quality-zoo/runner/report_contract.py:543-548 | every expectation has as many slots as it counts, in the order of the expectations, so that there are as many slots as the counts add up to; or the first expectation whose count is below one |
| ExpectedMatching.FailuresPerExpectation | quality-zoo/runner/report_contract.py:570-583 | the served slots of an expectation and the failures that name it add up to its slots |
| ExpectedMatching.BuildCandidates | quality-zoo/runner/report_contract.py:549-556 | the candidates of a slot are exactly the observed findings that meet its predicate, each once, in ascending order |
| ExpectedMatching.MatchExpectedFindings | quality-zoo/runner/report_contract.py:539-583 | the count is the size of a maximum matching of slots to findings; failures are exactly the slots it leaves, so that count and failures add up to the counts expected, and so do the served slots and the failures of each expectation; no failure exactly when all slots can be met at once |
| Utf8.ShiftsAndMasks | viewer/src/json_parser.cpp:33-53 | the quotients and remainders of the model are the shifts and masks of the code, for 32-bit values |
| Utf8.CombineIsBijective | viewer/src/json_parser.cpp:266-313 | surrogate pairs correspond one to one to the code points from 0x10000 to 0x10FFFF |
| Utf8.DecodeFirstInverts | viewer/src/json_parser.cpp:33-53 | a decoder written from section 3 of RFC 3629 reads back every scalar value, whatever bytes follow |
| Utf8.DecodeInvertsEncode | viewer/src/json_parser.cpp:33-53 | encoding a sequence of scalar values and decoding the bytes gives the sequence back |
| Utf8.DecodeFirstSound | viewer/src/json_parser.cpp:33-53 | the decoder reads nothing but scalar values, each from exactly the bytes of its encoding |
| Utf8.LoneSurrogateUndecodable | viewer/src/json_parser.cpp:279-313 | the bytes written for a lone surrogate are no UTF-8 |
| JsonText.LastMemberWins | viewer/src/json_parser.cpp:371-392 | a repeated key has the value of its last member |
| JsonText.NoOtherMember | viewer/src/json_parser.cpp:371-392 | an object has no keys but those of its members |
| JsonText.EscapesOfTable | viewer/src/json_parser.cpp:58-70 | the two-character escapes are the eight of section 7 of RFC 8259 with the characters listed there, and no others |
| JsonStandard.StructuralCharacters | viewer/src/json_parser.cpp:124-169 | brackets, braces, colon and comma are the characters of section 2 of RFC 8259 |
| JsonStandard.WhiteSpace | viewer/src/json_parser.cpp:114-122 | blanks are exactly space, tab, line feed and carriage return |
| JsonStandard.LiteralNames | viewer/src/json_parser.cpp:152-169 | the literals are spelled `true`, `false` and `null` |
| JsonStandard.NumberCharacters | viewer/src/json_parser.cpp:171-213 | digits, signs, point and exponent letters are those of section 6 of RFC 8259 |
| JsonStandard.StringCharacters | viewer/src/json_parser.cpp:224-264 | quotation mark, backslash and the `u` of an escape |
| JsonStandard.HexDigitsOfTable | viewer/src/json_parser.cpp:19-30 | a byte has a value exactly when it is one of the 22 hexadecimal digits, and then its place among them |
| JsonStandard.FourDigits | viewer/src/json_parser.cpp:266-277 | four digits are a number with the first one highest |
| JsonStandard.SurrogatePairs | viewer/src/json_parser.cpp:279-314 | the ranges of the surrogates; the high one of a pair gives the upper ten bits, the low one the lower ten |
| JsonStandard.ScalarValues | viewer/src/json_parser.cpp:11-15 | scalar values are the code points up to 0x10FFFF without the surrogates |
| JsonStandard.LenientNumbers | viewer/src/json_parser.cpp:171-213 | `01` and `1.` belong to the grammar of the parser and not to RFC 8259; `-0.50e-3` belongs to both |
| JsonStandard.ClefExample | viewer/src/json_parser.cpp:279-314 | the escapes of the example in section 7 of RFC 8259 give the four bytes of U+1D11E |
| JsonRoundTrip.SkipsBlank | viewer/src/json_parser.cpp:114-122 | a run of the four blanks is skipped to its end and no further |
| JsonRoundTrip.ReadsHex | viewer/src/json_parser.cpp:266-277 | four hexadecimal digits are read as the number they write, and no further |
| JsonReader.NoNewlineBetween | viewer/src/json_parser.cpp:97-105 | skipping over text without newlines keeps the line number |
| JsonParser.Parser.constructor | viewer/src/json_parser.cpp:72-93 | starts at offset 0 on line 1 without error |
| JsonParser.Parser.Advance | viewer/src/json_parser.cpp:97-105 | one byte on; the line stays one more than the newlines before the position |
| JsonParser.Parser.Fail | viewer/src/json_parser.cpp:107-112 | records offset, line and cause, and moves nothing |
| JsonParser.Parser.SkipBlanks | viewer/src/json_parser.cpp:114-122 | the loop stops where the longest run of blanks ends |
| JsonParser.Parser.ExpectByte | viewer/src/json_parser.cpp:124-130 | consumes the byte or fails at it |
| JsonParser.Parser.ParseLiteral | viewer/src/json_parser.cpp:152-169 | reads `true`, `false` or `null`, in that order of trial |
| JsonParser.Parser.ConsumeDigits | viewer/src/json_parser.cpp:188-194 | consumes the longest run of digits and says whether there was one |
| JsonParser.Parser.ConsumeFraction | viewer/src/json_parser.cpp:196-202 | an optional point with any number of digits |
| JsonParser.Parser.ConsumeExponent | viewer/src/json_parser.cpp:204-213 | an optional exponent, which needs a digit |
| JsonParser.Parser.ParseNumber | viewer/src/json_parser.cpp:171-186 | consumes a number and hands on its text |
| JsonParser.Parser.ReadHex4 | viewer/src/json_parser.cpp:266-277 | the value of four hexadecimal digits, or failure at the first other byte |
| JsonParser.Parser.ParseLowSurrogate | viewer/src/json_parser.cpp:293-314 | joins a following low surrogate, or writes the high one alone and the next escape as it stands |
| JsonParser.Parser.ParseUnicodeEscape | viewer/src/json_parser.cpp:279-291 | dispatches on high surrogates |
| JsonParser.Parser.ParseEscape | viewer/src/json_parser.cpp:251-264 | the eight simple escapes and `\u` |
| JsonParser.Parser.ParseStringChar | viewer/src/json_parser.cpp:237-249 | one character or escape; control characters are refused |
| JsonParser.Parser.ParseString | viewer/src/json_parser.cpp:224-235 | a string up to its closing quote |
| JsonParser.Parser.ParseValue | viewer/src/json_parser.cpp:132-150 | a value within the depth bound, by its first byte |
| JsonParser.Parser.ParseArrayItems | viewer/src/json_parser.cpp:345-358 | items in order up to the closing bracket |
| JsonParser.Parser.ParseObjectMembers | viewer/src/json_parser.cpp:371-393 | members up to the closing brace, later ones replacing earlier ones |
| JsonParser.Parser.Run | viewer/src/json_parser.cpp:76-86 | one value with blanks around and nothing behind it |
| JsonParser.ParseJson | viewer/src/json_parser.cpp:398-406 | the value of the text, or the offset, line and cause of the first error, the line being one more than the newlines before the offset |
| JsonSurrogates.GreedyIsStandardIff | viewer/src/json_parser.cpp:279-314 | the decoded bytes of a string are the standard ones exactly when no even run of high surrogates stands before a low one |
| JsonSurrogates.LostPairExample | viewer/src/json_parser.cpp:293-314 | high, high, low: the parser writes three lone surrogates where the standard reads one and a pair |
| JsonSurrogates.KeptMeaning | viewer/src/json_parser.cpp:279-314 | a text whose strings all keep their pairs has its standard meaning |
| JsonRoundTrip.ReadsNumber | viewer/src/json_parser.cpp:171-213 | every number, of RFC 8259 or with leading zeros or a bare point, is consumed whole, up to a byte that cannot continue it |
| JsonRoundTrip.ReadsString | viewer/src/json_parser.cpp:224-314 | every spelled string is read to its end and decoded |
| JsonRoundTrip.ReadsValue | viewer/src/json_parser.cpp:132-393 | every spelled value at any depth is read to its end with its meaning, or refused when too deep |
| JsonRoundTrip.ReadsDocument | viewer/src/json_parser.cpp:76-406 | every text of the grammar, which includes all of RFC 8259, with any blanks is accepted with its meaning when no value in it has more than 200 containers around it, and refused otherwise |
| JsonRoundTrip.ReadsStandardDocument | viewer/src/json_parser.cpp:76-406 | the value is the standard one whenever no string loses a surrogate pair |
| JsonAcceptance.AcceptedIff | viewer/src/json_parser.cpp:76-406 | a text is accepted exactly when it is a value of the grammar with blanks around and at most 200 containers around any value in it; the value read is then its meaning |
| DuplicateSignal.DuplicateSignalPrefix | src/ici/analysis/_dup_signal.py:92-98 | entry `k` of the list counts the signal-bearing lines among the first `k` |
| DuplicateSignal.HasDuplicateSignal | src/ici/analysis/_dup_signal.py:101-110 | two lookups accept a window exactly when it has at least one signal line, at least a quarter of its lines carry signal, and from six lines on at least two do |
| CoveredIntervals.IntervalContains | src/ici/analysis/_dup_matching.py:70-72 | looking at one candidate entry decides membership in the union |
| CoveredIntervals.AddInterval | src/ici/analysis/_dup_matching.py:75-86 | the list stays sorted without overlapping or adjacent entries and covers exactly what it covered before and the new range |
| CoveredIntervals.CanonicalUnique | src/ici/analysis/_dup_matching.py:75-86 | a list of that form is determined by the positions it covers, so the order of additions does not matter |
| RollingHash.RollForward | src/ici/analysis/_dup_matching.py:93-112 | the masked update of a window's hash is the direct polynomial hash of the next window modulo 2^128 |
| RollingHash.AppendRecord | src/ici/analysis/_dup_matching.py:93-112 | reducing at every step of the first window loses nothing |
| RollingHash.ComputeWindowHashes | src/ici/analysis/_dup_matching.py:93-112 | one hash per full window, each the direct polynomial hash; window sizes below one are refused |
| RollingHash.DigestMeans | src/ici/analysis/_dup_matching.py:15-17 | the hash of a window is the sum of its records weighted by powers of 2^40 + 435, in the least 128 bits |
| DuplicateRuns.MaximalRunUnique | src/ici/analysis/_dup_matching.py:264-349 | two maximal runs on one alignment that share a position are the same run |
| DuplicateRuns.RunHoldsSeed | src/ici/analysis/_dup_matching.py:123-152 | every reportable run holds a window that is a seed on both sides with equal lines |
| DuplicateRuns.EqualWindowsShareDigest | src/ici/analysis/_dup_matching.py:89-112 | windows of equal lines share a digest whatever the record hash |
| WindowIndex.IndexFileWindows | src/ici/analysis/_dup_matching.py:123-152 | adds exactly the seeds of one file, in order, each under its language and digest, within the limit, or shows a key that exceeds it; the region cache never admits or drops a window |
| WindowIndex.BuildWindowMap | src/ici/analysis/_dup_matching.py:155-171 | the index lists exactly the seeds of all files and no digest has more seeds than the limit, or a key that exceeds it is shown |
| SeedMatching.ComparisonBudget.Equal | src/ici/analysis/_dup_matching.py:183-194 | compares two lines, or reports that the comparison bound is exceeded |
| SeedMatching.ComparisonBudget.AcceptsSeedPair | src/ici/analysis/_dup_matching.py:196-228 | counts every pair against the bound of its kind; a pair of one file passes when it is at least a window apart |
| SeedMatching.SeedIsEqual | src/ici/analysis/_dup_matching.py:250-261 | decides whether two windows agree line by line |
| SeedMatching.ExtendBackward | src/ici/analysis/_dup_matching.py:264-289 | grows while lines agree inside the regions, and stops only where the run cannot grow back; all lines grown over were compared |
| SeedMatching.ExtendForward | src/ici/analysis/_dup_matching.py:292-320 | grows to the bound of the regions or of the other copy, and stops only there or at a differing line; all lines grown over were compared |
| SeedMatching.ExtendSeed | src/ici/analysis/_dup_matching.py:323-349 | the grown run contains the seed, agrees throughout, is maximal or ends where the copies meet, and reaches back to the start of its run unless the copies meet at the end of the seed |
| SeedMatching.RawMatchSearch.FollowSeed | src/ici/analysis/_dup_matching.py:384-425 | after an accepted pair with equal lines, some reported span reaches it, and the first lines of every accepted pair have been compared; spans stay reportable and distinct |
| SeedMatching.RawMatchSearch.ReportRun | src/ici/analysis/_dup_matching.py:402-423 | reports a maximal run not reported before and marks its positions |
| SeedMatching.LocatedTells | src/ici/analysis/_dup_matching.py:352-370 | in files whose lines are indexed in ascending order, the indexed lines between the two ends a match names are exactly those of its run, on both sides |
| SeedMatching.FollowAll | src/ici/analysis/_dup_matching.py:231-247 | every pair of every bucket is recorded and followed in order and no bound is exceeded, or the bound named is exceeded by the pairs, comparisons or spans recorded |
| SeedMatching.CrossFileComplete | src/ici/analysis/_dup_matching.py:373-425 | once all buckets are followed, no reportable span across two files is missing |
| SeedMatching.VisitFollowed | src/ici/analysis/_dup_matching.py:231-247 | once all buckets are followed, every two seeds under one digest have been counted and followed |
| SeedMatching.FindRawMatches | src/ici/analysis/_dup_matching.py:373-425 | matches are returned only if no bound is exceeded: no digest has more seeds than allowed, and the record of all seed pairs of the index, each once, and of the lines compared for them, among them all lines of all spans reported and the first lines of all pairs not too close, stays within the bounds. Then every match names the files, the physical lines and the length of a maximal aligned run of equal lines in one region per side, one language, with a signal window, the copies in one file disjoint and clipped only where they would meet; none is reported twice; across files none is missing; within a file every equal seed pair is reached; each was grown from a seed pair no earlier one reaches; for every record hash. A refusal names a bound that is exceeded: by seeds under one digest, by distinct seed pairs or file pairs of the index, by comparisons made for such pairs, or by distinct reportable spans |
| SeedLog.NoneTwice | src/ici/analysis/_dup_matching.py:231-247 | the visiting order lists no pair of seeds twice, so the counters count different pairs |
| SeedLog.VisitOrder | src/ici/analysis/_dup_matching.py:231-247 | pairs of seeds are visited by language, digest, and the places of the first and the second seed |
| SameFileMatches.ReportedIffApart | src/ici/analysis/_dup_matching.py:264-425 | a maximal run of one file with a signal window is reported exactly when it is no longer than the distance of its copies; a longer one comes in pieces clipped where the copies would meet |
| SameFileMatches.RunThrough | src/ici/analysis/_dup_matching.py:264-349 | every aligned run of equal lines lies in a maximal one |
| SameFileMatches.PieceLies | src/ici/analysis/_dup_matching.py:264-349 | a reported piece of a run longer than the distance of its copies is as long as that distance, and starts at the start of the run, or where it ends with the seed it was grown from if that is later |
| SameFileMatches.SeedOutcome | src/ici/analysis/_dup_matching.py:264-425 | a pair of equal seeds of one file is covered whole by a reported span if the run through it is no longer than the distance of the seeds, and otherwise exactly when the piece of some origin in the run holds it; its first line is always covered |
| SameFileMatches.PartlyCovered | src/ici/analysis/_dup_matching.py:373-425 | five equal lines, window two: every answer leaves the seeds at 1 and 3 covered in part, whatever the record hash |
| MatchFilter.BySizeSorts | src/ici/analysis/_dup_matching.py:428-431 | sorting permutes, orders by falling size and keeps the order of equal sizes |
| MatchFilter.IsSubsumed | src/ici/analysis/_dup_matching.py:434-447 | whether some kept match of the same files overlaps on both sides |
| MatchFilter.RedundantMeans | src/ici/analysis/_dup_matching.py:436-443 | the test on the ends of the ranges holds exactly when some line is in both first ranges and some line in both second ones |
| MatchFilter.FilterSubsumedMatches | src/ici/analysis/_dup_matching.py:428-448 | by falling size, a match is kept exactly when it shares no lines on both sides with one kept before it; so kept matches never share lines on both sides, and every dropped one does with a kept one of the same files at least as long |
| RegionProjection.ScopeIsUnique | src/ici/analysis/_dup_regions.py:20-41 | the scope of a line is determined by the set of intervals |
| RegionProjection.SharedSegment | src/ici/analysis/_dup_regions.py:16-17 | two lines share a segment exactly when no barrier lies in the half-open gap between them |
| RegionProjection.SegmentIsCount | src/ici/analysis/_dup_regions.py:16-17 | the segment is the number of barriers at or before the line |
| RegionProjection.TopIsNarrowest | src/ici/analysis/_dup_regions.py:29-39 | after the lazy deletions the top of the heap is the scope of the narrowest enclosing interval; of equally narrow ones the one that ends first, then the one with the smallest identifier |
| RegionProjection.ProjectRegions | src/ici/analysis/_dup_regions.py:20-41 | every line not below an earlier one gets the scope of its narrowest interval, or 0; every line gets as its segment the number of barriers at or before it |
| SplicedSource.SpliceCppSource | src/ici/analysis/_cpp_dup_tokenization.py:339-366 | the spliced text, the logical offset of every physical line start, and the last physical line |
| SplicedSource.LogicalAt | src/ici/analysis/_cpp_dup_tokenization.py:339-366 | every character outside a splice keeps its place among the surviving ones |
| SplicedSource.OriginIsUnique | src/ici/analysis/_cpp_dup_tokenization.py:339-366 | every logical offset comes from exactly one physical character, the same one |
| SplicedSource.LineOfOrigin | src/ici/analysis/_cpp_dup_tokenization.py:195-203 | `line_at` of a logical offset is one more than the newlines before its physical character, through any runs of splices |
| SplicedSource.LineOnlyOfOrigin | src/ici/analysis/_cpp_dup_tokenization.py:195-203 | `line_at` has a line exactly for the offsets that some physical character moved to |
| CloneGraph.CollectComponent | src/ici/analysis/_dup_clustering.py:84-98 | the depth-first search collects exactly the connected component, each location once |
| CloneGraph.CollectComponents | src/ici/analysis/_dup_clustering.py:82-98 | the clusters partition the locations into connected components |
| CloneClustering.BuildGraph | src/ici/analysis/_dup_clustering.py:73-80 | two locations are adjacent exactly when a match pairs them; every location has the length of its longest match |
| CloneClustering.OrderedUnique | src/ici/analysis/_dup_clustering.py:99-107 | with distinct file paths there is only one way to order the components |
| CloneClustering.RepresentativeIsBest | src/ici/analysis/_dup_clustering.py:113-121 | no location of a group has a longer match, or an equally long one and a smaller location |
| CloneClustering.OrderClusters | src/ici/analysis/_dup_clustering.py:99-107 | sorting inside and between clusters keeps the partition and gives the canonical order |
| CloneClustering.DuplicatedPositions | src/ici/analysis/_dup_clustering.py:109-140 | a position is counted exactly when it is a code line of an occurrence that is not the first of its group |
| CloneClustering.ClusterMatches | src/ici/analysis/_dup_clustering.py:68-152 | the result is that of the ordered components of the match graph |
| CloneClustering.ResultIsCanonical | src/ici/analysis/_dup_clustering.py:68-152 | with distinct paths any order and any repetition of the matches gives the same result |
| CloneClustering.GroupsAreComponents | src/ici/analysis/_dup_clustering.py:82-98 | every matched location is in exactly one group, together with exactly the locations a chain of matches joins it to |
| CloneClustering.RateAtMostOne | src/ici/analysis/_dup_clustering.py:109-152 | there are at most as many duplicated positions as code lines |
| Orders.StringLessMeans | src/ici/analysis/_dup_clustering.py:99-107 | a string is less exactly when it has the smaller character at the first difference, or ends there |
| CloneOrder.KeyOrder | src/ici/analysis/_dup_clustering.py:99-107 | the sort key orders occurrences by path, then first line, then last line |
| CloneOrder.ClustersRead | src/ici/analysis/_dup_clustering.py:99-152 | groups count from 1 and come by falling length, then falling number of occurrences, then their first difference; occurrences come by path and lines; the length of a group is the greatest size of a match with one of its occurrences, and its representative the first occurrence with such a match; duplicated are exactly the code lines in an occurrence after the first |
| CloneOrder.MatchesAreGrouped | src/ici/analysis/_dup_clustering.py:73-98 | both occurrences of a match are in one and the same group |
| CloneOrder.OneMatch | src/ici/analysis/_dup_clustering.py:109-152 | one match of two stretches of one file: the one that starts first is the original, and the code lines of the other one are duplicated |
| Publication.Publish | scripts/assemble_pyz.py:390-399 | renaming the temporary over its output makes this output new and leaves every other one as it was |
| Publication.RestoreBackup | scripts/assemble_pyz.py:302-335 | renaming the backup over a published output restores the previous file |
| Publication.RestoreAbsence | scripts/assemble_pyz.py:302-335 | removing a published output that did not exist restores its absence |
| Publication.Strand | scripts/assemble_pyz.py:302-335 | a failed restoration leaves the previous file linked under its backup name |
| Publication.RemoveAuxiliary | scripts/assemble_pyz.py:410-421 | removing a temporary or backup touches no output and no recovery copy |
| AssemblyTransaction.Disk.Replace | scripts/assemble_pyz.py:392-397 | rename moves the entry, does nothing between links of one file, and changes nothing when it fails |
| AssemblyTransaction.CreateTemp | scripts/assemble_pyz.py:142-179 | a new file with the whole payload under an unused name; otherwise nothing is recorded, nothing is left unless two steps fail, and either some step failed or all 32 names tried were taken |
| AssemblyTransaction.CreateBackup | scripts/assemble_pyz.py:182-217 | a second link to the present file under an unused name; otherwise nothing is recorded, nothing is left unless two steps fail, and either some step failed or all 32 names tried were taken, if the output is the file expected |
| AssemblyTransaction.AssertPreviousOutput | scripts/assemble_pyz.py:220-246 | succeeds only when the output is what it was and its backup links the same file |
| AssemblyTransaction.VerifyPublished | scripts/assemble_pyz.py:249-282 | succeeds exactly when the name holds the payload and the step does not fail |
| AssemblyTransaction.PublishAll | scripts/assemble_pyz.py:389-406 | succeeds exactly when none of its steps fails, the read-back of every output among them; after success every output is published; after a failure every output is old or new with its backup in place |
| AssemblyTransaction.RestoreOne | scripts/assemble_pyz.py:302-335 | undoes one publication unless its step fails, and then records where the previous file is |
| AssemblyTransaction.Rollback | scripts/assemble_pyz.py:302-335 | every published output is restored or recorded as a failure with the place of its previous file, only such outputs are recorded, and any are recorded exactly when a step of the rollback itself failed |
| AssemblyTransaction.RemoveBackups | scripts/assemble_pyz.py:410-415 | backups go, outputs stay; succeeds exactly when no step fails |
| AssemblyTransaction.CleanUp | scripts/assemble_pyz.py:416-423 | on success exactly the recorded temporaries and backups are gone; outputs and recovery copies stay; succeeds exactly when no step fails |
| AssemblyTransaction.Assemble | scripts/assemble_pyz.py:338-423 | for every schedule of failing steps: all outputs untouched, or all new, or rolled back with every output untouched or recorded with its previous file still linked; nothing else in the directories changes; an output stays stranded only if at least two steps fail; with at most one failing step no auxiliary name is left, and an unpublished or rolled-back run leaves the directories as they were. It completes only if no step failed. With unused names at hand the first failing step decides: before the first replacement nothing is published, from there to the last flush everything is rolled back, behind that the backups are not all discarded, and the number of steps of each phase is that of the outputs, of those that existed and of their directories |
| AssemblyTransaction.DuplicatesMean | scripts/assemble_pyz.py:343-345 | fewer different outputs than outputs means that one is listed twice |
| ControlTokens.ValidateDelimiters | src/ici/analysis/_cpp_cognitive.py:167-179 | accepts exactly the token lists whose delimiters of all kinds pair up |
| ControlTokens.BalanceFindsPartner | src/ici/analysis/_cpp_cognitive.py:225-233 | counting one kind stops where the full stack is back to what it was before the bracket |
| ControlTokens.BalancedAgreesWithStack | src/ici/analysis/_cpp_cognitive.py:225-233 | on validated tokens the one-kind counter never runs off the end, stops at the partner of the full stack, and consumes a stretch well nested in all kinds |
| ControlParser.CppControlParser.constructor | src/ici/analysis/_cpp_cognitive.py:191-199 | starts with all totals and depths zero |
| ControlParser.CppControlParser.TakeBalanced | src/ici/analysis/_cpp_cognitive.py:225-233 | the loop stops behind the closing bracket of its kind, or fails |
| ControlParser.CppControlParser.ParseCompound | src/ici/analysis/_cpp_cognitive.py:235-239 | statements up to the closing brace, totals added up, depths unchanged |
| ControlParser.CppControlParser.ParseControlledBody | src/ici/analysis/_cpp_cognitive.py:241-247 | a block deepens the nesting, any other statement is counted as unbraced |
| ControlParser.CppControlParser.ParseIf | src/ici/analysis/_cpp_cognitive.py:258-296 | the loop over an else-if chain has the outcome and score of the recursive reading; depths are restored |
| ControlParser.CppControlParser.ParseDo | src/ici/analysis/_cpp_cognitive.py:298-309 | body, `while`, header and semicolon; the loop depth returns to its value on entry |
| ControlParser.CppControlParser.ParseCatch | src/ici/analysis/_cpp_cognitive.py:311-316 | one handler with its increment |
| ControlParser.CppControlParser.ParseTry | src/ici/analysis/_cpp_cognitive.py:318-328 | a compound and at least one handler |
| ControlParser.CppControlParser.ParseHeaded | src/ici/analysis/_cpp_cognitive.py:330-354 | `for`, `while` and `switch`; loop and switch depths return to their values on entry |
| ControlParser.CppControlParser.ParseSimple | src/ici/analysis/_cpp_cognitive.py:356-428 | a token run up to its `;` or `:` outside parentheses and braces, with the same refusals |
| ControlParser.CppControlParser.ParseStatement | src/ici/analysis/_cpp_cognitive.py:430-457 | dispatch behind the attributes within the depth bound; the recursion depth is restored also on failure |
| ControlParser.CppControlParser.Parse | src/ici/analysis/_cpp_cognitive.py:201-211 | a compound with trailing handlers, then statements, to the last token |
| TokenRuns.RunReads | src/ici/analysis/_cpp_cognitive.py:364-428 | before every token of a plain run the two counters of the parser are the parentheses and the braces open there, whatever the square brackets |
| TokenRuns.NetIsStack | src/ici/analysis/_cpp_cognitive.py:167-181 | in a stretch the delimiter check accepts, the counts of open parentheses and braces are those of its stack |
| TokenRuns.DelimitedIsRun | src/ici/analysis/_cpp_cognitive.py:364-428 | every delimited stretch without an early end is a plain run |
| TokenRuns.PlainReads | src/ici/analysis/_cpp_cognitive.py:356-428 | a plain run is consumed whole, unless it starts with a jump or label out of place |
| TokenRuns.AttributesRead | src/ici/analysis/_cpp_cognitive.py:254-256 | any number of attribute groups is consumed |
| TokenRuns.HeadReads | src/ici/analysis/_cpp_cognitive.py:268-281 | every head of an `if`, `constexpr` and `consteval` ones included, is consumed and classified |
| CognitiveScore.StatementReads | src/ici/analysis/_cpp_cognitive.py:430-457 | a spelled statement is consumed up to the pieces it leaves, with its recursive score, exactly when it is within the bounds, and refused otherwise |
| CognitiveScore.LeftSits | src/ici/analysis/_cpp_cognitive.py:393-428 | what a statement leaves is the end of its text, a list of plain runs |
| CognitiveScore.PiecesRead | src/ici/analysis/_cpp_cognitive.py:235-239 | the pieces left are read in the enclosing list, one statement each, unless one starts with a jump or label out of place |
| CognitiveScore.ConditionalReads | src/ici/analysis/_cpp_cognitive.py:258-296 | an `if` with its chain scores 1 + nesting once and 1 + nesting per `else`, nothing more for the `if` of an else-if |
| CognitiveScore.PlacedBodyIsScored | src/ici/analysis/_cpp_cognitive.py:201-457 | a spelled function body with no misplaced piece is consumed to its last token with the recursive score exactly when it is within the bounds, and refused otherwise |
| ConditionalExpressions.StatementStops | src/ici/analysis/_cpp_cognitive.py:241-457 | a statement in which a piece is left before an `else`, a `while` of a `do` or a further handler is refused, or its reading ends before pieces that are followed by a stray `else` or `catch` |
| ConditionalExpressions.BodyIsScored | src/ici/analysis/_cpp_cognitive.py:201-457 | every spelled function body, cut statements included: consumed to its last token with the recursive score exactly when it is within the bounds and no piece is left before an `else`, the `while` of a `do` or a further handler; refused otherwise |
| ConditionalExpressions.AcceptedIffOnePiece | src/ici/analysis/_cpp_cognitive.py:283-292 | `{ if (...) S else T }` within the bounds is accepted exactly when `S` has no colon outside parentheses and braces |
| ConditionalExpressions.DoExample | src/ici/analysis/_cpp_cognitive.py:298-309 | the tokens of `{ do x = c ? a : b; while (y); }` are refused |
| ConditionalExpressions.IndexExample | src/ici/analysis/_cpp_cognitive.py:283-292 | the tokens of `{ if (x) v[c ? a : b]; else y; }` are refused |
| ConditionalExpressions.SwitchExample | src/ici/analysis/_cpp_cognitive.py:330-363 | `{ switch (x) case k: break; }` is refused |
| LabelledStatements.LabelledScore | src/ici/analysis/_cpp_cognitive.py:405-428 | an accepted function body scores what is meant when each label takes the next statement along, less the increments of every labelled statement times the levels its label stands deeper than the list |
| LabelledStatements.LabelledPair | src/ici/analysis/_cpp_cognitive.py:405-428 | when one statement ends with a label for the next, the score of both is the one meant exactly when nothing is missed inside either and the label stands at the level of the list or the labelled statement has no increment |
| LabelledStatements.LabelBeforeElse | src/ici/analysis/_cpp_cognitive.py:283-292 | `if (...) label: S else` is refused, whatever `S`, unless `S` takes the `else` |
| LabelledStatements.LabelExample | src/ici/analysis/_cpp_cognitive.py:330-354 | `{ switch (x) case k: while (y) z; }` scores 2 where 3 is meant |
| StatementBounds.LegalMeans | src/ici/analysis/_cpp_cognitive.py:258-457 | the bounds of the parser are: at most 128 statements inside each other, at most 128 links per else-if chain, and every jump and label inside a fitting loop or switch, the pieces a statement leaves counting as part of the list around it |
| Bracing.BracedWellFormed | src/ici/analysis/_cpp_cognitive.py:241-247 | braces around controlled statements keep a tree well formed; no `else` or handler changes its partner |
| Bracing.BracedLegal | src/ici/analysis/_cpp_cognitive.py:235-247 | braces around controlled statements that continue no `else` and leave no piece use up none of the nesting bound |
| Bracing.BracingKeepsCognitiveIff | src/ici/analysis/_cpp_cognitive.py:241-296 | braces around any controlled statements never lower the cognitive score, and keep it exactly when none is around the `if` that continues an `else` |
| Bracing.BracingKeepsVerdict | src/ici/analysis/_cpp_cognitive.py:241-296 | braces around controlled statements that continue no `else` and leave no piece keep the verdict of the parser and the cognitive score |
| Bracing.LinkExample | src/ici/analysis/_cpp_cognitive.py:284-296 | `else if (h) S` scores 1 + n, `else { if (h) S }` scores n + 2 more |
| ExpressionScore.Scan | src/ici/analysis/_cpp_cognitive.py:129-153 | counts jumps, `?` and logical operators that do not continue a sequence of the same operator |
| ExpressionScore.ScoreCounts | src/ici/analysis/_cpp_cognitive.py:129-153 | the score is the number of `break`, `continue`, `goto` and `?` and of logical sequences |
| ExpressionScore.SequencesCount | src/ici/analysis/_cpp_cognitive.py:129-153 | the sequences are the logical operators with no equal one before them, but for one of thirteen separators or the other operator in between |
| ExpressionScore.InsertedBrace | src/ici/analysis/_cpp_cognitive.py:129-153 | an inserted brace costs one exactly when a logical sequence runs across its place |
| CognitiveMetric.Measure | src/ici/analysis/_cpp_cognitive.py:125-164 | the metric of a token list: refused beyond the token bound, with mismatched delimiters or outside the grammar; otherwise parser score plus token score |
| CognitiveMetric.BracingTokenScore | src/ici/analysis/_cpp_cognitive.py:129-153 | bracing one statement adds to the token score exactly the logical sequence it cuts |
| CognitiveMetric.BracingMetric | src/ici/analysis/_cpp_cognitive.py:125-164 | bracing one controlled statement that continues no `else` raises the metric of a function body by exactly the logical sequence it cuts |
| CognitiveMetric.CutSequenceExample | src/ici/analysis/_cpp_cognitive.py:129-153 | `if (a && b) c && d;` scores one less than its braced form |
| CognitiveMetric.JoinedBracketsRefused | src/ici/analysis/_cpp_cognitive.py:167-181 | an index in an index whose closing brackets are read as one `]]` is refused, whatever stands around it |
| CognitiveMetric.SeparateBrackets | src/ici/analysis/_cpp_cognitive.py:167-181 | closed one by one, the two brackets change nothing about the verdict of the delimiter check |
| CognitiveMetric.JoinedBracketsExample | src/ici/analysis/_cpp_cognitive.py:34-127 | the tokens of `{ a[b[i]]; }` have no metric |
| BoundaryMerge.AbsorbBoundary | src/ici/analysis/_cpp_function_boundary_parser.py:651-686 | maxima, sorted unions and flags of a grouped boundary and one more observation |
| BoundaryMerge.CollectSorts | src/ici/analysis/_cpp_function_boundary_parser.py:651-681 | a sorted union is ascending and has exactly the members of both sides |
| BoundaryMerge.MergeBoundaries | src/ici/analysis/_cpp_function_boundary_parser.py:596-710 | the returned list is that of the per-location fold: rejected once two shapes differ, dropped unless covered, stably sorted; the returned warnings are those of the fold, in order, each once |
| MergeOrder.StatusMeans | src/ici/analysis/_cpp_function_boundary_parser.py:611-686 | a location is grouped exactly when all its observations agree, and then holds the maxima, unions and flags over all of them |
| MergeOrder.KeptIff | src/ici/analysis/_cpp_function_boundary_parser.py:611-702 | a location is kept exactly when it was observed, its observations agree and their configurations are the successful ones of its file |
| MergeOrder.MergeIsUnique | src/ici/analysis/_cpp_function_boundary_parser.py:651-686 | the merge of a location depends only on which observations there are |
| MergeOrder.OrderIndependent | src/ici/analysis/_cpp_function_boundary_parser.py:596-710 | without ties every order of the observations gives the same list |
| MergeOrder.OrderMattersIffTied | src/ici/analysis/_cpp_function_boundary_parser.py:706-710 | for arbitrary columns, 0 included, the list depends on the order exactly when two kept boundaries tie in the sort key |
| MergeOrder.TieMeans | src/ici/analysis/_cpp_function_boundary_parser.py:706-709 | a tie is a missing column against column 0 on one line of one file under one name |
| MergeOrder.MergedIsOrderFree | src/ici/analysis/_cpp_function_boundary_parser.py:596-710 | for start columns that are missing or positive, the list depends only on which observations there are |
| MergedList.MergedInOrder | src/ici/analysis/_cpp_function_boundary_parser.py:706-710 | the list comes by path, then first line, then first column with a missing one as 0, then name |
| MergedList.MergedHolds | src/ici/analysis/_cpp_function_boundary_parser.py:651-686 | a boundary merged from several observations holds their configurations and metrics, ascending, each once; it varies exactly when one of them does or two configurations measured different lines, statements or parameters |
| MergeWarnings.WarningsMean | src/ici/analysis/_cpp_function_boundary_parser.py:604-705 | exactly these warnings are issued, each once: a location whose observations differ in shape; one whose first two or more observations agree in shape and vary in metrics; an agreeing one some successful configuration did not observe; a kept one that depends on the preprocessor |
| MergeWarnings.WarningsOrderFree | src/ici/analysis/_cpp_function_boundary_parser.py:604-705 | whether any warning is issued does not depend on the order of the observations, nor which, apart from metric warnings on a line with a shape warning |
| MergeWarnings.OrderDecidesMetricsIff | src/ici/analysis/_cpp_function_boundary_parser.py:617-672 | one order gives a metric warning and another does not exactly when some location on its line has two observations of one shape that vary and none whose observations all have one shape has |
| MergeWarnings.MetricOrderExample | src/ici/analysis/_cpp_function_boundary_parser.py:625-672 | three observations as three configurations write them, whose order decides whether the metric warning is issued |
| IncludeForest.ClimbsIffPreorder | src/ici/analysis/_cpp_include_trace.py:49-63 | depths are the preorder of some forest exactly when they start at one and never climb by more than one |
| IncludeForest.PreorderIsUnique | src/ici/analysis/_cpp_include_trace.py:49-63 | a listing determines its forest |
| IncludeTrace.Opens | src/ici/analysis/_cpp_include_trace.py:43-63 | one entry is accepted exactly when it is within the depth bound, at most one level below what is open, and names a pseudo file or an existing one; what is open above it stays open, and the edge leads to it from the file one level up, unless either is a pseudo file |
| IncludeTrace.TrackForest | src/ici/analysis/_cpp_include_trace.py:43-63 | the entries of a subtree leave the stack below it unchanged and yield exactly its edges, whatever came before |
| IncludeTrace.ParseIncludeTrace | src/ici/analysis/_cpp_include_trace.py:66-104 | splits the text into lines; the loop has the outcome of their entries, count and unexpected lines, or raises what the first refused line raises |
| IncludeTrace.RefusalIsUnique | src/ici/analysis/_cpp_include_trace.py:43-104 | only one line is refused first, and for one reason |
| IncludeTrace.ParseMeans | src/ici/analysis/_cpp_include_trace.py:66-104 | a trace is accepted exactly when its entries are the preorder listing of a forest of existing files within the bounds; that forest gives the edges, and unaccounted lines come back in order |
| TraceLines.CharacterClasses | src/ici/analysis/_cpp_include_trace.py:13 | the ten characters that end a line and the twenty-nine of `\s` |
| TraceLines.SplitMeans | src/ici/analysis/_cpp_include_trace.py:79 | the lines with their ends are the text; a carriage return takes a newline behind it along, and only the last line may lack an end |
| TraceLines.SplitIsUnique | src/ici/analysis/_cpp_include_trace.py:79 | there is only one way to cut a text like that |
| TraceLines.EntryMeans | src/ici/analysis/_cpp_include_trace.py:13 | an entry is its dots, one blank, and a path that starts with no white space and holds no newline |
| TraceLines.PseudoMeans | src/ici/analysis/_cpp_include_trace.py:55-57 | a pseudo file has its name in angle brackets |
| TraceLines.StripMeans | src/ici/analysis/_cpp_include_trace.py:80 | exactly the carriage returns at the end of a line are stripped |
| TraceLines.TrailerMeans | src/ici/analysis/_cpp_include_trace.py:83-87 | the list of include guards begins with its header line |
| TraceLines.BoundsMean | src/ici/analysis/_cpp_include_trace.py:10-11 | accepted are exactly the listings of existing files at most 4096 deep with at most 200000 entries and trailer lines |
| IncludeTrace.RoundTrip | src/ici/analysis/_cpp_include_trace.py:43-104 | printing a forest whose paths fit on a line, one dot per level, and parsing the text gives exactly its edges, or a refusal beyond the bounds |
| IncludeTrace.ReadBackIff | src/ici/analysis/_cpp_include_trace.py:78-97 | a printed forest is read back entry by entry exactly when no path is empty, starts with white space or holds a line end |
| IncludeTrace.CutPathExample | src/ici/analysis/_cpp_include_trace.py:78-97 | a path with a newline is read as another file, and the rest of it comes back as an unexpected line |

## Left out

- JsonParser.Parser.ParseNumber: keeps the text of a number; `strtod` is foreign, so its value and its refusals are not modelled.
- JsonAcceptance.AcceptedIff: which error a refused text gets, and at which offset, is that of the functions in `JsonReader`; no other claim is made about it.
- SameFileMatches.SeedOutcome: for a run longer than the distance of its copies, which seeds become origins depends on the order of their digests, which the record hash decides; the condition is in terms of the origins.
- CloneClustering.ClusterMatches: SHA-256 fingerprint, language and snippet of a group are represented by the location they are computed from.
- AssemblyTransaction.Assemble: files are inodes with contents and names; permissions, `fsync`, descriptors, identity fields of `stat` and the reading of the two inputs are reduced to steps that may fail. Other processes do not change the directories meanwhile, generated names are never output names, and an interruption between a rename and the flag assigned after it is not modelled. Outputs are the places they lead to, while the code compares absolute paths: two paths that reach one file through a symbolic link in an ancestor directory, or through `..`, pass its test, and then one failing step behind both renames can leave a backup name or a rollback failure.
- IncludeTrace.ParseIncludeTrace: path resolution is an arbitrary function that does not change during the parse.
- MergeWarnings.WarningsOrderFree: the texts of the warnings, which kind, file and line determine.
- RegionProjection.ProjectRegions: the heap is an ordered list, so the internal arrangement of `heapq` is not modelled; nothing is said about the scope of a line below an earlier one, which no caller gives.
- MatchFilter.FilterSubsumedMatches: sorts a copy, so that the caller's list is reordered in place is not modelled.
- CognitiveMetric.Measure: starts from tokens; masking of literals, lambdas and directives and the tokenizer's pattern are not modelled (it matches `]]` before `]`, whatever brackets are open), nor are the texts of error messages.
- ConditionalExpressions.BodyIsScored: about spelled trees; which other token lists the parser accepts is not characterised.
- LabelledStatements.LabelledScore: about labels whose statement is the next one of a list; a label of a statement that stands before the `else` of its `if`, the `while` of its `do` or a further handler has no tree, and only the refusal before an `else` is stated.
- CognitiveMetric.BracingMetric: about bodies that both have a metric; braces may push a body over the token bound.
- Python's recursion limit and memory limits.
- `_top_level_brace_pairs`, `_line_number` and the mapping of diagnostics to source ranges in the boundary parser.
- `tokenize_cpp_lines` and `cpp_directive_lines` beyond splicing and line provenance.
- `evaluate_contract` and the predicates that decide whether a finding meets an expectation; the latter are an arbitrary relation.
- Process execution, timeouts, configuration validation, rendering, benchmarks and the network.
