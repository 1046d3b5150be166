# Differential testing of the consensus specification: a verified model

The repository runs a mechanised Ethereum consensus specification (SpecTec) against the Python
specification (eth2spec) and the production clients, and compares what they do and what code they cover.
This project models the logic of those tools in Dafny and proves what they are relied on for: that coverage
numbers survive filtering and merging, that SSZ values survive JSON, that a verdict says what it claims.

| file | models |
|---|---|
| `Coverage.dfy` | coverage totals, path matchers, and how totals depend on the scope |
| `Lcov.dfy`, `LcovFilter.dfy`, `NimbusReport.dfy` | the lcov parser, the Nimbus report filter, and counting after filtering |
| `ReportTexts.dfy`, `NimbusPaths.dfy` | what parser and filter make of the text of a report, and the filter's scope told from the path |
| `IrregularLines.dfy` | the lines that filter and parser do not read alike, and what they do to a count |
| `TekuReport.dfy`, `TekuFilter.dfy`, `TekuScope.dfy` | the event-driven JaCoCo parser, the in-place tree filter, and how the two views of one report relate |
| `Lodestar.dfy` | branch coverage over the branches that two reports share |
| `ChunkedMerge.dfy` | merging coverage files through a tool with a bounded number of inputs |
| `SszJson.dfy` | the type-directed printer and parser between SSZ values and JSON |
| `JsonForms.dfy` | what is printed for each kind of value, which JSON is accepted, and the error otherwise |
| `JsonDiff.dfy`, `DiffReports.dfy` | the structural diff of two JSON states with an output limit, what its reports say and their order |
| `PostStates.dfy` | grouping clients by post state and listing the pairs that disagree |
| `SequentialRun.dfy` | the test runner's chained and independent runs, and their verdict |
| `SpecCheck.dfy` | the checker against the official test vectors, for cases made of blocks |
| `TestGeneration.dfy` | generating chained test triples from a case made of blocks |
| `Wrappers.dfy`, `PyString.dfy`, `Sequences.dfy` | absent values, failures, the Python string operations in use, distinct and sorted sequences |

Code that changes variables or files step by step is a method with loops, or a class with fields, proved
against a function; the laws are lemmas about that function. External tools (SpecTec, eth2spec, the
converters' processes, the merge tools, `int()`, SHA-256, the byte encoding of SSZ) are arbitrary functions
given as parameters. What is used of them is written as a condition: SSZ decoding undoes encoding; a merge
tool gives the same result for merged groups as for all their members at once (only for comparing with the
flat merge, not for what the loop computes).

## Where the code does not keep a promise

In each of these cases the code is modelled as it is, and the exact condition is proved.

- Counting after filtering an lcov report. The filter looks at raw lines, the parser at stripped ones. They cut
  records differently at a line that only begins with the end marker and at an indented `SF:` line, and they name
  a file differently if there is a blank between `SF:` and the path or a backslash in it. A line is called regular
  if both cut alike there and the filter's scope says the same of both names. `NimbusReport.CountAfterFilter` shows
  that a report of regular lines counts right, up to unreadable counters that are dropped with their records.
  `IrregularLines.HarmlessIff` shows that this is the exact condition for the scope in use: every irregular line
  makes some report, otherwise regular and readable, count wrongly. `IrregularLines.PlainIsRegular` tells from the
  text that a line is regular, and `IrregularLines.BlankExample` and
  `IrregularLines.LongMarkerExample` are lines that are not.
- Counting after filtering a JaCoCo report. `parse_teku` matches file paths, the filter package names, so a
  source file of a dropped package can still match a prefix. `TekuScope.RootVersusParse` gives the difference
  exactly; `TekuScope.LeakExists` is a package for which it is not zero.
- The structural diff skips list elements that are equal in Python, and `True == 1`
  (`JsonDiff.SkipHidesDifference`). For two values of one SSZ type nothing is hidden (`JsonDiff.TypedDiffPaths`),
  and the output is that of a traversal without the skip (`JsonDiff.SkipChangesNothing`).
- The test runner takes an empty error text for no error, so a rejection without text fails the case even if
  the other client rejects too. `SequentialRun.SilentRejectionFails` gives the exact condition for every
  block list, `SequentialRun.SilentRejectionExample` a failing input.
- Test generation skips directories that are already complete, without recovering the states they lead to. A
  resumed case takes its blocks from the state that the blocks not skipped lead to. `TestGeneration.ResumedTriplesIff`
  says, for any set of complete directories, exactly when the missing triples come out right. A second run goes
  on behind a rejected block (`TestGeneration.RerunIff`, `TestGeneration.RerunGoesPastRejection`).

## Model

| member | source | states |
|---|---|---|
| Coverage.TotalAppend | compare_state_transition_coverage.py:24-30 | totals of two lists of records are the sum, part by part, of their totals |
| Coverage.TotalOfDisjointScopes | compare_state_transition_coverage.py:24-30 | the totals under the union of two scopes without a common file are the sum of the totals under each |
| Coverage.TotalOfNarrowerScope | compare_state_transition_coverage.py:95-127 | with counts that are not negative, a narrower scope never has a larger total in any part |
| Coverage.ExtendHits | compare_state_transition_coverage.py:112-116 | a path hits an extended pattern list exactly if it hits the list or the extension |
| Coverage.ExclusionsSplitTotals | compare_state_transition_coverage.py:110-127 | adding exclusions to a matcher takes away exactly the matching files that they hit, and increases no part |
| Coverage.InScopeIff | compare_state_transition_coverage.py:110-127 | without backslashes, a file is in scope exactly if its path is an exact include, begins with an include prefix or has a match of an include pattern, and none of the same holds for the exclusions |
| Lcov.LcovParser.Flush | compare_state_transition_coverage.py:238-250 | flushing adds the pending record, if it has a file, to the records counted so far, and starts afresh |
| Lcov.LcovParser.Read | compare_state_transition_coverage.py:252-266 | one line moves the parser as the machine moves; only a counter without a number fails |
| Lcov.ParseViews | compare_state_transition_coverage.py:231-269 | the line loop yields the totals of the report's records in scope, or fails exactly if some counter is not a number |
| Lcov.ParseLcov | compare_state_transition_coverage.py:231-269 | the same on text lines |
| Lcov.RestOfRecord | compare_state_transition_coverage.py:252-268 | in the middle of a record the parser flushes it with the last value given for each counter, then reads on as from the start |
| Lcov.RestIsRecords | compare_state_transition_coverage.py:231-269 | the records flushed by the line machine are the records that the report has when cut recursively, an unterminated last one included |
| ReportTexts.TotalsOfText | compare_state_transition_coverage.py:231-269 | for a report of whole records, each a file line, inner lines in any order and a terminator, the four totals are the sums, over the records in scope, of the numbers behind the last `LH:`, `LF:`, `BRH:` and `BRF:` line |
| ReportTexts.TotalsOfOneRecord | compare_state_transition_coverage.py:252-268 | a report of one record in scope with the lines `LF:a`, `LH:b`, `BRF:c` and `BRH:d` has covered lines b of a and covered branches d of c |
| ReportTexts.CounterAdded | compare_state_transition_coverage.py:257-264 | a counter line added to a record sets its own number and leaves those of the other three markers |
| ReportTexts.UnreadableIff | compare_state_transition_coverage.py:257-264 | a report fails to parse exactly if some stripped line has something else than a number behind one of the four markers |
| LcovFilter.ViewsOfMarkers | diff_testing.py:3273-3313 | a line that the filter takes for a record start is one for the parser too; a record end for the filter is one for the parser or is ignored |
| LcovFilter.FilterReport | diff_testing.py:3262-3355 | the loop writes the lines of the records in scope, closing those without a terminator, or the dummy report if there are none; the counts are the files in scope, and the files out of scope plus the terminators outside records |
| LcovFilter.FilteredRunFollows | diff_testing.py:3272-3337 | step by step, the parser on the filtered lines flushes exactly the records in scope that it flushes on the original lines |
| LcovFilter.KeptRecords | diff_testing.py:3272-3337 | the kept lines hold exactly the records in scope, in order, with their counts |
| LcovFilter.KeptLinesAreGiven | diff_testing.py:3276-3335 | every kept line comes from the input or is the added terminator |
| LcovFilter.KeptNothing | diff_testing.py:3340 | nothing is kept exactly if no file record of the input is in scope |
| LcovFilter.KeptTwice | diff_testing.py:3262-3337 | filtering the kept lines again keeps all of them |
| ReportTexts.FilterOfText | diff_testing.py:3262-3359 | on a report of whole records the filter writes the text of the records in scope, unchanged and in order, or the dummy report if there are none |
| ReportTexts.TerminatorIsAdded | diff_testing.py:3329-3336 | a last record in scope without a terminator is written with one |
| ReportTexts.CountsOfText | diff_testing.py:3281-3337 | the counts returned for such a report are the records in scope and the others |
| ReportTexts.StrayEndCounts | diff_testing.py:3313-3323 | a terminator that closes no record counts as one record left out |
| ReportTexts.DummyReportText | diff_testing.py:3346-3354 | the seven lines of the dummy report |
| NimbusReport.FilterNimbusLcovReport | diff_testing.py:3254-3362 | the filter with the scope of the Nimbus core directories; its first count is the number of file records in that scope |
| NimbusPaths.FilesOfSourceTree | diff_testing.py:3294-3311 | a file `src/other` is in scope exactly if it is no system path and `other`, behind leading slashes, starts with one of the four core directories |
| NimbusPaths.CoreFilesAreInScope | diff_testing.py:3294-3311 | for every source directory, every file below one of the four directories is in scope unless it is a system path |
| NimbusPaths.InScopeBehindSource | diff_testing.py:3294-3311 | where the source directory occurs in a path, what follows its first occurrence decides |
| NimbusPaths.InScopeBehindRepository | diff_testing.py:3300-3311 | otherwise, where the path splits at the repository's name, its last part decides |
| NimbusPaths.InScopeAsIs | diff_testing.py:3291-3311 | otherwise the path itself decides, with its backslashes turned |
| NimbusReport.DummyRecords | diff_testing.py:3346-3354 | the parser finds in the dummy report one record, without counts |
| NimbusReport.FilteredTotal | diff_testing.py:3254-3359 | for every report of lines that both programs cut alike and whose file names they scope alike, with or without terminators and even if nothing is in scope, the totals of the filtered report under a matcher are those of the original under matcher and filter together |
| NimbusReport.FilteredReadableIff | diff_testing.py:3272-3359 | the filtered report can be read exactly if every unreadable counter of the report lies where the last file or end line before it is not an included file |
| NimbusReport.CountAfterFilter | diff_testing.py:3254-3359 | for a report of regular lines, parsing after filtering gives what parsing under both scopes gives, failure included, exactly if no counter is unreadable or some unreadable counter lies in an included record |
| NimbusReport.FilterLosesNothing | diff_testing.py:3254-3359 | for a readable report of regular lines, a matcher that implies the filter finds the same totals before and after filtering |
| NimbusReport.FilterAddsNoMalformed | diff_testing.py:3254-3359 | a report that parses still parses after filtering |
| IrregularLines.SafeIff | diff_testing.py:3273-3313 | both programs cut a report alike at a line exactly if it starts a file for the filter, or is the end marker with blanks behind it, or does not begin with a file marker after stripping unless no path follows |
| IrregularLines.SamePathIff | diff_testing.py:3285 | both programs give a file line the same path exactly if no blank precedes it and it holds no backslash |
| IrregularLines.PlainIsRegular | diff_testing.py:3273-3313 | a line with these two properties, which are properties of its text, is regular for every scope |
| IrregularLines.PlainReportCounts | diff_testing.py:3254-3359 | for a report of such lines and every scope, filtering commutes with counting, up to unreadable counters that are all dropped |
| IrregularLines.LongMarkerMiscounts | diff_testing.py:3313-3323 | a line that only begins with the end marker makes an included record lose the counters behind it |
| IrregularLines.IndentedFileMiscounts | diff_testing.py:3325-3328 | an indented file line is counted or lost with the record before it, against its own scope |
| IrregularLines.MisnamedFileMiscounts | diff_testing.py:3285-3311 | a file line whose two names are not both in scope or both out of it is counted wrongly |
| IrregularLines.UnsafeLineBreaksCount | diff_testing.py:3254-3359 | for the scope in use and any source directory, every irregular line has a report around it, otherwise regular and readable, and a matcher whose totals filtering changes |
| IrregularLines.HarmlessIff | diff_testing.py:3254-3359 | a line spoils no count of an otherwise regular, readable report exactly if it is regular |
| IrregularLines.BlankIsIrregular | diff_testing.py:3285-3311 | an included file with a blank before its path: both programs cut alike there, but the parser's name for it is out of scope |
| IrregularLines.BlankExample | diff_testing.py:3285-3311 | the line with the path ` ncli/x` behind the marker is such a line, for every source directory that does not occur in the path |
| IrregularLines.LongMarkerIsIrregular | diff_testing.py:3313-3323 | a line that only begins with the end marker is irregular for every scope |
| IrregularLines.LongMarkerExample | diff_testing.py:3313-3323 | the line `end_of_records` is one |
| NimbusReport.FilterTwice | diff_testing.py:3262-3359 | for every scope, filtering twice gives the text of filtering once exactly if some file record is in scope or the dummy file's name is not |
| NimbusReport.NimbusFilterTwice | diff_testing.py:3262-3359 | for the Nimbus scope filtering twice always gives the text of filtering once, the dummy report included |
| TekuReport.TekuParser.Handle | compare_state_transition_coverage.py:278-323 | one start or end event moves the package stack, and adds the totals of a finished source file in scope |
| TekuReport.LastCounters | compare_state_transition_coverage.py:288-295 | the loop over the counters finds the last LINE and the last BRANCH counter |
| TekuReport.ReportFile | compare_state_transition_coverage.py:283-315 | a source file in scope, named by the package on top of the stack, adds its line and branch totals |
| TekuReport.RunOfTree | compare_state_transition_coverage.py:278-323 | from any stack, the events of a subtree report its files under the top package and leave the stack as it was |
| TekuReport.ParseTeku | compare_state_transition_coverage.py:273-325 | for every tree the event loop yields the recursive sum over its source files, each named by its innermost enclosing package, and ends with an empty stack |
| TekuReport.OneFileReport | compare_state_transition_coverage.py:273-325 | in a report of one source file with the counters BRANCH bm, bc and LINE lm, lc, the file counts with lc of lc + lm lines and bc of bc + bm branches exactly if the path made of package and file is in scope |
| TekuReport.LineTotals | compare_state_transition_coverage.py:288-305 | the lines of a source file are those of its last LINE counter: covered, and covered plus missed |
| TekuReport.BranchTotals | compare_state_transition_coverage.py:288-312 | the branches are those of its last BRANCH counter |
| TekuReport.NoTotals | compare_state_transition_coverage.py:296-312 | without such a counter they are zero |
| TekuFilter.ToRemove | diff_testing.py:3391-3399 | the packages to remove are the dropped children of the root in order, unless some dropped package is nested, when they are more |
| TekuFilter.RemovePackages | diff_testing.py:3401-3403 | removing them one by one leaves the other children in order, and fails exactly if a dropped package is nested |
| TekuFilter.RemoveEach | diff_testing.py:3402-3403 | the removal loop on the list of children in place |
| TekuFilter.SumPackages | diff_testing.py:3407-3430 | the six running totals are the sums of the fields `missed` and `covered` over the counters of each kind in the packages |
| TekuFilter.OnePackageShown | diff_testing.py:3415-3430 | a single package whose only counter of one of the three kinds is missed m, covered c, not both zero, gives the root exactly that counter |
| TekuFilter.RootCountersAdd | diff_testing.py:3415-3430 | the counters that two lists of packages give the root add up field by field |
| TekuFilter.KeptChildIff | diff_testing.py:3391-3403 | with the prefixes in use, a child of the root is kept exactly if it is no package or its name starts with one of the four |
| TekuFilter.RecomputeRootCounters | diff_testing.py:3405-3453 | afterwards the root has, for each of the three kinds, one counter with the sums over its packages unless both are zero, no other counter, and its other children in order |
| TekuFilter.CountersComeFirst | diff_testing.py:3436-3453 | if instructions and branches are counted, the new counters come before all other children, in the order INSTRUCTION, BRANCH, LINE |
| TekuFilter.FilterTekuXmlReport | diff_testing.py:3386-3464 | the filtered root holds the children in scope in order and, at the places where they are inserted, counters that sum exactly the packages kept; if removal fails the input comes out unchanged |
| TekuScope.SumSplits | compare_state_transition_coverage.py:273-325 | every source file counts either in a kept package or in another child of the root |
| TekuScope.KeptPackagesMatch | diff_testing.py:3395-3399 | every source file in a kept package matches the package prefixes as a path |
| TekuScope.ParseExceedsRootByLeaks | diff_testing.py:3405-3453 | for any matcher of the kept files, the parser's totals on the unfiltered report exceed the filtered root's counters by exactly the matching files outside the kept packages |
| TekuScope.RootVersusParse | diff_testing.py:3390-3453 | with the filter's own prefixes the two agree exactly if no file outside the kept packages that matches a prefix carries a count |
| TekuScope.CompletedPrefixLeaks | diff_testing.py:3396 | a file name that completes a prefix of which its package is a proper part makes them differ |
| TekuScope.LeakExists | diff_testing.py:107-112 | such a package for the actual prefixes |
| Lodestar.BuildBranchMap | compare_state_transition_coverage.py:381-392 | the last branch with a signature decides whether it was taken |
| Lodestar.LastBranchDecides | compare_state_transition_coverage.py:381-392 | a signature is taken exactly if some hit count of the last branch with it is positive |
| Lodestar.MappedIff | compare_state_transition_coverage.py:381-392 | the map knows exactly the signatures of the branches |
| Lodestar.LastKeyDecides | compare_state_transition_coverage.py:408-417 | of the keys with one comparison path the last gives the branches |
| Lodestar.InScopeIff | compare_state_transition_coverage.py:408-417 | a path is known exactly if some key has it |
| Lodestar.Intersect | compare_state_transition_coverage.py:405-427 | the total is the number of pairs of file and branch that both reports know, the covered number counts those that the first report took |
| Lodestar.ComparisonIsFair | compare_state_transition_coverage.py:422-427 | the common branches are those that both reports know, the same from either side, and bound both covered numbers |
| Lodestar.Compare | compare_state_transition_coverage.py:738-742 | the two total-branch numbers of a comparison are always equal, covered never exceeds total, and the covered delta is the difference of taken common branches |
| ChunkedMerge.ChunkPathInjective | diff_testing.py:5241-5245 | intermediate results of different levels or positions have different paths |
| ChunkedMerge.ChunkList | diff_testing.py:5217-5220 | the chunks of a list |
| ChunkedMerge.ChunksConcat | diff_testing.py:5217-5220 | the chunks in order make up the list |
| ChunkedMerge.ChunkSizes | diff_testing.py:5217-5220 | every chunk has between one and the chunk size many elements |
| ChunkedMerge.ChunkCount | diff_testing.py:5217-5220 | there are at most x chunks exactly if the list has at most x times the chunk size elements |
| ChunkedMerge.AssociativeFlattens | diff_testing.py:5346-5365 | a tool that folds an associative operation gives for merged groups what it gives for all members |
| ChunkedMerge.Workspace.Run | diff_testing.py:5345-5352 | one tool call: at most a chunk of inputs, at least one unless there is nothing to merge at all, an output that does not exist yet, and no other file changed |
| ChunkedMerge.MergeLevel | diff_testing.py:5338-5356 | one level succeeds exactly if every chunk is there and the tool merges it; it leaves the merge of the i-th chunk in the i-th new file, overwrites nothing, and changes nothing outside the temporary directory |
| ChunkedMerge.LevelKeepsMerge | diff_testing.py:5337-5356 | merging the results of a level gives what merging its inputs gives |
| ChunkedMerge.LevelMergeIsFlat | diff_testing.py:5336-5365 | merging level by level, when it succeeds, gives what one tool call on all inputs would give |
| ChunkedMerge.LevelMergeSucceeds | diff_testing.py:5336-5365 | it succeeds for every list that is not empty if the tool succeeds on one up to a chunk of inputs |
| ChunkedMerge.AssociativeMerge | diff_testing.py:5336-5365 | for every associative operation and every list that is not empty, merging level by level succeeds and folds the operation over all contents in order |
| ChunkedMerge.RoundOutcome | diff_testing.py:5337-5356 | a level that fails decides the outcome, one that succeeds leaves it to its results |
| ChunkedMerge.CountNext | diff_testing.py:5337-5356 | after L levels n inputs have become n divided by the L-th power of the chunk size, rounded up, through nested rounding |
| ChunkedMerge.MergeFiles | diff_testing.py:5322-5367 | the call succeeds exactly if the inputs survive the removal of the old output and merging their contents level by level succeeds, in particular for a tool that succeeds on one up to a chunk of inputs; the output then holds that merge, which for a tool that merges groups like their members is the flat merge of all inputs in order; the number of levels is the least L with n at most the chunk size to the power L + 1; the temporary directory is gone, and files outside it and the output are untouched |
| ChunkedMerge.InputsUsedOnceInOrder | diff_testing.py:5322-5367 | for the tool that records its inputs, merging level by level succeeds and gives the input list itself |
| SszJson.HexRoundTrip | Converter/JsonToSSZ/JsonToSSZ.py:17-20 | parsing printed hex digits gives the bytes back |
| SszJson.HexOfFromHex | Converter/JsonToSSZ/JsonToSSZ.py:20 | printing parsed hex text gives the text without blanks in lower case |
| SszJson.SszToJson | Converter/SSZToJson/SSZToJson.py:24-61 | the printer with its loop over a container's fields computes the printing function that the laws below are about |
| SszJson.JsonToSsz | Converter/JsonToSSZ/JsonToSSZ.py:22-64 | the parser, errors included, computes the parsing function that the laws below are about |
| SszJson.ParseContainer | Converter/JsonToSSZ/JsonToSSZ.py:24-32 | the loop that fills the keyword arguments builds the container in field order, and fails on the first missing or bad field |
| SszJson.RoundTrip | Converter/JsonToSSZ/JsonToSSZ.py:22-64 | for every type and every value of it, parsing the printed value by the type gives the value back |
| SszJson.ParseTyped | Converter/JsonToSSZ/JsonToSSZ.py:22-64 | what the parser accepts is a value of the type |
| SszJson.PrintInjective | Converter/SSZToJson/SSZToJson.py:24-61 | two values of a type print alike exactly if they are equal |
| SszJson.PrintIsCanon | Converter/SSZToJson/SSZToJson.py:24-61 | printing a parsed text gives its normal form: undeclared fields dropped, hex cleaned, booleans and 0 and 1 unified |
| SszJson.ParseNormalises | Converter/JsonToSSZ/JsonToSSZ.py:22-64 | parsing a normal form gives the value of the text it came from, and normal forms are stable |
| SszJson.SameValueIffSameCanon | Converter/JsonToSSZ/JsonToSSZ.py:22-64 | two accepted texts denote the same value exactly if they have the same normal form |
| SszJson.PrintedIffCanonical | Converter/SSZToJson/SSZToJson.py:24-61 | the printer's outputs are exactly the accepted texts in normal form |
| JsonForms.PrintShows | Converter/SSZToJson/SSZToJson.py:24-61 | the form of the output for every value of every type: objects by field name, lists element by element, bytes as `0x` and two lower-case digits each, bits as booleans, numbers and booleans as such |
| JsonForms.AcceptsIff | Converter/JsonToSSZ/JsonToSSZ.py:22-64 | which JSON is accepted for a type: all declared fields present and accepted, hex text of the right length, lists of the right length, numbers in range, booleans for numbers and 0 and 1 for booleans |
| JsonForms.FromHexIff | Converter/JsonToSSZ/JsonToSSZ.py:17-20 | hex text is read exactly if it is digit pairs in either case with blanks only around the pairs |
| JsonForms.MixedNumbers | Converter/JsonToSSZ/JsonToSSZ.py:53-62 | 0 and 1 give false and true, and the other way round |
| JsonForms.UintRanges | Converter/JsonToSSZ/JsonToSSZ.py:53-56 | the bound of 8, 64 and 256 bit numbers in figures |
| JsonForms.KindErrors | Converter/JsonToSSZ/JsonToSSZ.py:22-64 | JSON of the wrong kind is a TypeError, a bad text, length or number of the right kind a ValueError |
| JsonForms.FieldError | Converter/JsonToSSZ/JsonToSSZ.py:24-32 | the first bad field decides: a KeyError if it is missing, otherwise its own error |
| JsonForms.ElementError | Converter/JsonToSSZ/JsonToSSZ.py:41-44 | the error of the first bad element is that of the list |
| JsonForms.LengthError | Converter/JsonToSSZ/JsonToSSZ.py:41-44 | too many or too few good elements are a ValueError |
| JsonDiff.DiffLog.DiffJsonable | check_postState.py:155-195 | the recursion on the shared list appends the report of all differences, report by report while the limit is not reached |
| JsonDiff.DiffLog.DiffKeys | check_postState.py:165-178 | the loop over the sorted keys of both objects |
| JsonDiff.DiffLog.DiffItems | check_postState.py:184-190 | the loop over two lists of equal length |
| JsonDiff.LimitedDiff | check_postState.py:151-195 | the limited output is a prefix of the unlimited one: all of it if that is shorter than the limit, otherwise between limit and limit plus two lines |
| JsonDiff.ReportedIff | check_postState.py:155-195 | a path is reported exactly if the values first differ there and no equal list element hides it |
| JsonDiff.NoReportIff | check_postState.py:155-195 | nothing is reported exactly if the values are alike up to elements of lists that are equal in Python |
| JsonDiff.SkipHidesDifference | check_postState.py:187 | two lists that differ, and no report |
| JsonDiff.TypedPyEq | check_postState.py:187 | printed values of one SSZ type are equal in Python only if they are equal |
| JsonDiff.TypedDiffEmptyIff | check_postState.py:198-209 | the unlimited diff of two values of one SSZ type is empty exactly if they are equal |
| JsonDiff.TypedDiffPaths | check_postState.py:198-209 | for two values of one SSZ type the reported paths are exactly the minimal positions where they differ |
| JsonDiff.SkipChangesNothing | check_postState.py:184-189 | for two values of one SSZ type the output, line by line, is that of the traversal that skips no equal list element |
| DiffReports.ReportsTell | check_postState.py:155-195 | every report is true of the values found at its path: their types, lengths or values as shown, or which of the two has none |
| DiffReports.ReportsInOrder | check_postState.py:165-190 | the reports come in the order of their paths, keys in ascending order and elements by index, so that a limited diff shows the first differences |
| DiffReports.SortedAscends | check_postState.py:166 | the keys are visited in ascending order of their characters, each once |
| PostStates.GroupsPartition | check_postState.py:227-229 | one group per hash that occurs, holding the clients with that hash in order |
| PostStates.MemberIff | check_postState.py:227-229 | a client is in a group exactly if it has the group's hash |
| PostStates.GroupsInClientOrder | check_postState.py:227-229 | the groups come in the order of the first client with their hash |
| PostStates.SortingChangesNothing | check_postState.py:234-247 | for clients in ascending order, the groups ascend by their least client and the clients in each group ascend, so that sorting either changes nothing |
| PostStates.PresentAscends | check_postState.py:221 | the present clients are in ascending order of their position in the list of clients |
| PostStates.ListMismatches | check_postState.py:255-260 | the nested loops list the pairs of clients with different bytes |
| PostStates.ListedIff | check_postState.py:255-260 | a pair is listed exactly if its clients stand in this order and have different bytes |
| PostStates.EveryPairOnce | check_postState.py:255-260 | listed and agreeing pairs together are n choose 2 |
| PostStates.BuildCaseRecord | check_postState.py:212-260 | there is a record exactly if two clients are present and not all have one hash; it holds the groups, sorted by their least client, and the mismatching pairs |
| PostStates.OneGroupIff | check_postState.py:231-232 | there is one group exactly if all hashes are equal |
| PostStates.CompareSszFiles | diff_testing.py:2693-2709 | the pairs that differ, or the message that there are too few clients |
| PostStates.ListedAcrossGroupsIff | check_postState.py:255-260 | the listed pairs are exactly those across groups if and only if the hash does not collide on the blobs present |
| PostStates.MismatchCount | check_postState.py:227-260 | without collision, the number of listed pairs is n choose 2 minus the pairs within groups, in closed form too |
| PostStates.RecordAgreesWithCsv | diff_testing.py:2704-2709 | without collision, the record is left out exactly if the CSV comparator lists no pair for the same blobs, whatever the order of the clients |
| SequentialRun.Prepare | run_test_suite.py:896-943 | the case is run exactly if there is a block, everything decompresses, and everything converts to JSON |
| SequentialRun.RunSpectec | run_test_suite.py:948-996 | the chained loop logs one outcome per block: it stops at a rejection and goes on past a post state that does not convert |
| SequentialRun.RunEth2spec | run_test_suite.py:998-1030 | the chained eth2spec loop logs one outcome per block up to the first rejection |
| SequentialRun.RunSpectecAlone | run_test_suite.py:710-753 | in the independent mode every block starts from the case's pre state |
| SequentialRun.RunEth2specAlone | run_test_suite.py:755-781 | the same for eth2spec |
| SequentialRun.LogHolds | run_test_suite.py:1054-1057 | looking up a block's number in the log finds exactly that block's outcome |
| SequentialRun.CompareBlock | run_test_suite.py:1062-1107 | the chain of tests classifies a block as agreeing, mismatching or inconsistent |
| SequentialRun.Compare | run_test_suite.py:1035-1120 | the listed mismatches are the blocks with two different post states, the inconsistencies those where a client got to the block without both succeeding or both failing with a text; the run passes exactly if the clients got through the same blocks and agree on each |
| SequentialRun.ProcessSequential | run_test_suite.py:873-1120 | the verdict of the whole case in these terms |
| SequentialRun.ProcessIndependent | run_test_suite.py:647-871 | the independent verdict: passed exactly if the clients agree on every block run from the case's pre state |
| SequentialRun.PassingRun | run_test_suite.py:948-1120 | in a passing run only the last executed block can be in error, all posts before it are equal, and a post state that does not convert passes only on the last block of the case |
| SequentialRun.ConformingClientsPass | run_test_suite.py:873-1120 | no false alarm: if the clients agree on every step from matching states, every block list passes |
| SequentialRun.VerdictOfFirstStep | run_test_suite.py:948-1120 | the verdict on a run from the first step and the verdict on the rest |
| SequentialRun.PrefixPasses | run_test_suite.py:948-1120 | dropping blocks from the end of a passing run leaves a passing run |
| SequentialRun.IndependentIsEachBlockAlone | run_test_suite.py:647-871 | the independent mode passes exactly if the sequential mode passes on each block as a case of its own |
| SequentialRun.SilentRejectionFails | run_test_suite.py:1063-1107 | for every block list, the run passes exactly if the clients have the same outcomes, taking any two failures for the same, and the last outcome of either has a text should it be a failure |
| SequentialRun.SilentRejectionExample | run_test_suite.py:1063-1107 | two clients that reject the only block, one with a text and one without, fail the case |
| SpecCheck.Spectec | check_spec_tests.py:86-102 | the call returns a state, a rejection by a failed premise, or a fault |
| SpecCheck.SpectecStep | check_spec_tests.py:116-125 | between JSON and bytes the call takes the same step as on values, and its result is the next input as JSON |
| SpecCheck.Check | check_spec_tests.py:116-131 | for a case whose block files decode to a list of blocks, the verdict is that of calling SpecTec on the blocks of the list in turn, each on the state parsed from the output before; in general it is that of folding the step over the files; without blocks, or with an unreadable pre state, it raises |
| SpecCheck.FoldIsRun | check_spec_tests.py:116-131 | folding over the files is running SpecTec on the blocks they decode to, in order; a file that does not decode ends in a fault if the run gets to it |
| SpecCheck.RejectedIff | check_spec_tests.py:93-100 | a call counts as a rejection exactly if the exit code is 1 and the log names the interpreter and no fault of it |
| SpecCheck.VerdictIsRight | check_spec_tests.py:127-131 | "ok" exactly if the post file exists and SpecTec accepts all blocks with that last state, or it does not exist and SpecTec rejects some block |
| SpecCheck.FaultsFail | check_spec_tests.py:96-100 | a fault, a broken block or an unreadable output never passes |
| SpecCheck.MatchesOneState | check_spec_tests.py:131 | a post file that encodes a state is matched by that state only |
| SpecCheck.NextInputIsNormalForm | check_spec_tests.py:124-125 | the input for the next block is the normal form of SpecTec's output |
| SpecCheck.DetourChangesNothing | check_spec_tests.py:118-125 | if SpecTec reads a state's JSON like its normal form, feeding its output back unchanged runs through the same states |
| TestGeneration.CaseOutput.Generate | Converter/generate_json_test_cases.py:483-571 | the loop writes the directories of the run's events and counts them: every event is either generated or an error |
| TestGeneration.MakeTriple | Converter/generate_json_test_cases.py:513-541 | one block's triple from the current pre state, or its failure |
| TestGeneration.CaseOutput.ProcessBlock | Converter/generate_json_test_cases.py:506-571 | a complete directory is skipped, otherwise it is made and the triple's files are written |
| TestGeneration.CaseOutput.Write | Converter/generate_json_test_cases.py:547-562 | exactly the triple's files are written, others in the directory stay |
| TestGeneration.CaseOutput.ProcessBlockTestCase | Converter/generate_json_test_cases.py:403-578 | the counts and directories of the whole call, early failures included; if exactly one block decompresses and the case has its own post state, its directory holds that state as JSON, whatever eth2spec does |
| TestGeneration.GivenPost | Converter/generate_json_test_cases.py:523-528 | the same for the run of one block: with its own post state the triple holds the pre state, the block and that state, unless a conversion fails or the directory is complete; eth2spec has no influence |
| TestGeneration.DecompressedAt | Converter/generate_json_test_cases.py:450-457 | the blocks are the files that decompress, in order |
| TestGeneration.FilesOfBlock | Converter/generate_json_test_cases.py:506-571 | for any run, a block is skipped exactly if a pre state and an outcome are there, and after it its directory has the triple's files and, besides, what was in it |
| TestGeneration.CountDroppedIs | Converter/generate_json_test_cases.py:515-541 | the errors counted are the dropped blocks |
| TestGeneration.DirsAfterAt | Converter/generate_json_test_cases.py:506-571 | each directory afterwards depends on what was in it and on its own block's event; other directories are untouched |
| TestGeneration.RunIsChained | Converter/generate_json_test_cases.py:483-571 | every block starts from the post state of the last positive triple before it, and a run ends early only with a negative one |
| TestGeneration.TriplesChain | Converter/generate_json_test_cases.py:483-571 | without earlier directories, each triple's pre is the previous triple's post, each positive post is eth2spec's for that pre and block even when blocks between fail to convert, and a negative triple is the last |
| TestGeneration.StatesMatchTheirJson | Converter/generate_json_test_cases.py:566-569 | the JSON pre state in a triple is that of the bytes which eth2spec got |
| TestGeneration.FilesInEmptyOutput | Converter/generate_json_test_cases.py:506-571 | the same for the files in an empty output directory: which triples are complete, what their files hold, and that no directory holds both a post state and an error |
| TestGeneration.OtherBlocksAlone | Converter/generate_json_test_cases.py:506-571 | the triples are those of the case without its skipped and dropped blocks |
| TestGeneration.SkippedBlocksLeadNowhere | Converter/generate_json_test_cases.py:506-509 | after skipped first blocks the run goes on from the case's pre state |
| TestGeneration.RecoversIff | Converter/generate_json_test_cases.py:506-509 | as long as a resumed run has gone like the run of the whole case, its next event does so exactly if the block starts from the same state, or is dropped both times |
| TestGeneration.ResumedTriplesIff | Converter/generate_json_test_cases.py:483-571 | for any set of complete directories, all missing triples come out as in the run of the whole case exactly if, at each missing block, the state there equals the post state of the last positive block before it that is not complete, the case's pre state if there is none (a dropped block must be dropped again), and no incomplete block lies behind a complete rejected one |
| TestGeneration.CompleteAfter | Converter/generate_json_test_cases.py:362-367 | after a run exactly the directories that were complete and those of the emitted triples are complete |
| TestGeneration.RerunIff | Converter/generate_json_test_cases.py:506-559 | a second run generates nothing new exactly if the first dropped no block and left no incomplete directory behind a negative triple |
| TestGeneration.RerunGoesPastRejection | Converter/generate_json_test_cases.py:506-559 | after a negative triple a second run tries the next block on the case's pre state |

## Left out

- Processes, environment variables, timeouts, command lines and log scraping: the tools are parameters.
- HTML, CSV, Markdown and console output, argument parsing, and the text and order of messages: verdicts carry the sets that the messages list.
- The client drivers in other languages, the specification itself and its interpreters.
- The other coverage parsers (Prysm, Lighthouse, Lodestar HTML, eth2spec): sums over rows that the same laws of `Coverage` cover.
- `_totals_for` beyond the Lodestar case: it passes the client's own parser on.
- Regular expressions in matchers and `_lodestar_norm_key`: any predicate, any partial function.
- Line splitting: a report is given as its lines. `splitlines()` and file iteration split alike on newlines, and other line separators are not modelled. The same holds for a last line without a newline, which the filter would join with the terminator it adds.
- XML attributes that are missing or not numbers, which raise in both programs; `elem.clear()`, which frees elements that are not read again; nested packages are modelled, with the failure of their removal.
- JSON floats, which the printer never produces: they compare as text. Strings are compared by code point.
- The ssz library: of its constructors the length, limit and range checks are modelled; types are disjoint, as the chains of `isinstance` and `issubclass` assume; printing raw Python values and `None` is not modelled.
- ChunkedMerge.MergeFiles: the output is not named like the temporary directory and the inputs lie outside it, as at all call sites; a tool that fails is taken to leave no file.
- PostStates.BuildCaseRecord: takes the list of clients to be without repetition, as it is; does not model the entries of the structural diffs, which `JsonDiff` covers, nor display names and paths.
- JsonDiff.DiffLog.DiffJsonable: lines carry the path as its steps and the values unabbreviated; `_fmt_val` only shortens them.
- SequentialRun.Prepare: the sorting of the block files by number is not modelled; blocks come in order, with distinct numbers, and files from an earlier run in the work directory are not read.
- SpecCheck.Check: does not model the choice of fork and runner from the path, the operation and epoch cases, which take a single step in the same way, nor the abbreviation of the log.
- TestGeneration.CaseOutput.ProcessBlockTestCase: does not model the names of directories; a directory stands for its block's number, and numbers are distinct. The other kinds of test case and `find_operation_files` would add only single steps and name matching.
- The eth2spec-only mode of the test runner, which has one client and no comparison.
