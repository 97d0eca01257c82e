# Autobahn test client core, in Dafny

`test/autobahn/autobahntest.c` is the client that runs the Autobahn
WebSocket conformance suite against libws. It asks the fuzzing server how
many cases there are, builds the list of cases to run, and runs each case in
three phases, one connection per phase: description, run, status. In the run
phase it echoes every message back. At the end it asks the server to update
its reports. A case fails when its status says anything other than `OK` or
`INFORMATIONAL`, and any failure makes the exit status nonzero.

The model has four modules:

- `RangeMerger` (`range_merger.dfy`) covers test-list construction.
  - `combine_range_and_values` is a method over `array<int>` with its three loops.
  - It is specified by the function `Combine`. Its contract gives the result's length, its contents as a multiset, and that it is sorted.
  - Also here: the `--all` list, `int_compare` with `qsort`, and `print_range`.
- `Linebreak` (`linebreak.dfy`) covers `print_linebreak`.
  - It is a method that overwrites spaces of a `char` array copy through `strpbrk`.
  - It is specified by the reference function `Wrap`, which is defined on the list of space positions.
- `Session` (`session.dfy`) holds the phase dispatcher and the orchestration as functions of the global state.
  - These are `onmsg`, `do_connect`, `get_case_count`, `run_case`, `update_reports`, `run_cases` and the perform step of `main`.
  - The lemmas state what the client promises about them.
- `Client` (`client.dfy`) is the class `Autobahn`.
  - Its fields are the globals `state`, `current_case`, `server_case_count` and `global_return`, and the buffers `args.tests` and `args.skip`.
  - Its methods are the C functions, updating those fields in place. Each is proved to leave exactly the state the matching `Session` function computes.

The collaborators the client cannot see are parameters, in the datatype `Session.Env`:

- **Transport.** `server(k, url)` answers the k-th connection of the run. It is either refused, meaning `do_connect` returns -1, or served with the messages the server sends before the connection closes.
- **JSON decoder.** It is a function from a message to a decoded reply or "malformed".
- **`atoi`.** It is a function from a message to an integer.

Refused connections cover every failure of `do_connect`: `ws_global_init`, `ws_init` and `ws_connect`.

The model records what the client sends and shows:

- the URLs it connects to, in order (`requests`);
- the frames it echoes (`sent`);
- the banners `parse_test_info` prints (`shown`).

Where the description of the program and its code differ, the model follows the code:

- A status message that fails to decode leaves `global_return` alone.
- `run_cases` stops at the first case that fails to connect, and then skips the report update.
- `run_cases` returns 0 even when the report update fails to connect.
- In test mode, `main` drops the result of `run_cases`. Only `global_return` reaches the exit status.
- The case count is fetched before the ranges are checked.
- Without `--all` and without a range, the list given by the user is used as it is.

## Model

| member | source | states |
|---|---|---|
| RangeMerger.IntCompare | test/autobahn/autobahntest.c:413-416 | the comparator is negative exactly when a < b and zero exactly when a == b |
| RangeMerger.Stop | test/autobahn/autobahntest.c:436 | computes the inclusive end of a range: the second endpoint when two were given, the case count otherwise |
| RangeMerger.Insert | test/autobahn/autobahntest.c:497-498 | inserting into a sorted list keeps it sorted and adds exactly one occurrence of the element |
| RangeMerger.Sort | test/autobahn/autobahntest.c:497-498 | the ideal `qsort`: the result is sorted ascending and is a permutation of the input |
| RangeMerger.SortedUnique | test/autobahn/autobahntest.c:497-498 | two sorted lists with the same multiset are equal, so the sorted result does not depend on the input order |
| RangeMerger.IntervalCounts | test/autobahn/autobahntest.c:473-476 | the filled range holds each integer of [start, stop] exactly once and nothing else |
| RangeMerger.Interval | test/autobahn/autobahntest.c:473-476 | computes what the first fill loop writes: start, start+1, …, stop, and nothing when stop < start |
| RangeMerger.Outside | test/autobahn/autobahntest.c:478-485 | computes what the copy loop writes: the listed elements outside [start, stop], in list order; never more than the list holds |
| RangeMerger.OutsideCounts | test/autobahn/autobahntest.c:478-485 | the copied elements are exactly the listed ones outside [start, stop], with their multiplicities |
| RangeMerger.OutsideSize | test/autobahn/autobahntest.c:444-452 | the number of copied elements equals the number of list indices whose value lies outside the range |
| RangeMerger.OutsidePrefix | test/autobahn/autobahntest.c:478-485 | copying from a prefix of the list never writes past what the whole list needs, so `tmp` is large enough |
| RangeMerger.MergedCounts | test/autobahn/autobahntest.c:470-485 | the unsorted merge holds every range integer once and every outside element as often as the list held it |
| RangeMerger.Combine | test/autobahn/autobahntest.c:418-501 | rejected exactly when start <= 0 or stop < start; otherwise sorted, of length (stop-start+1) plus the number of outside positions, with each range integer once and each outside element at its original multiplicity |
| RangeMerger.CombineOpenRange | test/autobahn/autobahntest.c:436 | a range with other than two endpoints behaves as the range [start, max_case] |
| RangeMerger.CombineCharacterised | test/autobahn/autobahntest.c:418-501 | any sorted list with the required multiset is the merge, so the contract determines the result |
| RangeMerger.CombineExample | test/autobahn/autobahntest.c:418-501 | the list [5, 12] with the range [10, 14] becomes [5, 10, 11, 12, 13, 14]: 12 is absorbed by the range and 5 is kept |
| RangeMerger.Qsort | test/autobahn/autobahntest.c:497-498 | sorting the array in place leaves exactly the sorted permutation of its old contents |
| RangeMerger.OutsideSnoc | test/autobahn/autobahntest.c:478-485 | one more list element is copied exactly when it is outside the range |
| RangeMerger.CountOutside | test/autobahn/autobahntest.c:444-452 | `more_count` is the number of positions of the list whose value lies outside [start, stop] |
| RangeMerger.FillMerged | test/autobahn/autobahntest.c:470-485 | the array holds the range in ascending order, followed by the outside elements in list order |
| RangeMerger.CombineRangeAndValues | test/autobahn/autobahntest.c:418-501 | returns 0 or -1; -1 exactly when the range is rejected, and then the caller's array is returned unchanged; on 0, a fresh array is returned holding the merge |
| RangeMerger.Int32 | test/autobahn/autobahntest.c:454-465 | a C `int` after two's-complement wrap-around: always in [-2^31, 2^31), and unchanged when already representable |
| RangeMerger.RangeAcceptedAsWritten | test/autobahn/autobahntest.c:438-462 | computes the range check as written: start positive, and `(stop - start) + 1` positive in 32-bit `int` |
| RangeMerger.RangeCheckWithoutOverflow | test/autobahn/autobahntest.c:454-462 | where `stop - start` fits in an `int`, the check as written accepts exactly the ranges with 0 < start <= stop |
| RangeMerger.NegativeStopAccepted | test/autobahn/autobahntest.c:454-476 | the range [2, INT_MIN] passes the check as written although it holds no case, while `Combine` rejects it |
| RangeMerger.AllCases | test/autobahn/autobahntest.c:515-529 | the `--all` list is a fresh array holding 1, 2, …, max_case |
| RangeMerger.Iota | test/autobahn/autobahntest.c:525-528 | computes the `--all` list: 1, 2, …, max_case |
| RangeMerger.IotaIsRange | test/autobahn/autobahntest.c:515-529 | the `--all` list is sorted and holds each case 1 .. max_case exactly once |
| RangeMerger.PrintRangeAgrees | test/autobahn/autobahntest.c:591-605 | the bounds `print_range` shows are the ones the merge uses: "N to MAX" runs to the case count |
| RangeMerger.PrintRange | test/autobahn/autobahntest.c:591-605 | computes what `print_range` shows: "N to MAX" for one endpoint, "N to M" for two, "-" otherwise |
| Linebreak.SpacesAreSpaces | test/autobahn/autobahntest.c:86-97 | every position the scan visits holds a space |
| Linebreak.SpacesComplete | test/autobahn/autobahntest.c:86-97 | the scan visits every space of the string |
| Linebreak.SpacesSkip | test/autobahn/autobahntest.c:86 | skipping characters that are not spaces leaves the remaining scan unchanged |
| Linebreak.Breaks | test/autobahn/autobahntest.c:87-97 | computes the positions the loop overwrites: at each space farther than `width` past the line start, the previous target is overwritten and the space becomes the line start; every space becomes the next target |
| Linebreak.BreaksWhere | test/autobahn/autobahntest.c:89-95 | only the first target or a visited space is ever overwritten |
| Linebreak.BreaksNone | test/autobahn/autobahntest.c:89-93 | when no space lies more than `width` past the line start, nothing is overwritten |
| Linebreak.BreaksWhenFar | test/autobahn/autobahntest.c:89-93 | some position is overwritten exactly when some space lies more than `width` past the line start |
| Linebreak.WrapBreaksIff | test/autobahn/autobahntest.c:76-101 | some position of the copy is overwritten exactly when some space lies more than `width` past the start of the string |
| Linebreak.Wrap | test/autobahn/autobahntest.c:76-101 | computes the reference result of `print_linebreak`: the copy with exactly the `Breaks` positions overwritten by '\n' |
| Linebreak.WrapChangesOnlySpaces | test/autobahn/autobahntest.c:76-101 | the output has the input's length; every changed position became '\n', and every changed position other than 0 held a space |
| Linebreak.WrapFits | test/autobahn/autobahntest.c:76-101 | a string whose spaces all lie within `width` of its start comes out unchanged |
| Linebreak.WrapFirstTarget | test/autobahn/autobahntest.c:80 | when the first space lies past `width`, position 0 is overwritten even though it is not a space |
| Linebreak.WrapLineStartExample | test/autobahn/autobahntest.c:89-93 | after a break the line is measured from the triggering space: "aaaa bb ccc dd" at width 4 breaks only once |
| Linebreak.Strpbrk | test/autobahn/autobahntest.c:86 | `strpbrk(s, " ")` yields the first space at or after the position, or -1 when there is none |
| Linebreak.StrpbrkFinds | test/autobahn/autobahntest.c:86-97 | the space `strpbrk` finds begins the spaces still to visit |
| Linebreak.StrpbrkUnmarked | test/autobahn/autobahntest.c:89-96 | the line breaks written behind the scan position do not change what `strpbrk` finds next |
| Linebreak.MarkOne | test/autobahn/autobahntest.c:91 | overwriting one more target marks one more position |
| Linebreak.ScanStep | test/autobahn/autobahntest.c:87-97 | one loop iteration keeps the copy equal to the string with the breaks so far, and keeps the breaks still to come |
| Linebreak.PrintLinebreak | test/autobahn/autobahntest.c:76-101 | the buffer `print_linebreak` prints is the reference wrap of its input, of the same length |
| Session.Strcmp | test/autobahn/autobahntest.c:166 | `strcmp` is zero exactly when the strings are equal |
| Session.IsPass | test/autobahn/autobahntest.c:166 | a behavior passes exactly when it is "OK" or "INFORMATIONAL" |
| Session.StatusVerdict | test/autobahn/autobahntest.c:143-193 | a malformed status and a passing behavior leave `global_return` unchanged; any other behavior sets it to -1 |
| Session.TestInfoShown | test/autobahn/autobahntest.c:103-141 | a decoded message yields exactly one banner, carrying the current case, with a description exactly when not compact; a malformed message yields none |
| Session.Dispatch | test/autobahn/autobahntest.c:195-244 | per state: TEST echoes the message once, unchanged; COUNT sets only the count; TESTINFO adds only a banner; TESTSTATUS changes only the verdict; REPORT changes nothing; no message changes the phase, the current case or the log |
| Session.Deliver | test/autobahn/autobahntest.c:195-244 | computes the effect of one connection's messages, each passed to `onmsg` in arrival order |
| Session.Connect | test/autobahn/autobahntest.c:267-311 | computes `do_connect`: the URL is logged; a refused connection returns false, a served one dispatches its messages and returns true |
| Session.DeliverEchoes | test/autobahn/autobahntest.c:220-241 | in TEST state the frames sent are exactly the messages received, in order; in any other state nothing is sent |
| Session.DeliverKeeps | test/autobahn/autobahntest.c:195-244 | messages never change the phase, the current case or the connection log |
| Session.DeliverVerdict | test/autobahn/autobahntest.c:143-193 | `global_return` only stays or becomes -1; in TESTSTATUS it ends at -1 exactly when it was -1 or some message decodes to a failing behavior |
| Session.DeliverCount | test/autobahn/autobahntest.c:214-218 | in COUNT state the count is `atoi` of the last message, or unchanged when none came |
| Session.GetCaseCount | test/autobahn/autobahntest.c:378-396 | computes `get_case_count`: state COUNT, connect to the count URL, -1 when refused, else `server_case_count` |
| Session.UpdateReports | test/autobahn/autobahntest.c:313-330 | computes `update_reports`: state REPORT, connect to the report URL, 0 or -1 |
| Session.RunCase | test/autobahn/autobahntest.c:332-376 | computes `run_case(n)`: set the current case, then the info, run and status phases with their states, stopping at the first refusal |
| Session.RunList | test/autobahn/autobahntest.c:576-584 | the case loop; when every listed case is skipped, it opens nothing and succeeds |
| Session.ConnectLogs | test/autobahn/autobahntest.c:267-311 | a connection adds exactly its URL to the log and succeeds exactly when it is served |
| Session.ConnectVerdict | test/autobahn/autobahntest.c:267-311 | a connection only keeps `global_return` or sets it to -1, and keeps it outside TESTSTATUS |
| Session.ConnectEchoes | test/autobahn/autobahntest.c:220-241 | a connection echoes exactly the messages the server sends when it is made in TEST state, and nothing otherwise |
| Session.GetCaseCountResult | test/autobahn/autobahntest.c:378-396 | -1 when refused; otherwise `atoi` of the last message, or the previous count; opens only the count URL, sends nothing, keeps the verdict |
| Session.UpdateReportsResult | test/autobahn/autobahntest.c:313-330 | 0 exactly when the report connection is served, else -1; opens only the report URL, sends nothing, keeps the verdict |
| Session.Opened | test/autobahn/autobahntest.c:332-376 | the number of phases attempted lies between 1 and 3 |
| Session.RunCasePhases | test/autobahn/autobahntest.c:332-376 | `run_case(n)` sets the current case to n and opens info, run, status in that order, up to the first refused one; it succeeds exactly when all three are served |
| Session.RunCaseFailure | test/autobahn/autobahntest.c:340-372 | a failed case failed on the last connection it opened |
| Session.RunCaseVerdict | test/autobahn/autobahntest.c:143-193 | after a case `global_return` is -1 exactly when it was before, or when the status phase was reached and sent a failing behavior |
| Session.RunCaseEchoes | test/autobahn/autobahntest.c:352-359 | a case echoes exactly the messages of its run phase, and nothing when that phase is not reached |
| Session.CasesStartedAppend | test/autobahn/autobahntest.c:576-584 | the cases started by two stretches of the log are those of the first then those of the second |
| Session.ExtendsJoin | test/autobahn/autobahntest.c:576-584 | what a run adds to the log is what each step added, in order |
| Session.RunCaseLog | test/autobahn/autobahntest.c:332-376 | a case only adds to the log; it starts exactly case n and never opens the report URL |
| Session.RunListLog | test/autobahn/autobahntest.c:576-584 | the case loop only adds to the log and never opens the report URL |
| Session.RunListOrder | test/autobahn/autobahntest.c:576-584 | the cases started are a prefix of the unskipped cases in list order, and all of them when the loop succeeds |
| Session.RunListStopsAtFailure | test/autobahn/autobahntest.c:580-583 | a loop that fails stops at the refused connection: it is the last URL opened |
| Session.RunListVerdict | test/autobahn/autobahntest.c:576-584 | the loop never sets `global_return` back to 0 |
| Session.TestListSettled | test/autobahn/autobahntest.c:515-538 | with `--all`, exactly the cases 1 .. max_case, sorted; with a range, rejected exactly as the merge rejects it, otherwise sorted and holding the range and the listed cases; otherwise the list as given |
| Session.TestList | test/autobahn/autobahntest.c:515-538 | the test list `run_cases` settles on is rejected exactly when a range was given without `--all` and the merge rejects it |
| Session.SkipList | test/autobahn/autobahntest.c:540-548 | the skip list is rejected exactly when a skip range was given and the merge rejects it |
| Session.SkipListSettled | test/autobahn/autobahntest.c:540-548 | with a skip range, the skip list is sorted and holds the range and every listed skip; without one it is the list as given |
| Session.RunCasesSteps | test/autobahn/autobahntest.c:503-589 | `run_cases` ends in one of four ways: no count, rejected range, rejected skip range, or the loop followed by the report update |
| Session.RunCases | test/autobahn/autobahntest.c:503-589 | computes `run_cases`: the count, the two lists, then the loop and the report update; -1 at the first step that fails, else 0 |
| Session.RunAndReport | test/autobahn/autobahntest.c:576-588 | computes the end of `run_cases`: the loop, then the report update only when the loop succeeded; its result is 0 even when that update is refused |
| Session.RunCasesReports | test/autobahn/autobahntest.c:503-589 | the log starts with the count URL; a 0 means every unskipped case was started in order and the report URL was opened last; a -1 means the report URL was never opened |
| Session.AfterCount | test/autobahn/autobahntest.c:507 | the count request starts no case |
| Session.RunAndReportLog | test/autobahn/autobahntest.c:576-588 | the loop and the report update return 0 or -1; 0 exactly when every unskipped case was started and the report URL was opened last |
| Session.RunCasesVerdict | test/autobahn/autobahntest.c:503-589 | `run_cases` never sets `global_return` back to 0 |
| Session.ExitStatus | test/autobahn/autobahntest.c:983 | `ret \| global_return` over 0 and -1 is 0 exactly when both are 0 |
| Session.ExitStatusIsOr | test/autobahn/autobahntest.c:983 | over 0 and -1, `ExitStatus` is the bitwise or of the two 32-bit values, i.e. `ret \| global_return` |
| Session.Perform | test/autobahn/autobahntest.c:931-983 | the exit status is 0 or -1, and it is -1 whenever `global_return` already was |
| Session.PerformStatus | test/autobahn/autobahntest.c:931-983 | with `--reports`, the status is 0 exactly when no case had failed and the report update connected; in test mode it is 0 exactly when `global_return` is 0, even when `run_cases` returned -1 |
| Client.Autobahn.constructor | test/autobahn/autobahntest.c:60-64 | the globals start as state TEST, case -1, count 0, verdict 0, with nothing logged, sent or shown |
| Client.Autobahn.ParseTestInfo | test/autobahn/autobahntest.c:103-141 | a decodable message adds one banner with the current case and id, and in non-compact mode the wrapped description; a malformed one changes nothing |
| Client.Autobahn.ParseTestStatus | test/autobahn/autobahntest.c:143-193 | only `global_return` changes, as the verdict rule says |
| Client.Autobahn.OnMsg | test/autobahn/autobahntest.c:195-244 | the callback leaves exactly the state `Dispatch` computes |
| Client.Autobahn.DoConnect | test/autobahn/autobahntest.c:267-311 | logs the URL; returns -1 when refused, else dispatches every message in order and returns 0 |
| Client.Autobahn.UpdateReports | test/autobahn/autobahntest.c:313-330 | sets state REPORT and connects; the new state and the result are those of the model |
| Client.Autobahn.GetCaseCount | test/autobahn/autobahntest.c:378-396 | sets state COUNT and connects; the result is -1 on refusal, else `server_case_count` |
| Client.Autobahn.RunCase | test/autobahn/autobahntest.c:332-376 | the three phases with their states, stopping at the first failure; the result is 0 or -1 |
| Client.Autobahn.SkipCase | test/autobahn/autobahntest.c:398-411 | returns 1 exactly when the case occurs in the skip list, else 0, and changes nothing |
| Client.Autobahn.SettleTests | test/autobahn/autobahntest.c:515-538 | replaces the test array by the `--all` list or the merge; false exactly when the merge rejects the range, and then the array is kept |
| Client.Autobahn.SettleSkip | test/autobahn/autobahntest.c:540-548 | merges the skip range into the skip array; false exactly when the merge rejects it, and then the array is kept |
| Client.Autobahn.RunLoop | test/autobahn/autobahntest.c:575-584 | runs the cases `skip_case` does not reject, in array order, up to the first failure |
| Client.Autobahn.RunCases | test/autobahn/autobahntest.c:503-589 | the new globals, the result and the new test and skip arrays are those of the model |
| Client.Autobahn.Perform | test/autobahn/autobahntest.c:931-983 | the perform step leaves the model's globals and lists, and returns the model's exit status |

## Left out

- Transport: `do_connect` with the libws event loop, SSL, the per-phase timer, and the `onconnect`/`onping`/`onclose` callbacks is not modelled. The server's answer to each connection is a parameter (`Env.server`). The callbacks only print, answer pings or quit the loop.
- JSON decoding with jansson in `parse_test_info` and `parse_test_status` is a parameter. It yields a decoded id and description, a behavior, or "malformed". A load error and an unpack error are one case, because both return early.
- `atoi` is a parameter.
- Configuration loading and command-line parsing are not modelled: `load_config`, the `load_config_int_*` helpers, and the cargo setup in `main`. Both range loads at lines 746-753 read the `skiprange` object, so a config file's `testrange` is never used. This lies outside the model.
- Output is not modelled: all printing, colours, `draw_line`, the URL and headline `snprintf` formatting, and the case list `run_cases` prints at lines 550-573.
  - `PrintLinebreak` returns the buffer instead of printing it.
  - `ParseTestInfo` records the case number, the id and the wrapped description instead of the formatted headline.
- Allocation failure is not modelled: `malloc` and `realloc` failing and then `exit(1)`, and `strdup` failing in `print_linebreak`. `realloc` of size 0 for an empty `--all` list is also taken to succeed.
- `RangeMerger.IntCompare`: integers are unbounded, so the overflow of the 32-bit subtraction is not modelled, and `qsort` is an ideal ascending sort. Likewise the `size_t` counters and the casts of `start` and `stop` in `combine_range_and_values` are mathematical integers. This agrees with C for the positive ranges the function accepts.
- `RangeMerger.Combine`: the range check and the length of `combine_range_and_values` are computed in 32-bit signed `int` at lines 455 and 465: `tmp_count = (stop - start) + 1` and `tmp_count += more_count`. `Combine` and `CombineRangeAndValues` use mathematical integers there. So they reject a range such as [2, INT_MIN], which the code as written accepts (see Findings). They also give the full length where `tmp_count += more_count` would overflow, for the range [1, INT_MAX] with a listed 0. `RangeAcceptedAsWritten` models the check with wrap-around.
- The C `default:` label in `onmsg` shares the TEST branch. It is unreachable because `State` has exactly the five enum values.
- Messages are byte sequences. The NUL termination the C callbacks rely on is not modelled.
- `Session.GetCaseCountResult` does not say that the server's count is positive, because `atoi` may return anything; `run_cases` treats any negative count as a failure.

## Findings

| source | as written | input that shows it | evidently intended | confidence | as-written member | corrected member |
|---|---|---|---|---|---|---|
| test/autobahn/autobahntest.c:455-476 | `tmp_count = (stop - start) + 1` in 32-bit `int`, rejected only when not positive | the range [2, -2147483648]: `stop - start` wraps to 2147483646, so the check passes, and the fill loop counts `j` up to `(size_t)stop`, far past `tmp_count` | reject every range with stop < start | medium: signed overflow is undefined in C, and two's-complement wrap-around is assumed; not executed | RangeMerger.NegativeStopAccepted | RangeMerger.Combine |
