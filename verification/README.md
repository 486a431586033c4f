# openshift-tests: the runner, the monitor and the deployment checkers

A Dafny model of the stateful parts of openshift-tests, with proofs. The `.dfy` files hold one module each.

**The exclusion scheduler** (`pkg/test/ginkgo/queue.go`). `Ring` is the doubly linked ring the queue is built on,
`Queue` the queue class over it, `QueueSpec` the same locked sections on values. `Scheduler` turns one `Execute`
into a transition system: workers pop, are blocked, park, return and release, a canceller closes, the main routine
joins and runs the serial tests; all interleavings are schedules. Every result is about every schedule, for any
list of tests and any number of workers, and, unless it says otherwise, for two variants: the code, where a blocked
pop and the wait are two steps because the condition variable has a lock that does nothing, and an idealised
variant where they are one.

* `Safety` and `Execution`: mutual exclusion per key, conservation and exactly-once calls, phase order.
* `Termination`: a measure falls on every step, so no schedule is longer than a stated bound, and one that cannot
  continue has returned or hangs.
* `Hang`: as written, `Execute` can hang. A worker whose pop was blocked may miss the last broadcast and park for
  good. `CanHangIff` says exactly when: two workers or more, and two queued tests with one non-empty key. No test is
  stranded in the queue then, but nothing is called any more, deferred serial tests included, and `Execute` returns
  only if the context is cancelled (`HungForGood`). Under a cancelled context the same inputs admit a hang that
  nothing ever ends, as the worker can park after the close (`CanHangForeverIff`).
* `Phases`: repetition by count, the smoke split and the first two `Execute`s of a suite. `SuiteHang` adds the third,
  the retry of the failing tests, and says exactly when a whole suite can hang. In the retry a smoke test meets
  other tests, so there a key that they share is enough. Run more than once, any test with a key is enough.
* `QueueSteps`: the steps of the transition system that touch the queue are calls of the queue's methods.

**The monitor** (`pkg/monitor`). `Intervals` coalesces samples in place, through maps that point at heap objects of
the output; `Coalescing` proves each of its steps against `Timeline`, which says on values what the intervals are.
`Windows`, `Clipping`, `Views` and `Ticks` say what they mean. Every maximal run of recorded samples has one interval,
and a sample that reports a new condition several times adds a moment for each report too many. Windowing commutes
with coalescing exactly if the sample that opens the window reports nothing twice that the sample before it
reported. A moment without any condition is papered over exactly if its neighbours report the condition. `Monitor`
is the log with its binary searches and the merged view, `Ordering` the order of that view. `Polling` and `Watermark`
follow the printing loop over any interleaving of records, samples and polls; `MonitorSteps` ties them to the monitor
and printer objects. Under a strictly advancing clock each event is printed exactly once; under one that may stand
still, the printed events are complete exactly if none was late. Sampled conditions are printed as moments
too, also where the watermark cuts an interval (`MomentsOfPoll`).

**The deployment checkers** (`test/extended/deployments/util.go`). `DeployerPods` is the online checker with its
cache, `DeployerHistory` proves it against the history of the watch, `Deployments` has the offline checks and the
language of status histories they accept.

**The suite** (`pkg/test/ginkgo`). `Quoting` and `SuiteFile` prove that a suite file made from the dry-run listing
selects what it lists, and what the listing looks like; names read from a file are bytes, so byte escapes make text as
well. `Verdict` goes from exit statuses through outcome flags and the retry to the result; flags are never cleared, so
a failure can hide behind a success of the same test case. Among full runs that can happen exactly if a test case
stands in the list twice (`CanGoUnnoticedIff`), that is, for distinct tests, if the count is above one. `LogTail` is
the backwards scan over a log; `WhiteSpace` shows that it trims bytes as the reader of suite files trims text.
`Lookup` holds the rotated and hinted searches of the monitor.

Go's `container/ring`, `sort`, `sync.Cond` and `strconv` are not part of the repository; they are modelled by what
their documentation says. Times are integers, 0 being the zero time.

One remark in the source does not describe what the code does: `Conditions` promises no duplicate condition unless
a sampling interval did not report it (pkg/monitor/monitor.go:111-112). Two intervals of one condition are always
parted by a sample without it exactly if no sample reports a new condition twice (`Windows.PartedIff`); a sample that
does yields two intervals that nothing parts (`Windows.RepeatsAreNotParted`). In a view between two times every
condition of the first sample is new (`Views.ViewPartedIff`). The converse fails too: a tick on which nothing was
reported is not recorded, so a condition that went away for it keeps one interval (`Ticks.ShownIff`).

## Model

| member | source | states |
|---|---|---|
| Ring.New | pkg/test/ginkgo/queue.go:29 | builds a well-formed ring of n fresh elements, none for n = 0 |
| Ring.Fill | pkg/test/ginkgo/queue.go:30-33 | one walk around the ring stores the tests in order and ends where it began |
| Ring.Len | pkg/test/ginkgo/queue.go:46 | walking once around counts the elements |
| Ring.RotateToPred | pkg/test/ginkgo/queue.go:63 | seen from the predecessor of element k, k comes second in the same ring |
| Ring.UnlinkNext | pkg/test/ginkgo/queue.go:64 | takes out exactly the next element and leaves two well-formed rings |
| QueueSpec.RemoveAtIsCyclicRemoval | pkg/test/ginkgo/queue.go:60-65 | a pop leaves the other tests in their cyclic order, starting at the predecessor of the popped one |
| QueueSpec.LoneConsumerOrder | pkg/test/ginkgo/queue.go:28-76 | one consumer gets the first test first and then all the others backwards, whatever their keys |
| Queue.ParallelByFileTestQueue.constructor | pkg/test/ginkgo/queue.go:28-40 | the new queue stands for the list in order, with no key held |
| Queue.ParallelByFileTestQueue.PopNext | pkg/test/ginkgo/queue.go:42-69 | the linked structure follows the pop on values; an empty queue wakes everybody, nothing else does |
| Queue.ParallelByFileTestQueue.FindFree | pkg/test/ginkgo/queue.go:51-56 | finds the first test on the ring whose key is not held, or passes all of them |
| Queue.ParallelByFileTestQueue.TakeOut | pkg/test/ginkgo/queue.go:60-65 | the ring loses the chosen element and is read from its predecessor |
| Queue.ParallelByFileTestQueue.Finish | pkg/test/ginkgo/queue.go:71-76 | gives the key back, changes nothing else in the queue, wakes everybody |
| Queue.ParallelByFileTestQueue.Close | pkg/test/ginkgo/queue.go:78-84 | empties queue and keys and wakes everybody |
| Queue.ParallelByFileTestQueue.Wait | pkg/test/ginkgo/queue.go:90 | a worker parks; the queue itself does not change |
| QueueSteps.Begin | pkg/test/ginkgo/queue.go:28-40 | a new queue stands for the initial state of the transition system |
| QueueSteps.Perform | pkg/test/ginkgo/queue.go:42-100 | every step of the transition system is at most one call on the queue, after which queue, held keys and parked workers agree again |
| Safety.StepKeeps | pkg/test/ginkgo/queue.go:42-136 | each step of any worker, the canceller or the main routine keeps the whole invariant |
| Safety.Always | pkg/test/ginkgo/queue.go:42-136 | the invariant holds after every schedule |
| Execution.MutualExclusion | pkg/test/ginkgo/queue.go:51-84 | no two workers hold one non-empty key, ever; while tests are queued the active set is exactly the keys held |
| Execution.NothingStranded | pkg/test/ginkgo/queue.go:42-100 | if no worker is ready, running or releasing, the queue is empty, even with lost wake-ups |
| Execution.Conservation | pkg/test/ginkgo/queue.go:28-136 | without a close, queued + taken + deferred + finished is the input as a multiset; with one, nothing is called more often than it occurs |
| Execution.ExactlyOnce | pkg/test/ginkgo/queue.go:102-136 | an uncancelled Execute that returns has called and finished every occurrence of every test once |
| Execution.PhaseOrder | pkg/test/ginkgo/queue.go:102-136 | no serial test is called before all workers have exited; serial calls follow one at a time in the order of deferral |
| Execution.SerialIsDeferralOrder | pkg/test/ginkgo/queue.go:107-122 | from any state and over every continuation, each serial test that a worker hands over goes to the end of the list, and nothing else changes it |
| Execution.NoSerialStartAfterCancel | pkg/test/ginkgo/queue.go:128-135 | under a cancelled context no serial test is started any more |
| Termination.MeasureFalls | pkg/test/ginkgo/queue.go:42-136 | every step lowers the measure, also those that wake all workers |
| Termination.EveryScheduleEnds | pkg/test/ginkgo/queue.go:42-136 | no schedule is longer than (6 tests + workers + 5)(2 workers + 1) + 2 workers steps |
| Termination.StuckMeansHung | pkg/test/ginkgo/queue.go:86-136 | a schedule cannot continue if and only if it has returned or hangs |
| Termination.AtomicParkingNeverHangs | pkg/test/ginkgo/queue.go:86-100 | if pop and wait were one step, no schedule would hang |
| Hang.NoHang | pkg/test/ginkgo/queue.go:86-100 | with one worker, or no key shared by two tests, no schedule of the code hangs |
| Hang.HangExists | pkg/test/ginkgo/queue.go:21-24 | with two workers and a shared key there is an uncancelled schedule that hangs |
| Hang.CanHangIff | pkg/test/ginkgo/queue.go:86-100 | a hang is reachable if and only if there are two workers and two tests share a non-empty key |
| Hang.CanHangForeverIff | pkg/test/ginkgo/queue.go:78-136 | a hang under a cancelled and closed context, after which no event is possible, is reachable under the same condition |
| Hang.HangSkipsSerialTests | pkg/test/ginkgo/queue.go:102-136 | in an uncancelled hang all parallel tests have run and no serial test has |
| Hang.HungForGood | pkg/test/ginkgo/queue.go:78-136 | however an uncancelled hang is continued, nothing is called any more; Execute returns only after a cancellation and a close, and the close ends the hang |
| Phases.SplitTests | pkg/test/ginkgo/queue.go:155-164 | splits into the tests that satisfy a predicate and the others, in order, losing none |
| Phases.FilterConcat | pkg/test/ginkgo/queue.go:155-164 | the parts keep the order of the list |
| Phases.FilterCounts | pkg/test/ginkgo/queue.go:155-164 | each part has every occurrence of a test that belongs to it and none of any other |
| Phases.Repeat | pkg/test/ginkgo/cmd_runsuite.go:124-134 | repeats the whole list for a count above one and leaves it alone otherwise |
| Phases.TimesCounts | pkg/test/ginkgo/cmd_runsuite.go:128-134 | repetition multiplies the occurrences of every test |
| Phases.TimesAt | pkg/test/ginkgo/cmd_runsuite.go:128-134 | each repetition goes through the list in its order |
| Phases.SmokeComesFirst | pkg/test/ginkgo/cmd_runsuite.go:203-216 | over every run of the suite no other test starts before the smoke tests' Execute has returned with all calls ended |
| Phases.AllCallsEnded | pkg/test/ginkgo/queue.go:127-136 | once an Execute returns, cancelled or not, no call is running |
| Phases.SuiteRunsEverythingOnce | pkg/test/ginkgo/cmd_runsuite.go:203-216 | an uncancelled run calls and finishes every test of the suite once per occurrence |
| SuiteHang.CanReturn | pkg/test/ginkgo/queue.go:102-136 | with a worker there is always a schedule that returns without a cancellation |
| SuiteHang.HangsInRetry | pkg/test/ginkgo/cmd_runsuite.go:281-293 | if tests that share a key fail, few enough to be retried, the retry's Execute can hang although the first two returned |
| SuiteHang.SuiteCanHangIff | pkg/test/ginkgo/cmd_runsuite.go:203-293 | a run of the suite with its retry can hang if and only if there are two workers and two smoke tests share a key, or two others, or two flakes are allowed and any two tests share a key |
| SuiteHang.FilterTimes | pkg/test/ginkgo/cmd_runsuite.go:128-205 | splitting a repeated list is repeating its parts |
| SuiteHang.SharedWithCopy | pkg/test/ginkgo/cmd_runsuite.go:128-134 | in a repeated list two tests share a key if and only if some test has one |
| SuiteHang.RepeatedSuiteCanHangIff | pkg/test/ginkgo/cmd_runsuite.go:128-293 | a suite run more than once can hang if and only if there are two workers and any test with a key |
| Timeline.OrderedByFrom | pkg/monitor/monitor.go:110-111 | intervals come in the order of their first sampling |
| Timeline.Covers | pkg/monitor/monitor.go:173-197 | a recorded sample reports a condition if and only if an interval of that condition covers its time |
| Coalescing.StepExtend | pkg/monitor/monitor.go:177-182 | a condition carried on from the sample before moves the end of its interval and of no other |
| Coalescing.StepBegin | pkg/monitor/monitor.go:183-189 | a new condition adds one interval and changes no other |
| Intervals.Observe | pkg/monitor/monitor.go:176-190 | one condition, taken in through the maps that alias the output, leads to the next partial timeline |
| Intervals.TakeIn | pkg/monitor/monitor.go:175-195 | one sample, with the maps swapped and cleared, leads from one timeline to the next |
| Intervals.CoalesceSamples | pkg/monitor/monitor.go:173-197 | the loop returns distinct new objects that hold the coalesced timeline, also if a sample repeats a condition |
| Windows.DistinctIntervals | pkg/monitor/monitor.go:173-197 | with strictly increasing times and no repeats no interval occurs twice |
| Windows.OneIntervalPerRun | pkg/monitor/monitor.go:173-197 | with strictly increasing times and no repeats there is exactly one interval per maximal run of recorded samples and none that is not such a run |
| Windows.PartedIff | pkg/monitor/monitor.go:111-112 | any two intervals of one condition are parted by a sample without it if and only if no sample reports a new condition twice |
| Windows.RepeatsAreNotParted | pkg/monitor/monitor.go:111-112 | a sample that reports a new condition twice yields two intervals that nothing parts |
| Clipping.IntervalsCounted | pkg/monitor/monitor.go:173-197 | repeats included, how often any interval between two samples occurs: once for a maximal run, and as a moment once more for each report too many |
| Clipping.WindowExceedsClip | pkg/monitor/monitor.go:146-197 | repeats included, what the intervals of a window are: the clipped intervals of the whole, and a moment for each report too many of a condition carried into its first sample |
| Clipping.WindowingCommutes | pkg/monitor/monitor.go:146-197 | windowing commutes with coalescing, as multisets, if and only if the first sample of the window reports nothing twice that the sample before reported |
| Clipping.WindowShowsTooMuch | pkg/monitor/monitor.go:146-197 | a window that opens on such a sample shows an interval too many |
| Views.ViewIsClipped | pkg/monitor/monitor.go:146-197 | what is returned for two time bounds is the whole timeline clipped to the samples inside them, empty clips dropped, if and only if the sample that opens the window repeats no carried condition |
| Views.ViewPartedIff | pkg/monitor/monitor.go:111-112 | in a view, intervals of one condition are parted by a sample without it if and only if no sample repeats a condition that the sample before it, in the view too, did not report |
| Views.MomentsShown | pkg/monitor/monitor.go:146-197 | exactly how often the view after a time shows a moment, against the timeline of all samples: more where the view cuts an interval off, and for what has only begun |
| Views.ViewCovers | pkg/monitor/monitor.go:146-197 | inside a window, too, an interval covers a sample if and only if the sample reports the condition |
| Ticks.ShownIff | pkg/monitor/monitor.go:78-99 | at a tick a condition is shown if and only if the tick reported it, or reported nothing and its recorded neighbours both did |
| Ticks.EmptyTickIsLost | pkg/monitor/monitor.go:88-90 | a condition that goes away for one empty tick is shown as if it had stayed |
| Monitor.Search | pkg/monitor/monitor.go:152-154 | the binary search finds a boundary between not-later and later elements |
| Monitor.SampleWindow | pkg/monitor/monitor.go:146-171 | binary and linear search together select what a linear filter would, a zero bound being no bound |
| Monitor.WhichSamples | pkg/monitor/monitor.go:151-168 | a sample is in the window if and only if it is later than from and not later than to, a zero bound being no bound |
| Monitor.WhichEvents | pkg/monitor/monitor.go:199-219 | an event is selected if and only if from < At <= to, an unbounded to included; from is no bound only if both are zero |
| Monitor.FilterSamples | pkg/monitor/monitor.go:146-197 | the samples in the window, coalesced |
| Monitor.FilterEvents | pkg/monitor/monitor.go:199-219 | the searches select the events with from < At <= to, and all of them for two zero bounds |
| Monitor.Monitor.AddSampler | pkg/monitor/monitor.go:55-59 | appends the sampler and leaves the log alone |
| Monitor.Monitor.Record | pkg/monitor/monitor.go:63-76 | appends all conditions at one time and keeps the log in order |
| Monitor.Monitor.TakeSample | pkg/monitor/monitor.go:78-99 | appends the gathered conditions as one sample, and nothing if there are none |
| Monitor.GatherConcat | pkg/monitor/monitor.go:84-87 | the conditions of one sampler follow those of the samplers before it |
| Monitor.GatherOne | pkg/monitor/monitor.go:84-87 | one sampler contributes what it reports |
| Monitor.GatherCounts | pkg/monitor/monitor.go:84-87 | every condition is in the sample as often as all samplers together report it |
| Monitor.Monitor.Conditions | pkg/monitor/monitor.go:113-116 | the coalesced samples of the window |
| Monitor.Monitor.Events | pkg/monitor/monitor.go:121-144 | a permutation of the windowed intervals and one moment per event, sorted by start whether or not it was sorted again; fully sorted if there are sampled intervals, and the events as recorded if there are none |
| Ordering.StrictWeakOrder | pkg/monitor/types.go:77-91 | Less is a strict weak order whose equivalents agree in start, end and message |
| Ordering.LessIff | pkg/monitor/types.go:77-91 | the earlier start decides, of equal starts the earlier end, of equal ends the lesser message |
| Ordering.SortedMeans | pkg/monitor/types.go:77-91 | so a moment stands before longer intervals of the same start |
| Polling.Printer.Poll | pkg/monitor/cmd.go:57-66 | prints the moments after the watermark and moves it to the start of the last interval |
| Polling.Printer.Print | pkg/monitor/cmd.go:59-64 | prints the intervals whose start is their end, in order, and no others |
| MonitorSteps.Begin | pkg/monitor/cmd.go:41-50 | a new monitor and printer stand for the initial world |
| MonitorSteps.PerformRecord | pkg/monitor/monitor.go:63-76 | recording is the world's recording step |
| MonitorSteps.PerformSample | pkg/monitor/monitor.go:78-99 | sampling is the world's sampling step, with the conditions the samplers report together |
| MonitorSteps.PerformPoll | pkg/monitor/cmd.go:57-66 | a round of the printing loop is a poll of the world, whatever the sort does with equal intervals |
| Watermark.RunKeeps | pkg/monitor/cmd.go:46-68 | every record, sample and poll keeps the balance of printed, late and pending events |
| Watermark.PollPrints | pkg/monitor/cmd.go:46-68 | after any run ending in a poll all events but the late ones are printed once, in time order; nothing is missing if and only if none was late |
| Watermark.ExactlyOncePrinted | pkg/monitor/cmd.go:46-68 | under a strictly advancing clock every event present at the last poll has been printed exactly once |
| Watermark.MomentsOfPoll | pkg/monitor/cmd.go:57-66 | exactly which sampled moments a poll adds: those of the timeline later than the watermark, those cut off by it, and those of intervals that have only begun |
| Watermark.MomentsAreSampled | pkg/monitor/cmd.go:59-64 | every sampled moment printed is at the time of a sample |
| Watermark.CutIntervalIsPrinted | pkg/monitor/cmd.go:57-66 | an interval cut by the watermark is printed as a moment that the timeline does not hold |
| Watermark.StandingClockLosesEvents | pkg/monitor/cmd.go:65 | an event recorded at the watermark's own time is never printed |
| DeployerPods.KeysSeparateOwners | test/extended/deployments/util.go:660-667 | equal cache keys mean equal namespace and equal owner |
| DeployerPods.DeployerPodInvariantChecker.constructor | test/extended/deployments/util.go:652-658 | starts with an empty cache |
| DeployerPods.DeployerPodInvariantChecker.GetCacheKey | test/extended/deployments/util.go:660-667 | fails if and only if the owner annotation is missing or empty |
| DeployerPods.DeployerPodInvariantChecker.GetPodIndex | test/extended/deployments/util.go:668-680 | finds the first pod of that namespace and name; fails if there is none or its UID differs |
| DeployerPods.DeployerPodInvariantChecker.CheckInvariants | test/extended/deployments/util.go:682-695 | fails if and only if more than one pod of the list is unterminated |
| DeployerPods.DeployerPodInvariantChecker.AddPod | test/extended/deployments/util.go:697-702 | appends to the owner's list and checks it |
| DeployerPods.DeployerPodInvariantChecker.RemovePod | test/extended/deployments/util.go:704-711 | splices the pod out of the owner's list and checks it |
| DeployerPods.DeployerPodInvariantChecker.UpdatePod | test/extended/deployments/util.go:713-732 | refuses a change of phase after termination, otherwise replaces the pod and checks |
| DeployerPods.DeployerPodInvariantChecker.Handle | test/extended/deployments/util.go:749-766 | only deployer pods count, each kind of event goes to its method |
| DeployerPods.DeployerPodInvariantChecker.DoChecking | test/extended/deployments/util.go:742-767 | handles events in order up to the first failure |
| DeployerHistory.EventChecked | test/extended/deployments/util.go:697-732 | a cache that stands for the history keeps doing so; an event fails if and only if it breaks an invariant of the history |
| DeployerHistory.RemovalKeepsFew | test/extended/deployments/util.go:704-711 | removing a pod never adds to the unterminated ones |
| DeployerHistory.QuietMeansNotTwo | test/extended/deployments/util.go:682-695 | lists with at most one unterminated pod each mean no owner has two |
| DeployerHistory.CheckerDecides | test/extended/deployments/util.go:660-768 | on every orderly stream the checker fails at the first event that breaks an invariant and at no other, never at a removal; otherwise its cache is the history's |
| DeployerHistory.CheckerDecidesByOwner | test/extended/deployments/util.go:660-768 | for namespaces without a slash, it fails if and only if a pod leaves a terminal phase or one owner in one namespace has two unterminated pods |
| Deployments.RegularNext | test/extended/deployments/util.go:169-186 | exactly which status may follow an accepted history |
| Deployments.CheckStatuses | test/extended/deployments/util.go:165-190 | accepts if and only if the statuses are (Complete or Failed)*, at most one Running or Pending, New*, or one arbitrary status and New*; otherwise stops at the first controller that breaks this, for the reason given |
| Deployments.OneInFlight | test/extended/deployments/util.go:165-190 | after the first, whatever is not New is finished or in flight and follows finished controllers only |
| Deployments.NamesIff | test/extended/deployments/util.go:79-94 | deployer and hook pods are told by the ends of their names |
| Deployments.CheckDeployerPodInvariants | test/extended/deployments/util.go:70-123 | rejects if and only if there are two deployer pods, an unknown pod, or a failed hook beside a succeeded deployer; each for its own reason; otherwise says whether the deployer runs or is done |
| Deployments.DeploymentPods | test/extended/deployments/util.go:56-66 | groups the labelled pods by deployment |
| Deployments.PodsForExactly | test/extended/deployments/util.go:56-66 | a group has every occurrence of every pod with the label, whatever its name, and no other pod |
| Deployments.PodsForInOrder | test/extended/deployments/util.go:56-66 | pods of a group stay in their order |
| Deployments.TidyIff | test/extended/deployments/util.go:125-164 | the groups are valid and at most one runs if and only if, over all pods: no label has two deployers, a foreign pod or a failed hook beside a succeeded deployer, and no two labels run a deployer |
| Deployments.CheckDeploymentInvariants | test/extended/deployments/util.go:125-191 | accepts if and only if, over all pods, no label has a defect and no two labels run a deployer, and the statuses are accepted; each error means what it says, in that order |
| Quoting.HexRoundTrip | pkg/test/ginkgo/test.go:99 | hexadecimal digits of a fixed width read back as the number |
| Quoting.DecodeEscape | pkg/test/ginkgo/test.go:99 | one escaped code point reads back as itself, whatever follows |
| Quoting.QuoteRoundTrip | pkg/test/ginkgo/test.go:99 | unquoting a quoted name gives the bytes of the name, for every name and every notion of printable |
| Quoting.Utf8Injective | pkg/test/ginkgo/test.go:106-109 | names with the same bytes are the same name |
| Quoting.BytesRoundTrip | pkg/test/ginkgo/test.go:99 | bytes written as byte escapes read back as those bytes, whether or not they are text |
| Quoting.EscapeAllIsOneLine | pkg/test/ginkgo/cmd_runsuite.go:143 | a quoted name contains no newline, so the listing has one line per test |
| Quoting.PlainQuote | pkg/test/ginkgo/cmd_runsuite.go:143 | a name of printable ASCII without quotes and backslashes is printed as it is, between quotes |
| Quoting.EscapeTexts | pkg/test/ginkgo/cmd_runsuite.go:143 | how quote, backslash and the control codes with a letter are printed |
| Quoting.EscapeControl | pkg/test/ginkgo/cmd_runsuite.go:143 | how the other control codes are printed |
| Quoting.EscapeAbove | pkg/test/ginkgo/cmd_runsuite.go:143 | code points above ASCII are printed as they are or by their number |
| Quoting.HexDigits | pkg/test/ginkgo/cmd_runsuite.go:143 | digits are printed in lower case and read in both |
| Quoting.DecodeLetters | pkg/test/ginkgo/test.go:99 | which control codes the letters after a backslash are read as |
| Quoting.DecodeOctal | pkg/test/ginkgo/test.go:99 | three octal digits are read as one byte |
| Quoting.DecodeRefuses | pkg/test/ginkgo/test.go:99-102 | a bare quote, newline or backslash and any other letter after a backslash are errors |
| Quoting.UnquoteRefuses | pkg/test/ginkgo/test.go:97-102 | a quoted line without a closing quote is an error; with one, what is between is read |
| Quoting.NumberRefuses | pkg/test/ginkgo/test.go:99-102 | missing or other digits, bytes above 0xff and numbers beyond Unicode are errors |
| Quoting.HexTexts | pkg/test/ginkgo/cmd_runsuite.go:143 | numbers are printed with the highest digit first |
| Quoting.Utf8Shape | pkg/test/ginkgo/test.go:99 | the bytes of a code point are those of UTF-8 |
| Strings.SplitJoin | pkg/test/ginkgo/test.go:95 | splitting at newlines undoes joining lines without newlines |
| Strings.StringsCompare | pkg/test/ginkgo/status.go:166 | comparing names is a strict total order |
| Strings.StringLessIff | pkg/test/ginkgo/status.go:166 | the first difference decides, and a string comes after its proper prefixes |
| Strings.ContainsIff | pkg/test/ginkgo/queue.go:114 | a text contains a part if and only if it is something, the part, and something |
| Tests.MarksIff | pkg/test/ginkgo/queue.go:114 | a test is serial, or smoke, if and only if the mark stands anywhere in its name |
| Strings.HasPrefixIff | pkg/test/ginkgo/junit.go:201 | a text has a prefix if and only if it is the prefix and something |
| Strings.HasSuffixIff | test/extended/deployments/util.go:754 | a text has a suffix if and only if it is something and the suffix |
| WhiteSpace.TrimsAlike | pkg/test/ginkgo/test.go:96 | trimming the bytes of a text gives the bytes of the trimmed text |
| WhiteSpace.BlankLine | pkg/test/ginkgo/junit.go:185 | a line counts as blank if and only if all its characters are white space |
| SuiteFile.IsSpaceIff | pkg/test/ginkgo/test.go:96 | white space is what Unicode lists |
| SuiteFile.TrimmedAway | pkg/test/ginkgo/test.go:96 | trimming leaves nothing if and only if all is white space |
| SuiteFile.NewSuiteFromFile | pkg/test/ginkgo/test.go:90-111 | an error if and only if some quoted line is malformed; otherwise the suite has exactly the names quoted, with their counts |
| SuiteFile.IsEntryIff | pkg/test/ginkgo/test.go:96-97 | a line is read if and only if it starts with a double quote, blanks aside |
| SuiteFile.SelectTests | pkg/test/ginkgo/test.go:79-88 | the matching tests, in order |
| SuiteFile.SelectedInOrder | pkg/test/ginkgo/test.go:79-88 | selected tests stay in their order |
| SuiteFile.SortedTests | pkg/test/ginkgo/status.go:163-168 | a permutation sorted by name |
| SuiteFile.ReadBack | pkg/test/ginkgo/test.go:90-111 | a file of any quoted names in any order, padded and mixed with other lines, reads back as exactly the bytes of those names |
| SuiteFile.MentionsCounted | pkg/test/ginkgo/test.go:94-105 | a name is counted once per line that lists it |
| SuiteFile.ReadBackSelects | pkg/test/ginkgo/test.go:79-111 | a suite read from such a file selects exactly the tests whose names it lists, every occurrence of them |
| SuiteFile.SelectedExactly | pkg/test/ginkgo/test.go:79-88 | filtering keeps every occurrence of a test with a matching name and none of any other |
| SuiteFile.DryRunIsListing | pkg/test/ginkgo/cmd_runsuite.go:141-146 | the dry-run output is such a file |
| SuiteFile.PrintDryRun | pkg/test/ginkgo/cmd_runsuite.go:141-146 | prints the tests sorted by name, each quoted on a line of its own |
| SuiteFile.DryRunLines | pkg/test/ginkgo/cmd_runsuite.go:142-144 | the output is one line per test, in order |
| SuiteFile.PlainDryRun | pkg/test/ginkgo/cmd_runsuite.go:142-144 | names of printable ASCII without quotes and backslashes are listed as they are |
| SuiteFile.ListingSelectsEverything | pkg/test/ginkgo/cmd_runsuite.go:141-146 | running from a suite's own listing selects the whole suite again |
| Verdict.TestCase.constructor | pkg/test/ginkgo/test.go:36-45 | a new test case has no flag set and no predecessor |
| Verdict.TestCase.Retry | pkg/test/ginkgo/test.go:47-57 | a fresh copy of the same test with no flag set that points back at the original |
| Verdict.TestCase.Run | pkg/test/ginkgo/status.go:123-143 | no error sets success, exit status 3 skipped, anything else failed; no flag is cleared |
| Verdict.RunAll | pkg/test/ginkgo/cmd_runsuite.go:210-216 | afterwards a flag is set if and only if some run of the test had that outcome |
| Verdict.SummarizeTests | pkg/test/ginkgo/status.go:146-161 | counts occurrences with success over failure over skip and lists the failing ones in order |
| Verdict.RetryAll | pkg/test/ginkgo/cmd_runsuite.go:283-293 | one fresh copy per failing occurrence, successful if and only if its retry was |
| Verdict.Sift | pkg/test/ginkgo/cmd_runsuite.go:294-302 | separates flaky names from repeated failures; with no flaky one all failures are repeated |
| Verdict.SuiteVerdict | pkg/test/ginkgo/cmd_runsuite.go:207-330 | no failures are reported if and only if nothing failed, or no more than the allowed flakes failed and every retry succeeded; the listed failures are exactly those whose retry, if any, did not succeed; with no flakes allowed, failures are reported if and only if some call failed by its exit status and no call of that test succeeded |
| Verdict.FailingIff | pkg/test/ginkgo/status.go:123-161 | there is a failing test if and only if some call ended with neither success nor status 3 and no call of that test succeeded |
| Verdict.CountedInOrder | pkg/test/ginkgo/status.go:146-161 | failing tests stay in the order of the list |
| Verdict.CountedByStatus | pkg/test/ginkgo/status.go:123-161 | a test passes if and only if one of its calls succeeded, and is skipped if and only if it ran and all its calls ended with status 3 |
| Verdict.CountsAddUp | pkg/test/ginkgo/status.go:146-161 | pass, fail and skip add up to the number of tests if and only if every test has run |
| Verdict.UncancelledSuiteAddsUp | pkg/test/ginkgo/cmd_runsuite.go:203-223 | they do after every uncancelled run of the suite, whatever its schedule |
| Verdict.OrderIsIrrelevant | pkg/test/ginkgo/status.go:146-161 | the counts and the failing tests do not depend on the order in which runs finish |
| Verdict.CountedPerOccurrence | pkg/test/ginkgo/status.go:146-161 | a test counts once per occurrence in the list or not at all |
| Verdict.CanGoUnnoticedIff | pkg/test/ginkgo/status.go:123-161 | some full run of a list has a failed call whose test is not counted as failing if and only if a test case stands in the list twice |
| Verdict.CountHidesFailuresIff | pkg/test/ginkgo/cmd_runsuite.go:124-134 | for distinct test cases that is so if and only if the count is above one |
| Verdict.OnceMeansExact | pkg/test/ginkgo/status.go:123-143 | with at most one run per test the failing tests are those whose run failed |
| Verdict.RetryNamesExactly | pkg/test/ginkgo/cmd_runsuite.go:296-302 | a name is a repeated failure if and only if some copy of a test of that name did not succeed |
| Verdict.FlakyOrFailing | pkg/test/ginkgo/cmd_runsuite.go:294-307 | every failing occurrence is reported either as flaky or as failing |
| LogTail.StringStartsWithAny | pkg/test/ginkgo/junit.go:199-206 | true if and only if some marker is a prefix |
| LogTail.LastLinesUntil | pkg/test/ginkgo/junit.go:174-197 | returns the trimmed text from the last line at which enough lines are counted or a marker begins, or all of it; it ends for every input |
| LogTail.OneCut | pkg/test/ginkgo/junit.go:179-195 | there is at most one such line |
| LogTail.TailIsSuffix | pkg/test/ginkgo/junit.go:196 | the result is a suffix of the trimmed text, and only white space separates it from the line boundary |
| LogTail.TailIsShort | pkg/test/ginkgo/junit.go:179-195 | at most max non-blank lines, one more exactly if the last line is blank without its final byte; fewer only if a marker or the first line ended the scan |
| LogTail.MarkerLeads | pkg/test/ginkgo/junit.go:192-194 | if a marker ended the scan the result starts with one and no later line examined does |
| Strings.SplitAt | pkg/test/ginkgo/junit.go:180 | every newline separates two lines |
| Lookup.FindOperatorVersionChange | pkg/monitor/operator.go:290-306 | compares each new entry with the first of its name on a walk that starts at its own position; with consistent names it lists exactly the versions that changed, in the new order |
| Lookup.WalkVisitsAll | pkg/monitor/operator.go:293-294 | the rotated index visits every old entry at exactly one step |
| Lookup.WalkMissesNone | pkg/monitor/operator.go:293-303 | an entry is found if and only if there is one of the name |
| Lookup.WalkFindsFirst | pkg/monitor/operator.go:293-303 | of several entries of a name the one the walk comes to first is compared |
| Lookup.PlainChangesExactly | pkg/monitor/operator.go:290-306 | a change is listed if and only if the new list has the name with a version other than the old one, from that to this |
| Lookup.PlainChangesInOrder | pkg/monitor/operator.go:290-306 | changes come in the order of the new list |
| Lookup.RotationHarmlessIff | pkg/monitor/operator.go:290-306 | rotation and plain lookup agree on all new lists if and only if old entries of one name have one version |
| Lookup.FindContainerStatus | pkg/monitor/api.go:122-148 | the entry at the hint if it has the name, otherwise the first that has it, otherwise none |
| Lookup.HintHarmlessIff | pkg/monitor/api.go:122-148 | the hint never decides whether an entry is found, and never which one if and only if names are unique |

## Left out

- The cluster tests themselves, informers, watches, REST clients, signals: they talk to a live cluster.
- Running a test as a process, its timeout and its output: a run is a parameter that says how the process ended.
- JUnit reports, the retry's own output, progress counters, rounding of durations and formatting of times.
- The final report of conditions after the polling loop ends; it prints one more view of the log.
- Message texts: failures and errors are told apart by constructors, changed versions are records instead of text.
- Printing the commands of a suite: it runs one `Execute` with one worker, which cannot hang (`Hang.NoHang`).
- SuiteHang.SuiteCanHangIff: an error before or between the three `Execute`s; the tests that fail are chosen by their runs, any of those called.
- Regular expressions over names and the other ways of composing a suite's match function: any set of names stands for them.
- Compaction of the pod list (pkg/monitor/pod.go:22-33), the edge detecting samplers, `Swap` and `Len` of the intervals.
- Saturation of Go durations: times are unbounded integers.
- The printing of flaky and failing names in alphabetical order; the lists are given in list order.
- Scheduler: Go's memory model below the locks, and spurious or partial wake-ups, which `sync.Cond` excludes.
- Execution.ExactlyOnce: needs one worker at least; with none `Execute` returns at once and calls nothing.
- Monitor.Monitor.TakeSample: samplers are functions of the time; those of the source keep their own state.
- Windows.OneIntervalPerRun: runs are runs of recorded samples; `Ticks.ShownIff` says what that means for ticks. It leaves out samples that report a condition twice, which `Clipping.IntervalsCounted` includes.
- Clipping.WindowingCommutes: sample times increase strictly, as in the results about runs; samples taken at one time are left to `Intervals.CoalesceSamples`.
- Watermark.ExactlyOncePrinted: sampled intervals of a single moment are printed as well; they are counted apart, and `Watermark.MomentsOfPoll` says which.
- DeployerHistory.CheckerDecides: asks of the watch that pods are added once and changed or deleted only while they exist, with the same UID and owner; the checker also fails on streams that break this.
- Deployments.CheckDeploymentInvariants: statuses stand for the controllers they are read from; the warnings about missing controllers, which never fail, are left out.
- Ordering.Sort: stands for `sort.Sort` by an insertion sort of which only the sorted permutation is used.
- Quoting.QuoteRoundTrip: the texts that are quoted and the files that are read are sequences of code points; invalid UTF-8 in them is left out.
- SuiteFile.ReadBack: white space is Unicode's list as of the time of the source, on code points; `LogTail` has the same list on UTF-8 bytes.
- Verdict.SuiteVerdict: test cases start with no flag set, and how the runs come about is a parameter; `Verdict.UncancelledSuiteAddsUp` ties them to the scheduler.
- LogTail.TailIsShort: for a limit of at least one; a limit of zero returns the whole text and a negative one its final byte, as `LogTail.LastLinesUntil` says.
- Lookup.FindContainerStatus: stands for both lookups of that shape; the position is not negative, as at every call.
