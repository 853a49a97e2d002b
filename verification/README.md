# NetScanner verified

A Dafny model of the parts of NetScanner whose correctness is hardest to see from any one
function, with proofs of what they promise.

- **The connect engine** (`src/core/connects.zig`). A few threads share one source of
  connects, one congestion window and a few atomics. `Engine` turns every atomic thing a
  thread does (ask the source, start a connect, hold one back, look what settled, report a
  batch, confirm one port at the end) into a step, and takes from the outside whatever the
  operating system, the clock and the source may answer. `EngineSafety`,
  `EngineBooks`, `EngineStarts`, `EngineContract`, `EngineWaits` and `EngineSuspects` prove
  what holds in every reachable state: each job reported exactly once, at most two held back
  per loop, capacity, when a connect is given up, confirmations last and alone.
  `EngineVerdicts` follows each verdict from where a loop finds it to the source and back,
  `EngineHears` what the loops learn from each other, and `EngineStalls` when a shortage
  ends the run.
  `Window`, `Held` and `Flight` are the engine's parts, both as values the engine steps
  over and as classes updated in place the way the source does it, each method proved to
  do exactly what its value does; `WindowTraces` tells every move of the window from the
  verdicts alone.
- **The three-pass port scan** (`src/core/scanner.zig`, `src/core/rtt.zig`). `PortScan` is
  the source the engine pulls from, `Rtt` its timeout estimator. The scan is proved correct
  against any log of calls that respects the engine's contract (`Protocol`), so it needs to
  know nothing else about threads; `WholeScan.ScanOverEngine` puts the two together,
  `ScanLearns` tells every wait from the answers so far, and `SecondChance` says exactly
  which ports get a second try and when there is a third pass.
- **The ping sweep** (the POSIX half of `src/c/icmp_ping.c`). `PingSweep` keeps its arrays
  and its window over them in place; every report has a cause, borne out by the rounds gone
  through: what sending came to, which replies were read and what the clock said.
  `EchoPacket` covers the packets and their checksum (RFC 1071).
- **Progress** (`src/core/progress.zig`): racing workers and their claims.
- **The embedded port table** (`scripts/generate_ports.py`, `src/core/packed_db.zig`,
  `src/core/ports.zig`): `PortRegistry` merges the sources and ranks the ports,
  `PackedTable` and `Utf8` write the file, `PortLookup` opens, unpacks and searches it,
  `RankOrder` builds and checks `by_rank`, and `PackedRanks` follows the measured counts
  all the way to the order in which a scan tries ports.
- **DNS names** (`src/core/multicast.zig`; RFC 1035 sections 3.5 and 4.1.4): `Dns` says
  what a compressed name spells and proves the decoder against it, `Discovery` covers the
  reverse query and the host name read from replies.

Times are unbounded integers of nanoseconds, microseconds or milliseconds as in the source.
A clock reading may go backwards except in the ping sweep, whose timing claims need a
monotonic one.

## What turned out differently

- The compile-time check in `src/core/ports.zig:66-73` says ranks must run 1..N without
  gaps or repeats, but a slot holding port 0 counts as empty. `RankOrder.CheckExactly` says
  exactly which tables pass, `RankOrder.RepeatAtPortZeroPasses` gives one with two first
  ranks, and `RankOrder.InPlaceExactly` says when a table that passes keeps the promise.
  `by_rank` is a permutation of the ranked ports even then. The generator never ranks port
  0, so its tables always keep it (`PackedRanks.RanksPass`).
- `checksum` in `src/c/icmp_ping.c:250-258` adds in 32 bits, which wraps on long packets.
  `EchoPacket.ChecksumExactly` gives the exact condition on the sum, and
  `EchoPacket.ExactUpToLength` on the length: right for every packet of up to 131,074 bytes,
  wrong for some of every greater length, from 131,075 on. Its only caller, `send_echo`,
  passes 40 bytes.
- `src/core/connects.zig:133-135` says a connect the machine cannot start is never reported
  as unanswered, but a suspect is, at lines 516-518 and 530 of `src/core/connects.zig`. The
  model follows the code: `EngineSuspects.UnstartedIsReported` is a run that does it, and
  `EngineSuspects.StartedAreReportedExactly` says exactly which runs do not: those in which
  no loop has another connect start, or finds nothing else to try, while it holds a suspect.
- `msUntil` in `src/core/connects.zig:965-969` wakes early instead of late once the
  deadline is further off than a C int of milliseconds, some 24.8 days;
  `ConnectTypes.MsUntilRoundsUp` gives the exact boundary. The engine's own type admits such
  a wait (`timeout_ms` in `src/core/connects.zig:55` has 32 bits without a sign), but the port
  scan never asks for one: its fixed timeout has 16 bits (`src/core/scanner.zig:316`) and the
  waits it learns end at 500 ms.

## Model

| member | source | states |
|---|---|---|
| EngineContract.ExactlyOnce | src/core/connects.zig:112-175 | A run that returns, for any number of loops, interleaving, system behaviour and clock, reported every job the source handed out exactly as often as it handed it out, and nothing else, and the source had said it has no more. |
| EngineContract.AtMostOnce | src/core/connects.zig:117-118 | At every moment of every run, also one that fails later, only jobs handed out and not reported before have been reported. |
| EngineContract.AlwaysConserved | src/core/connects.zig:427-581 | In every reachable state each copy of a job handed out is in exactly one place: reported, to be confirmed, dropped, held, about to start, in flight or in a verdict buffer. |
| EngineContract.OutOfSocketsLeavesTheRest | src/core/connects.zig:133-139 | When a run ends out of sockets, the jobs handed out are exactly those whose connect started, the suspects given up and those dropped; the first two kinds are each reported or still to be confirmed exactly once, the dropped ones never started and are never reported. |
| EngineContract.AlwaysBooked | src/core/connects.zig:482-581 | In every reachable state exactly the jobs whose connect started and the suspects given up are in flight, in a verdict buffer, reported or to be confirmed. |
| EngineStarts.StepKeepsBooks | src/core/connects.zig:482-581 | Any step keeps that book. |
| EngineContract.ConfirmedLastAndAlone | src/core/connects.zig:128-131 | An unconfirmed job leaves its list only when every loop has finished with nothing held, in flight or unreported, and one at a time, in the order of the list. |
| EngineContract.SuspectsAreFair | src/core/connects.zig:594-665 | No loop ever holds more than two jobs and there is always room where hold asserts it; a suspect is alone and never part of a shortage; it is reported only after another connect started or the source said it has no more. |
| EngineSuspects.StartedAreReportedExactly | src/core/connects.zig:133-137 | A run that returned reported just the connects that started exactly when no loop, while holding a suspect, ever had another connect start or found nothing else to try. |
| EngineSuspects.UnstartedIsReported | src/core/connects.zig:515-518 | A run of one loop and one target without a local port returns, and reports the target though no connect started. |
| EngineContract.GivesUpOnlyWhenStalled | src/core/connects.zig:177-183 | The run is given up only by a loop all of whose attempts failed from one made at least STALL_LIMIT_NS before the last. |
| EngineContract.StaysWithinCapacity | src/core/connects.zig:141-153 | No loop outgrows its table or its verdict buffer, and all connects in flight stay below the limit plus the number of loops. |
| EngineContract.WithinLimitWhenNothingHeld | src/core/connects.zig:427-433 | While nothing was ever held back, all connects in flight together stay within the limit. |
| EngineWaits.DeadlinesAreOwn | src/core/connects.zig:705-712 | In every reachable state each connect in flight carries its own start plus its own timeout as its deadline. |
| EngineWaits.LooksTakeExactly | src/core/connects.zig:561-579 | In every run a look takes out of its table exactly the connects that settled, whose own timeout since their start is over, or for which the greater of learned wait and floor is over both since their start and since the last answer to such a connect; all others stay, each as often as before, and just the verdicts of those taken go up for report. |
| EngineWaits.OnlyLooksTakeOut | src/core/connects.zig:482-581 | No other step of any run takes anything out of a table or moves what is in it. |
| EngineVerdicts.FoundIsReported | src/core/connects.zig:440-458 | In a run that returned, whatever a loop found of a connect, as it started or at its end, reached the source with that verdict and time; one found unconfirmed got one more connect of its own, whose outcome was reported, or was reported as open because it could not be kept. |
| EngineVerdicts.AtOnceIsReported | src/core/connects.zig:530-535 | A connect that settled as it started is reported with the verdict and time it settled with. |
| EngineVerdicts.EndedIsReported | src/core/connects.zig:561-579 | Every connect a look found at its end with a known verdict is reported with it and the whole microseconds from its start to that look. |
| EngineVerdicts.UnconfirmedIsConfirmed | src/core/connects.zig:440-458 | And one found unconfirmed was confirmed by one more connect of its own, whose outcome and time were reported, or reported as open because it could not be kept. |
| EngineVerdicts.ConfirmedIsReported | src/core/connects.zig:160-175 | What a confirming connect finds is reported, outcome and time. |
| EngineVerdicts.ReportedIsAccountedFor | src/core/connects.zig:440-472 | Conversely the source is never told anything else: each report is what some loop found of that job, what a confirming connect found of it, or a suspect given up. |
| EngineVerdicts.InFlightWasStarted | src/core/connects.zig:504-539 | Each connect in flight was started by an event, and counts its time from the clock reading taken when its job was picked. |
| EngineHears.WindowSeesEveryVerdict | src/core/connects.zig:448-450 | The window is at every moment what all verdicts of the run, in the order the source is told of them, make of its first state; only confirmations at the end pass it by. |
| EngineHears.WasHeard | src/core/connects.zig:520-579 | Each of those verdicts comes from a report of a loop, and the window is shown it at the clock reading of that report. |
| EngineHears.CutsCountFromTheLastAnswer | src/core/connects.zig:451-453 | Cut waits count from the last answer, open or refused, to a connect that has a floor. |
| EngineHears.CapIsLatest | src/core/connects.zig:455-457 | The shared cap is the one the source gave with the latest batch of verdicts. |
| EngineHears.WaitsAreTheSources | src/core/connects.zig:460-466 | A look goes by the latest cap the source had given when the loop asked. |
| EngineHears.AsksOnlyWithRoom | src/core/connects.zig:427-433 | A loop asks the source only while it has not seen it dry, holds nothing or a suspect to test, and has fewer connects in flight than its share of the window, or none. |
| EngineStalls.StarvesExactly | src/core/connects.zig:521-529 | A failed attempt sets starved exactly if it was set already or the loop's present shortage, found from the loop's attempts alone, has lasted STALL_LIMIT_NS. |
| EngineStalls.RetriesWaitTheirPause | src/core/connects.zig:613-616 | Within a shortage each attempt of a loop comes after its pause: 1 ms, then twice as long each time, up to 100 ms. |
| EngineStalls.StarvedLoopsStop | src/core/connects.zig:493-497 | A loop that comes round in a run already given up starts nothing more. |
| EngineStalls.DueGoesFirst | src/core/connects.zig:510 | A held job that is due is tried before the source is asked, the oldest first. |
| EngineStalls.LooksBeforeComingRound | src/core/connects.zig:540-579 | A loop with connects in flight looks at them between any two batches of starts. |
| EngineContract.CutReportsEarly | src/core/connects.zig:561-578 | A connect given up before its own wait was over is reported with an elapsed time below that wait, however the clock rounds. |
| EngineSafety.Reachable | src/core/connects.zig:482-581 | The invariant of loops, window and phases holds in every reachable state of every run. |
| EngineSafety.StepKeeps | src/core/connects.zig:482-581 | Any step of any loop keeps that invariant. |
| EngineBooks.StepConserves | src/core/connects.zig:482-581 | Any step moves copies of a job between places without losing or doubling one. |
| EngineBooks.DeliverMoves | src/core/connects.zig:440-458 | Reporting a batch hands exactly its jobs to the source or to the list to be confirmed. |
| EngineBooks.WalkMoves | src/core/connects.zig:561-578 | The walk over the table moves jobs to the verdict buffer without losing or doubling one. |
| ConnectTypes.MsUntilRoundsUp | src/core/connects.zig:963-969 | A wait never ends short of its deadline exactly when the deadline is within what a C int of milliseconds reaches, and never a millisecond late. |
| ConnectTypes.ElapsedMeasures | src/core/connects.zig:971-973 | The elapsed time is the whole number of microseconds between the two readings, 0 if the clock went back. |
| ConnectTypes.EarlyMeansBelowTheWait | src/core/connects.zig:971-973 | Time measured before a wait was over is below that wait. |
| Window.StaysInBounds | src/core/connects.zig:284-364 | Over any trace the size stays between the bounds, the bounds never move, and a dark host is asked at the minimum. |
| Window.OnlyAdaptiveMoves | src/core/connects.zig:246-260 | A fixed or pool-paced window never moves. |
| Window.OnlyTwoWaysDown | src/core/connects.zig:270-277 | The size falls only by a halving after a slow answer or by the host going dark. |
| Window.OneCutPerRoundTrip | src/core/connects.zig:290-292 | Two halvings in a row lie at least the first one's slow round trip apart, and nothing makes the window grow before it is over, even with clock readings out of order. |
| Window.QuietHostsAreNeverDark | src/core/connects.zig:316-318 | A host that answers fewer than half of its probes is never counted as gone dark. |
| WindowTraces.RemembersTheTrace | src/core/connects.zig:332-363 | After any trace the window remembers just what the trace tells: the least round trip answered, how many answered, when the last answer came, whether the host is dark and when the latest halving is over. |
| WindowTraces.LeastIsLeast | src/core/connects.zig:339-340 | The fastest round trip is one of the answers and no longer than any. |
| WindowTraces.MovesExactly | src/core/connects.zig:332-352 | Every move of the size told from the trace: an answer above twice the least round trip plus the slack halves it, any other verdict adds one, a host going dark drops it to the minimum, and nothing else moves it while a halving lasts or the host is dark. |
| WindowTraces.PromptAnswersOpenIt | src/core/connects.zig:349-351 | While answers stay prompt the window opens by one for each, up to its maximum. |
| Window.Window.constructor | src/core/connects.zig:321-329 | A new window starts at its pace's size with its bounds. |
| Window.Window.Observe | src/core/connects.zig:332-352 | The update in place makes the step the trace lemmas are about. |
| Window.Window.GoneDark | src/core/connects.zig:356-363 | Whether a host that answered most probes has fallen silent, and that only then the size drops, to the minimum. |
| Held.Table.constructor | src/core/connects.zig:599-611 | A new table holds nothing. |
| Held.Table.Hold | src/core/connects.zig:633-650 | A held job takes a slot; a first missing port makes a suspect, anything else a shortage with a doubling pause; the answer says whether the run goes on. |
| Held.Table.Pop | src/core/connects.zig:624-629 | The oldest job comes out first. |
| Held.Table.Started | src/core/connects.zig:652-657 | A start ends the shortage and hands back the suspect. |
| Held.Table.DropSuspect | src/core/connects.zig:659-663 | The suspect, and nobody else, leaves. |
| Held.Table.Due | src/core/connects.zig:613-616 | When a held job is tried again. |
| Held.Table.IsOpen | src/core/connects.zig:618-622 | When new jobs may be taken. |
| Held.HoldKeepsShortSince | src/core/connects.zig:583-598 | A shortage began with a failed attempt and nothing has started since. |
| Held.GivingUpMeansStalled | src/core/connects.zig:631-650 | Giving up means every attempt failed for STALL_LIMIT_NS. |
| Held.GivesUpExactly | src/core/connects.zig:640-650 | A loop gives up exactly when the present shortage, told from its attempts alone and this failure included, is STALL_LIMIT_NS old. |
| Held.PausesDouble | src/core/connects.zig:642-648 | The pause after the n-th failure of a shortage is 1 ms doubled n-1 times, at most 100 ms. |
| Flight.WalkSplits | src/core/connects.zig:561-578 | The backwards walk with swap removal splits the table into just the connects that are due and all the others; every job and every socket comes out on exactly one side. |
| Flight.WalkSorts | src/core/connects.zig:561-578 | No connect that is due is skipped by the swaps, and none that is not due is taken. |
| Flight.SwapRemoveLoses | src/core/connects.zig:714-722 | Removal loses exactly the slot removed and leaves the slots below it alone. |
| Flight.Table.constructor | src/core/connects.zig:681-694 | A new table is empty. |
| Flight.Table.Add | src/core/connects.zig:705-712 | A connect goes in last, with its deadline. |
| Flight.Table.Remove | src/core/connects.zig:714-722 | All parallel arrays lose the same slot. |
| Flight.Table.Deadline | src/core/connects.zig:724-733 | When a connect runs out of time. |
| Flight.Table.EarliestWake | src/core/connects.zig:735-755 | The wake time is at or before every deadline and every floor still ahead, and is one of them. |
| Flight.Table.ReportGone | src/core/connects.zig:561-579 | The loop over the arrays reports and closes what the walk takes out, and the buffer never overflows. |
| Rtt.StaysAmongSamples | src/core/rtt.zig:45-57 | The smoothed round trip stays between the least and the greatest sample and the variation at most the greatest. |
| Rtt.WaitsWithinBounds | src/core/rtt.zig:59-67 | After any samples every wait lies between floor and ceiling. |
| Rtt.ConstantSamplesSettle | src/core/rtt.zig:45-57 | From any state, constant samples r settle srtt on one value in r-7..r and rttvar in 0..7, for good. |
| Rtt.SettledWait | src/core/rtt.zig:59-67 | A settled estimator with 40 ms of headroom waits the clamped round trip plus headroom, at most 1 ms less. |
| Rtt.SampleMovesCloser | src/core/rtt.zig:45-57 | A sample moves srtt strictly closer until it is at rest and then leaves it there. |
| Rtt.ObserveFollowsTheStandard | src/core/rtt.zig:45-57 | Smoothing and variation are those of rules 2.2 and 2.3 of RFC 6298, rounded down. |
| Rtt.WaitCoversVariation | src/core/rtt.zig:59-67 | Below the ceiling a wait covers the round trip plus four variations and plus the headroom; above the floor it is within a millisecond of the greater. |
| Rtt.Estimator.constructor | src/core/rtt.zig:38-41 | A new estimator has seen nothing. |
| Rtt.Estimator.Observe | src/core/rtt.zig:45-57 | The update in place makes the step the lemmas are about. |
| Rtt.Estimator.TimeoutMs | src/core/rtt.zig:62-67 | The wait computed is the one the lemmas bound. |
| WholeScan.ScanOverEngine | src/core/scanner.zig:224-272 | A port scan driven by the engine returns in strictly ascending order exactly the ports reported open, faults nowhere, and when not cancelled tried every port once and counted each once. |
| WholeScan.ResultIsTheOpenPorts | src/core/scanner.zig:270-271 | The result, also of a stopped scan, is strictly ascending and holds exactly the ports of the range some pass reported open. |
| WholeScan.EveryPortIsTried | src/core/scanner.zig:260-268 | An uncancelled scan tries every port exactly once first, then exactly the deferred ports, all silent before, and in a third pass exactly the ports two tries left silent. |
| WholeScan.NothingFaults | src/core/scanner.zig:345-372 | No list index, reserved capacity or unsigned subtraction of the scan ever fails. |
| WholeScan.PortBooks | src/core/scanner.zig:517-549 | For each port, pass by pass: tries, verdicts, deferrals and open entries balance. |
| WholeScan.ProgressIsExact | src/core/scanner.zig:337-341 | The first two passes of an uncancelled scan call advance exactly once per port, the third never. |
| WholeScan.FirstNeverOvershoots | src/core/scanner.zig:566-572 | At no moment of the first pass do the half ports pass twice the range, and advance was called for each whole port. |
| WholeScan.SecondNeverOvershoots | src/core/scanner.zig:566-572 | Nor at any moment of the second. |
| WholeScan.EveryWaitIsBounded | src/core/scanner.zig:474-501 | In an adaptive scan every wait is in 100..500 ms and a learned first wait in 100..250. |
| WholeScan.FixedWaitsStayFixed | src/core/scanner.zig:315-316 | With a fixed timeout every wait is that and no port is tried twice. |
| WholeScan.TwoWaitsFitInOne | src/core/scanner.zig:353-360 | The two waits of a port whose first was not blind sum to at most 500 ms, whatever was learned in between. |
| SecondChance.SilentTriesGetAnother | src/core/scanner.zig:536-555 | In an uncancelled scan every port silent for a learned wait, or for a blind one cut short, gets exactly one more try. |
| SecondChance.EarlyBlindIsDeferred | src/core/scanner.zig:536-555 | On top of the engine: a silent blind try a loop ends before its wait was over always gets exactly one more try. |
| SecondChance.LearnedTriesGetAnother | src/core/scanner.zig:437-445 | A port whose learned wait stayed unanswered gets exactly one more try, so one lost packet cannot hide it. |
| SecondChance.FullTriesGetNone | src/core/scanner.zig:443-453 | A port whose first try had the full wait to itself is not tried again. |
| SecondChance.ChancesKept | src/core/scanner.zig:536-548 | Over every log of the first pass each port is deferred exactly as often as a silent try earned it another: with a learned wait, or a blind one cut short or found on a host near by. |
| SecondChance.SecondTriesExactly | src/core/scanner.zig:536-548 | In an uncancelled scan a port gets a second try exactly if its first stayed silent and earned it one, and then just one. |
| SecondChance.ThirdPassExactly | src/core/scanner.zig:263-268 | A scan goes on to a third pass exactly if nobody had asked it to stop, its second pass left a port silent and was answered at least 1000 times, and for at least a tenth of the deferred ports. |
| ScanLearns.AnswersAreLearned | src/core/scanner.zig:518-521 | At every moment of any pass the estimator has observed just the answers so far, open or refused, in order, and the quickest answer is the least of them. |
| ScanLearns.QuickestIsLeast | src/core/scanner.zig:518-521 | No answer is quicker than the quickest, and it is one of them unless there was none. |
| ScanLearns.FirstTriesFollowAnswers | src/core/scanner.zig:474-484 | Each first try of a scan follows from the answers before it: blind until the first one and never again, then with the wait they taught on a host near by, with the whole one otherwise. |
| ScanLearns.SecondTriesFollowAnswers | src/core/scanner.zig:349-362 | Each second try waits what all answers of both passes so far taught, but no more than the first left. |
| ScanLearns.ThirdTriesFollowAnswers | src/core/scanner.zig:363-370 | Each third try waits what all answers of the scan so far taught. |
| ScanLearns.StoppedScansTryNothing | src/core/scanner.zig:345-346 | A scan asked to stop hands out nothing more, in any pass. |
| ScanLearns.TriesGoToTheHost | src/core/scanner.zig:503-508 | Every try of any pass goes to the host the scan is of. |
| ScanInvariants.FirstPass | src/core/scanner.zig:396-408 | At every moment of the first pass: ports handed out follow the order, open ports are recorded, halves and deferrals add up. |
| ScanInvariants.FirstPassDefers | src/core/scanner.zig:542-546 | Only ports reported silent are deferred, each at most as often, and a second wait fits. |
| ScanInvariants.RetryPass | src/core/scanner.zig:326-336 | While the retry list is compacted in place, the part still to be served is untouched, what was served is the original list in order, and the front holds the ports silent twice. |
| ScanInvariants.RetriesInFlight | src/core/scanner.zig:326-336 | The slots handed out are those settled plus the retries outstanding, so the next write lands in a slot handed out before. |
| ScanInvariants.ThirdPass | src/core/scanner.zig:363-370 | The third pass serves exactly the front of the compacted list. |
| ScanPasses.FirstOrderIsTheRange | src/core/scanner.zig:374-408 | The first pass lists every port of the range exactly once and no other. |
| ScanPasses.NextFirstIsHead | src/core/scanner.zig:396-408 | Each call takes the head of the ports that remain, in order. |
| ScanPasses.LegalPorts | src/core/connects.zig:113-118 | Under the engine's contract a port has at most as many verdicts as tries, and as many once the pass returned. |
| PortScan.Scan.constructor | src/core/scanner.zig:239-252 | A scan starts at the range's first port with room for every deferral. |
| PortScan.Scan.Next | src/core/scanner.zig:345-372 | The update in place hands out the job the lemmas are about. |
| PortScan.Scan.NextFirstPort | src/core/scanner.zig:396-408 | The two loops find the next port of the order. |
| PortScan.Scan.FirstTry | src/core/scanner.zig:474-484 | Which wait a first try gets. |
| PortScan.Scan.LearnedWait | src/core/scanner.zig:496-501 | When a learned wait is used. |
| PortScan.Scan.Done | src/core/scanner.zig:517-549 | The update in place records a verdict as the lemmas say. |
| PortScan.Scan.AdvanceHalves | src/core/scanner.zig:566-572 | The loop calls advance once per whole port completed. |
| PingSweep.Sweep.Run | src/c/icmp_ping.c:358-481 | Over any script of rounds every host is reported at most once, for a cause the rounds themselves bear out; up exactly if its echo went out in a round that let it and a reply was read before its wait was over; nobody overdue is left; the pace holds; once the loop is left exactly the hosts below next were reported, once each, and that is all of them unless the caller asked to stop. |
| PingSweep.UpMeansHeard | src/c/icmp_ping.c:454-474 | With a cause borne out, being up is the same as having been heard in time. |
| PingSweep.Sweep.Loop | src/c/icmp_ping.c:398-475 | The loop goes through its script round by round, and stops only when nothing is in flight and nobody is left or the caller asked. |
| PingSweep.Sweep.Turn | src/c/icmp_ping.c:398-475 | One turn adds its round to those the reports answer to, leaves no host overdue, sends until the window, the pace or the sockets allow no more, hears in-time replies, sends nothing once stopped, and ends the loop only with nothing in flight. |
| PingSweep.Sweep.Advance | src/c/icmp_ping.c:399-441 | Up to its wait a turn reports hosts down only, and deals with each next host as the round's sends come out. |
| PingSweep.Sweep.Expire | src/c/icmp_ping.c:400-408 | Breaking at the first live host gives up exactly the hosts whose timeout since their echo is over. |
| PingSweep.Sweep.SendBatch | src/c/icmp_ping.c:410-440 | Sending stops only when the caller stopped, nobody is left, the window or the pace is used up, or every socket is full for the next host; each host sent to ended up as its send came out. |
| PingSweep.Sweep.SendNext | src/c/icmp_ping.c:415-439 | One host goes in flight, is reported down for a send that failed in this round or for sockets full in two rounds at least 5000 ms apart, or waits. |
| PingSweep.Sweep.SendEcho | src/c/icmp_ping.c:416-422 | The sockets are tried round robin from the host's own until one is not full. |
| PingSweep.BusyMeansEverySocketFull | src/c/icmp_ping.c:416-425 | A host is found busy only when every single socket was full for it. |
| PingSweep.SocketsInTurn | src/c/icmp_ping.c:416-422 | An echo goes out on the first socket that is not full, counted round from the host's own. |
| PingSweep.Sweep.Receive | src/c/icmp_ping.c:454-474 | Exactly the hosts in flight that replied are reported up, each once, however many copies arrive. |
| PingSweep.Sweep.CountReplies | src/c/icmp_ping.c:454-474 | The loop over the replies counts each host once and ignores late ones. |
| PingSweep.Sweep.Settle | src/c/icmp_ping.c:34-38 | Reporting a host keeps the count in flight equal to the hosts in flight and files the cause the rounds bear out. |
| PingSweep.Sweep.Skip | src/c/icmp_ping.c:432-438 | A host no echo reached is reported for cause and passed. |
| PingSweep.Sweep.Launch | src/c/icmp_ping.c:427-438 | An echo out puts its host in flight at this time, within the window. |
| PingSweep.Sweep.NoneOverdue | src/c/icmp_ping.c:401-408 | Echoes went out in index order, so all hosts after a live one are live. |
| PingSweep.Start | src/c/icmp_ping.c:358-391 | The early returns send and report nothing. |
| EchoPacket.StoredChecksumCancels | src/c/icmp_ping.c:277-279 | Storing the checksum high byte first in a zeroed field at any even offset makes the checksum of the packet zero. |
| EchoPacket.FoldIsModulo | src/c/icmp_ping.c:256 | Folding the carries is reduction modulo 65535, with 65535 for nonzero multiples. |
| EchoPacket.OddTailIsPadded | src/c/icmp_ping.c:253-255 | An odd last byte counts as if a zero byte followed it. |
| EchoPacket.Checksum | src/c/icmp_ping.c:250-258 | The loops with their 32-bit sum return the checksum exactly when the wrap does no harm, and always for packets up to 131,074 bytes. |
| EchoPacket.ChecksumExactly | src/c/icmp_ping.c:251-257 | The 32-bit result is the checksum exactly when the words sum to less than 2^32, or the wraps number a multiple of 65535 and leave a nonzero rest. |
| EchoPacket.ExactUpToLength | src/c/icmp_ping.c:251-257 | It is right for every packet of a given length exactly when that is at most 131,074 bytes. |
| EchoPacket.SomePacketWraps | src/c/icmp_ping.c:251-257 | For each greater length, from 131,075 bytes on, a packet on which it is wrong. |
| EchoPacket.BuildEcho | src/c/icmp_ping.c:262-279 | The echo sent has the sweep's fields and checksums to zero. |
| EchoPacket.EchoFields | src/c/icmp_ping.c:262-277 | Where each field of the echo is, and in which byte order. |
| EchoPacket.OnlyOwnRepliesCount | src/c/icmp_ping.c:300-324 | A packet only counts if it is an echo reply with the sweep's token and, off Linux, its identifier, and only for the host of the sweep it names and came from. |
| EchoPacket.ReplyFindsItsHost | src/c/icmp_ping.c:300-324 | The reply to a host's echo is matched to that host, bare or behind an IPv4 header of any length. |
| Progress.ClaimsAreOrdered | src/core/progress.zig:80-89 | However workers race, claimed counts strictly increase, there are at most 100, and once all is done and nobody waits the last is the total, claimed once. |
| Progress.ClaimsKeepUp | src/core/progress.zig:80-89 | Whenever no worker waits for the lock, the count claimed last shows the percentage reached. |
| Progress.LastUnitCrosses | src/core/progress.zig:25-35 | Finishing the final unit is always an event, and shows 100%. |
| Progress.CrossesExactly | src/core/progress.zig:29-35 | A unit is an event exactly if it brings the phase to a whole percent it was short of. |
| Progress.EventsOfAPhase | src/core/progress.zig:25-28 | A phase of n units has just min(n, 100) events. |
| Progress.Tracker.constructor | src/core/progress.zig:41-54 | A new tracker has counted nothing. |
| Progress.Tracker.StartPhase | src/core/progress.zig:59-66 | A phase starts uncounted and unclaimed, with results kept. |
| Progress.Tracker.Advance | src/core/progress.zig:70-73 | One unit is counted, and the answer says whether it moves the whole percentage. |
| Progress.Tracker.AddFound | src/core/progress.zig:76-78 | One result is counted. |
| Progress.Tracker.Claim | src/core/progress.zig:84-89 | A claim gets the newest count, or nothing if that is out already. |
| Progress.Tracker.Snapshot | src/core/progress.zig:93-117 | A display sees a count within its phase's total, so at most 100%. |
| Utf8.EncodeKeepsWholeCharacters | scripts/generate_ports.py:212-217 | The cut keeps the longest run of whole characters that fits 255 bytes, all of a text that fits, and it decodes to just those. |
| Utf8.TextOfReads | scripts/generate_ports.py:259-260 | Strict decoding reads a text from its encoding and from nothing else. |
| Utf8.CharFollowsTheStandard | scripts/generate_ports.py:214 | Each character is encoded as section 3 of RFC 3629 lays down. |
| PortRegistry.MergeIsTheUnion | scripts/generate_ports.py:158-168 | The merged map has one entry for every port either source knows, ascending. |
| PortRegistry.OfficialNamesAreOfficial | scripts/generate_ports.py:158-168 | The official name is that of the first registration with the picked name, else of the first of all, and none for a port without any; curated text wins for the rest. |
| PortRegistry.EveryMergedPortIsFound | src/core/ports.zig:33-37 | Looking any port up in the packed table finds it exactly when a source knows it, with its merged fields. |
| PortRegistry.MergeAll | scripts/generate_ports.py:158-168 | The loop builds the merged map the lemmas are about. |
| PortRegistry.RankPorts | scripts/generate_ports.py:206-209 | The loops build the ranks and the unnamed list the lemmas are about. |
| PortRegistry.RanksRunToN | scripts/generate_ports.py:171-174 | Just the counted ports with a name are ranked, 1 to N without gaps or repeats. |
| PortRegistry.RanksFollowCounts | scripts/generate_ports.py:174-176 | Of two ports the one counted more often has the better rank, of equal ones the lower. |
| PackedTable.InternHolds | scripts/generate_ports.py:224-230 | Interning leaves every text where its offset says and moves none already in. |
| PackedTable.StringPool.constructor | scripts/generate_ports.py:221-222 | A new pool holds the empty string at offset 0. |
| PackedTable.StringPool.Intern | scripts/generate_ports.py:224-230 | The pool grown in place is the pool the lemmas are about. |
| PackedTable.PackTable | scripts/generate_ports.py:220-246 | The loop over one growing pool and table writes the file the lemmas are about. |
| PackedTable.PoolGrowth | scripts/generate_ports.py:220-246 | The pool is sound after any entries, and offsets fit their 32 bits. |
| PackedTable.EqualTextsShareAString | scripts/generate_ports.py:224-230 | Equal texts anywhere in the table share one string, and the empty text is at offset 0. |
| PackedTable.KnownTextsAddNothing | scripts/generate_ports.py:224-230 | Interning a text the pool has adds nothing to it. |
| PortLookup.PackedOpens | src/core/packed_db.zig:38-65 | Whatever pack writes passes every check of open, which finds exactly the records and the strings. |
| Bytes.LeastByteFirst | src/core/packed_db.zig:47-51 | Fields of 32 bits are written least byte first. |
| PortLookup.OpenedIsWellFormed | src/core/packed_db.zig:31-34 | Any file that opens holds whole records only, so a record is never out of bounds. |
| PortLookup.OpensExactly | src/core/packed_db.zig:38-65 | A file opens exactly if it has a whole header with this magic and version, its records end within the file and its strings follow them and end there too; records and strings are then the bytes the header says. |
| PortLookup.UnpackReadsBack | scripts/generate_ports.py:249-270 | Unpacking a packed file gives exactly its ports, each with its texts cut to fit and its nonzero rank. |
| PortLookup.UnpackTable | scripts/generate_ports.py:249-270 | The loop fills the two dicts the lemma is about, on any bytes: not a table, an exception, or the fields. |
| PortLookup.NotOursExactly | scripts/generate_ports.py:249-256 | None comes back exactly for a file without a whole header, the magic and the version. |
| PortLookup.PackedServiceReads | src/core/ports.zig:97-117 | Record i of a packed table gives back the texts of entry i, empty ones as none, shared strings intact. |
| PortLookup.PackedKeyReads | src/core/ports.zig:41-50 | Record i gives back the port and rank of entry i. |
| PortLookup.IndexOf | src/core/ports.zig:80-95 | The low/high loop finds what the search lemmas are about. |
| PortLookup.FoundIsThere | src/core/ports.zig:80-95 | What is found is the port asked for, in any table. |
| PortLookup.FindsWhatIsThere | src/core/ports.zig:80-95 | In a sorted table every port there is is found. |
| PortLookup.LookupFindsEveryEntry | src/core/ports.zig:33-55 | Every packed port looks up as its own entry with its own rank. |
| PortLookup.LookupFindsNothingElse | src/core/ports.zig:33-55 | Every other port is none, unranked. |
| RankOrder.BuildByRank | src/core/ports.zig:63-78 | The block over its array builds the order the lemmas are about, or stops the build. |
| RankOrder.PassingMeansPermuted | src/core/ports.zig:57-78 | A table that passes gives every ranked port as often as the table has it, no slot left over. |
| RankOrder.PassingMeansDistinct | src/core/ports.zig:57-78 | In a sorted table nothing is listed twice. |
| RankOrder.RankZeroMeansUnlisted | src/core/ports.zig:52-55 | A port looks up rank 0 exactly when by_rank does not list it. |
| RankOrder.CheckExactly | src/core/ports.zig:69-74 | The build passes exactly when no rank exceeds the number of ranked records and no two share one, the first with a port other than 0. |
| RankOrder.InPlaceExactly | src/core/ports.zig:72 | A sorted table that passes has each port at the slot of its rank exactly when port 0 shares its rank with none. |
| RankOrder.RepeatAtPortZeroPasses | src/core/ports.zig:72 | Ports 0 and 1 both ranked first pass the check. |
| PackedRanks.RanksPass | src/core/ports.zig:66-75 | Ranks that count through a list of ports never trip the check and give that list. |
| PackedRanks.TheTableLists | src/core/ports.zig:57-78 | For any registry, overlay and counts the packed table opens and by_rank lists the counted ports with a name, most often open first. |
| PackedRanks.SourcesPack | scripts/generate_ports.py:220-235 | Whatever the sources, every port and rank fits its field. |
| PackedRanks.FirstPassFollowsCounts | src/core/scanner.zig:374-408 | The first pass tries ranked ports by descending count, before all others, which go in ascending order. |
| Dns.DecodesExactlyWhatIsSpelt | src/core/multicast.zig:152-191 | decodeName answers exactly when the packet spells, with at most 16 pointers, a printable name of 1 to 256 bytes, and answers it. |
| Dns.SpellsOneName | src/core/multicast.zig:160-191 | A position spells one name only. |
| Dns.ReadName | src/core/multicast.zig:160-191 | The loop over the caller's buffer terminates on every packet, stays in bounds and leaves that name there. |
| Dns.AppendLabel | src/core/multicast.zig:178-186 | A label is appended behind a dot, or refused for its length or an unprintable character. |
| Dns.WrittenIsSpelt | src/core/multicast.zig:138-150 | A written name spells its labels wherever it stands, and skipName lands right behind it. |
| Dns.SpeltIsSkipped | src/core/multicast.zig:138-150 | Any name that spells something can be skipped. |
| Dns.SkipOver | src/core/multicast.zig:138-150 | The loop finds what the skipping lemmas are about. |
| Dns.SkipsExactly | src/core/multicast.zig:138-150 | Skipping lands exactly behind the zero byte or pointer that follows a run of labels, and fails on anything else. |
| Discovery.QueryAsksForTheReverseName | src/core/multicast.zig:54-72 | The question of every reverse query decodes to the dotted name hostName compares against, and skipping it lands on the query type. |
| Discovery.BuildReverseQuery | src/core/multicast.zig:58-72 | The loop over the buffer writes that query and stays within 64 bytes. |
| Discovery.ReverseNamesTellAddresses | src/core/multicast.zig:98-99 | Reverse names that match in any case belong to the same address. |
| Discovery.ReadHostName | src/core/multicast.zig:93-132 | One pass with one buffer gives what the first answer to a reverse query says, else the owner of the first address record for the sender; that name is not overwritten before it is returned. |
| Discovery.NamesHaveASource | src/core/multicast.zig:88-92 | Every name given comes from a record of the packet about the sender, by its reverse name or its address, and is presentable. |
| Discovery.ReplyNamesItsSender | src/core/multicast.zig:88-132 | Whatever presentable name a responder gives itself, owner compressed to the question, is the name read from its reply. |
| Discovery.HostNameExactly | src/core/multicast.zig:101-131 | The name given is what the first answer to the reverse query says; without one, on a packet not cut off, the owner of the first address record for the sender; otherwise none. |
| Discovery.AddressNamesItsSender | src/core/multicast.zig:125-131 | Whatever presentable name owns an address record for the sender is the name read from the reply that holds it. |
| Discovery.CaseDoesNotMatter | src/core/multicast.zig:122 | Names match exactly when they differ at most in the case of their letters. |

## Left out

- Sockets, poll and select, getsockopt, resource limits, threads and clocks: their results come in with each step.
- Widths of counters and times (i96, u64, usize): unbounded here; the limits that matter (the C int of msUntil, the 32-bit checksum, the fields of the table) are modelled.
- POOL_PACE and the number of loops differ by system: both are parameters of a run.
- How long a loop sleeps between its steps: any delay is allowed, so no property depends on it.
- Out of memory inside a running loop: an unconfirmed job that cannot be kept counts as open, as the source does; appending to the open ports is taken to succeed.
- A loop's own set-up failing: loop 0 ends the run with an error, any other takes part in nothing.
- connectOnce (src/core/connects.zig:763-790): its verdict is any outcome.
- Any bound on connects in flight by the current window: the window may shrink under them and held ones restart without asking it.
- A port range that ends before it starts, which scanPorts refuses.
- EngineContract.ConfirmedLastAndAlone: does not say that the confirming connect itself is alone on the network, only that the run has no other.
- EngineContract.WithinLimitWhenNothingHeld: says nothing about a run that held a connect back, where only the looser bound of StaysWithinCapacity is true.
- SecondChance.EarlyBlindIsDeferred: does not say that far hosts never get a second try, because an early unreachable error counts as cut short as well.
- EchoPacket.BuildEcho: lays the payload out as a little-endian host does.
- The sleep of the ping sweep (src/c/icmp_ping.c:444-452): any delay is allowed.
- The Windows half of the ping sweep, and the other C files: foreign interfaces around little logic.
- Which text is UTF-8 in Python but no Unicode text (lone surrogates): the encoder would raise on it.
- Reading the registry, the overlay and the report of counts: the merge and the ranking start from the maps they give, with the facts their parsers check.
- PackedTable.PackTable: takes at most 65,536 entries with 16-bit ports and ranks, which PackedRanks.SourcesPack proves of everything merge and parse_counts give.
- Classifying datagrams, the service queries and SSDP: constants and one comparison each.
- Terminal drawing, arguments, printing, the vendor table, hostname and ARP collection.
