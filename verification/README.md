# pChase, modelled in Dafny

pChase measures memory latency and bandwidth. It lays rings of pointers into memory, generates a small loop
that chases them, and times that loop on several threads that meet at a barrier. This project models four
parts of it and proves what they promise, for all inputs and all interleavings:

1. **Chains and the chase loop.** `NumberTheory` and `Geometry` hold the affine index maps and the rounded
   sizes. `Ring` describes memory after "append to the last link, close on the root", also when slots repeat.
   `ChainInit` has the three init functions as methods on an array of links; `TourLaws` says where their orders
   start and how they go on, and `FullRings` which geometries always give full rings. `ChaseCode` is the code
   generator (a compiler object that emits a list of instructions) with a small-step meaning of the instructions
   over the byte-addressed memory of `ByteMemory`; `ChaseRefines` proves that the list refines "advance all
   chains in lockstep until chain 0 is home". `DataAccesses` says where data accesses land, `ChaseOnRings`
   applies the refinement to the rings that the init functions build, and `SkewedLines` runs a program that
   breaks its ring. `OwnEvents`, `Touched`, `Accounting` and `Bandwidth` count the lines that calls touch.
   `OptionLaws` says in terms of the options what is emitted and accessed, and `StoredData` what stores leave in
   memory. `RandomDraws` is the lock around `random()`.
2. **The barrier protocol of `Run::run`.** `Protocol` is an interleaved step system: T threads with program
   counters, the shared statics, the barrier, and separate steps for the read and the write of the racy doubling
   of `iters`. `ProtocolInvariant` and `ProtocolOpening` prove the invariant. `Windows`, `ProtocolTheorems`,
   `ProtocolProgress`, `ProtocolCompletion`, `ProtocolCalibration`, `ProtocolTermination` and `ProtocolRace`
   draw the conclusions for threads that agree; `RecordedTimes`, `ScheduleLaws` and `ScheduledRuns` tell from
   the clock readings what a finished run recorded and how often it chased; `BarrierCounts`, `ProtocolAgreement`
   and `ProtocolDisagreement` prove that agreement is exactly what the protocol needs. `SpinBarriers` is the
   barrier object.
3. **Placement maps.** `Decimal`, `PlacementMap`, `PlacementScan` (the scanner, with its 64-character buffer and
   its tables), `PlacementRoundTrip` (the printer and the round trip) and `PlacementLaws` (wrapping by the
   number of domains, and what each fault in a text does).
4. **Options.** `Options` has the seconds/iterations part of the command line.

Check the project with `dafny verify dfyconfig.toml`.

What the source and its documentation say differently, and results that need a condition:

- src/main.cpp:51-52 says that the last pointer is NULL. The code closes a ring (src/run.cpp:269, 297, 331);
  the model has the ring.
- src/main.cpp:40-52 says that a chain touches all lines of all pages. This is so for every draw exactly when
  no prime of the table divides the pages per chain or the lines per page (`FullRings.RandomAlwaysFullIff`), and
  for one draw exactly when no drawn factor divides the range that it permutes (`ChainInit.RandomRingFullIff`).
  Otherwise slots repeat, and the walk is shorter than the counted operations (`FullRings.ShortRing` has five
  lines and one hop); it still returns to its root (`Ring.ReturnsToRoot`).
- The protocol never gets stuck, and times what it means to time, exactly when nothing is calibrated or all
  threads computed equal bounds (`ProtocolDisagreement.NeverStuckIff`, `ProtocolDisagreement.TimedWindowsIff`,
  `ProtocolAgreement.AgreementIff`). A clock resolution of at most 0.02 s on every thread is enough.
- src/experiment.cpp:427 promises to run each experiment for the given number of seconds. The calls of a
  calibrated run take, at the pace of its last calibration round, from that time up to 2^(T-1) times as long
  (`ScheduledRuns.WantedSeconds`), since T threads may double the tested count T times instead of once.
- Data accesses that stay inside the chain miss all its `next` fields exactly when at most one line is accessed
  per hop or lines are whole links (`DataAccesses.AccessesMissNextIff`). A strided "all" pass stays inside
  exactly when the stride divides the lines and the slack of the lines fits
  (`DataAccesses.StridedStaysInsideIff`), and then it spares the ring (`DataAccesses.StridedSpares`). Where it
  does not, a store can break the ring (`SkewedLines.StoreBreaksRing`: 24-byte lines, stride 2, store_all).
  Random access keeps a stride that was given before; a full random ring then leaves the chain as soon as more
  than one line is accessed per hop (`DataAccesses.RandomStaysInsideIff`).

## Model

| member | source | states |
|---|---|---|
| `Geometry.Experiment.ComputeGeometry` | src/experiment.cpp:484-493 | the in-place geometry step yields the rounded geometry and the per-thread and per-test sizes |
| `Geometry.RoundedIsLeast` | src/experiment.cpp:484-487 | pages are the least whole number of lines, and chains the least whole number of pages, that hold the requested sizes |
| `Geometry.RoundedIdempotent` | src/experiment.cpp:484-493 | rounding a rounded geometry changes nothing |
| `Geometry.RoundedWellFormed` | src/experiment.cpp:490-493 | the geometry is usable if and only if a line holds at least one 16-byte link |
| `Geometry.RoundedLinks` | src/experiment.cpp:490-493 | a line has as many links as fit, 16 bytes each: 16*links <= line < 16*(links+1); a page and a chain have those of their lines |
| `Geometry.SlotInChain` | src/run.cpp:254-256 | the slot of a line of a page lies in the chain, and its line number is page * lines + line |
| `Geometry.SlotInjective` | src/run.cpp:254-256 | distinct (page, line) pairs have distinct slots |
| `NumberTheory.PrimeTableIsPrime` | src/run.cpp:216-219 | every entry of the factor table is a prime, at most 163 |
| `NumberTheory.AffinePermutationIff` | src/run.cpp:242-253 | for a prime factor, i -> (factor*i + offset) mod n repeats no value if and only if the factor does not divide n |
| `Ring.AppendLink` | src/run.cpp:258-265 | one append keeps the build state: memory is the old memory threaded along the order so far |
| `Ring.ClosedAt` | src/run.cpp:258-269 | after closing, every slot of the order points at the successor of its last occurrence, all else is as before |
| `Ring.HopsClimb` | src/run.cpp:258-269 | before the walk from a slot is home, its last-occurrence position strictly rises with every hop |
| `Ring.ReturnsToRoot` | src/run.cpp:242-269 | for any order, repeats included, following `next` first returns to the root after RingLength hops, at most as many as there are distinct slots |
| `Ring.FullRingIff` | src/run.cpp:258-273 | the ring has as many hops as the order has entries if and only if no slot repeats |
| `ChainInit.TourNoRepeatIff` | src/run.cpp:242-267 | a page-by-page order repeats no slot if and only if no page and no line within a page is repeated |
| `ChainInit.AppendPage` | src/run.cpp:250-266 | the inner loop appends the block of one page, line by line |
| `ChainInit.RandomMemInit` | src/run.cpp:221-276 | memory becomes the closed ring of the drawn order; root is its first slot; the count is lines_per_chain |
| `ChainInit.RandomRingFullIff` | src/run.cpp:216-276 | steps from root back to root equal the counted operations if and only if no drawn factor divides the range it permutes |
| `ChainInit.RandomTour` | src/run.cpp:242-269 | in that case hop i*lines+j stands on the j-th drawn line of the i-th drawn page, so pages are finished one by one, and every line is on the ring |
| `TourLaws.RootDrawn` | src/run.cpp:237-259 | the root is the slot of page (second draw mod pages) and line (fourth draw mod lines) |
| `TourLaws.PageStarts` | src/run.cpp:242-253 | the i-th page of the order starts on the line that its second draw gives, modulo the lines of a page; the first page is the chain's second draw, modulo the pages |
| `TourLaws.NextLine` | src/run.cpp:246-253 | within a page the next line differs from the last by the table entry that the page's first draw picks, modulo the lines of a page |
| `TourLaws.NextPage` | src/run.cpp:237-243 | the next page differs from the last by the table entry that the chain's first draw picks, modulo the pages of the chain |
| `FullRings.RandomAlwaysFullIff` | src/run.cpp:216-276 | whatever is drawn, the walk has as many steps as operations are counted, if and only if no prime of the table divides pages_per_chain or lines_per_page |
| `FullRings.ShortRing` | src/run.cpp:216-276 | one page of five 64-byte lines and draws of 0 give a ring of one hop where five operations are counted |
| `ChainInit.ForwardMemInit` | src/run.cpp:279-304 | memory becomes the closed forward ring of ceil(lines/stride) slots, which is also the count |
| `ChainInit.FindLast` | src/run.cpp:314-317 | the first loop of the reverse init finds the last multiple of the stride inside the chain |
| `ChainInit.ReverseMemInit` | src/run.cpp:307-338 | memory becomes the closed reverse ring of the same slots and count |
| `ChainInit.ReverseInvertsForward` | src/run.cpp:279-338 | same slot set, same length ceil(lines/stride), and each ring undoes the other, wrap-around included |
| `TourLaws.StridedSteps` | src/run.cpp:279-338 | forward rings start at link 0 and go up in steps of stride lines; reverse rings start on the last line that a stride reaches, go down in the same steps and end at link 0 |
| `ChainInit.AffineFitsIntIff` | src/run.cpp:237-253 | factor*i + offset fits a 32-bit int for everything that can be drawn if and only if the range is at most 13094413 |
| `ChainInit.StrideFitsInt` | src/run.cpp:285-321 | strided loop counters fit a 32-bit int when lines and stride add up to at most 2^31 |
| `ChaseCode.Compiler.EmitPrologue` | src/run.cpp:363-381 | the head, the positions and the values are loaded, in register order |
| `ChaseCode.Compiler.EmitAccess` | src/run.cpp:390-400 | the data accesses of one hop, for each memory operation |
| `ChaseCode.Compiler.EmitHops` | src/run.cpp:387-421 | one pointer load and its data accesses for each chain, in order |
| `ChaseCode.Compiler.ChasePointers` | src/run.cpp:340-429 | the emitted instruction list is Program(c): prologue, loop body, compare, conditional branch back |
| `OptionLaws.EntryValues` | src/run.cpp:375-380 | before the loop the value registers are set to 0, 100, 200, ...: v of them for load_all and store_all with stride v or -v, and one otherwise |
| `OptionLaws.HopAccesses` | src/run.cpp:388-400 | a hop emits, for stride v or -v, v loads (load_all) or stores (store_all), the j-th at offset j*line+8; one at offset 8 for load and store; none otherwise |
| `OptionLaws.LoopWaits` | src/run.cpp:423-424 | a round of the loop has exactly loop_length nops |
| `ChaseRefines.ChaseRefinesSpec` | src/run.cpp:340-429 | run from its entry, the list never faults, returns after exactly the first k >= 1 rounds that bring chain 0 home, has made exactly the accesses of k lockstep rounds in order, has moved every chain k hops, and leaves every fixed word unchanged; accesses need only be mapped, and only stores must miss the fixed words |
| `ChaseOnRings.InitLaysOut` | src/run.cpp:96-107 | memory that holds an init function's result is a laid-out ring |
| `ChaseOnRings.HomeAfterRing` | src/run.cpp:427-429 | on any laid-out ring chain 0 is home for the first time after RingLength rounds, so the loop ends |
| `DataAccesses.AccessesMissNextIff` | src/run.cpp:390-400 | for accesses inside the chain, none shares a byte with a `next` field of the chain if and only if at most one line is accessed per hop or the line size is a multiple of 16 |
| `DataAccesses.StridedStaysInsideIff` | src/run.cpp:394-400 | for any line size, a strided load_all or store_all pass stays inside the chain if and only if the stride divides lines_per_chain and (stride-1)*(line mod 16)+16 is at most 16*links_per_line; for lines of whole links the latter always holds |
| `DataAccesses.StridedSpares` | src/run.cpp:394-400 | a strided pass that stays inside the chain touches no `next` field of its ring, for any line size |
| `DataAccesses.RandomStaysInsideIff` | src/run.cpp:375-400 | on a full random ring, for any line size, accesses stay inside the chain if and only if a hop accesses at most one line |
| `SkewedLines.StoreBreaksRing` | src/run.cpp:394-400 | with 24-byte lines, forward stride 2 and store_all on six lines, the seventh instruction executed overwrites the `next` field of a ring slot |
| `ChaseOnRings.BenchWalksRings` | src/run.cpp:340-429 | a call on rings in separate memories, whose accesses stay inside and whose stores spare the rings, returns without a fault, every chain has walked its own ring, and no root and no `next` field out of reach of the stores has changed |
| `ChaseOnRings.AllNextProtected` | src/run.cpp:388-400 | without stores, and in aligned configurations, these are all `next` fields of all chains |
| `ChaseOnRings.BenchRepeats` | src/run.cpp:172-173 | any number of successive calls make the same accesses and leave the roots and those `next` fields as they were |
| `OwnEvents.CallOwn` | src/run.cpp:383-429 | of a call's log, what falls on a chain is that chain's own hops, in order, and nothing else |
| `Accounting.CallLines` | src/run.cpp:383-429 | on rings without repeats, a call touches exactly the lines from each ring line on, as many as are accessed per hop |
| `Accounting.RandomCovered` | src/run.cpp:221-276 | random rings with coprime factors are covered one line per hop |
| `Accounting.StridedCovered` | src/run.cpp:279-338 | strided rings are covered, for the "all" operations when the stride divides the chain |
| `Accounting.CallHitsOnce` | src/run.cpp:388-400 | in the log of a call, the data of a line that one sweep includes is accessed exactly once |
| `Bandwidth.EachLineHitOnce` | src/run.cpp:394-400 | when the stride divides the chain, the log of one load_all or store_all pass has exactly one data access on each line of each chain |
| `OptionLaws.AllLinesOnce` | src/run.cpp:383-429 | from the options alone: one load_all or store_all pass with stride v or -v, v dividing the lines, over the forward or reverse ring returns after lines/v rounds and makes exactly one data access on each line of each chain |
| `OptionLaws.OneDatumEach` | src/run.cpp:383-429 | from the options alone: one load or store pass over rings of n lines in any order returns after n rounds and makes exactly one data access on each line of each ring and none elsewhere; without a memory operation it makes none |
| `OptionLaws.FormulaLines` | src/output.cpp:118-119 | the byte count has the factor v for load_all and store_all with stride v or -v, and no such factor otherwise |
| `StoredData.StoreAllLeaves` | src/run.cpp:377-400 | after one store_all pass with stride v, v dividing the lines, the datum of every line l of every chain is 100*(l mod v) |
| `Bandwidth.CoveredCount` | src/output.cpp:118-119 | distinct lines per pass and chain are the counted operations times the lines per hop |
| `Bandwidth.PreparedByInit` | src/run.cpp:96-107 | chains that hold what the init functions leave, with their roots in the caller's array, are prepared for the byte count |
| `Bandwidth.PreparedAfterCalls` | src/run.cpp:132-134 | any number of earlier calls, of calibration or of other experiments, leave the thread prepared |
| `Bandwidth.BandwidthBytes` | src/output.cpp:118-119 | the formula's byte count is the sum over all threads, all their calls in an experiment and all chains of the distinct lines touched, times bytes_per_line; each thread makes as many calls as the protocol says |
| `RandomDraws.DrawsOwnState` | src/run.cpp:233-248 | under every schedule a thread's draws are the first values of its own random state, two per critical section |
| `RandomDraws.RingFromOwnState` | src/run.cpp:233-269 | what a thread draws for a finished chain, and so the order of its ring, is the same under every schedule: values of the thread's own state |
| `RandomDraws.OneCount` | src/run.cpp:271-273 | once any thread has published, the operation count has the value that all publish |
| `RandomDraws.CountAfterRandom` | src/run.cpp:271-273 | when all threads are done, under every schedule, the published count is lines_per_chain, which is the number of links appended for every chain of every thread |
| `RandomDraws.CountAfterStrided` | src/run.cpp:299-301 | when all threads are done, the published count is ceil(lines/stride), the length of the forward and of the reverse order |
| `SpinBarriers.SpinBarrier.Enter` | src/spinbarrier.cpp:40-42 | an arrival changes the barrier as the step system says |
| `SpinBarriers.OpensInGroups` | src/spinbarrier.cpp:38-42 | a call is let go exactly when all `limit` calls of its group have arrived |
| `Protocol.InitialInv` | src/run.cpp:116-122 | the initial state meets the protocol invariant |
| `ProtocolOpening.FineClocksAgree` | src/run.cpp:121 | a resolution of at most 0.02 s on every thread gives equal bounds |
| `ProtocolOpening.StepKeeps` | src/run.cpp:116-194 | every step of every thread keeps the invariant, within its stage or into the next one |
| `Windows.BooksTimed` | src/run.cpp:161-192 | a log whose books are in order has every call between the two clock readings of its own window |
| `ProtocolTheorems.TimedWindows` | src/run.cpp:123-192 | in every interleaving each `bench` call lies between thread 0's start and stop readings of its own round or experiment, no other call lies there, and in a closed window all threads have made the same number of calls, in round r at least 2^r and in experiments exactly `iterations` |
| `ProtocolTheorems.NoDeadlock` | src/run.cpp:116-194 | in every reachable state some thread can step if and only if some thread is not done |
| `ProtocolTheorems.SameBarrierCalls` | src/run.cpp:116-194 | all threads make one sequence of barrier calls, apart by at most the last call, and the same sequence at the end |
| `ProtocolTheorems.ItersDuringChase` | src/run.cpp:122-134 | while anybody chases in round r, `iters` is one power of two between 2^r and 2^(r*T), no step changes it, and all chasers are in the same round |
| `ProtocolTheorems.ScheduledFrom` | src/run.cpp:147-157 | what thread 0 schedules from is 2 to 2^T times what every thread ran in the last round, and exactly 2 times for one thread |
| `ProtocolRace.SpreadIsTight` | src/run.cpp:120-157 | every power of two between 2 and 2^T times the last count is what some run schedules from |
| `ProtocolRace.DoublesExactlyIff` | src/run.cpp:120-157 | thread 0 schedules from exactly twice the last count in every run if and only if it is the only thread |
| `ProtocolTheorems.SchedulesBySeconds` | src/run.cpp:149-154 | with settings from an accepted command line thread 0 schedules from a positive number of seconds and an elapsed time above 0.2, so the branch for zero seconds is not taken |
| `ScheduleLaws.ScheduledBySeconds` | src/run.cpp:149-151 | with seconds given, the scheduled calls times the time per tested call exceed half of seconds times iters, but for a ten-thousandth of a call, and one call less does not |
| `ScheduleLaws.ScheduledOneSecond` | src/run.cpp:152-154 | without seconds the same holds of one second times iters |
| `ScheduleLaws.ScheduledTime` | src/run.cpp:121-157 | in every run, what thread 0 schedules takes at the pace of the last round from the wanted seconds up to 2^(T-1) times as long |
| `ScheduleLaws.BoundIsLeast` | src/run.cpp:121 | the calibration bound of a thread is the least time that is at least 0.2 and at least ten of its clock resolutions |
| `ProtocolTheorems.Finished` | src/run.cpp:160-194 | at the end each thread has called `bench` exactly `iterations` times in each experiment, and the recorded seconds are the positive clock differences, in order |
| `RecordedTimes.SecondsRecorded` | src/run.cpp:160-192 | at the end, from the log alone: every recorded value is positive and the difference between the two clock readings of an experiment, the experiments rise strictly, and no experiment with a positive difference is left out |
| `RecordedTimes.ReadingsRise` | src/run.cpp:161-182 | in every run, agreeing or not, later clock readings are never less, so no timed window took negative time |
| `ScheduledRuns.GivenIterations` | src/run.cpp:118-173 | a given iteration count is how often every thread calls `bench` in every experiment |
| `ScheduledRuns.WantedSeconds` | src/run.cpp:118-173 | without one, at the end of every run all threads made the same number of calls in every experiment, and at the pace of the last calibration round, by that round's two clock readings in the log, these calls take from the wanted seconds up to 2^(T-1) times as long |
| `ProtocolProgress.StepProgress` | src/run.cpp:116-194 | a step that opens no barrier lowers the measure of its stage; one that opens it starts the next generation |
| `ProtocolProgress.StagesEnd` | src/run.cpp:116-194 | no schedule keeps the threads between two barriers for more steps than the measure |
| `ProtocolProgress.ExperimentsEnd` | src/run.cpp:160-194 | once calibration is over every schedule ends within a budget of steps |
| `ProtocolProgress.RunsAreFinite` | src/run.cpp:160-194 | with given iterations every run is finite, with an explicit bound, whatever the schedule and the clock |
| `ProtocolCalibration.RoundsBounded` | src/run.cpp:122-144 | if every call takes at least d on the clock, round r+1 is opened only while 2^r times d is within the bound |
| `ProtocolCalibration.CalibrationEnds` | src/run.cpp:122-144 | so no round beyond R is opened, once 2^R times d exceeds the bound |
| `ProtocolTermination.CalibratedRunsAreFinite` | src/run.cpp:116-194 | with calibration, if calls take at least d and 2^R of them exceed the bound, every run is finite, with an explicit bound in R, the threads, the experiments and the scheduled iterations |
| `ProtocolCompletion.Complete` | src/run.cpp:160-194 | after calibration every reachable state can be continued to the end of all threads |
| `ProtocolCompletion.RunsCanEnd` | src/run.cpp:116-194 | every configuration whose threads agree has a run in which all threads finish |
| `ProtocolAgreement.AnyElapsed` | src/run.cpp:122-144 | some run ends calibration round 0 with any chosen elapsed time |
| `ProtocolAgreement.BoundDecides` | src/run.cpp:121-144 | for any time of round 0, some run has thread t start another round if the time is at most 0.2 s or ten of its clock resolutions, and leave calibration otherwise |
| `ProtocolAgreement.UnequalBoundsPart` | src/run.cpp:121-157 | with unequal bounds some run has one thread leave calibration while another starts a new round |
| `ProtocolAgreement.AgreementIff` | src/run.cpp:116-194 | the threads agree on all barrier calls in every run if and only if there is no calibration or all bounds are equal |
| `BarrierCounts.CountedKeeps` | src/run.cpp:116-194 | in every run, agreeing or not, each step keeps: a thread has called as many barriers as have opened, plus the one it waits in |
| `BarrierCounts.PlacedSteps` | src/run.cpp:116-194 | behind round 0, each step keeps: round, experiment and program point of a thread tell how many barriers it has called |
| `ProtocolDisagreement.PartAndStick` | src/run.cpp:116-194 | if thread t has a smaller bound than thread u, some run separates them after round 0 and then comes to a state where nobody can step |
| `ProtocolDisagreement.NeverStuckIff` | src/run.cpp:116-194 | no run gets stuck if and only if there is no calibration or all bounds are equal |
| `ProtocolDisagreement.TimedWindowsIff` | src/run.cpp:116-194 | with at least one experiment: calls lie in their windows and all threads take part in all windows, in every run, if and only if there is no calibration or all bounds are equal |
| `Decimal.ParseNumber` | src/experiment.cpp:542-567 | the value of the leading digits times the factor of the suffix |
| `Decimal.PrintedParses` | src/experiment.cpp:542-567 | a number printed in decimal parses back to itself |
| `Decimal.Units` | src/experiment.cpp:548-561 | a printed number followed by k, m, g or t in either case parses to it times 1024, 1024^2, 1024^3 or 1024^4; any other character that is no digit ends the number |
| `Decimal.RestIgnored` | src/experiment.cpp:562-563 | what follows the first character that is no digit changes nothing |
| `PlacementMap.EntriesWithin` | src/experiment.cpp:631-698 | for every text the scan finds no more thread entries than were counted by ';', so t < threads at every write |
| `PlacementScan.CountThreads` | src/experiment.cpp:631-637 | one more than the ';' of the text |
| `PlacementScan.CountChains` | src/experiment.cpp:641-649 | one more than the ',' before the first ';' |
| `PlacementScan.ReadThread` | src/experiment.cpp:656-667 | the buffer holds the text up to ':', or the token overruns its 64 characters |
| `PlacementScan.ReadChain` | src/experiment.cpp:678-688 | the buffer holds the text up to ',' or ';', or the token overruns |
| `PlacementScan.ReadChains` | src/experiment.cpp:671-691 | the row holds the numbers of the list and no other row changes, or the first fault is reported |
| `PlacementScan.ReadEntry` | src/experiment.cpp:654-697 | one descriptor fills cells that were empty before, and the cursor moves to the next descriptor |
| `PlacementScan.ScanMap` | src/experiment.cpp:652-698 | for every text the scan ends, inside its tables, with the cells that the text gives or with the first fault |
| `PlacementScan.CopyTable` | src/experiment.cpp:707-719 | domains are taken modulo the number of domains, and every cell read was written if and only if the text gives them all |
| `PlacementScan.Placement.AllocMap` | src/experiment.cpp:623-724 | counts and both tables are those that the text gives, or the scan is malformed, overruns or leaves a cell undefined |
| `PlacementRoundTrip.PlacedIff` | src/experiment.cpp:631-719 | a map is placed if and only if its text gives every cell exactly once and every token fits the buffer |
| `PlacementRoundTrip.RenderedPlaced` | src/experiment.cpp:623-724 | every rectangular map of plain tokens is read as it is written |
| `PlacementRoundTrip.PrintMap` | src/output.cpp:98-111 | the output prints the map text of its tables |
| `PlacementRoundTrip.RoundTrip` | src/output.cpp:98-111 | printing and then parsing a placement whose domains are in range restores both counts and both tables |
| `PlacementLaws.DomainsWrap` | src/experiment.cpp:707-719 | for rectangular tables of any numbers of at most 63 digits, every domain read is below the number of domains and differs from the printed number by a multiple of it |
| `PlacementLaws.BufferLimit` | src/experiment.cpp:656-688 | a rectangular map of plain tokens is placed if and only if no token is longer than 63 characters, and overruns the buffer otherwise |
| `PlacementLaws.RaggedMaps` | src/experiment.cpp:671-698 | when tokens fit, a map is malformed if and only if a later thread has more chains than the first, and placed if and only if all have as many; otherwise a domain is read that was never written |
| `PlacementLaws.FirstFault` | src/experiment.cpp:656-691 | the first fault decides: a long thread domain or a long token within the row overruns the buffer, a token beyond the row is malformed however long |
| `PlacementLaws.MapText` | src/output.cpp:98-111 | two threads with two chains each are written 0:3,0;2:1,2 |
| `Options.ParseReal` | src/experiment.cpp:569-591 | the result is the real number at the start of the text, positive if and only if a nonzero digit comes before its end |
| `Options.RealText` | src/experiment.cpp:569-591 | that number is the digits before the point plus those after it shifted down by their places; any other character ends it |
| `Options.Timing.ParseArgs` | src/experiment.cpp:113-212 | an accepted command line leaves exactly one of seconds and iterations positive, with the values of Setting; it is accepted if and only if every option is |
| `Options.LastDecides` | src/experiment.cpp:113-212 | if there is such an option, the last one gives these values: what its text says, and 0 for the other; without one they are one second and no iterations |

## Left out

- asmjit: register allocation, encoding and the JIT runtime; the model ends at the list of instructions asked for, with unlimited registers.
- Prefetch hints: the code that would emit them is commented out.
- src/timer.cpp: a clock reading is any real that does not run backwards; the resolution of each thread is a parameter.
- Threads, affinity and libnuma calls: threads have the numbers 0 to T-1 and separate chain memories.
- The pseudo-random generator: each state yields an arbitrary stream of values; `initstate` is not modelled.
- Weak memory: shared reads and writes of the protocol are single steps in one global order, and so is each clock reading.
- pthread_barrier_wait follows its specification in POSIX.1-2017 (System Interfaces): an arrival count and a generation; the protocol uses these as values, so that all interleavings can be quantified over.
- Machine memory beyond a map of bytes with little-endian 64-bit words: registers hold unbounded numbers, of which a store writes the low 64 bits.
- Floating point: times and seconds are reals.
- alloc_local, alloc_xor, alloc_add, access and placement: they carry no hard property.
- Usage text, error strings, headers and the averaging in Output::print.
- scripts/: file and shell plumbing.
- ChainInit.RandomMemInit: the values of `random()` are a parameter, and the locking around them is in `RandomDraws`; intermediate values are unbounded, their 32-bit range is the subject of `ChainInit.AffineFitsIntIff`.
- ChainInit.ForwardMemInit: requires a positive stride; the source calls it only for one.
- ChainInit.ReverseMemInit: requires a negative stride; for a stride of 0, which option parsing rejects, the source's first loop would not end.
- ChaseCode.Compiler.ChasePointers: the 32-bit value count is unbounded, and errors of the JIT runtime are not modelled.
- ProtocolTheorems.ItersDuringChase: `iters` is unbounded, so 64-bit overflow after 63 doublings is not modelled; nor is the `int` counter of the chase loop.
- Decimal.ParseNumber: 64-bit overflow is not modelled.
- Options.ParseReal: computed on reals; float rounding is not modelled.
- Options.Timing.ParseArgs: the options that touch neither field are one constructor each for success and failure, and a seconds value is judged as a real; a fraction that underflows `float` is rejected by the source.
- ProtocolDisagreement.TimedWindowsIff: says nothing for zero experiments, where nothing but calibration is timed; the half that needs agreement holds there too (`ProtocolTheorems.TimedWindows`).
- ProtocolCalibration.CalibrationEnds: the time that a call takes is a condition on the clock readings in the log, since the clock of the model is read by thread 0 only.
- PlacementScan.Placement.AllocMap: numbers are not cut to 32 bits, and the byte totals recomputed at the end and the random states are not modelled; what reading past the buffer or an unwritten cell does is an outcome of its own.
