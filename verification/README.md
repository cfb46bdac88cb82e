# QFw verification model

QFw is a framework for running quantum circuits on simulators and quantum
hardware through quantum platform managers (QPMs). This project models the parts
of it whose correctness is hard to see from the code, in Dafny 4.11, and proves
properties of every input, every run or every reachable state of the models.

`dafny verify dfyconfig.toml` checks the whole project.

## What is modelled

- **Braket transcoding** (`Circuits`, `WireOrder`, `Braket`, `BraketCounts`,
  `BraketTheorem`, `BraketAssignments`): a circuit is a list of gates, barriers and measurements; a
  device is any state space with gates, projections and shot counts in which
  operations on different qubits commute, asking a qubit again gives the same
  answer, and contradictory answers leave no shots. The theorem is that rewriting a circuit (idle qubits
  dropped, measurements hoisted into one ascending block) and remapping the
  returned histogram gives the original circuit's histogram, for every linear order
  with the same order along each wire. Devices of definite
  values are shown to obey the laws, which gives the same statement for every
  initial assignment.
- **QPM lifecycle binding** (`LifecycleBinding`, `LifecycleRuns`): one method per
  locked section, and an interleaving of any number of threads with service, peer
  and directory events. A loss of the peer while a connect is in flight can leave a
  stale client: a run ends or stays free of stale clients exactly under the stated
  conditions on its publications.
- **Provider jobs** (`JobWait`, `JobRun`): rate-limit waits, polls and the job
  deadline against an arbitrary provider, clock and cancel, over real time.
- **Backline allocation** (`Matcher`, `Matching`, `MatchingTheorems`, `Backline`):
  intent matching and the reservation state machine. The greedy choice is
  incomplete in general, shown by a whole inventory; the order condition under
  which matching over all transports is complete is proved, and proved necessary
  for two wants. Beyond two it is sufficient only.
- **Results** (`Bits`, `ResultDecoding`, `SampleMemory`, `RegisterStore`,
  `SamplerRun`, `Estimator`): from counts keys to packed registers, pubs to results, and Pauli
  expectation values from counts. A register of zero bits is cut as the whole row; storing it
  then drops it or fails, and the exact condition is stated.
- **Service plane** (`ServicePlane`): start, status and stop over a state record,
  against any script of process deaths, failed probes and failed actions. Probes
  that answer tell the truth and a termination that reports success worked.
- **Pulser batches** (`Pulser`), **bounded records and routing** (`Records`,
  `Routing`), **resolver selection** (`Comprehensions`, `Sorting`, `Resolver`,
  `ResolverFields`), **reservation ids** (`ReservationSequence`), **resource
  settings** (`Settings`, `SettingsSources`).

Findings the proofs turned up, each stated with its exact condition: on a new
counter with every id active the reservation search never ends
(`ReservationSequence.SearchEnds`); a component launched but never identified is
marked stopped without a probe (`ServicePlane.StopOne`), and `ServicePlane.LostProcess`
reaches such a state with the process still running; a failed termination of
the PRTE virtual machine still removes its control files (`ServicePlane.StopPrte`,
reached in `ServicePlane.FilesOfRunningProcessRemoved`); a circuit with an empty
classical register and nine or more classical bits has no result
(`RegisterStore.PostprocessPub`, `RegisterStore.EmptyRegisterRefused`); a driver
name that is not its own normal form would let a task lookup stray (`Routing.OtherNamesCanStray`).

Environments enter as parameters: what a provider, a QPM, a launcher or a device
answers, the clock, random draws, and whether an action succeeds.

## Model

| member | source | states |
|---|---|---|
| `Braket.CheckTerminal` | services/util/braket_transcode.py:117-124 | accepts exactly the circuits in which no gate follows a measurement of one of its qubits; a barrier is no gate |
| `Braket.TerminalAppend` | services/util/braket_transcode.py:117-124 | the set of qubits measured so far decides whether one more instruction keeps a circuit terminal |
| `Braket.MeasuredIsExact` | services/util/braket_transcode.py:145-149 | the measurement map lists exactly the measured qubits |
| `Braket.Gather` | services/util/braket_transcode.py:138-167 | succeeds exactly on terminal circuits whose gates read no classical bit; then the gates are in order and the map lists every measurement in order; otherwise the error is that of the first instruction that offends |
| `Braket.ToBraket` | services/util/braket_transcode.py:133-194 | a program results exactly when the trimmed circuit is terminal and quantum only; it is the gates followed by one ascending measurement block, with the recorded measurement map; otherwise the first instruction that offends decides the error |
| `BraketCounts.RemapKey` | services/util/braket_transcode.py:225-233 | the in-place fill of the output bits gives the key in which each bit is the last measurement written to it, and 0 if none |
| `BraketCounts.Accumulate` | services/util/braket_transcode.py:223-236 | each classical key gets the total shots of the device keys standing for it, and no other key is listed; the first key of the wrong width is reported |
| `BraketCounts.RemapCounts` | services/util/braket_transcode.py:197-236 | counts are returned untouched without counts, map or classical bits; otherwise exactly the keys the map gives are listed, each with its total, or the first key of the wrong width is reported |
| `BraketCounts.KeyIs` | services/util/braket_transcode.py:229-233 | bit i of a register stands at place i from the right of its key |
| `BraketCounts.ToMapIs` | services/util/braket_transcode.py:221-236 | the dictionary of a histogram holds its items and no other key, the last item of a key deciding |
| `Circuits.ExchangeHead` | services/util/braket_transcode.py:133-136 | two instructions with no wire in common can be exchanged without changing the counts |
| `WireOrder.HeadCanComeFirst` | services/util/braket_transcode.py:133-136 | in two circuits with the same instructions and the same order along every wire, the first instruction of one shares no wire with anything before it in the other |
| `WireOrder.ToFrontKeepsShots` | services/util/braket_transcode.py:133-136 | an instruction that shares no wire with those before it may be moved to the front without changing the counts |
| `WireOrder.WireOrderFixesShots` | services/util/braket_transcode.py:133-136 | circuits with the same instructions and the same order along every wire have the same counts, whatever linear order the graph is unrolled in |
| `WireOrder.WireOrderFixesTerminal` | services/util/braket_transcode.py:117-136 | and either both or neither measure terminally |
| `BraketTheorem.ProjectPastGates` | services/util/braket_transcode.py:138-167 | a measurement slides past gates that leave its qubit alone |
| `BraketTheorem.Hoist` | services/util/braket_transcode.py:138-181 | a terminal circuit gives the same counts when all gates come first and all measurements after, in their order |
| `BraketTheorem.GatesThenBlock` | services/util/braket_transcode.py:169-181 | the emitted program runs its gates and then its measurement block |
| `BraketTheorem.BranchesAreSubsets` | services/util/braket_transcode.py:138-167 | branching on every measurement in turn, repeats included, is a sum over which measured qubits read 1 |
| `BraketTheorem.BranchIgnoresOrder` | services/util/braket_transcode.py:176-181 | the weight of a branch does not depend on the order in which its qubits are asked, so the block may be ascending |
| `BraketTheorem.BlockShots` | services/util/braket_transcode.py:176-181 | the ascending block leaves exactly one device key per branch |
| `BraketTheorem.RekeyGivesOutcome` | services/util/braket_transcode.py:229-233 | rekeying a branch's device key gives the register the original measurements leave in it: repeated measurements, last write wins, unmeasured bits 0 |
| `BraketTheorem.TotalIsSum` | services/util/braket_transcode.py:221-236 | the remapped total of a classical key is the sum of the branches that leave it |
| `BraketTheorem.TrimmedShots` | services/util/braket_transcode.py:133-136 | dropping idle qubits and renumbering the rest does not change the counts |
| `BraketTheorem.TrimKeepsAcceptance` | services/util/braket_transcode.py:133-136 | trimming neither hides nor invents a reason to refuse a circuit |
| `BraketTheorem.WireOrderKeepsAcceptance` | services/util/braket_transcode.py:133-136 | whether a circuit is accepted, both ways, and which qubits it uses depend on its wire order alone |
| `BraketTheorem.MeasurementFits` | services/util/braket_transcode.py:145-149 | the measurement map of an accepted circuit stays inside the classical registers |
| `BraketTheorem.CanonicalCounts` | services/util/braket_transcode.py:138-236 | on one device, remapping the histogram of the canonical program gives the histogram of the circuit |
| `BraketTheorem.TranscodePreservesCounts` | services/util/braket_transcode.py:117-236 | for every accepted circuit with a measurement, every linear order of its wires and every lawful device: run the transcoded program on the trimmed device, remap its histogram, and each classical register has exactly the shots of the original circuit |
| `BraketAssignments.ValueDeviceIsLawful` | services/util/braket_transcode.py:117-236 | the device laws used by the theorem hold of every device of definite qubit values with gates that read and write only the qubits they name |
| `BraketAssignments.ValueDeviceRestricts` | services/util/braket_transcode.py:133-136 | dropping idle qubits is a restriction of such a device |
| `BraketAssignments.AllShotsOnRun` | services/util/braket_transcode.py:117-236 | on such a device all shots fall on the register the circuit leaves |
| `BraketAssignments.RekeyedRunIsOriginalRun` | services/util/braket_transcode.py:117-236 | for every accepted circuit and every initial assignment of the qubits, the remapped key of the rewritten program is the register the original leaves |
| `LifecycleBinding.Binding.constructor` | service-apis/api_qpm_common/__init__.py:61-98 | a new binding is not started, has no record and no client, and is consistent |
| `LifecycleBinding.Binding.StartLocked` | service-apis/api_qpm_common/__init__.py:100-113 | the locked section of `start` marks the binding started, changes nothing else, and nothing at all the second time |
| `LifecycleBinding.Binding.RequireLocked` | service-apis/api_qpm_common/__init__.py:298-306 | a caller passes exactly when a record is installed and, if the caller named a runtime, it is that record's; each error is raised exactly for its own reason and nothing changes |
| `LifecycleBinding.Binding.LookLocked` | service-apis/api_qpm_common/__init__.py:160-164 | the cached client of the name exactly when there is one and the caller passes; in a consistent state it is a client of the runtime the caller named |
| `LifecycleBinding.Binding.PublishLocked` | service-apis/api_qpm_common/__init__.py:188-195 | the connected client is cached under its name, unless one already is, and nothing else changes, exactly when a record is installed and runtime and peer are still those it was connected from; otherwise the change is reported and nothing is cached |
| `LifecycleBinding.Binding.InstallLocked` | service-apis/api_qpm_common/__init__.py:366-393 | runtime, peer and record become the announced ones; the clients are kept exactly when the identity is the same and cleared otherwise; an announcement of another service or without runtime or peer is reported and changes nothing |
| `LifecycleBinding.Binding.DisconnectLocked` | service-apis/api_qpm_common/__init__.py:358-364 | a disconnect of the installed identity drops the record and all clients and leaves the rest; any other leaves everything |
| `LifecycleBinding.Binding.PeerLostLocked` | service-apis/api_qpm_common/__init__.py:403-413 | the loss of the service's own peer drops all clients and keeps the rest; that of another peer changes nothing |
| `LifecycleBinding.Binding.DirectoryLostLocked` | service-apis/api_qpm_common/__init__.py:415-423 | a loss that may be that of the directory in use drops directory, record and clients; one known to be another's changes nothing |
| `LifecycleBinding.Binding.BindDirectoryLocked` | service-apis/api_qpm_common/__init__.py:226-229 | a directory is bound and nothing else changes |
| `LifecycleBinding.Binding.CloseLocked` | service-apis/api_qpm_common/__init__.py:124-134 | closing a started binding drops record and clients and marks it not started; otherwise nothing changes |
| `LifecycleRuns.StartIsSafe` | service-apis/api_qpm_common/__init__.py:61-98 | the initial system is safe |
| `LifecycleRuns.StepIsSafe` | service-apis/api_qpm_common/__init__.py:124-195 | every atomic step of every thread and event keeps the safety invariant |
| `LifecycleRuns.EveryRunIsSafe` | service-apis/api_qpm_common/__init__.py:124-195 | in every interleaving: no record means no cached client, each cached client was connected from the installed runtime and peer, at most one thread is connecting, and no call is answered with a client of another runtime than it named |
| `LifecycleRuns.FinishInsertsOwnClient` | service-apis/api_qpm_common/__init__.py:174-195 | the `setdefault` of a finishing connect always inserts that thread's own client |
| `LifecycleRuns.OpensOnce` | service-apis/api_qpm_common/__init__.py:174-195 | one step opens at most one connection for a binding, and none once it is cached |
| `LifecycleRuns.SingleFlight` | service-apis/api_qpm_common/__init__.py:159-195 | over any run segment without cache clear or failed connect, each binding is connected at most once for any number of callers, and not at all if it was cached |
| `LifecycleRuns.CallersShareOneClient` | service-apis/api_qpm_common/__init__.py:159-195 | in such a segment every caller of a binding gets the same client |
| `LifecycleRuns.FreshStep` | service-apis/api_qpm_common/__init__.py:159-195 | one step leaves the cache fresh exactly when it was fresh or the step clears it, and the step does not publish a client connected before the last loss |
| `LifecycleRuns.FreshRun` | service-apis/api_qpm_common/__init__.py:159-195 | a run ends with every cached client connected after the last loss of the peer exactly when it began so or cleared the cache, and cleared it again after every publication of a client connected before the last loss |
| `LifecycleRuns.AlwaysFreshRun` | service-apis/api_qpm_common/__init__.py:159-195 | no state of a run holds a stale client exactly when no thread publishes a client it connected before the last loss |
| `LifecycleRuns.LossDuringConnectGoesStale` | service-apis/api_qpm_common/__init__.py:184-195 | a loss during a connect whose publication is not refused leaves a client of a lost peer in the cache |
| `LifecycleRuns.StaleClientIsReachable` | service-apis/api_qpm_common/__init__.py:184-195 | such a state is reached from the initial one |
| `LifecycleRuns.BindingIsHistory` | service-apis/api_qpm_common/__init__.py:100-423 | after every run, what the binding holds is what the history of announcements, disconnects, losses, bindings and closes says: started or not, the directory's runtime, the runtime and peer last installed, and the record last installed exactly when it was not withdrawn since |
| `LifecycleRuns.AbsentServiceRaises` | service-apis/api_qpm_common/__init__.py:298-306 | from a state without a record, every call answered before the next record is installed is answered with an error |
| `LifecycleRuns.WithdrawnServiceRaises` | service-apis/api_qpm_common/__init__.py:124-423 | after a disconnect of the installed service, a loss of its directory or a close, every call answered raises until the next record is installed, whatever the threads were doing |
| `LifecycleRuns.CallConnects` | service-apis/api_qpm_common/__init__.py:159-195 | an undisturbed call without a cached client ends with a client of the installed record's runtime and peer, cached under its name, exactly when the record exposes one binding of that name; otherwise it raises and changes nothing |
| `LifecycleRuns.CallAnswersAtOnce` | service-apis/api_qpm_common/__init__.py:160-164 | a call that needs no connect is answered from the cache, or with the error that says why, and changes nothing |
| `JobWait.RateLimitWait` | services/svc_lib_qpm/drivers/qrmi_driver.py:293-297 | the waits lie between half and all of 2, 4, 8, 16, 32 and from then on 60 seconds, the random draw deciding where |
| `JobWait.CeilingsAre` | services/svc_lib_qpm/drivers/qrmi_driver.py:293-297 | the ceilings are 2, 4, 8, 16 and 32 seconds, and a minute from then on |
| `JobWait.Wake` | services/svc_lib_qpm/drivers/qrmi_driver.py:310-328 | a wait ends when it is over, or at once or at the cancel if that comes first, plus the overrun |
| `JobWait.RateLimit.constructor` | services/svc_lib_qpm/drivers/qrmi_driver.py:304-308 | a new rate limit has made no retry |
| `JobWait.RateLimit.Wait` | services/svc_lib_qpm/drivers/qrmi_driver.py:310-328 | past the deadline nothing is waited and it gives up; otherwise the growing wait, or the asked minimum if longer, cut to the deadline, is waited and counted; it says again exactly when no cancel came meanwhile |
| `JobWait.PollWaitClosedForm` | services/svc_lib_qpm/drivers/base_driver.py:48-53 | the k-th wait is max(first, min(60, first * 2^k)) |
| `JobWait.PollSumGrows` | services/svc_lib_qpm/drivers/base_driver.py:48-53 | once doubled to the cap, every further wait takes the full minute |
| `JobRun.JobCall` | services/svc_lib_qpm/drivers/qrmi_driver.py:1293-1315 | a call is made again exactly while the provider refuses it as rate-limited; it ends as the provider's answer says; after its k-th refusal it waits the k-th of the growing waits, cut only by the job's deadline; it gives up on the limit only at the deadline and without a cancel |
| `JobRun.Pause` | services/svc_lib_qpm/drivers/qrmi_driver.py:1689-1695 | the wait between polls is the wanted one, cut to the deadline and no shorter, unless cancelled |
| `JobRun.PollLimited` | services/svc_lib_qpm/drivers/qrmi_driver.py:1660-1673 | a rate-limited poll waits within the deadline and gives up only at the deadline |
| `JobRun.PollAnswered` | services/svc_lib_qpm/drivers/qrmi_driver.py:1685-1696 | a poll that found the job unfinished waits, doubling, within the deadline |
| `JobRun.PollOnce` | services/svc_lib_qpm/drivers/qrmi_driver.py:1656-1696 | one turn of the poll loop keeps the waiting within the deadline, polls at most once, and leaves only for a due reason |
| `JobRun.PollTask` | services/svc_lib_qpm/drivers/qrmi_driver.py:1632-1706 | the loop ends with the first turn in which the provider names an end, and as it names it: completed, failed or error, cancelled; every exit by cancel or deadline has sent exactly one stop, as the last thing done, and no other exit sends one; undisturbed, the polls are paced by the doubling waits |
| `JobRun.ContainsIsSays` | services/svc_lib_qpm/drivers/qrmi_driver.py:1679-1684 | a status contains a word exactly when the word stands at some place in it |
| `JobRun.VerdictIsTold` | services/svc_lib_qpm/drivers/qrmi_driver.py:1679-1684 | a status with `complet` is completed, else with `fail` or `error` failed, else with `cancel` cancelled, and any other is no end |
| `JobRun.Collect` | services/svc_lib_qpm/drivers/qrmi_driver.py:1372-1430 | the polls and the fetch after a submission: how the job ended is what the provider said, and what was stopped and waited follows from it |
| `JobRun.PollBound` | services/svc_lib_qpm/drivers/qrmi_driver.py:1650-1696 | a job with timeout T and first wait w is polled at most 2 + c + T/60 times, where c doublings of w reach 60 seconds |
| `JobRun.RunJob` | services/svc_lib_qpm/drivers/qrmi_driver.py:1317-1430 | how a job ended is what the provider said of it, or the timeout or cancel that came first; submission, polls and fetch together wait at most the job timeout T; with doubling waits and nothing interfering the job is polled at most 2 + c + T/60 times; a job timed out was stopped once, a cancelled one once or, where finished jobs are deleted, twice; nothing is stopped that was never submitted |
| `Matcher.OptionsAreExact` | services/svc_backline_qpm/matcher.py:142-173 | the options of a want are exactly the pairs that serve it, and it is refused exactly when there are none or it brings its own decoder |
| `Matcher.RefusalsAreExact` | services/svc_backline_qpm/matcher.py:142-173 | each refusal of a want names its own reason, the first that applies: an own decoder asked for, no coprocessor that pairs up for kind, hardware and code, none reachable on the transport, none with a measured latency, none fast enough |
| `Matcher.FirstFreeIsFirst` | services/svc_backline_qpm/matcher.py:179-181 | the controller taken is the first listed that is free |
| `Matcher.GreedyIsSound` | services/svc_backline_qpm/matcher.py:178-192 | the greedy choice takes one distinct free coprocessor from each want's options |
| `Matcher.GreedyPicks` | services/svc_backline_qpm/matcher.py:184-192 | the loop over the wants makes the greedy choice |
| `Matching.GatherOptions` | services/svc_backline_qpm/matcher.py:142-173 | the options of all wants in order, or the refusal of the first want that has none |
| `Matching.TryTransports` | services/svc_backline_qpm/matcher.py:124-132 | the loop over transports returns the first success, else the first transport's refusal |
| `MatchingTheorems.MatchOnIsSound` | services/svc_backline_qpm/matcher.py:135-207 | a placement on a transport honours the intent: code, kinds, hardware agreement, transport, latency, one distinct free coprocessor per want |
| `MatchingTheorems.ReadIs` | services/svc_backline_qpm/matcher.py:90-112 | exactly the well-formed requests are read, and as the intent says: every want, the code, transport, controller kind and latency limit |
| `MatchingTheorems.RefusalIsFirst` | services/svc_backline_qpm/matcher.py:150-173 | on one transport the refusal reported is that of the first want that has one |
| `MatchingTheorems.MatchOnRejects` | services/svc_backline_qpm/matcher.py:135-207 | a rejection on one transport names a reason that applies there |
| `MatchingTheorems.RejectionsMean` | services/svc_backline_qpm/matcher.py:90-207 | a request is rejected as invalid exactly when it is not well formed, for its code or controller exactly when none is offered, and on a preferred transport for the reason that applies there: nobody speaks it, the first want refused and why, or capacity with no want refused |
| `MatchingTheorems.LeastTransportWins` | services/svc_backline_qpm/matcher.py:122-130 | without a preferred transport the least transport that works answers |
| `MatchingTheorems.FirstRejectionIsReported` | services/svc_backline_qpm/matcher.py:124-132 | if none works, the least transport's rejection is reported |
| `MatchingTheorems.MatchIsSound` | services/svc_backline_qpm/matcher.py:90-207 | every placement returned meets the intent as it was given: its code, transport, controller kind and latency limit, one distinct free coprocessor of the asked kind and hardware per want |
| `MatchingTheorems.Exchanged` | services/svc_backline_qpm/matcher.py:178-192 | when the first want takes another entry, the assignment can be exchanged to match |
| `MatchingTheorems.GreedyIsComplete` | services/svc_backline_qpm/matcher.py:178-192 | with orderly options the greedy choice finds an assignment whenever one exists |
| `MatchingTheorems.OneWantIsOrderly` | services/svc_backline_qpm/matcher.py:178-192 | a single want is orderly |
| `MatchingTheorems.EqualWantsAreOrderly` | services/svc_backline_qpm/matcher.py:178-192 | wants with identical options are orderly |
| `MatchingTheorems.TwoWantsNeedOrder` | services/svc_backline_qpm/matcher.py:175-192 | for two wants orderliness is exact: without it, and only then, some busy set makes the greedy choice miss a fit |
| `MatchingTheorems.GreedyMisses` | services/svc_backline_qpm/matcher.py:175-192 | for two wants without the order condition there is a set of busy entries on which the greedy choice misses a fit |
| `MatchingTheorems.GreedyMissesInPractice` | services/svc_backline_qpm/matcher.py:135-207 | a whole inventory and intent that matching rejects for want of capacity with nothing busy, although it can be placed |
| `MatchingTheorems.ThreeWantsNeedNoOrder` | services/svc_backline_qpm/matcher.py:175-192 | with three wants the order condition is not needed: it can fail where no fit exists to be missed |
| `MatchingTheorems.FitIsFound` | services/svc_backline_qpm/matcher.py:135-207 | with orderly options and separate ids, a free controller and an assignment are enough to be placed |
| `MatchingTheorems.CapacityRejectionIsFinal` | services/svc_backline_qpm/matcher.py:179-190 | on one transport a capacity rejection then means no free controller or no injective assignment of free entries exists |
| `MatchingTheorems.HonouredIsPlaceable` | services/svc_backline_qpm/matcher.py:90-207 | a placement that honours the intent shows its transport can serve it |
| `MatchingTheorems.MatchIsComplete` | services/svc_backline_qpm/matcher.py:90-207 | with separate ids and orderly options a well-formed intent is placed exactly when some transport it allows has a free controller and distinct free coprocessors that meet every want of it; a rejection is final |
| `MatchingTheorems.AlikeWantsAreComplete` | services/svc_backline_qpm/matcher.py:90-207 | for one want, or wants that all ask for the same, this holds of every intent and every inventory with separate ids |
| `Backline.DropIsSane` | services/svc_backline_qpm/svc_qpm.py:243-247 | dropping reservations keeps the invariant |
| `Backline.AttachIsSane` | services/svc_backline_qpm/svc_qpm.py:229-241 | attaching free entries and a new executor to a reservation keeps the invariant |
| `Backline.PlaceIsSane` | services/svc_backline_qpm/svc_qpm.py:139-157 | a reservation keeps the invariant, failed starts included, and what is granted meets the intent as given on entries that were free |
| `Backline.StepIsSane` | services/svc_backline_qpm/svc_qpm.py:127-265 | every operation keeps the invariant |
| `Backline.EveryRunIsSane` | services/svc_backline_qpm/svc_qpm.py:127-265 | over every run the entries of held placements are disjoint and duplicate-free, placements and executors have the same keys, and each running executor belongs to exactly one held reservation |
| `Backline.ShutdownStopsEverything` | services/svc_backline_qpm/svc_qpm.py:175-179 | after a shutdown nothing is held and every executor ever started was stopped |
| `Backline.DropGivesUp` | services/svc_backline_qpm/svc_qpm.py:243-247 | dropping gives up exactly the named placements and stops exactly their executors |
| `Backline.BusyIsTaken` | services/svc_backline_qpm/svc_qpm.py:255-265 | an entry counts as busy exactly when a reservation that is active holds it; the placements of all others are given up |
| `Backline.PlacePlaces` | services/svc_backline_qpm/svc_qpm.py:139-157 | what a reservation does to the state in each case: placed with its executor on entries that meet the intent, or not and for the reason reported |
| `Backline.StepMeans` | services/svc_backline_qpm/svc_qpm.py:127-265 | the same of every operation, stated on the placements, executors and stopped executors before and after |
| `Backline.QPM.constructor` | services/svc_backline_qpm/svc_qpm.py:70-89 | a new service holds nothing |
| `Backline.QPM.DropOne` | services/svc_backline_qpm/svc_qpm.py:243-247 | gives up exactly the one placement and stops its executor, if any |
| `Backline.QPM.Busy` | services/svc_backline_qpm/svc_qpm.py:255-265 | returns exactly the entries of active reservations and drops the others |
| `Backline.QPM.Reserve` | services/svc_backline_qpm/svc_qpm.py:139-157 | reserves on free entries that meet the intent, or leaves nothing behind and says why; the invariant is kept |
| `Backline.QPM.ClassicalRequest` | services/svc_backline_qpm/svc_qpm.py:183-227 | refused as invalid exactly without an intent or for a reservation that is unknown, inactive, already placed or not the caller's own; otherwise placed like a reservation; the invariant is kept |
| `Backline.QPM.Release` | services/svc_backline_qpm/svc_qpm.py:159-165 | an accepted release gives up the placement and stops its executor, a refused one changes nothing |
| `Backline.QPM.ShutdownProvider` | services/svc_backline_qpm/svc_qpm.py:175-179 | drops everything; no executor keeps running |
| `ResultDecoding.FitsInBytes` | backends/qfw_qiskit/qfw_sampler.py:288-289 | a value fits its bytes exactly when it is below two to their bits |
| `ResultDecoding.BytesValue` | backends/qfw_qiskit/qfw_sampler.py:283-295 | unpacking the bytes of a value gives its bits |
| `ResultDecoding.PackValue` | backends/qfw_qiskit/qfw_sampler.py:313-314 | packing whole bytes keeps the value |
| `ResultDecoding.PackFills` | backends/qfw_qiskit/qfw_sampler.py:313-314 | packing any word fills its last byte with zeros |
| `ResultDecoding.FieldIsExact` | backends/qfw_qiskit/qfw_sampler.py:283-315 | for every value that fits and every register with at least one bit inside the row, the packed field is ceil(bits/8) big-endian bytes of (value div 2^start) mod 2^bits |
| `ResultDecoding.EmptyRegisterTakesWholeRow` | backends/qfw_qiskit/qfw_sampler.py:305-308 | a register of no bits is cut as the whole row: the field has the right width exactly when the register is not empty or the row is |
| `ResultDecoding.EmptyFieldIsRow` | backends/qfw_qiskit/qfw_sampler.py:305-315 | the packed field of a register of no bits spells the whole row |
| `SampleMemory.HexRoundTrip` | backends/qfw_qiskit/qfw_job.py:348-349 | reading the hexadecimal text of a number gives the number |
| `SampleMemory.SampleValue` | backends/qfw_qiskit/qfw_job.py:339-351 | the memory sample of a counts key reads as the number its bits spell, whatever spaces separate the registers |
| `SampleMemory.DigitsAre` | backends/qfw_qiskit/qfw_job.py:348-349 | the sixteen digits: small letters are written and either case is read |
| `SampleMemory.PrefixIsDropped` | backends/qfw_qiskit/qfw_sampler.py:288-289 | a hexadecimal text is read past its prefix of either case, or whole without one |
| `SampleMemory.SampleIs` | backends/qfw_qiskit/qfw_job.py:339-351 | exactly the keys made of bits and spaces become numbers; hexadecimal keys, empty ones and any other text are kept but for the blanks around them |
| `SampleMemory.KeyToField` | backends/qfw_qiskit/qfw_sampler.py:283-315 | from a counts key to packed bytes: the field of a register is its section of the number the key spells |
| `SampleMemory.KeyFits` | backends/qfw_qiskit/qfw_job.py:339-351 | the number a key spells is below two to its width and fits the row |
| `SampleMemory.MemoryFromCounts` | backends/qfw_qiskit/qfw_job.py:329-337 | the nested loops append each sample once per shot |
| `SampleMemory.MemoryConservesShots` | backends/qfw_qiskit/qfw_job.py:329-337 | one memory entry per shot, and each sample as often as its keys were counted |
| `SampleMemory.MemoryInOrder` | backends/qfw_qiskit/qfw_job.py:329-337 | the shots of a key stand together, after those of the keys before it |
| `SampleMemory.AnalyzeCircuit` | backends/qfw_qiskit/qfw_sampler.py:247-267 | every register lies inside the reported bytes, and they are the fewest |
| `RegisterStore.MemoryRows` | backends/qfw_qiskit/qfw_sampler.py:283-295 | the rows of a memory, none exactly when a sample is no number or does not fit; without classical bits nothing is read |
| `RegisterStore.ReadAll` | backends/qfw_qiskit/qfw_sampler.py:283-295 | the rows of all circuits, none exactly when some sample of some circuit cannot be read |
| `RegisterStore.StoreRegister` | backends/qfw_qiskit/qfw_sampler.py:226-228 | assigning a register's packed samples into an array of its own width is refused exactly when it is empty and the row has two bytes or more; otherwise each shot holds its section of the measured number |
| `RegisterStore.StoreCircuit` | backends/qfw_qiskit/qfw_sampler.py:225-228 | all registers of one circuit, refused under exactly that condition; the arrays of other circuits are untouched |
| `RegisterStore.PostprocessPub` | backends/qfw_qiskit/qfw_sampler.py:218-235 | a pub's result fails exactly on an unreadable sample, or on an empty register beside two bytes or more of others; otherwise every register of every shot of every circuit has its own width and is its section of the measured number |
| `RegisterStore.EmptyRegisterRefused` | backends/qfw_qiskit/qfw_sampler.py:218-235 | a circuit of nine bits and an empty register, whose result cannot be stored |
| `RegisterStore.RegistersRecombine` | backends/qfw_qiskit/qfw_sampler.py:218-235 | for contiguous registers of any sizes, empty ones included: what is stored of a shot, put back in place, makes up the measured number |
| `RegisterStore.ShotRecombines` | backends/qfw_qiskit/qfw_sampler.py:218-235 | the same of every shot in the arrays of a pub's result |
| `RegisterStore.KeyRecombines` | backends/qfw_qiskit/qfw_sampler.py:218-315 | from a counts key through memory and the stored registers of its shot back to the number the key spells |
| `SamplerRun.RunCircuits` | backends/qfw_qiskit/qfw_sampler.py:340-352 | chunks of at most the maximum, together the runs of all circuits in order |
| `SamplerRun.FlattenCircuits` | backends/qfw_qiskit/qfw_sampler.py:157-161 | the circuits of all pubs in order |
| `SamplerRun.OwnSlice` | backends/qfw_qiskit/qfw_sampler.py:184-198 | the circuits of a pub sit exactly where those of the earlier pubs end |
| `SamplerRun.OwnMemory` | backends/qfw_qiskit/qfw_sampler.py:184-198 | cutting the memory there gives the runs of the pub's own circuits at their own places |
| `SamplerRun.RunPubs` | backends/qfw_qiskit/qfw_sampler.py:155-200 | each pub of one shot count gets the result of its own circuits, run at their own places |
| `SamplerRun.PlacedIsExpected` | backends/qfw_qiskit/qfw_sampler.py:141-152 | a pub's place within its group is its place among all pubs of its shots |
| `SamplerRun.GroupByShots` | backends/qfw_qiskit/qfw_sampler.py:141-144 | every pub is in exactly the group of its shots, in order |
| `SamplerRun.Scatter` | backends/qfw_qiskit/qfw_sampler.py:150-152 | the slots of a group are filled with its results and no other slot changes |
| `SamplerRun.RunGroup` | backends/qfw_qiskit/qfw_sampler.py:147-152 | one group fills exactly its own slots, which were empty |
| `SamplerRun.Run` | backends/qfw_qiskit/qfw_sampler.py:140-153 | for any pubs, shots and chunk size every slot is filled exactly once, with the runs of its own pub's circuits at their own places, also when two pubs share a circuit |
| `Estimator.MeasuredQubits` | backends/qfw_qiskit/qfw_estimator.py:521-523 | the measured qubits are increasing, inside the register and never none |
| `Estimator.MeasurementCircuit` | backends/qfw_qiskit/qfw_estimator.py:516-533 | the gates appended in the loop are, qubit by qubit, the rotation and the measurement into the next clbit |
| `Estimator.RotationDiagonalizes` | backends/qfw_qiskit/qfw_estimator.py:527-531 | after its rotation, reading Z reads exactly the Pauli factor, with its sign |
| `Estimator.GatesConjugate` | backends/qfw_qiskit/qfw_estimator.py:527-531 | H exchanges X and Z and negates Y; the inverse phase gate takes X to Y and Y to -X, and leaves Z |
| `Estimator.ClbitReadsBasis` | backends/qfw_qiskit/qfw_estimator.py:527-532 | in the whole circuit clbit k reads the basis factor of its own qubit with a plus sign, and nothing else touches that qubit |
| `Estimator.BasisServesGroup` | backends/qfw_qiskit/qfw_estimator.py:466-468 | where a member of a qubit-wise commuting group acts, the combined basis is its own factor |
| `Estimator.PackedIsLittle` | backends/qfw_qiskit/qfw_estimator.py:112-120 | packing bits into little-endian bytes and weighing the bytes gives the binary number |
| `Estimator.AndCountsCommonOnes` | backends/qfw_qiskit/qfw_estimator.py:97-98 | the ones of the AND of two packed numbers are the places where both bits are set |
| `Estimator.SignIsEigenvalue` | backends/qfw_qiskit/qfw_estimator.py:79-125 | for every reading the sign from the packed integers and AND-parity over the measured qubits is the product of the eigenvalues of the whole Pauli over all qubits, also when it acts nowhere and only qubit 0 is measured |
| `Estimator.ShownRoundTrip` | backends/qfw_qiskit/qfw_estimator.py:93-94 | reading a register's bit string as binary gives the packed number of its clbits |
| `Estimator.AddCount` | backends/qfw_qiskit/qfw_estimator.py:96-98 | one histogram entry is added to every accumulated sum with its sign |
| `Estimator.Divide` | backends/qfw_qiskit/qfw_estimator.py:100-104 | the quotients are in [-1, 1] and the variances in [0, 1] |
| `Estimator.ExpvalWithVariance` | backends/qfw_qiskit/qfw_estimator.py:79-105 | each value times the number of shots is the signed total of its Pauli, lies in [-1, 1], and its variance in [0, 1]; there is none exactly when there are no shots |
| `Estimator.SignedIsEigenTotal` | backends/qfw_qiskit/qfw_estimator.py:79-105 | the signed total of a covered Pauli is the sum over the entries of its eigenvalue times their shots |
| `Estimator.GroupMeanIsExact` | backends/qfw_qiskit/qfw_estimator.py:460-490 | for every member of a commuting group measured together, the total the estimator divides is the shot-weighted sum of the member's eigenvalues over all qubits |
| `Estimator.CertainIsExact` | backends/qfw_qiskit/qfw_estimator.py:100-104 | a Pauli that reads the same in every shot is given that value, 1 or -1, and no variance |
| `Estimator.EstimateGroup` | backends/qfw_qiskit/qfw_estimator.py:434-480 | each value the estimator returns for a commuting group, times the shots, is the sum over all shots of the eigenvalue of the whole member; in range, with its variance, and none only without shots |
| `ServicePlane.Verify` | setup/qfw_runtime/service_plane.py:1055-1076 | a component without recorded identity is not probed; a probe that answers says alive exactly when the process runs, and a mismatch exactly when it is gone and its pid reused |
| `ServicePlane.ComponentReady` | setup/qfw_runtime/service_plane.py:902-913 | a component is ready exactly when a probe answers that it is alive and its readiness check works; of a dry run only the check counts |
| `ServicePlane.Active` | setup/qfw_runtime/service_plane.py:916-927 | an instance counts as gone only if each component not stopped was last probed gone or has no recorded identity; it counts as active only if one was ready, alive or could not be probed |
| `ServicePlane.StopPrte` | setup/qfw_runtime/service_plane.py:992-1018 | succeeds exactly when the probe finds the process gone, or the second one after the shutdown request does, or the termination works; the control files are kept exactly when a probe did not answer, which fails the stop; no other process is ended |
| `ServicePlane.StopService` | setup/qfw_runtime/service_plane.py:961-969 | succeeds exactly when the probe finds the process gone or its termination works; a failure leaves the control files; no other process is ended |
| `ServicePlane.StopOne` | setup/qfw_runtime/service_plane.py:957-977 | a component is marked stopped exactly when its stop gets rid of it, and then its process is gone; it is failed with its control files when a probe did not answer, and a service only if a probe found it there or did not answer; one without recorded identity is marked stopped unprobed |
| `ServicePlane.StopComponents` | setup/qfw_runtime/service_plane.py:948-978 | the same of every component, in reverse order, whatever happens to the others; no process but theirs is ended; where every probe answers and every action works all are stopped |
| `ServicePlane.StopInTurn` | setup/qfw_runtime/service_plane.py:955-977 | every component is tried, the last first, and each is left as its own stop leaves it; no process but theirs is ended |
| `ServicePlane.Manager.Start` | setup/qfw_runtime/service_plane.py:147-193 | refused only when a component not stopped is still there or cannot be told; otherwise every component on record was stopped or last probed gone, and no process ever on record still runs; a failure before the new plane is written leaves the old record, one while the environment is written leaves the new plane as starting with no component; started means every planned role is ready with its identity, failed that what was started was stopped or could not be; where every probe answers and every action works it is refused or starts everything |
| `ServicePlane.Manager.Bring` | setup/qfw_runtime/service_plane.py:168-193 | a recorded plane ends ready with every planned role up and identified, or in error with each component started stopped or failed; it ends ready where every probe answers and every action works |
| `ServicePlane.Manager.Replaceable` | setup/qfw_runtime/service_plane.py:151-159 | a recorded plane may be replaced only when no process ever on record still runs |
| `ServicePlane.Manager.LaunchAll` | setup/qfw_runtime/service_plane.py:168-181 | components start in turn up to the first failure, and what was started stays on record in its planned role; success means all are up |
| `ServicePlane.Manager.LaunchNext` | setup/qfw_runtime/service_plane.py:172-181 | one more component in its planned role |
| `ServicePlane.Manager.StartComponent` | setup/qfw_runtime/service_plane.py:172-181 | one component starts exactly when its process is launched and confirmed and, for the directory, both publications work, before and after |
| `ServicePlane.LostProcess` | setup/qfw_runtime/service_plane.py:957-977 | a run in which a launched component is never identified: start fails, stop records the plane stopped, and the process still runs on nobody's record |
| `ServicePlane.FilesOfRunningProcessRemoved` | setup/qfw_runtime/service_plane.py:992-1018 | a run that starts the PRTE virtual machine and fails to terminate it: the stop fails and the process still runs, but its control files are gone |
| `ServicePlane.Manager.Discard` | setup/qfw_runtime/service_plane.py:1021-1032 | removes all control files of the replaced plane and nothing else, or fails to withdraw its directory and changes nothing |
| `ServicePlane.Manager.StartOne` | setup/qfw_runtime/service_plane.py:637-694 | started exactly when the launch works and a probe confirms the process; then it is on record with its identity, and otherwise without one |
| `ServicePlane.Manager.StopAll` | setup/qfw_runtime/service_plane.py:948-978 | stops the recorded components and no other process, and keeps every process that still runs on record |
| `ServicePlane.Manager.Stop` | setup/qfw_runtime/service_plane.py:246-263 | stopped is reported exactly when every component was stopped and the directory withdrawn, and exactly when it is recorded; then every component was stopped and no process ever on record runs; no process off the record is ended, and where every probe answers and every action works the plane is stopped |
| `ServicePlane.Manager.Observe` | setup/qfw_runtime/service_plane.py:930-945 | ready exactly when the component is; otherwise by the last probe: gone when gone, stale when it cannot be told, and starting or not ready when alive; never stopped |
| `ServicePlane.Manager.ObserveAll` | setup/qfw_runtime/service_plane.py:202-219 | every component as it was last seen, and whether all are ready, one is starting, one is stale |
| `ServicePlane.Manager.Status` | setup/qfw_runtime/service_plane.py:196-228 | every component is recorded as it was last seen and the plane as they show together: ready exactly when all planned ones are, else stale, starting or degraded; nothing else of the record changes, and a stopped plane stays as it is |
| `ServicePlane.Manager.Drive` | setup/qfw_runtime/service_plane.py:147-263 | over every sequence of start, status and stop and every environment, a running process is on record, and not as stopped, exactly when it was ever put on record |
| `Pulser.Update` | backends/qfw_pulser/qfw_connection.py:245-274 | one read moves an unfinished job as the answer says: done with its counts, canceled, failed or running; it leaves a finished one unread, and raises exactly when the read of an unfinished one does |
| `Pulser.ReadProgresses` | backends/qfw_pulser/qfw_connection.py:245-274 | a read only moves a job forward and never touches a finished one |
| `Pulser.BatchStatusMeans` | backends/qfw_pulser/qfw_connection.py:302-313 | each batch status, in terms of the jobs' states, both ways |
| `Pulser.StatusMoves` | backends/qfw_pulser/qfw_connection.py:302-313 | when jobs only move forward, so does the batch status, and a final one fixes every job |
| `Pulser.RunMovesForward` | backends/qfw_pulser/qfw_connection.py:151-313 | over states each of which only moves forward, a batch stays on record, its status moves only from pending to running to one final state, and from then on no job changes |
| `Pulser.AcceptedAreNew` | backends/qfw_pulser/qfw_connection.py:153-156 | the accepted jobs have distinct ids, and there are none exactly when the first was refused |
| `Pulser.AcceptedAre` | backends/qfw_pulser/qfw_connection.py:153-156 | the recorded jobs are exactly those accepted, in order when no id is given twice |
| `Pulser.FailedAre` | backends/qfw_pulser/qfw_connection.py:216-234 | the failures reported are exactly the requests that failed or were not heeded |
| `Pulser.UnfinishedAre` | backends/qfw_pulser/qfw_connection.py:197-214 | the jobs asked to cancel are exactly the pending and running ones, in order |
| `Pulser.BatchStatusTold` | backends/qfw_pulser/qfw_connection.py:302-313 | a batch status in terms of the jobs before and what the reads said of them |
| `Pulser.Send` | backends/qfw_pulser/qfw_connection.py:151-160 | jobs are sent up to the first that is not accepted, and exactly those accepted are recorded, as pending |
| `Pulser.ReadJobs` | backends/qfw_pulser/qfw_connection.py:283-288 | every job is read as its answer says, up to and including the first read that raises |
| `Pulser.ReadPast` | backends/qfw_pulser/qfw_connection.py:197-205 | every job is read as its answer says, past reads that raise |
| `Pulser.Connection.constructor` | backends/qfw_pulser/qfw_connection.py:83-116 | a new connection has no batch |
| `Pulser.Connection.Cancel` | backends/qfw_pulser/qfw_connection.py:216-234 | one request per job in order, also after a failure; exactly the refused or failed ones are reported |
| `Pulser.Connection.Submit` | backends/qfw_pulser/qfw_connection.py:151-176 | submitted exactly when every job was accepted; the batch is on record exactly when the first was, with exactly the accepted jobs; the first job not accepted decides what is raised; then one cancel per accepted job is sent and exactly those not heeded are reported; nothing is cancelled otherwise |
| `Pulser.Connection.Query` | backends/qfw_pulser/qfw_connection.py:283-288 | every job is read as its answer says, up to the first read that raises, which is reported; no other batch changes |
| `Pulser.Connection.GetBatchStatus` | backends/qfw_pulser/qfw_connection.py:302-313 | given exactly when the batch is known and no read raises; then each status is what the jobs before and the answers to the reads make it; the jobs are read as by a query |
| `Pulser.Connection.CancelBatch` | backends/qfw_pulser/qfw_connection.py:197-214 | every job is read past failed reads, then exactly those still open are asked to cancel, once and in order, and exactly the requests not heeded are reported |
| `Pulser.FetchOne` | backends/qfw_pulser/qfw_connection.py:290-300 | one job is read and its result given exactly when it is there, can be read and is done, before or by that read |
| `Pulser.FetchEach` | backends/qfw_pulser/qfw_connection.py:290-300 | all results, in order, exactly when every one can be given; the jobs are read in turn up to the first that cannot be given, and no other |
| `Pulser.Connection.FetchResult` | backends/qfw_pulser/qfw_connection.py:290-300 | the results of the wanted jobs, or of all; given exactly when every one is there, can be read and is done, and each is the one recorded or just read for that job; exactly the jobs up to the first that cannot be given are read, and no other batch changes |
| `Pulser.Perform` | backends/qfw_pulser/qfw_connection.py:151-313 | every operation moves the batches only forward; a status is given exactly when the batch is on record and no read raises, and is that of the jobs it leaves |
| `Pulser.Drive` | backends/qfw_pulser/qfw_connection.py:151-313 | over every sequence of operations and whatever the QPM answers: batches stay, jobs and statuses only move forward, every status asked for that can be given is told, and those told of a batch never go back; a final one is told for good |
| `Records.UnboundedIsLatest` | services/svc_lib_qpm/drivers/base_driver.py:84-92 | with no bound a lookup returns the latest put, and the keys behind a cid are those put since |
| `Records.PutKeepsNewest` | services/svc_lib_qpm/drivers/base_driver.py:84-92 | the bounded records keep the newest items of the unbounded ones through every put |
| `Records.LookupIsRecent` | services/svc_lib_qpm/drivers/base_driver.py:71-103 | a lookup returns the latest entry of a cid exactly when it is among the limit most recently put distinct cids |
| `Records.Bounded.constructor` | services/svc_lib_qpm/drivers/base_driver.py:78-82 | new records are the window of the empty history |
| `Records.Bounded.Put` | services/svc_lib_qpm/drivers/base_driver.py:84-92 | assignment, move to the end and eviction keep the records a window of the whole history |
| `Records.Bounded.Get` | services/svc_lib_qpm/drivers/base_driver.py:94-103 | the latest entry of a recent cid; any other lookup fails |
| `Routing.FactoryNamesAreNormal` | services/svc_lib_qpm/svc_qrc.py:17-17 | the names of the two drivers are their own normal form |
| `Routing.RouteIsSound` | services/svc_lib_qpm/frontend.py:97-133 | a call is routed exactly when the named library, or if none is named some library, covers it, and the driver chosen covers it |
| `Routing.RouteIsExact` | services/svc_lib_qpm/frontend.py:97-133 | where every call goes: to the named library if it covers the call, and without a name to the owner, the preferred library or the first listed, the first of these that covers it |
| `Text.StripDropsBlanks` | services/svc_lib_qpm/frontend.py:92-92 | stripping drops blanks at both ends, all of them, and nothing else |
| `Text.LowerIs` | services/svc_lib_qpm/frontend.py:92-92 | lowering replaces each capital letter by its small one and nothing else |
| `Routing.ExecutionStaysWithOwner` | services/svc_lib_qpm/frontend.py:125-126 | a call of the execution family that names no library goes to the owner exactly when the owner covers it |
| `Routing.NamedLookupIsExact` | services/svc_lib_qpm/frontend.py:104-124 | naming the driver that ran a circuit reaches that driver or fails |
| `Routing.OtherNamesCanStray` | services/svc_lib_qpm/frontend.py:89-95 | for every driver name that is not its own normal form there is a resource on which the lookup reaches another driver |
| `Routing.QRC.constructor` | services/svc_lib_qpm/svc_qrc.py:62-75 | a new run queue remembers no circuit |
| `Routing.QRC.Run` | services/svc_lib_qpm/svc_qrc.py:78-97 | the driver remembered for a circuit is the one that runs it; a run that cannot be routed changes nothing |
| `Routing.QRC.TaskLibrary` | services/svc_lib_qpm/svc_qrc.py:99-107 | an explicit library wins; otherwise the one that last ran the circuit, if remembered |
| `Routing.QRC.TaskLookup` | services/svc_lib_qpm/svc_qrc.py:268-274 | a lookup without library for a remembered circuit reaches the driver that ran it or fails, never another; any other is routed as it stands |
| `Resolver.RejectDuplicates` | backends/qfw_qiskit/qpm_resolver.py:511-525 | found exactly when two candidates share a service id that is not absent |
| `Resolver.Resolve` | backends/qfw_qiskit/qpm_resolver.py:262-280 | with ambiguity disallowed a candidate is chosen exactly when it alone has the best rank among those that compete, and ambiguity is reported exactly when none does; each other error exactly for its own reason |
| `Resolver.Outcomes` | backends/qfw_qiskit/qpm_resolver.py:262-280 | the same of the outcome of the checks in their order |
| `Resolver.SelectFromPool` | backends/qfw_qiskit/qpm_resolver.py:483-509 | filtering by provider after the sort is choosing among the provider's eligible candidates |
| `Resolver.ChoiceIsUniqueBest` | backends/qfw_qiskit/qpm_resolver.py:483-563 | with ambiguity disallowed a candidate is chosen exactly when it alone has the best rank among those that compete; the policy errors arise exactly when nothing competes |
| `Resolver.NoSimulatorForHardware` | backends/qfw_qiskit/qpm_resolver.py:527-546 | a hardware request without fallback permission never gets a simulator and fails on policy exactly when there are only simulators |
| `Resolver.DiscoveryOrderIrrelevant` | backends/qfw_qiskit/qpm_resolver.py:483-588 | with ambiguity disallowed the outcome is the same for every permutation of the discovered candidates |
| `Resolver.FirstDiscoveredWins` | backends/qfw_qiskit/qpm_resolver.py:565-570 | where ties are allowed the first discovered of the best rank is chosen |
| `ResolverFields.PolicyIs` | backends/qfw_qiskit/qpm_resolver.py:901-980 | hardware is asked for, a simulator permitted and a candidate a simulator exactly as the fields of request and candidate say |
| `ResolverFields.RankIs` | backends/qfw_qiskit/qpm_resolver.py:565-588 | a candidate ranks before another exactly when its scope comes earlier, an unlisted one last, or the scopes tie and its priority comes first |
| `ResolverFields.DuplicateIs` | backends/qfw_qiskit/qpm_resolver.py:511-525 | a duplicate is found exactly when two candidates carry the same service id |
| `ResolverFields.ResolvesByFields` | backends/qfw_qiskit/qpm_resolver.py:262-588 | the resolution in terms of the fields of the candidates: one is chosen exactly when it may serve the request and beats every other that may on scope and priority; each error exactly for its own reason |
| `ResolverFields.HardwareIsHardware` | backends/qfw_qiskit/qpm_resolver.py:527-546 | a request for hardware that permits no simulator never gets a candidate that says it is one, is of a simulator provider or has the simulator bit in its type, and fails on policy exactly when all are such |
| `ResolverFields.TiesGoToTheFirst` | backends/qfw_qiskit/qpm_resolver.py:483-570 | where a tie is allowed the first discovered of the best that may serve is chosen |
| `Sorting.FilterOfOrdered` | backends/qfw_qiskit/qpm_resolver.py:487-495 | a comprehension over the sorted candidates is the sorted comprehension |
| `Sorting.HeadIsUniqueBest` | backends/qfw_qiskit/qpm_resolver.py:548-556 | the head of the sorted list shares its rank with none exactly when it is the unique best |
| `ReservationSequence.SearchEnds` | services/util/qpm/reservation_sequence.py:25-32 | the search ends exactly when an id is free or one was issued before; on a new counter with every id active it never does |
| `ReservationSequence.Sequence.constructor` | services/util/qpm/reservation_sequence.py:40-55 | opens a stored counter |
| `ReservationSequence.Sequence.Search` | services/util/qpm/reservation_sequence.py:20-34 | the next free id in cyclic order and its distance, none exactly when every id is active |
| `ReservationSequence.Sequence.Allocate` | services/util/qpm/reservation_sequence.py:20-34 | the cyclically next free id after the last one, all ids in between being active; none exactly when every id is active |
| `ReservationSequence.ReissueNeedsWrap` | services/util/qpm/reservation_sequence.py:25-32 | the same id twice means the counter went once round the cycle |
| `ReservationSequence.NoReissueWithinRound` | services/util/qpm/reservation_sequence.py:20-34 | over any run, ids issued within one round are all different |
| `Settings.Process.WriteSettings` | services/svc_lib_qpm/drivers/qrmi_driver.py:576-587 | the loop writes each value and clears each absent one; with distinct keys every setting is left at its resolved value, and no other variable changes |
| `Settings.FoldLeaves` | services/svc_lib_qpm/drivers/qrmi_driver.py:576-587 | with distinct keys no later write disturbs an earlier one |
| `Settings.ResourceReads` | services/svc_lib_qpm/drivers/qrmi_driver.py:895-910 | what the resource reads of a resolved setting is its value |
| `Settings.IbmKeysDiffer` | services/svc_lib_qpm/drivers/qrmi_driver.py:623-715 | the keys the IBM resolver names are distinct |
| `Settings.Process.EnsureSettings` | services/svc_lib_qpm/drivers/qrmi_driver.py:725-730 | writes the settings and succeeds exactly when every required one is then set |
| `Settings.Process.ResourceConfig` | services/svc_lib_qpm/drivers/qrmi_driver.py:895-910 | the map equals what the environment path would leave for the resource to read, and is refused under exactly the same condition |
| `Settings.SinksAgree` | services/svc_lib_qpm/drivers/qrmi_driver.py:895-905 | building the map beside the environment and reading back the written environment give the same settings |
| `Settings.IbmNamesSettings` | services/svc_lib_qpm/drivers/qrmi_driver.py:623-715 | every setting the IBM resolver names is one the resource reads, so the two paths agree on it |
| `Settings.IqmNamesSettings` | services/svc_lib_qpm/drivers/qrmi_driver.py:482-510 | the same of the IQM resolver |
| `Settings.HistoryKeepsSite` | services/svc_lib_qpm/drivers/qrmi_driver.py:576-587 | no history of writes for any resource changes a site-wide variable |
| `Settings.IdentityIgnoresHistory` | services/svc_lib_qpm/drivers/qrmi_driver.py:655-715 | for a credential naming the caller, the IBM endpoint, key, CRN and storage key pair that are resolved do not depend on anything earlier reservations wrote |
| `Settings.HandedIdentityIgnoresHistory` | services/svc_lib_qpm/drivers/qrmi_driver.py:576-715 | and neither does what the resource is handed under those keys, after any history of earlier writes |
| `SettingsSources.DropsTrailingSlashes` | services/svc_lib_qpm/drivers/qrmi_driver.py:469-470 | the base address loses its trailing slashes, all of them, and nothing else |
| `SettingsSources.AccessIs` | services/svc_lib_qpm/drivers/qrmi_driver.py:416-480 | access is resolved exactly unless the configuration is needed and missing; address and key are the first given by the credential, the environment and the configuration |
| `SettingsSources.IbmHands` | services/svc_lib_qpm/drivers/qrmi_driver.py:623-844 | under every key an IBM resource is handed the value due to that field, endpoint, key, CRN, IAM address and each storage field, from its own sources in their own order; it fails exactly for a named caller without access |
| `SettingsSources.IbmHandsTimeout` | services/svc_lib_qpm/drivers/qrmi_driver.py:846-861 | and the job timeout due to it |
| `SettingsSources.IbmNeeds` | services/svc_lib_qpm/drivers/qrmi_driver.py:623-715 | exactly which settings a resource cannot be opened without |
| `SettingsSources.IqmHandsNamed` | services/svc_lib_qpm/drivers/qrmi_driver.py:482-510 | an IQM resource of a caller the credential names is handed what their access gives, and what is held only after that |
| `SettingsSources.IqmHandsOthers` | services/svc_lib_qpm/drivers/qrmi_driver.py:482-510 | and otherwise what is held, and only after that what general access gives, which must then give the pair |

## Left out

- The tiers of gate decomposition, the choice of gate spelling, OpenQASM text and serialisation of `services/util/braket_transcode.py`; the model starts after decomposition.
- Braket.ToBraket: one opaque gate per operation; parameters and device vocabularies are not modelled.
- Names, ids and runtime identities are numbers where only equality and order matter.
- Listeners, recovery threads and event registration of the lifecycle binding; their effect on the shared state is a step of the interleaving.
- The contents of provider errors, logging, telemetry and instrumentation.
- JobRun.RunJob: a rate-limit answer is a given of each call; recognising it in the error text is not modelled.
- Backline.QPM.Reserve: reservations without a classical intent go to the base controller, which is not part of this model; a granted id is taken not to be held by a placement that is still active, and a started executor to be new.
- MatchingTheorems.MatchIsComplete: the order condition is sufficient for any number of wants and necessary for two; with three it is not necessary (`ThreeWantsNeedNoOrder`), and no exact condition is given there.
- `evaluate`, `query` and `get_reservation` of the Backline service, which only read.
- SampleMemory.SampleValue: Python accepts signs and underscores in integer text; keys of a histogram have none.
- RegisterStore.RegistersRecombine: registers are taken to be contiguous sections of the classical bits.
- RegisterStore.PostprocessPub: classified data (measurement level 2) only; assignment into an array follows NumPy's broadcasting rules, register names are distinct, and every circuit returns as many samples as it had shots.
- SamplerRun.Run: the backend is taken to return results in circuit order; collecting them in arrival order in `QFwJob` is not modelled, nor is the all-zero memory of circuits without measurements.
- Estimator.ExpvalWithVariance: real arithmetic, so no rounding; NaN results appear as having no shots.
- Grouping Paulis into commuting sets, transpiling the measurement circuits and averaging with coefficients in the estimator, which are Qiskit's or plain sums.
- ServicePlane.Manager.Start: plan resolution, environment files and the foreground `run` loop are single fallible actions or absent; a component launched but not identified is outside the invariant.
- ServicePlane.Manager.StartOne: the three kinds of component differ only in files and commands and are started alike.
- Pulser.Connection.Query: jobs are values in the batch, so two batches never share a job object; waiting with a timeout, building sequences and listing devices are not modelled.
- Records.Bounded.Put: locking is not modelled; each operation is atomic.
- Routing.RouteIsSound: the default execution owner is given; names are ASCII.
- Resolver.Resolve: querying directories, normalising records, stale generations and reserved connections are not modelled.
- ReservationSequence.Sequence.Allocate: requires that an id is free or one was issued before, since otherwise the source does not return; file locking and atomic replacement are not modelled.
- ReservationSequence.Sequence.Search: requires the same as `Allocate`, whose loop it is.
- Settings.IdentityIgnoresHistory: the IAM endpoint, the object store's address and the job timeout do keep what is already set, and an IQM setting the credential does not supply falls back to the environment.
- Pasqal settings, resource construction and its races with eviction, admission and scheduler adapters, configuration loading and command lines.
