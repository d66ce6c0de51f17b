# Proofs about the in-process fuzzing tools

This project models the parts of the repository that are real protocols, whole-run bookkeeping or
exact arithmetic, and proves what they are for. `dafny verify dfyconfig.toml` checks all of it.

| part | files | what is proved |
|---|---|---|
| native bus trace auditor | `TraceJournal`, `JournalReading`, `Collection`, `Replay`, `SerialRun`, `SerialProof`, `SerialTheorem`, `SecondPass`, `TwoPasses`, `PassesWitness`, `TraceAudit` | a journal says at most one set of records and the reader finds it exactly when there is one; the first pass accepts exactly the strictly serial runs, and each has one reading; the second pass accepts exactly when a short list of further requirements holds; the sweep between them and the closing counts can never fail |
| quarantine and restore | `QuarantineModel`, `QuarantineSafety`, `RestoreSafety`, `QuarantineOutcome`, `QuarantineFates`, `Worktree` | under a crash, a failed move or a failed manifest write at any step, no file is ever lost and a later restore rebuilds the tree byte for byte; which faults make the manifest misstate the tree, exactly |
| AXI4 host link | `LinkModel`, `LinkHistory`, `Adapter`, `LinkSystem`, `LinkAgreement`, `LinkProgress`, `LinkWitness` | flags, counters and order of answers over every run; link and adapter RTL stay in step, nothing is lost or invented, no deadlock; three ways to get stuck, each with its exact condition |
| lanes and RAM | `Ram`, `Lanes`, `BeatService` | a 64-bit beat served as 32-bit words is a lane-masked 8-byte access |
| bus services | `ObiService`, `WishboneService`, `AxiLiteService` | per-tick service of three buses over every run |
| interrupt host loop | `IrqHost`, `IrqCase`, `IrqRun`, `IrqLoop` | what every reported case means, over every run of cases |
| identifier policy | `SourceLexer`, `StripTheorem`, `CommentScanner`, `AliasTaint` | comment stripping keeps literals and is idempotent; both taint loops end at a fixpoint inside their bound |
| clock phases | `PhaseClock`, `Division` | every edge opens one gate |
| address decode | `AddressDecode` | what the mask decoder matches against what the checks compare |
| firmware image | `ProgramImage`, `FirmwareStream`, `FirmwareText`, `Hashes` | layout, printing and loading of a batch; the host and the generator compute the same hash of every window |
| DMA words | `DmaWords` | codec round trips and the feedback rule |
| shared | `Wrappers`, `Sequences` | options, results, increasing sequences |

Code that updates objects, arrays or loop variables is modelled by classes and methods with loops;
each of them is tied by its postcondition to a function of the old state, and the theorems are about
that function.

## What turned out false

Where a property fails for some inputs, a lemma with a concrete one is named beside the exact condition.

- A failed quarantine does not always leave a manifest that matches reality, as
  `scripts/audit_repository.py:20-23` says. If the rollback succeeds and the closing manifest write
  fails, the manifest still calls rolled-back files moved (`QuarantineOutcome.ManifestCanLie`).
  `QuarantineFates.ManifestMatchesIff` gives the exact condition on the faults alone. Restore still
  works from such a manifest (`RestoreSafety.NothingIsEverLost`).
- The first pass of the auditor does not check which transaction a response projection names
  (`PassesWitness.ResponseCanBeForeign`); the second pass does, through sequence numbers and scopes.
  Nor does the first pass imply that a completion's PRE sample comes after its response's POST sample
  in the journal (`PassesWitness.CompletionCanBeEarly`). Both are part of `TwoPasses.Extra`. The two
  inputs are journals of fourteen events; the audit passes the same journal without either fault and
  rejects every faulty one (`PassesWitness.AuditOneRead`).
- Driving the pins again in a low phase in which a late answer was given loses that answer
  (`LinkWitness.LateAnswerCanBeLost`, exactly when: `LinkProgress.DrivingAgainIff`). Raising the
  link's reset while the adapter requests a beat captures a beat that the reset edge takes away, and
  the pair is then stuck (`LinkWitness.ResetCanBeTooEarly`, `LinkProgress.RaisingResetIff`).
- Traffic counters of the link balance only if the last `forget` found no beat outstanding
  (`LinkWitness.ForgetCanUnbalance`, `LinkHistory.TrafficBalancesIff`).
- The AXI4-Lite write response is raised in the tick of the AW/W handshake, not one tick later as the
  comment at `scripts/inprocess_cpu_only_host.cpp:372-374` says (`AxiLiteService.WriteStep`). The model
  follows the code. Section A3.3 of ARM IHI 0022 wants BVALID after both handshakes.
- The CVW collision check compares the base as written; the decoder clears its masked bits first. A
  region with an unaligned base can pass and still answer the reset vector
  (`AddressDecode.UnalignedCollides`, exactly when: `AddressDecode.CollideIff`).
- Nothing checks that the code of a program batch and its data windows lie apart: with the default
  data address 64 programs of eight words overlap the windows (`ProgramImage.DefaultCanOverlap`), and
  so does a single program with its data just below the code (`ProgramImage.DataBelowCanOverlap`).
  `ProgramImage.OverlapIff` gives the exact condition for every aligned data address.

## Model

| member | source | states |
|---|---|---|
| `SerialProof.StepKeeps` | scripts/audit_native_source_completion_evidence.py:948-1166 | each accepted row keeps the whole replay invariant: finished transfers joined and in order, at most one pending, handshakes, offers, used projections and counts |
| `SerialTheorem.AcceptedIsSerial` | scripts/audit_native_source_completion_evidence.py:948-1166 | rows the first pass accepts are a serial run: accept, response, completion exactly one tick later and within 2*max_wait+4 ticks of the accept, handshakes nowhere else, each transfer joined to service and projections, at most one refusal and only last |
| `SerialTheorem.SerialIsAccepted` | scripts/audit_native_source_completion_evidence.py:948-1166 | every serial run is accepted, by a replay that ends with its transfers |
| `SerialTheorem.ReplayIffSerial` | scripts/audit_native_source_completion_evidence.py:948-1166 | acceptance if and only if some transfers make the rows a serial run, and at most one sequence of transfers does |
| `SerialTheorem.CountsAgree` | scripts/audit_native_source_completion_evidence.py:1425-1430 | after acceptance accepted = responses = raw completions = completed + refusals, and refusals is 1 exactly in a terminal audit, so the closing count check is redundant |
| `SerialTheorem.HeldThroughout` | scripts/audit_native_source_completion_evidence.py:948-1040 | the native request stays stable in every sample from the accept to the completion of its transfer |
| `Replay.ReplayRow` | scripts/audit_native_source_completion_evidence.py:948-1156 | one turn of the frame loop, field by field, is the replay step |
| `Replay.ReplayRows` | scripts/audit_native_source_completion_evidence.py:948-1166 | the frame loop accepts if and only if some sequence of states goes through all rows and may close, and returns its last state |
| `Replay.OneReplay` | scripts/audit_native_source_completion_evidence.py:948-1166 | there is only one such sequence |
| `TwoPasses.ResponseIsOwn` | scripts/audit_native_source_completion_evidence.py:1185-1424 | the response projection found for a key lies on the response row of the transfer with that key |
| `TwoPasses.CompletionIsOwn` | scripts/audit_native_source_completion_evidence.py:1185-1424 | the completion projection found for a key lies on the completion row of the transfer with that key |
| `TwoPasses.JoinNeedsExtra` | scripts/audit_native_source_completion_evidence.py:1185-1424 | on a serial run a rebuilt join implies the further requirements and carries its transfer's rows and sequence number |
| `TwoPasses.ExtraGivesJoin` | scripts/audit_native_source_completion_evidence.py:1185-1424 | on a serial run the further requirements are enough to rebuild the join: ordering and next-tick checks of the second pass already follow |
| `TwoPasses.OnePerTransfer` | scripts/audit_native_source_completion_evidence.py:1168-1424 | accepted, response and completion projections are as many as the transfers, less the refused completion |
| `TwoPasses.NothingLeftIff` | scripts/audit_native_source_completion_evidence.py:1380-1424 | the leftover checks pass exactly when no service, acceptance, completion event or fault lacks a transfer |
| `TwoPasses.SecondPassIff` | scripts/audit_native_source_completion_evidence.py:1168-1424 | on a serial run the second pass accepts if and only if the further requirements hold and nothing is left over, and join k is transfer k |
| `TwoPasses.SweepIsRedundant` | scripts/audit_native_source_completion_evidence.py:1157-1181 | the sweep for handshakes without a projection can never fail after the first pass |
| `TwoPasses.JoinsIffExtra` | scripts/audit_native_source_completion_evidence.py:1185-1379 | on a serial run all transfers can be rebuilt if and only if each meets the further requirements, and the joins are then the transfers |
| `PassesWitness.ResponseCanBeForeign` | scripts/audit_native_source_completion_evidence.py:948-1166 | a journal that says a serial run whose response projection names another transaction: the first pass accepts it, the further requirements fail |
| `PassesWitness.CompletionCanBeEarly` | scripts/audit_native_source_completion_evidence.py:948-1166 | a journal that says a serial run whose completion is sampled before its response was: the first pass accepts it, the further requirements fail |
| `PassesWitness.OneReadCanPass` | scripts/audit_native_source_completion_evidence.py:712-1430 | a journal that says an audited run with one transfer |
| `PassesWitness.AuditOneRead` | scripts/audit_native_source_completion_evidence.py:712-1430 | of these journals the audit passes exactly the one without a fault, with its transfer, and reads and rejects every other, whatever transaction is told |
| `SecondPass.RebuildTransfers` | scripts/audit_native_source_completion_evidence.py:1185-1379 | the rebuild loop returns the join of every request in order, or none, and then no list of joins rebuilds the requests |
| `SecondPass.OneJoining` | scripts/audit_native_source_completion_evidence.py:1185-1379 | the requests can be rebuilt in one way only |
| `JournalReading.OneReading` | scripts/audit_native_source_completion_evidence.py:712-946 | a journal says at most one set of records: rows, commands, components, projections, services, acceptances, completion events and indexes |
| `JournalReading.CommandIdsAre` | scripts/audit_native_source_completion_evidence.py:758-765 | the step commands are listed completely, once each and in increasing order, and only one list does that |
| `JournalReading.ReadsIsOk` | scripts/audit_native_source_completion_evidence.py:712-946 | the records a journal says have rows in order, projections on the rows of their handshakes, and exact indexes by transaction |
| `Collection.FileSamples` | scripts/audit_native_source_completion_evidence.py:734-775 | filing succeeds if and only if every sample is numbered and no two of one phase share a command; then all are filed, in journal order |
| `Collection.PairSamples` | scripts/audit_native_source_completion_evidence.py:734-822 | pairing succeeds if and only if the journal says rows: one per step command, in order, with its two samples and that command as producer, no sample left over, and one terminal row behind the failure when a refusal is allowed; the rows found are those |
| `Collection.BindViews` | scripts/audit_native_source_completion_evidence.py:868-946 | binding succeeds if and only if every projection shows the handshake of a row and no two of a kind share a row or a transaction; then the projections found are the journal's, no more and no fewer, indexed by transaction |
| `Collection.IndexServices` | scripts/audit_native_source_completion_evidence.py:824-867 | indexing succeeds if and only if services and acceptances may stand where they do, no two share a transaction, and the poisoned writes are as many as allowed; then what is indexed is each event's own record, no more and no fewer |
| `TraceAudit.AuditIff` | scripts/audit_native_source_completion_evidence.py:948-1430 | both passes accept if and only if some transfers and joins make the records an audited run |
| `TraceAudit.Judge` | scripts/audit_native_source_completion_evidence.py:948-1430 | replay, sweep and rebuild together return exactly that verdict, with the transfers and joins |
| `TraceAudit.RawTransactionAudit` | scripts/audit_native_source_completion_evidence.py:712-1430 | a journal is unreadable if and only if it says no records; otherwise it is judged on the records it says, and passes if and only if some transfers and joins make them an audited run |
| `QuarantineSafety.MovedOnly` | scripts/audit_repository.py:524-533 | a rename between a file's two places keeps the tree and flips that file's place only |
| `QuarantineSafety.RollBackSafe` | scripts/audit_repository.py:536-554 | a rollback under any faults keeps the tree safe |
| `QuarantineSafety.QuarantineSafe` | scripts/audit_repository.py:466-554 | after a quarantine under any faults every selected file is at exactly one of its places with its bytes, nothing else changed, and every entry not at home is recoverable from the manifest on disk |
| `RestoreSafety.RuleIs` | scripts/audit_repository.py:580-621 | on a safe disk no entry is refused, and an entry is moved exactly when its file is in the store |
| `RestoreSafety.RestoreSafe` | scripts/audit_repository.py:557-647 | a restore under any faults keeps the tree safe, and one that finishes leaves the original tree |
| `RestoreSafety.RestoreFinishes` | scripts/audit_repository.py:557-647 | without a fault a restore of a safe disk finishes |
| `RestoreSafety.NothingIsEverLost` | scripts/audit_repository.py:433-647 | quarantine under any faults, then any number of restores under any faults, then one without: the files are byte for byte what they were, and no selected file was ever at both or neither of its places |
| `RestoreSafety.RefusalTouchesNothing` | scripts/audit_repository.py:580-621 | a restore with one entry that fails validation moves nothing and leaves the manifest as it was |
| `RestoreSafety.RestoredStays` | scripts/audit_repository.py:557-647 | once the tree is back a further restore changes no file |
| `QuarantineOutcome.AllOrNothing` | scripts/audit_repository.py:503-554 | a quarantine that does not crash and leaves no rollback failure has stored every file or none |
| `QuarantineOutcome.ManifestTruthfulIff` | scripts/audit_repository.py:503-554 | the manifest left behind matches the disk if and only if the closing write succeeded, or nothing failed, or the files still in the store are those it lists as moved |
| `QuarantineFates.ManifestMatchesIff` | scripts/audit_repository.py:503-554 | for every selected quarantine that does not crash, over the faults alone: the manifest matches the tree unless some first turn fails, the closing write fails too, and the rollback does not happen to fail for exactly the entries that turn left listed as moved |
| `QuarantineOutcome.ManifestCanLie` | scripts/audit_repository.py:17-23 | two cache files, a failed second move and a failed closing write leave a manifest that calls a file moved that is back home |
| `Worktree.Tree.Move` | scripts/audit_repository.py:524-526 | one rename: moved, failed or crashed, and nothing else changes |
| `Worktree.Tree.Write` | scripts/audit_repository.py:433-449 | a manifest write through a temporary file: the old or the new manifest, never a part |
| `Worktree.Tree.QuarantineBatch` | scripts/audit_repository.py:466-554 | checks, moves, manifest rewrites and rollback on the tree's own fields are the quarantine step by step |
| `Worktree.Tree.RestoreBatch` | scripts/audit_repository.py:557-647 | validation and moves back on the tree's own fields are the restore step by step |
| `LinkWitness.LateAnswerCanBeLost` | scripts/inprocess_axi4_host.h:377-421 | a run after which a late answer is driven again and lost |
| `LinkWitness.ResetCanBeTooEarly` | scripts/inprocess_axi4_host.h:355-375 | a run after which reset is raised during a request and the pair is no longer in step |
| `LinkWitness.ForgetCanUnbalance` | scripts/inprocess_axi4_host.h:632-642 | a run whose counters no longer balance because a beat was outstanding at a forget |
| `LinkModel.CpuLink.Begin` | scripts/inprocess_axi4_host.h:543-568 | the low phase: sampled facts, capture, counters and an installed service's answer |
| `LinkModel.CpuLink.End` | scripts/inprocess_axi4_host.h:570-606 | the rising edge: commit of a kept answer, or consumption of a driven one, and the end of a response phase |
| `LinkModel.CpuLink.BeatResponse` | scripts/inprocess_axi4_host.h:614-630 | an answer is kept back before the accepting edge, driven after it, and ignored when nothing waits |
| `LinkModel.CpuLink.Reset` | scripts/inprocess_axi4_host.h:355-375 | raising reset clears every flag of a beat and keeps counters and ticks |
| `LinkModel.CpuLink.ForgetCounts` | scripts/inprocess_axi4_host.h:632-642 | counters, observation and response phase are cleared, a beat in flight is not |
| `LinkHistory.EveryRunIsGood` | scripts/inprocess_axi4_host.h:355-375 | over every legal run at most one of waiting, answered and pending holds, the k-th consumed answer is the k-th given and has the direction of the k-th beat not dropped, and every counter is what the log says |
| `LinkHistory.TrafficBalancesIff` | scripts/inprocess_axi4_host.h:543-642 | requests = responses + in flight + dropped if and only if the last forget found no beat outstanding |
| `LinkAgreement.OnFaceEdge` | src/myfuzz/protocols/rtl/axi4_processor_memory_adapter.sv:306-331 | request and response states move exactly on req_ready and rsp_valid, and a latched answer is then owed to the CPU |
| `LinkAgreement.CollectIsAside` | src/myfuzz/protocols/rtl/axi4_processor_memory_adapter.sv:228-291 | taking write halves or a read address never enters a response state and never owes an answer |
| `LinkAgreement.RiseReturns` | src/myfuzz/protocols/rtl/axi4_processor_memory_adapter.sv:227-390 | each B or R handshake returns the oldest latched answer with its data and response code |
| `LinkAgreement.EveryRunIsSynced` | scripts/inprocess_axi4_host.h:39-48 | link and adapter agree after every allowed sequence of moves: a beat is in flight exactly when the adapter waits for its answer, in the same direction |
| `LinkProgress.NothingLostOrInvented` | scripts/inprocess_axi4_host.h:543-606 | beats captured are beats accepted, answers consumed are answers latched, and the CPU gets each back once, in order |
| `LinkProgress.AcceptingEdge` | scripts/inprocess_axi4_host.h:411-421 | at an accepting edge req_ready is high and rsp_valid low even if the pins were driven again, and the adapter reaches its response state |
| `LinkProgress.PendingIsConsumed` | scripts/inprocess_axi4_host.h:584-600 | a driven answer is consumed by the next tick's edge whatever the CPU does |
| `LinkProgress.NoDeadlock` | scripts/inprocess_axi4_host.h:39-48 | with an answering caller every requested beat reaches the CPU's side in two ticks and every captured one in the tick after its answer, from every reachable state |
| `LinkProgress.StuckForever` | scripts/inprocess_axi4_host.h:44-48 | a stuck pair captures and consumes nothing until reset is raised |
| `LinkProgress.DroppingReadyDeadlocks` | scripts/inprocess_axi4_host.h:43-48 | taking req_ready back in the capture phase leads to a stuck pair, answered or not |
| `LinkProgress.DrivingAgainIff` | scripts/inprocess_axi4_host.h:377-421 | driving the pins again before the edge is harmless if and only if no late answer was given in that low phase |
| `LinkProgress.RaisingResetIff` | scripts/inprocess_axi4_host.h:355-375 | raising reset keeps the pair in step if and only if the adapter requests nothing |
| `Ram.Memory.Read` | scripts/inprocess_memory.h:21-26 | an aligned word in bounds has the RAM's four bytes, lowest first; any other access is refused |
| `Ram.Memory.Write` | scripts/inprocess_memory.h:27-30 | an aligned word in bounds changes its selected bytes and no others; any other access is refused and changes nothing |
| `Lanes.JoinBeatRead` | scripts/inprocess_axi4_host.h:299-302 | each half of the joined value is one of the words |
| `Lanes.WordsAreLanes` | scripts/inprocess_axi4_host.h:644-672 | the words of a write beat, written in order, are a lane-masked write of its 8-byte line |
| `BeatService.SplitLies` | scripts/inprocess_axi4_host.h:644-672 | a beat has one word per half with a selected lane, both for a read without lanes, the low one first |
| `BeatService.ServeWrite` | tests/native/inprocess_axi4_unified_probe.cpp:89-99 | a write succeeds if and only if every touched half is in bounds, and is then the masked write; otherwise only an in-bounds low half was written |
| `BeatService.ServeRead` | tests/native/inprocess_axi4_unified_probe.cpp:100-111 | a read succeeds if and only if every touched half is in bounds, touched halves hold the RAM's bytes, others are zero |
| `BeatService.SelectedIsTouched` | scripts/inprocess_axi4_host.h:644-672 | every selected lane lies in a half that is read |
| `ObiService.TickIs` | scripts/inprocess_cpu_only_host.cpp:283-340 | from an even boundary a tick fails exactly on a granted access out of bounds and otherwise ends even, with stores, data and counts as granted |
| `ObiService.EvenThroughout` | scripts/inprocess_cpu_only_host.cpp:421-438 | pending equals deliver on both channels at every boundary of every run |
| `ObiService.ResponseIffGrant` | scripts/inprocess_cpu_only_host.cpp:283-438 | rvalid at t+1 exactly for a grant at t (or a fault pulse), never two grants in a row, and data is the RAM after tick t's store |
| `ObiService.Bench.Step` | scripts/inprocess_cpu_only_host.cpp:268-281 | drive and settle on the bench's own fields are one tick |
| `WishboneService.OncePerStretch` | scripts/inprocess_cpu_only_host.cpp:341-370 | a stretch of active ticks accesses the RAM in its first tick only and is acknowledged in its second only |
| `WishboneService.StoresAreStretches` | scripts/inprocess_cpu_only_host.cpp:341-370 | stores are exactly the stretches that start as writes, so none is repeated |
| `WishboneService.Bench.DriveBus` | scripts/inprocess_cpu_only_host.cpp:341-370 | the bench's own fields make that tick and that acknowledge |
| `AxiLiteService.ReadAnswer` | scripts/inprocess_cpu_only_host.cpp:371-412 | RVALID comes exactly one tick after an address and stays with the same data until RREADY |
| `AxiLiteService.ReadsBalance` | scripts/inprocess_cpu_only_host.cpp:376-391 | accepted addresses = R handshakes + the one waiting |
| `AxiLiteService.WriteStep` | scripts/inprocess_cpu_only_host.cpp:376-413 | exactly a pair handshaken together is stored, in that tick and with BVALID in that tick |
| `AxiLiteService.WritesBalance` | scripts/inprocess_cpu_only_host.cpp:392-413 | pairs taken = stores = B handshakes + the one waiting |
| `AxiLiteService.HalfHeldIff` | scripts/inprocess_cpu_only_host.cpp:376-408 | half a write is held if and only if some earlier tick took one channel alone |
| `AxiLiteService.HalfHeldForever` | scripts/inprocess_cpu_only_host.cpp:376-408 | from then on no channel is ready, no byte changes and BVALID never comes |
| `AxiLiteService.PairsNeverStick` | scripts/inprocess_cpu_only_host.cpp:376-408 | a master that always shows address and data together finds both channels ready whenever no response is owed |
| `AxiLiteService.Bench.Step` | scripts/inprocess_cpu_only_host.cpp:371-444 | the bench's own fields make that tick |
| `IrqCase.IrqStepOk` | scripts/inprocess_obi_apb_irq_spike.cpp:92-109 | every take has a rising source edge of its case at most the pulse width before it, and the counters match the edges and takes |
| `IrqCase.DataStepOk` | scripts/inprocess_obi_apb_irq_spike.cpp:112-136 | every tick keeps: target writes are a prefix of the trigger list with the installed values, results stored are values read, dat.valid and mmio.busy never together, a pending result is the response in flight, and the last result is still in memory |
| `IrqRun.EveryReportedCase` | scripts/inprocess_obi_apb_irq_spike.cpp:76-150 | every reported case of every run wrote exactly the triggers in order, read the target once, stored that value and saw its own store answered, and took one interrupt within the pulse width of a source of the same case |
| `IrqRun.RedundantTests` | scripts/inprocess_obi_apb_irq_spike.cpp:137-141 | over every run, irqs >= 1 follows from takes == 1 at the end of a case, and the result in memory equals the value read whenever there was one read |
| `IrqLoop.Host.Step` | scripts/inprocess_obi_apb_irq_spike.cpp:76-150 | one turn of the loop on the host's own fields fails, goes on or stops exactly as specified, with that state |
| `IrqLoop.Host.InstallRecord` | scripts/inprocess_obi_apb_irq_spike.cpp:56-73 | the record's words and then the flag are written to the mailbox |
| `IrqLoop.Execute` | scripts/inprocess_obi_apb_irq_spike.cpp:76-154 | the loop succeeds exactly when the run finishes by itself within its ticks |
| `StripTheorem.StripIs` | scripts/check_identifier_policy.py:967-1014 | stripping keeps length, newlines and every character outside comments, and leaves spaces for the rest |
| `StripTheorem.NoNewRaw` | scripts/check_identifier_policy.py:921-934 | blanking comments never makes a raw string start anywhere |
| `StripTheorem.LiteralsSurvive` | scripts/check_identifier_policy.py:950-1014 | the literals skipped in any text are exactly the spans found in its stripped form, in order and disjoint |
| `StripTheorem.StripIsIdempotent` | scripts/check_identifier_policy.py:967-1014 | stripping twice is stripping once, on every text |
| `CommentScanner.StripComments` | scripts/check_identifier_policy.py:967-1014 | the four-state loop over the character list computes that stripped text |
| `CommentScanner.QuotedEnd` | scripts/check_identifier_policy.py:937-947 | the loop finds the end of a quoted literal, past escapes |
| `CommentScanner.StringSpans` | scripts/check_identifier_policy.py:950-964 | the loop returns the literal spans, in order, disjoint and inside the text |
| `AliasTaint.IdentifierNames` | scripts/check_identifier_policy.py:1071-1082 | the alias loop returns the least set that contains the seeds and is closed under the assignments; its bound is always enough |
| `AliasTaint.OrderIsIrrelevant` | scripts/check_identifier_policy.py:1050-1082 | lists with the same assignments in any order and number give the same names |
| `AliasTaint.CountBounds` | scripts/check_identifier_policy.py:845-849 | there are at most parameter_count parameters to taint |
| `AliasTaint.ScanPython` | scripts/check_identifier_policy.py:845-863 | the taint loop always returns inside its bound, with violations at a set that a further visit does not extend, and the least one if taint is monotone |
| `PhaseClock.RiseIs` | scripts/inprocess_phase_clock.h:46-53 | a clock rises exactly at the odd multiples of its half period |
| `PhaseClock.SampleGates` | scripts/inprocess_phase_clock.h:68-77 | the trace gate is open exactly when an edge lies in the window |
| `PhaseClock.TraceTicksAreEdges` | scripts/inprocess_phase_clock.h:68-77 | for half >= c >= 1 the open ticks among the first n are floor((2cn+half)/(2half)), the number of edges in steps 1..2cn |
| `PhaseClock.FastClockEveryTick` | scripts/inprocess_phase_clock.h:16-19 | a clock at least as fast as the reference has an edge in every tick |
| `PhaseClock.TraceOncePerPeriod` | scripts/inprocess_phase_clock.h:40-43 | at c = 1 the trace gate opens once in any half consecutive ticks |
| `PhaseClock.ProbeOncePerPeriod` | scripts/inprocess_phase_clock.h:35-43 | at c = 1 the probe gate opens once in any half consecutive ticks |
| `AddressDecode.MatchIs` | scripts/derive_cvw_config.py:117-121 | the decoder matches exactly the addresses from the base with its masked bits cleared to base or mask |
| `AddressDecode.EnabledRegions` | scripts/derive_cvw_config.py:100-122 | the regions found are those enabled with both values, in order, and the configuration is refused if and only if one of them has a mask that is no thermometer code |
| `AddressDecode.CheckRegions` | scripts/derive_cvw_config.py:139-167 | the checks pass exactly when the region fits, no other interval meets it and the first region with the reset vector is the external one |
| `AddressDecode.CollideIff` | scripts/derive_cvw_config.py:142-148 | a region that passes collides in the decoder if and only if clearing its masked bits reaches back into the external region; never with an aligned base |
| `AddressDecode.ChecksAreEnough` | scripts/derive_cvw_config.py:142-167 | with aligned bases no address selects the external region and another, and the reset vector selects the external one alone |
| `AddressDecode.UnalignedCollides` | scripts/derive_cvw_config.py:142-167 | a region with an unaligned base that passes and answers the reset vector |
| `AddressDecode.ExtMemIsAligned` | scripts/derive_cvw_config.py:80-91 | the external region in use is a thermometer region with an aligned base |
| `ProgramImage.HiLoRebuilds` | scripts/inprocess_cpu_only.py:914-917 | LUI and ADDI rebuild every 32-bit address from immediates in range |
| `ProgramImage.LaidIs` | scripts/inprocess_cpu_only.py:1027-1037 | blocks that lie apart are all in the image word for word, and nothing else is |
| `ProgramImage.BlocksApart` | scripts/inprocess_cpu_only.py:985-1076 | slots, windows with their completion words and the halt word are pairwise disjoint when no window meets the code |
| `ProgramImage.OverlapIff` | scripts/inprocess_cpu_only.py:976-1082 | for every aligned data address, some word of the code lies on a word of a data window if and only if some window meets the one stretch of the code |
| `ProgramImage.DataAboveIff` | scripts/inprocess_cpu_only.py:976-1082 | for data at or above the code, no window meets the code if and only if the code with its halt word ends before the first window |
| `ProgramImage.DefaultCanOverlap` | scripts/inprocess_cpu_only.py:976-1082 | with the default data address, 64 programs of eight words overlap the windows |
| `ProgramImage.DataBelowCanOverlap` | scripts/inprocess_cpu_only.py:229-232 | one case, with data just below the code, is accepted and overlaps |
| `ProgramImage.ProgramBatch` | scripts/inprocess_cpu_only.py:985-1076 | the batch loop writes exactly the slots, windows and halt word in order |
| `FirmwareStream.HexRoundTrip` | scripts/inprocess_cpu_only.py:1083-1084 | a printed address reads back as itself |
| `FirmwareStream.RowsReadBack` | scripts/inprocess_memory.h:31-41 | printed rows are read back as they are whatever follows, and what follows is read by itself |
| `FirmwareStream.TextRoundTrip` | scripts/inprocess_memory.h:31-41 | a printed file of 64-bit addresses is read back line by line |
| `FirmwareStream.RestIsLost` | scripts/inprocess_memory.h:34 | a line that begins with no address ends the reading without an error, and every row behind it is lost |
| `FirmwareText.ImageRoundTrip` | scripts/inprocess_memory.h:31-41 | the text of an image that fits the RAM is loaded completely and every word reads back, in any printing order |
| `FirmwareText.Load` | scripts/inprocess_memory.h:31-41 | for every text, the loader copies the lines the stream reads one by one; it fails if and only if one of them is out of bounds, odd, or has a pair of characters that is no byte to the C library |
| `FirmwareText.WindowHash` | scripts/inprocess_cpu_only_host.cpp:102-129 | the host's window hash is the FNV-1a hash of the words the window holds, and fails exactly when one of them is out of bounds |
| `Hashes.PyFnv32` | scripts/inprocess_cpu_only.py:940-947 | the generator's nested loops compute the fold of its masked step over all bytes |
| `Hashes.HashesAgree` | scripts/inprocess_cpu_only.py:940-947 | the generator's masked products and the host's wrapping 32-bit products give the same number on every list of words |
| `FirmwareText.CaseHashesAgree` | scripts/inprocess_cpu_only.py:1039-1056 | for every case of a batch that fits, the host's hashes of its program and of its data window are the numbers the generator computes from the words |
| `FirmwareText.BatchReachesHost` | scripts/inprocess_cpu_only.py:976-1084 | when no window meets the code and the image fits, after printing and loading the RAM holds every case's slot and data window |
| `DmaWords.EncodeThenDecode` | scripts/inprocess_feedback.py:165-182 | exactly four distinct 11-bit words are encoded, and decoding gives them back |
| `DmaWords.DecodeThenEncode` | scripts/inprocess_feedback.py:165-182 | every input that decodes gives legal words, which encode to it again |
| `DmaWords.DeriveWords` | scripts/inprocess_feedback.py:185-198 | the derivation ends and gives four legal words, each the first free value from its target on, exactly for four words in range |
| `DmaWords.Feedback.Note` | scripts/inprocess_feedback.py:253-279 | a case report closes the current case exactly when its number fits and four words were written |
| `DmaWords.Feedback.Raw` | scripts/inprocess_feedback.py:281-290 | every record submitted is a legal encoding: the seed, or the words derived from the last report |

## Left out

- Collection.BindViews: the long list of field equalities between a projection and its raw frame is one `ViewFits` test.
- TraceAudit.RawTransactionAudit: the events are already typed; refusals of malformed rows before that are left out.
- Identity, provenance, branch and terminal-receipt checks of the native auditor, hashing, gzip and JSON reading: field comparisons and operating-system behaviour without protocol state.
- Symlink checks, directory creation and git queries of the repository audit: they appear as inputs (which paths are eligible, tracked or cacheable), and a digest is an injective function of the bytes.
- Other writers to the tree during a quarantine or restore: the source does not defend against them.
- LinkProgress.NoDeadlock: assumes that the low phase has settled; the three-pass settling of combinational paths between the two models is not modelled.
- LinkModel.CpuLink.Begin: keeps of the sampled AXI channels only whether B or R handshakes; channel counts, last beats, identities and the probe adapter are left out.
- LinkAgreement.RiseReturns: transaction ids and sideband signals are left out of the adapter.
- FirmwareText.Load: the missing file is left out, and so are stream settings other than the C locale's; what a failed load has written so far is not stated.
- FirmwareText.ImageRoundTrip: requires that the RAM lies in 64-bit addresses; its base and size have 32 bits in the source.
- Hashes.PyFnv32: Python's integers are 64-bit vectors here, which is exact because every product is below 2^57 before it is masked.
- ProgramImage.ProgramBatch: program generation, the instruction encoder and the reference model are parameters.
- PhaseClock.TraceTicksAreEdges: steps are unbounded; wrap-around of the 32-bit step counter is not modelled.
- AliasTaint.ScanPython: which expressions count as tainted, and the violations, are functions of the known set; the visitor's rules and regular expressions are left out.
- AliasTaint.IdentifierNames: an assignment's value is the set of words in it; the regular expressions that find assignments are left out.
- ObiService.Bench.Step: retirement sampling and the Verilated model behind the pins are inputs or left out; so are they for the other two buses.
- IrqLoop.Execute: reset sequencing, console output and parsing of the record line are left out; a record is its list of values.
- DmaWords.Feedback.Raw: the log of derivations kept for the report is left out.
- Compilation, child processes, report writing and the remaining command-line scripts.
