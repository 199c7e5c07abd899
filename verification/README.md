# Harness runtime: receipts, claims and reconcilers

A Dafny model of the parts of the harness runtime that keep state on disk, and proofs of what that
state can and cannot become. `dafny verify dfyconfig.toml` checks all of it.

| area | modules |
|---|---|
| capability claims (`capability_transport.py`) | `ClaimRecords` (documents and judges), `ClaimStore` (one call, the claims directory), `ClaimProtocol` (any number of processes, step by step) |
| execution receipts (`runtime.py`) | `RuntimeRecords` (documents), `Receipts` (files of a case, readback), `ReceiptProperties` (round trip, retention), `ReceiptState` (the state directory as a class), `JournalProtocol` (any number of runs and readbacks on one case, file step by file step), `JournalReads` (what split readbacks answer), `JournalBytes` (whose bytes they return), `JournalAlone` (one run left alone), `PairedReadback` |
| paired pipeline (`runtime.py`, `l3_ac14_evaluator.py`) | `Pipeline` |
| lifecycle receipts and intake (`ingress.py`) | `Lifecycle`, `Intake`, `Ingress` |
| cohort and admission compilers (`l3_cohort_snapshot.py`, `l3_adaptation.py`) | `Ordering`, `Cohort`, `CohortProperties`, `WriteScopes`, `Admission` |
| reconcilers (`project_enrollment.py`, `project_binding.py`) | `Enrollment`, `Binding` |
| shared | `Wrappers`, `Json` |

## How the model is built

- Digests are function parameters and are never assumed to be injective. A result that rests on a digest
  says "equal, or here are two different documents with one digest", and both are documents that the code
  has seen (`Lifecycle.ChainCommits`, `Intake.IngressIntake.Evaluate`, `ClaimStore.KeyNamesOneClaim`).
- Encoders come with one law only, and only where a result needs it: the document that this result is
  about, once written, parses back (`ReadsBack` in `Binding`, `Admission` and `Pipeline`). Clocks are
  integers; directories are maps; journals are sequences.
- An object that the code updates in place is a class whose methods are proved against functions of the
  old state (`ClaimDirectory`, `ReceiptDirectory`, `ExecutionReceipts`, `IngressIntake`, `Host`,
  `Project`). Outcomes of I/O, Git, subprocesses and clocks are parameters, so every contract holds for
  all of them.
- Concurrency is a state machine: `Next` takes one step of one process, a run is any sequence of events,
  an event that does not fit changes nothing, and a process that stops is one that no later event names.
  `ClaimProtocol.AloneIsTheCall`, `JournalAlone.AloneIsTheRun` and `JournalReads.AloneIsTheReadback` show
  that a process left alone does exactly what the sequential model says.

## What is not as one might expect

Each point is proved, with the exact condition where there is one.

- A run of `execute` that is stopped between its journal line and its projection leaves a case that
  `execute` accepts again, but every retry then fails its own readback. The round trip holds exactly when
  the journal had no line before (`ReceiptProperties.RunPassesItsReadback`, `RetryAfterOrphanFails`).
- A constructed observation is accepted by the evaluator exactly when the pair plan names this very
  evaluator and contract; the constructor itself does not check that (`Pipeline.PipelineComposes`).
- The membership digest ignores the order of the records exactly when no two members tie on the sort
  key with one slug missing and the other empty
  (`CohortProperties.DigestIgnoresOrderExactlyWithoutAmbiguousTies`).
- At-most-once delivery needs the hypothesis that nobody resets the claim file from outside
  (`ClaimProtocol.ResetAllowsSecondDelivery`).
- The intake's answer is the uncached one exactly when the ref agrees on the boundary check with the ref
  whose verdict is cached, or the root is no directory. Refs built by `bind_cwd` always agree
  (`Intake.EvaluateBound`); others need not, and then the second of two calls repeats the first answer
  (`Intake.ForeignRefGetsTheOtherAnswer`).
- Concurrent runs on one unused case share its artifact files. A case is accepted only as the lines of one
  whole run, but its bytes may be another run's: exactly when what lay in a slot at the run's digest does
  not measure as its own (`JournalBytes.RecordedBytesAreOwnExactly`, `JournalBytes.RaceIsAccepted`).
- After expiry, metadata stays readable exactly while nothing foreign lies in the artifacts directory
  (`ReceiptProperties.MetadataSurvives`).
- `paired_readback` never returns a result: its completeness check cannot fire, and what follows it always
  raises (`PairedReadback.ReadPair`).
- A ready event without an intent raises after its receipt was advanced; that receipt is never pruned, and
  the event can never be started again (`Ingress.UnfinishedBlocksEveryStart`).
- `apply_binding` repairs contents, not modes (`Binding.ModesAreDesiredExactly`).

## Model

| member | source | states |
|---|---|---|
| ClaimRecords.OwnSealIsAccepted | runtime/harness_runtime/capability_transport.py:367-430 | a claim the code seals passes its own seal check, for every request and expiry text |
| ClaimRecords.SealIsAcceptedExactlyWhenIntact | runtime/harness_runtime/capability_transport.py:400-430 | the seal check accepts a claim exactly when its receipt and all seven sealed fields agree with some seal of this request |
| ClaimRecords.RepairTerminalIsAccepted | runtime/harness_runtime/capability_transport.py:454-515 | every repair terminal with a known reason is a valid terminal |
| ClaimRecords.DeliveredTerminalIsAccepted | runtime/harness_runtime/capability_transport.py:433-515 | the terminal of every possible delivery outcome is a valid terminal, and says delivered exactly for return code 0 |
| ClaimRecords.TerminalBelongsToOneRequest | runtime/harness_runtime/capability_transport.py:472-515 | a terminal valid for one request is valid for another exactly when ref, host, project and operation are the same |
| ClaimStore.Admit | runtime/harness_runtime/capability_transport.py:528-541 | a call goes on only with a bounded request that repeats the caller's own ref and host context |
| ClaimStore.KeyNamesOneClaim | runtime/harness_runtime/capability_transport.py:211-218 | two requests share a claim file exactly when they agree on ref, project and host context, or their key documents collide |
| ClaimStore.InterruptedDeliveryIsRepaired | runtime/harness_runtime/capability_transport.py:617-632 | a claim left sealed by an interrupted call is never delivered again: it is reported unresolved before its expiry and expired from then on |
| ClaimStore.SettledCallIsRepeated | runtime/harness_runtime/capability_transport.py:576-690 | after a call that persisted its answer, any later call on the file delivers nothing, writes nothing and gives the same answer |
| ClaimStore.ClaimDirectory.AtomicWrite | runtime/harness_runtime/capability_transport.py:245-291 | written, failed before the rename or failed after it, exactly as the temporaries and the fault decide; no temporary survives and no other file changes |
| ClaimStore.ClaimDirectory.ConsumeCapability | runtime/harness_runtime/capability_transport.py:528-703 | the whole effect of one call: early repairs and unavailable state change nothing, otherwise only the caller's own claim file changes and as specified |
| ClaimStore.ClaimDirectory.ResolveClaim | runtime/harness_runtime/capability_transport.py:576-690 | under the lock: answer, repair or seal-and-deliver, with the directory as the specification says |
| ClaimStore.ClaimDirectory.SealAndDeliver | runtime/harness_runtime/capability_transport.py:643-690 | the seal is written before the delivery and the terminal after it; a failed seal delivers nothing |
| ClaimProtocol.NextIsSafe | runtime/harness_runtime/capability_transport.py:576-690 | every step keeps mutual exclusion, at most one delivery, and a claim that is not deliverable once a delivery happened |
| ClaimProtocol.AtMostOneDelivery | runtime/harness_runtime/capability_transport.py:576-690 | in every interleaving of any number of callers, with crashes and write faults anywhere, the consumer is invoked at most once per key if nobody outside resets the file |
| ClaimProtocol.ResetAllowsSecondDelivery | runtime/harness_runtime/capability_transport.py:633-645 | with one outside reset between two calls there is a run with two deliveries |
| ClaimProtocol.NextAgrees | runtime/harness_runtime/capability_transport.py:576-690 | every step keeps the agreement of pending documents and returned results with the file, and never touches an accepted terminal |
| ClaimProtocol.AllRepliesAgree | runtime/harness_runtime/capability_transport.py:576-690 | under one valid binding all persisted answers of a run, from any claim file, are one answer and it is the one on disk |
| ClaimProtocol.TerminalIsPermanent | runtime/harness_runtime/capability_transport.py:598-607 | once an accepted terminal is on disk no later event of the run changes the file |
| ClaimProtocol.EveryDeliveryIsSealed | runtime/harness_runtime/capability_transport.py:643-658 | for any callers with any requests and bindings, and from any claim file, whenever the consumer is invoked the disk holds the invoking process's own claim, and the seal check accepts it for its request |
| ClaimProtocol.AloneIsTheCall | runtime/harness_runtime/capability_transport.py:576-703 | the interleaved steps of one undisturbed process have exactly the effect of the sequential call |
| Lifecycle.ChainCommits | runtime/harness_runtime/ingress.py:384-427 | two accepted chains with one final hash are equal, or two of their entry bodies collide |
| Lifecycle.AppendKeepsTheChain | runtime/harness_runtime/ingress.py:411-427 | appending keeps all earlier entries as a prefix, adds one stage, and leaves a receipt that the reader accepts |
| Lifecycle.ExecutionReceipts.Read | runtime/harness_runtime/ingress.py:384-409 | succeeds exactly on well-formed chains of the asked id, and on finished lifecycles only when asked for one |
| Lifecycle.ExecutionReceipts.Transition | runtime/harness_runtime/ingress.py:380-382 | appends exactly one entry to a readable receipt; on an unreadable one it fails and changes nothing |
| Lifecycle.ExecutionReceipts.PruneTerminal | runtime/harness_runtime/ingress.py:349-370 | removes exactly the receipts whose last entry is an old enough terminal one, and counts them |
| Lifecycle.ExecutionReceipts.PruneTerminalIfDue | runtime/harness_runtime/ingress.py:372-378 | prunes with the default retention, at most once per interval |
| Lifecycle.ExecutionReceipts.Start | runtime/harness_runtime/ingress.py:339-347 | after the due prune, creates the receipt exactly when none is there, and leaves a damaged file when cut short |
| Lifecycle.ReplayWindow | runtime/harness_runtime/ingress.py:339-382 | over any run with a clock that never goes back, two starts of one id are separated by a prune at least the retention period after that receipt's terminal entry |
| Lifecycle.UnfinishedIsKept | runtime/harness_runtime/ingress.py:349-370 | while its last stage is not terminal a receipt is never removed or restarted, only extended |
| Intake.VerdictFollowsResolvedRoot | runtime/harness_runtime/ingress.py:220-249 | for refs built by `bind_cwd` the binding verdict depends on nothing but the cache key's root and the content |
| Intake.VerdictsAgreeExactly | runtime/harness_runtime/ingress.py:220-249 | two refs with one resolved root get the same verdict on a manifest exactly when they agree on the boundary check or the root is no directory |
| Intake.IngressIntake.BaselineFor | runtime/harness_runtime/ingress.py:251-265 | the returned baseline was read from Git for this root less than two seconds before |
| Intake.IngressIntake.Evaluate | runtime/harness_runtime/ingress.py:126-182 | for any ref: without a cached verdict the answer is the uncached one; with one from the same manifest it is so exactly when the two refs agree on the boundary or the root is no directory; otherwise two manifests read here share a digest; the baseline is less than two seconds old |
| Intake.EvaluateBound | runtime/harness_runtime/ingress.py:126-182 | over any sequence of calls with refs built by `bind_cwd`, status, reason and evidence are those of an uncached evaluation, or two manifests read here share a digest |
| Intake.ForeignRefGetsTheOtherAnswer | runtime/harness_runtime/ingress.py:147-154 | of two calls with one manifest and one root, on refs that disagree on the boundary, the second repeats the first answer although its own uncached answer differs |
| Intake.ForeignManifestSharesTheKey | runtime/harness_runtime/ingress.py:147-154 | such refs exist: one built by `bind_cwd` and accepted, one not and refused, with one cache key |
| Ingress.ReceiptIdsAgreeExactly | runtime/harness_runtime/ingress.py:88-89 | two events share a receipt id exactly when they share the event id and the first twelve digits of the payload hash |
| Ingress.RecordHold | runtime/harness_runtime/ingress.py:467-472 | the hold path leaves a readable, complete lifecycle, so its closing readback cannot fail |
| Ingress.ProcessBoundIngress | runtime/harness_runtime/ingress.py:446-480 | a repeated event changes nothing; a hold is the uncached answer and ends terminal; a ready event ends at intake-ready, also when the missing intent then fails the call; other receipts are untouched |
| Ingress.UnfinishedBlocksEveryStart | runtime/harness_runtime/ingress.py:339-370 | over any run without an append to it, an unfinished receipt stays byte for byte and every start of its id is refused |
| Ordering.SortSorts | runtime/harness_runtime/l3_cohort_snapshot.py:338-345 | the modelled sort yields ascending keys (with `Ordering.SortIsStable`: and keeps ties in their order) |
| Ordering.SortIsStable | runtime/harness_runtime/l3_cohort_snapshot.py:338-345 | the modelled sort keeps the members of each key in their order, as Python's sort promises |
| Cohort.CollectNativeRecords | runtime/harness_runtime/l3_cohort_snapshot.py:155-199 | one record per listed line in order, failing exactly when a slug, an identity or a primary is missing, and only the three registry gaps |
| Cohort.CompileSnapshot | runtime/harness_runtime/l3_cohort_snapshot.py:202-364 | the loops succeed exactly on the stated inputs and then return the specified snapshot |
| Cohort.MarkConflicts | runtime/harness_runtime/l3_cohort_snapshot.py:308-317 | the three counting passes in place give each member the duplicate gaps of its own shared fields, computed on the unmarked members |
| Cohort.MarkHolds | runtime/harness_runtime/l3_cohort_snapshot.py:318-322 | the classification pass in place holds exactly the members with a gap other than the alias mismatch |
| Cohort.ApplyApprovals | runtime/harness_runtime/l3_cohort_snapshot.py:323-337 | approvals override exactly the members they name, and fail exactly when one of those is held |
| CohortProperties.RecordsAreConserved | runtime/harness_runtime/l3_cohort_snapshot.py:233-364 | every record appears exactly once in the snapshot with its identity unchanged |
| CohortProperties.ConflictsAreExact | runtime/harness_runtime/l3_cohort_snapshot.py:308-317 | a member carries a duplicate gap exactly when another record shares that field, or it was listed with that gap |
| CohortProperties.HoldIsExact | runtime/harness_runtime/l3_cohort_snapshot.py:318-337 | in a successful compilation a member is held exactly when some gap other than the alias mismatch is present, and the reason is such a gap |
| CohortProperties.UnheldExactly | runtime/harness_runtime/l3_cohort_snapshot.py:233-337 | in a successful compilation a member escapes the hold exactly when its listing has no hold gap, its manifest is supported and names its root, and it shares no identity field |
| CohortProperties.EveryApprovalIsUsed | runtime/harness_runtime/l3_cohort_snapshot.py:305-337 | on success every approval has an approved member with its reference |
| CohortProperties.OneMemberPerApproval | runtime/harness_runtime/l3_cohort_snapshot.py:313-337 | on success no approval has two members, so approvals and approved members are in bijection |
| CohortProperties.SuccessIgnoresOrder | runtime/harness_runtime/l3_cohort_snapshot.py:202-337 | permuting the records changes neither success nor failure |
| CohortProperties.DigestIgnoresOrderExactlyWithoutAmbiguousTies | runtime/harness_runtime/l3_cohort_snapshot.py:338-363 | the digest's input is the same for all orders of the records exactly when no two members tie with one slug missing and one empty |
| CohortProperties.SnapshotIgnoresOrder | runtime/harness_runtime/l3_cohort_snapshot.py:338-364 | with pairwise distinct sort keys the whole snapshot is the same for all orders |
| Admission.SnapshotFeedsAdmission | runtime/harness_runtime/l3_adaptation.py:83-200 | a snapshot of collected records that holds nobody passes the admission's cohort check, texts within 1024 characters |
| Admission.HoldBlocksAdmission | runtime/harness_runtime/l3_adaptation.py:86-88 | a snapshot that holds anybody never passes it, whatever the binding |
| Admission.OnlyTheOwnBindingPasses | runtime/harness_runtime/l3_adaptation.py:125-200 | of all bindings and expected digests the cohort check passes exactly the one that repeats the frozen snapshot |
| Admission.UnheldMembersAreDistinct | runtime/harness_runtime/l3_adaptation.py:193-198 | in a snapshot that holds nobody the identities are unique, so the duplicate check cannot fire |
| WriteScopes.PrefixIsUnder | runtime/harness_runtime/l3_adaptation.py:239-242 | the component-prefix test is "the same string, or starts with the ref and a slash", for all strings |
| WriteScopes.RelatedExactlyWhenOverlapping | runtime/harness_runtime/l3_adaptation.py:239-261 | two refs are related exactly when some path lies under both |
| WriteScopes.UnrelatedRefsAreDisjoint | runtime/harness_runtime/l3_adaptation.py:257-261 | the pairwise test accepts exactly the ref lists in which every path has at most one owner |
| WriteScopes.SeparateRefsAreDisjoint | runtime/harness_runtime/l3_adaptation.py:367-368 | the overlap test accepts exactly when no path lies under a mutable ref and a control |
| Admission.AcceptedScopesAreDisjoint | runtime/harness_runtime/l3_adaptation.py:423-471 | in an accepted admission every path lies under at most one mutable ref, and under none if a control covers it |
| Admission.DisjointScopesAreAccepted | runtime/harness_runtime/l3_adaptation.py:245-368 | refs that overlap nowhere are refused by neither scope check |
| Pipeline.EvidenceIsInOrder | runtime/harness_runtime/runtime.py:840-849 | the constructor's evidence refs are nonempty, bounded, strictly ascending, as the evaluator demands |
| Pipeline.BindingIsBounded | runtime/harness_runtime/runtime.py:792-818 | the observation binding meets the evaluator's text and revision rules, the candidate override included |
| Pipeline.AdmittedCellsAgreeExactly | runtime/harness_runtime/runtime.py:611-682 | for one plan and cell, two admitted producer outputs carry the same cell exactly when it is of the baseline arm or they name the same candidate manifest |
| Pipeline.AcceptedExactlyWhenNamed | runtime/harness_runtime/l3_ac14_evaluator.py:113-171 | the evaluator accepts what the constructor builds exactly when the plan names its identity and contract |
| Pipeline.EvaluatorRuns | runtime/harness_runtime/l3_ac14_evaluator.py:174-211 | on any bytes the evaluator exits 0 or 2, and 0 exactly on the canonical text of an observation it accepts; its result then keeps the facts, and satisfies, of all valid plans, exactly those that name this evaluator |
| Pipeline.PipelineComposes | runtime/harness_runtime/runtime.py:748-960 | constructor, evaluator and result validator compose: accepted exactly when named, valid result, producer facts unchanged |
| ReceiptProperties.RunPassesItsReadback | runtime/harness_runtime/runtime.py:1265-1313 | the closing readback of any whole run succeeds exactly when the journal was empty, Git printed object names and retention had not run out; it returns exactly the terminal receipt and the bytes |
| ReceiptProperties.RetryAfterOrphanFails | runtime/harness_runtime/runtime.py:1132-1142 | after a run stopped between journal line and projection, every retry fails its readback |
| ReceiptProperties.AcceptedWasProduced | runtime/harness_runtime/runtime.py:1539-1663 | the converse of the round trip: bytes are returned only for a case whose two receipts and bytes some run could have produced, for the asked consumer and experience |
| ReceiptProperties.BytesAreInTime | runtime/harness_runtime/runtime.py:1595-1633 | after any sequence of reads a read returns bytes exactly when it would have done so at once and none of those reads was past expiry; it is then earlier than dispatch time plus retention and the bytes are the case's own |
| ReceiptProperties.CleanupIsIdempotent | runtime/harness_runtime/runtime.py:1520-1536 | a second cleanup changes nothing, no raw file survives the first, and foreign files are kept |
| ReceiptProperties.ReadsOnlyClean | runtime/harness_runtime/runtime.py:1539-1663 | any sequence of reads leaves the case as it was or cleaned once; journal and projection never change |
| ReceiptProperties.ReadsCleanExactly | runtime/harness_runtime/runtime.py:1614-1633 | a sequence of reads cleans the case exactly when one of them, judged on the case as it was, is past expiry |
| ReceiptProperties.ExpiredBytesNeverReturn | runtime/harness_runtime/runtime.py:1614-1633 | after one read past expiry no later read returns bytes, whatever read times follow |
| ReceiptProperties.MetadataSurvives | runtime/harness_runtime/runtime.py:1614-1663 | reads at or after expiry return the verified receipt exactly when nothing foreign lies in the artifacts directory |
| ReceiptProperties.RunsLeaveNothingForeign | runtime/harness_runtime/runtime.py:1125-1129 | runs leave nothing foreign there |
| ReceiptState.ReceiptDirectory.Write | runtime/harness_runtime/runtime.py:1125-1129 | the slot holds the content, its temporary is gone, every other file and case is as before |
| ReceiptState.ReceiptDirectory.Append | runtime/harness_runtime/runtime.py:1132-1142 | the journal gains the line and the projection is the receipt; a line after an unterminated one is lost with it |
| ReceiptState.ReceiptDirectory.RemoveRawArtifacts | runtime/harness_runtime/runtime.py:1520-1536 | the loop removes exactly the six raw names, and the directory exactly when nothing else is left |
| ReceiptState.ReceiptDirectory.VerifiedArtifacts | runtime/harness_runtime/runtime.py:1482-1497 | returns the bytes exactly when all three slots match their recorded size and digest |
| ReceiptState.ReceiptDirectory.Verify | runtime/harness_runtime/runtime.py:1539-1663 | returns what the specified readback returns; no other case changes |
| ReceiptState.ReceiptDirectory.Execute | runtime/harness_runtime/runtime.py:1220-1313 | bad input and an existing receipt change nothing; otherwise the case becomes what the specified run leaves |
| ReceiptState.ReceiptDirectory.ExecutePairedCell | runtime/harness_runtime/runtime.py:1316-1438 | the same for a paired cell, run on the constructed observation |
| ReceiptState.ExecuteRoundTrip | runtime/harness_runtime/runtime.py:1220-1313 | the round trip of `execute` for every ending, plain or with an experience binding |
| ReceiptState.SourceRunsAreAcceptedExactly | runtime/harness_runtime/runtime.py:685-745 | of the receipts `execute` writes, the constructor takes exactly those of a successful run of the fixed producer command whose output it is given |
| ReceiptState.CellBindingIsValid | runtime/harness_runtime/runtime.py:866-904 | the binding a paired cell records passes its validator, and its revision is the producer's own in the candidate arm |
| ReceiptState.PairedRoundTrip | runtime/harness_runtime/runtime.py:1316-1438 | the round trip of `execute_paired_cell` for every run that appends its terminal receipt |
| ReceiptState.PairedCellDeliversTheFacts | runtime/harness_runtime/runtime.py:1316-1438 | with the fixed evaluator the cell always returns a receipt, passing exactly when the plan names the evaluator, and then carrying the producer's facts unchanged |
| JournalProtocol.NextKeeps | runtime/harness_runtime/runtime.py:1132-1142 | each step lets the journal only grow, keeps unreadable lines unreadable and other runs where they are |
| JournalProtocol.NextKeepsInv | runtime/harness_runtime/runtime.py:1265-1313 | each step keeps: lines say what their runs have done, terminal lines follow their dispatch lines, and a lone writer's projection shows how far it is |
| JournalProtocol.AcceptedIsOneRun | runtime/harness_runtime/runtime.py:1549-1598 | for any interleaving of runs and stops, torn appends included, the readback accepts only the two lines of one run that finished both appends |
| JournalProtocol.OrphanIsNeverAccepted | runtime/harness_runtime/runtime.py:1265-1312 | once a run stops with its dispatch line begun, no retry and no reader ever makes the case acceptable |
| JournalAlone.AloneIsTheRun | runtime/harness_runtime/runtime.py:1265-1312 | the file steps of one uninterrupted run leave exactly what the sequential run leaves |
| JournalReads.NextKeepsReadInv | runtime/harness_runtime/runtime.py:1549-1663 | each step of a run or a readback keeps: a terminal receipt is journaled before it is anywhere else, and what a half-finished readback holds is still the work of one run |
| JournalReads.ScanAcceptsOneWholeRun | runtime/harness_runtime/runtime.py:1549-1598 | with the projection and the journal read at different moments, a scan accepts only when at that moment the journal is the two lines of one run that finished both appends |
| JournalReads.OrphanIsNeverScanned | runtime/harness_runtime/runtime.py:1549-1558 | once a run stops with its dispatch line begun, no scan accepts, whenever its projection was read |
| JournalReads.AnswerIsOfOneRun | runtime/harness_runtime/runtime.py:1539-1663 | however runs and split readbacks interleave, an answer carries the terminal receipt of a run that finished both appends, and its bytes have the recorded sizes and digests |
| JournalReads.AloneIsTheReadback | runtime/harness_runtime/runtime.py:1539-1663 | the steps of one uninterrupted readback answer and leave behind exactly what the sequential readback does |
| JournalReads.ReadsRun | runtime/harness_runtime/runtime.py:1539-1663 | the same steps taken in the protocol, whatever runs are waiting |
| JournalBytes.NextKeepsTrail | runtime/harness_runtime/runtime.py:1120-1129 | each step keeps the record of which run wrote every artifact file and what every run digested true to the files and receipts |
| JournalBytes.RecordedBytesAreOwnExactly | runtime/harness_runtime/runtime.py:1296-1312 | a finished run's receipt is about its own bytes exactly when what lay in each slot at its digest measures the same, and surely when that was its own write |
| JournalBytes.ReturnedBytesAreOwnExactly | runtime/harness_runtime/runtime.py:1482-1497 | the same of the bytes that any interleaved readback returns with that receipt |
| JournalBytes.QuietSlotIsOwn | runtime/harness_runtime/runtime.py:1120-1129 | if nobody writes or renames a slot between a run's write and its rename, nor between its rename and its digest, the run digests what it wrote |
| JournalBytes.RaceMixesBytes | runtime/harness_runtime/runtime.py:1261-1278 | one other run that renames its body in between and stops makes the case what the first run alone would have left with the other's body |
| JournalBytes.RaceIsAccepted | runtime/harness_runtime/runtime.py:1539-1663 | the readback accepts that case and returns the other run's body under the first run's receipt |
| PairedReadback.OtherCaseIsUnaffected | runtime/harness_runtime/runtime.py:1702-1704 | reading one case leaves the verdict on every other case as it was, even when their directories coincide |
| PairedReadback.FourCellsFillTheMatrix | runtime/harness_runtime/runtime.py:1712-1728 | four different cells are always the whole matrix |
| PairedReadback.CollectCells | runtime/harness_runtime/runtime.py:1702-1721 | the loop succeeds exactly when all four cases are accepted and repeat no cell |
| PairedReadback.ReadPair | runtime/harness_runtime/runtime.py:1683-1767 | no input returns deltas; the completeness check never fires; four accepted cells are always refused as partial |
| Enrollment.EnumerationResolves | runtime/harness_runtime/project_enrollment.py:278-298 | a found slug is listed and shown at the root, None means no listed project is, and success does not depend on which later calls would fail |
| Enrollment.Host.RootProjectSlug | runtime/harness_runtime/project_enrollment.py:278-298 | the loop returns the first listed project at the root, or raises at the first one it cannot show |
| Enrollment.Host.ManifestComponent | runtime/harness_runtime/project_enrollment.py:301-335 | create exactly when the manifest is absent, a receipt exactly when it cannot be read, an observation exactly when it names another root |
| Enrollment.Host.MappingComponent | runtime/harness_runtime/project_enrollment.py:338-362 | noop exactly when the channel is mapped to a project that shows the root |
| Enrollment.Host.RegistryComponent | runtime/harness_runtime/project_enrollment.py:365-377 | noop, create or reconcile exactly as the enumeration finds, finds nothing or raises |
| Enrollment.Host.Plan | runtime/harness_runtime/project_enrollment.py:384-398 | a plan changes nothing and is all noop on a converged host |
| Enrollment.Host.ResolveAndMap | runtime/harness_runtime/project_enrollment.py:450-469 | the slug written is the last enumeration's, or the first one's if the last raises; a noop mapping is never written |
| Enrollment.Host.Apply | runtime/harness_runtime/project_enrollment.py:401-474 | failures included, at most one mapping write and only of a slug at the root; nothing present is replaced; no partial receipt means converged; a run in which every call works has none; a converged host is left alone and reported noop |
| Enrollment.ApplyTwice | runtime/harness_runtime/project_enrollment.py:401-474 | after a run without a partial receipt the next one reports noop and leaves manifest, registry, mapping, creations and writes exactly as they were |
| Binding.DesiredIsOwned | runtime/harness_runtime/project_binding.py:219-299 | every file the code writes, it recognises as its own, whatever the inputs |
| Binding.LauncherOwnershipIsExact | runtime/harness_runtime/project_binding.py:289-294 | a launcher is owned exactly when the whole marker lies in its first 128 characters |
| Binding.PlannedExactlyWhenAdoptable | runtime/harness_runtime/project_binding.py:317-331 | a path gets through the plan exactly when it is free or owned; the inputs make no difference |
| Binding.CompletedIsSettled | runtime/harness_runtime/project_binding.py:342-353 | after a completed run the plan is all noop |
| Binding.StoppedRunIsAdoptable | runtime/harness_runtime/project_binding.py:334-353 | a run stopped after any of its file steps leaves no conflict for any other inputs |
| Binding.ModesAreDesiredExactly | runtime/harness_runtime/project_binding.py:317-353 | a completed run leaves the desired mode exactly where the contents had to be written or the mode was right already |
| Binding.Project.Plan | runtime/harness_runtime/project_binding.py:317-331 | one operation per managed path as specified, or the first error |
| Binding.Project.Write | runtime/harness_runtime/project_binding.py:334-339 | temporary, then rename, stopped before either |
| Binding.Project.Apply | runtime/harness_runtime/project_binding.py:342-353 | refuses exactly when some path is neither free nor owned, and then writes nothing; a stop leaves each path as it was or as desired; completion repairs every path |
| Binding.Rerun | runtime/harness_runtime/project_binding.py:342-353 | a run stopped anywhere and a rerun with any inputs: the rerun completes and its plan is all noop |

## Left out

- Command lines, the sandbox, argument parsing and printing: plumbing.
- Git, subprocess launch, `fcntl` and directory descriptors: steps with arbitrary outcomes.
- SHA-256, JSON, YAML and regular expressions: function parameters or parsed datatypes. Floating-point time is integer microseconds, so the rounding of the expiry instant is not modelled.
- Symlink, permission and secret checks.
- Shape checks (exact key sets, fixed strings, text bounds) are mostly collapsed: a field is typed, or a document that breaks its shape parses to None. `shapesHold` in `PairAdmission` and `AdmissionRequest` stands for the fixed fields without a rule of their own.
- JSON spellings of a number that Python takes as equal (`1.0`, `true`) in execution receipts; lifecycle entries do model them (`Json.EqualsInt`).
- `guided_capability.py`, `scheduled_consumer.py`, the adapters, `l3_manual_classification.py`, `readiness_controller.py`: field checks with one branch each.
- `reconcile_legacy` and `inspect_binding`: separate commands on other files.
- `analysis_input`: a bounded view of what the readback returns.
- ClaimStore.ClaimDirectory.AtomicWrite: the removal of the temporary file after a failure is assumed to work, and the directory's permission checks are part of the first fault.
- ClaimStore.Admit: `_load_binding` is a parameter; the manifest and capability files it reads are not part of this model.
- ClaimProtocol.AllRepliesAgree: speaks of persisted answers; the answer `state_dir_unavailable` is not persisted by the code and may differ between calls.
- Lifecycle.ExecutionReceipts.Transition: sequential, as the code takes no lock there; two unlocked transitions on one receipt are not modelled.
- Lifecycle.ExecutionReceipts.Read: entries that are not objects, or have no stage, raise errors other than the validation error; they are one error case here.
- Intake.IngressIntake.Evaluate: Git and file-kind facts are fixed for the life of the intake; the bootstrap of a manifest is an outcome with its own second look.
- Cohort.CompileSnapshot: a project slug in a manifest that is neither a string nor missing reads as missing; Python then sorts or fails by its type.
- Pipeline.PipelineComposes: the producer's own command is outside; its output is any text that parses.
- ReceiptState.ReceiptDirectory.Execute: the trusted experience binding is compared with a given projection; deriving that projection from admission and packet (runtime.py:985-1104) is field copying.
- JournalProtocol.AcceptedIsOneRun: writing a temporary file is one step, so two runs writing one temporary at the same instant is modelled as one after the other; it judges a readback taken at one moment, and `JournalReads` splits the readback into reading the projection, reading the journal, and one step per artifact read or removed.
- Enrollment.Host.Apply: path comparison is on normalized text; the list and show output formats are parsed values; no other program changes the host between two calls of one run, except where a create runs into a file.
- Binding.Project.Plan: inputs are already normalized, and the fields of the two documents besides `managed_by` are parameters.
