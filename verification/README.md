# Play Together controller: a verified model

The Rust service under `rust/` links a JBL Authentics 300 with an Aura Studio 5. A START or STOP
writes three device roles one after the other; a crash or a lost answer in the middle leaves the
speakers in an unknown state. The service therefore records an action durably before it touches a
device, and refuses every ordinary action until a recovery has resolved what is uncertain. Clients
reach it through a small hand-written HTTP layer with optimistic concurrency on a revision number.

This project models that behaviour in Dafny and proves it. Everything outside the program (sockets,
BlueZ, the file system's answers, clocks, device replies) is a nondeterministic value or a parameter,
so each theorem holds for every behaviour of the outside world.

## Layout

| file | what it models |
|---|---|
| `World.dfy` | the disk, and the one shared log of effects that every primitive appends to |
| `Journal.dfy` | the two-file uncertainty journal, its codec, and a disk on which unsynced directory updates may be undone by a host crash |
| `Runs.dfy` | whole runs of the service: actions, status reads, crashes at any step, reopening |
| `Recovery.dfy` | that every debt can be resolved: reopening and one answered recovery |
| `Controller.dfy` | the controller: journal first, one backend transaction, membership check, clearing |
| `NativeCore.dfy` | the whole-pair START, STOP, SHUTDOWN and RECOVER-STOP transactions |
| `Aura.dfy`, `Acquisition.dfy` | the Aura command channel; cold connect, wake, retry schedule, scan |
| `Broadcast.dfy`, `Gena.dfy`, `JsonLimits.dfy` | the broadcaster command, its event observer, bounded JSON |
| `Backend.dfy`, `Pairing.dfy` | transaction guard and health; group responses and member projection |
| `Service.dfy` | the web actor: compare-and-mutate, entity tags, exit path |
| `HttpText.dfy`, `Web.dfy`, `WebServer.dfy` | heads and fields, framer and strict parser, connection loop |
| `LocalClient.dfy`, `Requests.dfy` | both printers against both parsers |
| `Ascii.dfy`, `Wrappers.dfy` | shared helpers |

State that the source changes in place is a class whose methods are proved against relations on the
old and the new state (`Controller.Mutated`, `NativeCore.Step`, `Journal.Marked`, `Journal.Cleared`,
`Journal.Opened`). The order of effects is not reported by the methods: every primitive (rename,
directory sync, unlink, membership read, health read, look at the bearer, teardown, connect, arm, each
role write, each answer to one, each packet, each event callback, and each call that failed) appends to
one shared log (`World.Log`) at the moment it acts, and every method above proves that the log grew by
exactly the events its relation speaks of. `Runs` cuts that log at an arbitrary prefix and reads the disk
and the executed writes off the prefix. Because failures and answers are on the log, outcomes are decided
by it in both directions: an operation that runs succeeds if and only if its part of the log holds no
failed call.

## Main results

1. **No write over an unresolved write.** Over every run, with I/O failures and process or host
   crashes at every step, no ordinary action begins a role write while an earlier one is unresolved,
   and only an accepted recovery whose membership read was ready and whose clearing succeeded
   resolves it.
2. **Exactly when.** The claim above needs the journal directory's own entry to be durable.
   `journal.rs:152-172` creates that directory and never syncs its parent, so on the first use after
   creation a host crash can lose the directory with the record in it. `SafeExactlyWhenAnchored`
   proves that every continuation of a state is safe if and only if the directory entry is durable,
   and `UnanchoredCanForget` gives the six-step run that fails from any other state; its START is a
   transaction of the core down to the bearer it leaves behind. The source's
   comments and documentation promise the guarantee without this condition; the model follows the code.
3. **Durability of the journal** as an if-and-only-if on the disk (`DurabilityLaw`).
4. **Role writes and their answers**, over the log: the device events of an action are always a prefix of
   one fixed word, and none follows a role write that was not answered positively. Unless an
   older write is latched, an action is accepted if and only if it met no failed call, and then every
   write has its own answer (the JBL answer, the broadcaster's write response, the exact Aura
   acknowledgement as the first packet received); a whole word with all answers is accepted; a START or
   STOP is rejected if and only if the failure came before any write, and unknown otherwise; a confirmed
   one was subscribed before its write and read its own result code after it.
5. **The public outcome is a function of the log**: the controller's report, its latch and the clearing
   follow in both directions from the backend's answer, the membership read and whether a clearing failed
   (`Controller.Settles`), and who is turned away before anything is recorded from the readings
   (`Controller.Admission`).
6. **Recoverability**: every disk of a run opens unless a call fails, as pending while a debt is open, and
   from every state with a debt three steps resolve it.
7. **HTTP**: the framer is a prefix automaton, the parser accepts exactly the strict complete frames,
   both printers are undone by the other side's parser with exact conditions, and each error of the parser
   has its exact condition on the bytes.
8. **Compare-and-mutate**: below saturation of the 64-bit revision each value authorizes at most one
   mutation in any interleaving; at saturation the property fails, with a witness for every such state.
9. **No stale acknowledgement**: in every log a FIFO socket can produce, what is received after the
   queue was observed empty arrived after that observation.
10. **Retry reserve**: every run whose failures stay within a scan window keeps every attempt and its
   full budget if and only if the time left at entry covers the validated reserve.
11. Scan freshness, A2DP exclusion, event-key succession, JSON limits, and the agreement between the server's status and the client's validator.

## Modelling decisions

- **Disk.** A directory entry keeps the set of older values that a host crash may bring back. A rename
  adds the old value to that set, a directory fsync empties it, an unlink adds to it, and the entries
  come back independently of each other. A file renamed before its own fsync would come back with
  arbitrary bytes. `anchored` is the durability of the directory's entry in its parent. A process crash keeps the
  volatile view. Leftover temporary files are not entries that anything reads.
- **Crash points.** A crash cuts the log of an action or of an opening after any event. A role write is
  logged when it begins, everything else when it has happened, a failed call as `Fault`.
- **Integers.** Revision and failure counter saturate at the source's widths; lengths are compared
  with the 64-bit `usize` range where the source parses or adds them; durations are nanoseconds with the
  source's overflow checks; revisions restart at zero with each process, as in the source.
- **Bytes.** An HTTP byte is a character below 256; lemmas about text hold for all strings. UTF-8
  validity is the table of RFC 3629, section 4.
- **Time.** A deadline is the end of a schedule of events that the environment chooses.
- **Dead branches.** A few source guards can never fire (the framer's sum overflow, a zero remaining
  read capacity, the health read failing on the native backend). The first two are assertions here,
  the third has no counterpart.

## Model

| member | source | states |
|---|---|---|
| `Runs.NoWriteWhileUnresolved` | rust/src/controller.rs:535-613 | over every run and every crash point of the log, an ordinary action that begins a role write finds no earlier write unresolved; the run invariant (record armed while a debt is open, controller latched) holds in every state |
| `Runs.OnlyRecoveryResolves` | rust/src/controller.rs:615-705 | a debt ends only at a recover-stop whose whole log was executed: the full script, then a membership read whose answer is the exact pair, then the removal of the record |
| `Runs.QuietUntilRecovery` | rust/src/controller.rs:535-543 | from an unresolved write on, nothing is written and the debt stays until a recovery is asked for, across any crashes and restarts |
| `Runs.SafeExactlyWhenAnchored` | rust/src/journal.rs:148-204 | every continuation of a state is safe if and only if the journal directory's own entry is durable |
| `Runs.UnanchoredCanForget` | rust/src/journal.rs:152-172 | from every state whose directory entry is not durable there is a run of six steps whose last START writes over an unresolved one |
| `Runs.AlwaysCoupledAndReadable` | rust/src/controller.rs:452-464 | in every state of every run the disk parses on reopen, opening fails exactly when a call failed, controller, journal and core agree, and no report says the backend lifecycle was unexpected |
| `Runs.ReopensInDoubt` | rust/src/journal.rs:174-203 | in every sheltered run an opening without a failed call yields a journal, pending and with the new controller latched whenever a debt is open |
| `Runs.StepKeepsInv` | rust/src/controller.rs:535-705 | each step, interrupted or not, keeps the run invariant and is safe |
| `Runs.CutKeeps` | rust/src/journal.rs:285-316 | whatever prefix of an action's log was executed, the disk it leaves is well formed and still holds the record it owes |
| `Runs.ReadPrefix` | rust/src/controller.rs:535-613 | the disk and the writes of an executed prefix: no write before the mark is complete, and the disk is that of the last journal event |
| `Runs.UnlinkedOnlyAtEnd` | rust/src/journal.rs:298-316 | in an action's log the marker is missing only after the final event of a successful clear |
| `Runs.LostStartMutates` | rust/src/backend_native.rs:576-586 | in every journal directory a fresh process can run the failing START: it satisfies the full action relation, including the core transaction and the bearer it leaves |
| `Recovery.DebtCanBeResolved` | rust/src/backend_native.rs:720-735 | from every state with a debt a run of three steps resolves it: the process ends, the journal is opened, the recovery is answered and clears its record |
| `Recovery.PaidRecovers` | rust/src/controller.rs:652-703 | in every directory with a pending record a recovery whose three writes are answered satisfies the full action relation and is accepted |
| `Recovery.OpensWhole` | rust/src/journal.rs:174-203 | every well-formed disk opens when no call fails, in the state its entries denote, with a lone snapshot record published as a marker |
| `Journal.CodecIsExact` | rust/src/journal.rs:387-404 | a payload parses to a state if and only if it is that state's encoding, and every encoding fits the read limit |
| `Journal.DurabilityLaw` | rust/src/journal.rs:285-316 | a well-formed disk reopens as pending after a process crash and after every host crash if and only if one entry is pending in all its versions and the directory is durable |
| `Journal.ReopenWellFormed` | rust/src/journal.rs:180-186 | a well-formed disk always reopens, as pending exactly when the marker exists or the snapshot says pending |
| `Journal.HostCrashKeepsWellFormed` | rust/src/journal.rs:344-370 | every disk a host crash can leave is well formed, parses, and keeps whichever entry was armed |
| `Journal.MarkIsDurable` | rust/src/journal.rs:285-296 | after a successful mark the record survives every crash exactly when the directory is durable |
| `Journal.RemarkNeverWeakens` | rust/src/journal.rs:285-296 | at every disk of a repeated mark, failed or not, an existing durable record is still durable |
| `Journal.UnfinishedClearReopensPending` | rust/src/journal.rs:298-316 | every disk of a clear before its unlink reopens pending, and so does every failed clear, even one that fails before its first rename |
| `Journal.FileUncertaintyJournal.OpenUnder` | rust/src/journal.rs:148-204 | opening fails if and only if a call failed or the entries do not parse; otherwise it starts from the state the two entries denote, on exactly the disk the migration leaves; an armed record stays armed at every disk it passes |
| `Journal.FileUncertaintyJournal.OpenDirectory` | rust/src/journal.rs:174-203 | the same for an existing directory: a pending marker, a pending snapshot and a clean one each open, and a record held by the snapshot alone is published as a marker first |
| `Journal.FileUncertaintyJournal.Commit` | rust/src/journal.rs:206-245 | success is rename then directory sync of the full encoding; failure leaves the old disk or the renamed, unsynced one and a logged fault; the log holds exactly these disks |
| `Journal.FileUncertaintyJournal.MarkPending` | rust/src/journal.rs:285-296 | memory is latched whatever happens; success leaves both entries pending and durable |
| `Journal.FileUncertaintyJournal.Clear` | rust/src/journal.rs:298-316 | success ends with the unlink and a clean snapshot; failure is a logged fault that keeps the marker and the pending memory |
| `Controller.PairController.constructor` | rust/src/controller.rs:452-464 | a new controller inherits exactly the uncertainty the journal reports, with one counted failure |
| `Controller.PairController.Mutate` | rust/src/controller.rs:535-613 | the log grows by exactly: readings, mark disks, one core transaction, the membership check, clear disks; who gets through follows from the readings, the outcome from the backend answer, the check and the clearing, in both directions; with coupling, revision, failure count and managed state |
| `Controller.PairController.MarkAndRun` | rust/src/controller.rs:576-612 | an admitted action's log starts with the mark; a failed mark reaches no backend and is reported as such |
| `Controller.PairController.Preflight` | rust/src/controller.rs:536-574 | ordinary actions are refused while unresolved, recovery is refused when nobody needs it, without a ready membership nobody gets through and the failure says whether the answer parsed, in the own settled state exactly a confirming health reading adopts, and everybody else is let through |
| `Controller.PairController.ReduceBackendResult` | rust/src/controller.rs:615-705 | the public outcome, the failure, the latch and the clearing that each backend answer leads to, as an exact function of answer, check and clearing; the native core never triggers the lifecycle mismatch |
| `Controller.PairController.ReduceRejected` | rust/src/controller.rs:622-643 | a rejection clears only its own record and is reported as rejected unless that clearing failed; an older uncertainty survives a rejected recovery without a clearing |
| `Controller.PairController.ReduceAccepted` | rust/src/controller.rs:652-703 | an accepted answer is reported as PostconditionFailed if and only if the logged membership read is not the exact pair, as JournalCommitFailed if and only if it is and the clearing failed, and otherwise as accepted with the receipt's evidence |
| `Controller.PairController.ReadPairConfiguration` | rust/src/controller.rs:810-825 | one logged read; ready if and only if its answer is the exact pair, unavailable if and only if there is none or it does not parse, and both members shown as the parsed group has them |
| `Controller.PairController.CurrentStatus` | rust/src/controller.rs:466-494 | every status passes the client's validator and shows the members and the health that were read, and the managed state drops to unknown exactly when one of them contradicts it |
| `Controller.PairController.IsIdempotent` | rust/src/controller.rs:707-730 | there is nothing to do if and only if the action is no recovery, the state is its own settled one, and the logged health reading is healthy, without error, of its lifecycle and over a resolved transport |
| `NativeCore.Core.Start` | rust/src/backend_native.rs:548-626 | the log's device events are a prefix of teardown, connect, arm, enter, broadcast, Aura on, with no device event behind an unanswered write; accepted if and only if no call failed, and then all writes are answered; the whole word with all answers is accepted; rejected exactly on a failure before any write, otherwise unknown and latched; the bearer is looked at exactly in the linked state; business evidence has its proof in the log |
| `NativeCore.Core.Stop` | rust/src/backend_native.rs:628-694 | the same for teardown, connect, arm, Aura off, broadcast stop, exit |
| `NativeCore.Core.StartRoles` | rust/src/backend_native.rs:576-626 | after preparation, the log holds the START writes in order, each answered before the next; accepted exactly without a failed call; bearer and subscription are released on every path |
| `NativeCore.Core.StopRoles` | rust/src/backend_native.rs:650-694 | after preparation, the log holds the STOP writes in order, each answered before the next; accepted exactly without a failed call; bearer and subscription are released on every path |
| `NativeCore.AnswersMeaning` | rust/src/backend_native.rs:548-694 | the recursive check of answers means, write by write: each one that a later device event follows (or each one at all) is followed by its own positive answer |
| `NativeCore.Core.Shutdown` | rust/src/backend_native.rs:696-718 | a STOP unless already ready or offline, then the teardown, in the log's order; accepted only offline |
| `NativeCore.Core.RecoverStop` | rust/src/backend_native.rs:720-735 | the only action that crosses the latch: the log shows the teardown first, then a full STOP |
| `NativeCore.Core.AcquireFreshBearer` | rust/src/backend_native.rs:747-760 | success is a logged teardown and then a logged new connection, and a bearer is held |
| `NativeCore.Core.Prepare` | rust/src/backend_native.rs:555-572 | fresh bearer, then arm, in the log's order; failure holds no broadcaster resource and leaves the bearer its last event left |
| `NativeCore.Core.CurrentHealth` | rust/src/backend_native.rs:522-546 | healthy if and only if nothing is latched, the lifecycle is ready or linked and the bearer is alive or cleanly absent; error and lifecycle follow; transport and route are those of the bearer; the look at the bearer is on the log |
| `NativeCore.Core.TeardownTransport` | rust/src/backend_native.rs:737-745 | the exit teardown drops the bearer or logs a fault and changes nothing, and keeps the latch |
| `Backend.Transaction.Admit` | rust/src/backend.rs:466-487 | a call is admitted exactly when nothing is latched and the backend is the pinned one |
| `Backend.Transaction.Settle` | rust/src/backend.rs:489-511 | a changed backend never upgrades an answer; uncertainty is latched |
| `Backend.NewHealth` | rust/src/backend.rs:105-127 | healthy exactly when ready or linked without a reported error |
| `Aura.ControlCore.DrainPackets` | rust/src/aura_bluez.rs:1226-1242 | the logged packets are a run of the queue with at most 32 taken; success if and only if some poll among 32 finds the queue empty on an intact channel, and then the log ends with that observation |
| `Aura.QuietDrain` | rust/src/aura_bluez.rs:1226-1242 | without arrivals a queue drains exactly when it holds fewer than 32 packets |
| `Aura.OneAcknowledgement` | rust/src/aura_bluez.rs:1145-1156 | exactly one byte string counts as the acknowledgement |
| `Aura.ControlCore.Send` | rust/src/aura_bluez.rs:451-482 | the log is a look at the bearer, drain, write, first packet; a write happens if and only if nothing is latched, the bearer is live and the queue drains, otherwise the command is rejected; accepted if and only if the first packet after the write is the exact acknowledgement; every other end latches |
| `Aura.ReceivedIsFresh` | rust/src/aura_bluez.rs:1204-1242 | in every log a FIFO socket can produce, a packet received after the queue was observed empty arrived after that observation |
| `Aura.AcknowledgementIsFresh` | rust/src/aura_bluez.rs:451-476 | an accepted command's acknowledgement arrived after the drain saw the queue empty |
| `Aura.ControlCore.ConnectVerified` | rust/src/aura_bluez.rs:427-441 | success, exactly without a failed call, has a bearer whose route matches its transport and no latch; an empty slot means a cold acquisition |
| `Aura.ControlCore.Shutdown` | rust/src/aura_bluez.rs:484-490 | success clears bearer and latch, failure is a logged fault and changes neither |
| `Acquisition.AcquireAuraWake` | rust/src/aura_wake.rs:293-345 | the profile is attempted only for a verified device, always released again; success exactly with fresh verified evidence and an observed release |
| `Acquisition.ReleaseProfile` | rust/src/aura_wake.rs:274-291 | the observed release decides, whatever the disconnect call answered |
| `Acquisition.ConnectColdBearer` | rust/src/aura_bluez.rs:601-629 | no raw attempt follows a profile connect without an observed release, nothing is attempted twice, and exactly when each stage runs and the chain succeeds |
| `Acquisition.ChainIsOrderly` | rust/src/aura_bluez.rs:601-629 | every trace of the chain satisfies the exclusion and the once-only rule |
| `Acquisition.RetryConnectAttempts` | rust/src/aura_bluez.rs:1626-1651 | the loop starts its attempts exactly on the schedule Clock, up to the first success or the deadline, and no delay passes the deadline |
| `Acquisition.ReserveIsExact` | rust/src/aura_bluez.rs:119-148 | for valid timings every script whose failures stay within a window keeps every attempt and its full budget if and only if the time left at entry covers the reserve |
| `Acquisition.ReserveKeepsEveryAttempt` | rust/src/aura_bluez.rs:1626-1651 | with the reserve at entry a failing loop made every attempt, and each had its scan, connect and setup budget |
| `Acquisition.EarlierPhasesMayUseTheSlack` | rust/src/aura_bluez.rs:119-148 | the earlier phases may use exactly the slack between the total and the reserve; with the default timings that is nothing |
| `Acquisition.ScanOnce` | rust/src/aura_bluez.rs:1653-1819 | over every event sequence: cached data is read only for devices absent from or removed since the snapshot, at most once per appearance, and every due device is read; the result is the first exact advertisement, an error only for a closed adapter, none only if none was exact |
| `Acquisition.ReduceAdvertisement` | rust/src/aura_bluez.rs:1821-1857 | an advertisement is accepted if and only if it comes from a random LE address with the two product bytes and the configured identity at their offsets |
| `Broadcast.ParseMtuResponse` | rust/src/jbl_gatt.rs:258-264 | exactly the three-byte exchange responses offering at least 23 are accepted, with the smaller of the offered and the requested MTU |
| `Broadcast.GattTransport.Execute` | rust/src/jbl_gatt.rs:266-300 | the bearer is consumed on every path; a frame is written exactly when a bearer is held and the frame fits; success exactly when the last of at most 32 logged packets is the write response and all before were notifications |
| `Broadcast.GattTransport.Arm` | rust/src/jbl_gatt.rs:108-118 | the slot is filled exactly on success |
| `Broadcast.Coordinator.Arm` | rust/src/backend_native.rs:138-152 | success, exactly without a failed call, holds the bearer and, in GENA mode, the subscription, which the log shows before the arming; failure holds neither |
| `Broadcast.Coordinator.Execute` | rust/src/backend_native.rs:154-179 | succeeds exactly without a failed call, with the evidence of its mode; nothing is held afterwards; a confirmed result's log is the write, its response, then codes ending with the action's own, then the release |
| `Broadcast.AssembleProof` | rust/src/backend_native.rs:154-179 | a confirmed command behind a subscription that was not released in between is a business proof of the whole log |
| `Broadcast.Coordinator.CancelAll` | rust/src/backend_native.rs:129-133 | both resources are released whatever the cleanup answers |
| `Gena.ValidateCallback` | rust/src/broadcast_gena.rs:595-639 | a callback is accepted exactly when it is addressed by method, path, SID, event headers and media type, next in sequence and parseable; a rejected one leaves the key alone |
| `Gena.ObserveUntil` | rust/src/broadcast_gena.rs:226-278 | success if and only if the last code read is 33 for a start or 34 for a stop, business rejection if and only if it is 31 or 32, and no earlier code is one of the action's own two; keys form a succession, no delivered callback is skipped, and every other failure names what arrived |
| `Gena.KeyClosedForm` | rust/src/broadcast_gena.rs:641-654 | the i-th key after a first key of at least one is its closed form modulo 2^32-1; zero never returns |
| `Gena.KeysAfterZero` | rust/src/broadcast_gena.rs:641-654 | after a first key of zero the keys are one, two, and so on with the same roll-over |
| `Gena.Observer.Arm` | rust/src/broadcast_gena.rs:148-207 | a subscription is held exactly on success, which is exactly a log without a failed call |
| `Gena.Observer.Observe` | rust/src/broadcast_gena.rs:211-224 | the subscription is always released; the log of a success is a confirming code list and then the release |
| `Gena.Observer.Cancel` | rust/src/broadcast_gena.rs:282-298 | the slot is empty afterwards even when the request fails |
| `JsonLimits.ValidateJsonLimits` | rust/src/broadcast_gena.rs:869-913 | the early-exit traversal succeeds if and only if node count, depth, text plus key bytes and every key are within bounds |
| `JsonLimits.Visit` | rust/src/broadcast_gena.rs:870-911 | a visit succeeds exactly when the subtree fits what is left, and counts it exactly |
| `Pairing.IdentityRoundTrip` | rust/src/model.rs:65-90 | the compact form of an identity reads back as that identity |
| `Pairing.ParseGroupStatus` | rust/src/model.rs:167-251 | exactly which responses parse, and configured means enabled with exactly one member in each role |
| `Pairing.RolesAreExact` | rust/src/model.rs:194-250 | a member gets a role if and only if both its name and its private identity are that role's |
| `Pairing.ReadPairConfiguration` | rust/src/controller.rs:810-825 | ready if and only if the answer is an enabled group of exactly the two configured devices; every answer satisfies the client's member rules |
| `Pairing.ObservedMember` | rust/src/controller.rs:133-168 | channels are the allowlisted ones without repetition, or just unknown exactly when they are not recognized |
| `Pairing.LabelsAreExact` | rust/src/controller.rs:170-180 | the allowlist is exact: a text is projected to a channel if and only if it is that channel's label |
| `Pairing.FromGroupStatus` | rust/src/controller.rs:113-130 | both members are projected to the channels of the one group member of that role name, or to unknown, and verified exactly when found once |
| `Service.EntityTagIsExact` | rust/src/web.rs:579-588 | a precondition names a revision if and only if it is that revision's entity tag within 64 bits |
| `Service.WebActor.MutateIfRevision` | rust/src/service_runtime.rs:230-243 | a stale revision changes nothing; a current one is exactly one controller action, a START for a start, a STOP for a stop, a recovery for a recovery; a start begins only Enter, BroadcastStart and AuraOn writes, the other two only AuraOff, BroadcastStop and Exit |
| `Service.OrderedWrites` | rust/src/service_runtime.rs:236-242 | every write in the whole log of a requested action is one of the request's own three |
| `Service.RevisionNeverDecreases` | rust/src/controller.rs:827-829 | in any interleaving revisions never go back and the coupling holds |
| `Service.AuthorizesAtMostOnce` | rust/src/service_runtime.rs:230-243 | two executed mutations with the same expected revision are possible only at saturation |
| `Service.SaturationAuthorizesAgain` | rust/src/controller.rs:827-829 | from every saturated state the same revision authorizes two mutations |
| `Service.ClientAcceptsExactlyBelowSaturation` | rust/src/local_client.rs:398-404 | the client accepts the reply to an executed mutation if and only if the revision was below saturation |
| `Service.ReadThenMutate` | rust/src/local_client.rs:374-390 | read status, send its tag: executed exactly when the revision is unchanged, and then nothing ran in between |
| `Service.WebActor.ShutdownForExit` | rust/src/service_runtime.rs:159-174 | one shutdown, then always the teardown; no error if and only if the shutdown was accepted or idempotent and the teardown is done; each failing outcome has its own error, which has priority; success leaves nothing unresolved |
| `Service.WebActor.TeardownTransportOnce` | rust/src/service_runtime.rs:138-147 | the teardown runs until it succeeds once, is logged as a teardown or a fault, and never touches journal or latch |
| `HttpText.FindInPrefix` | rust/src/local_client.rs:707-711 | more input never moves a first occurrence and can only add one that touches it |
| `HttpText.SplitJoin` | rust/src/web.rs:392-392 | splitting undoes joining of lines without the separator's first character |
| `HttpText.HeaderMapMeaning` | rust/src/web.rs:501-526 | the header map exists if and only if all lines are well formed with distinct names, and holds exactly those lines |
| `HttpText.MessageLayout` | rust/src/web.rs:148-160 | in a printed message the blank line, the lines and the body are found where they were put |
| `HttpText.PrintedFieldsRead` | rust/src/local_client.rs:628-644 | printed fields are read back exactly when distinct and readable, as their own lower-cased, trimmed map |
| `Web.RequestFrame` | rust/src/web.rs:375-447 | the framer computes FrameOf |
| `Web.AnnouncedLengthMeaning` | rust/src/web.rs:404-434 | the announced length, without the loop: well-formed lines, no transfer coding, at most one length field which carries the number |
| `Web.FramerIsPrefixAutomaton` | rust/src/web.rs:375-447 | proper prefixes of complete or incomplete input are incomplete, extensions of complete or rejected input are rejected |
| `Web.CompletePrefixIsUnique` | rust/src/web_server.rs:290-344 | a stream has at most one complete prefix, incomplete before it and rejected after it |
| `Web.ParseRequest` | rust/src/web.rs:449-565 | the parser's early-exit loop computes Parse |
| `Web.ErrorsAreExact` | rust/src/web.rs:449-565 | which error a request meets, from its bytes: unsupported version exactly for a readable head whose request line has another third word, length required exactly for an orderly POST without a length field, too large exactly for a head or an announced length over the limit |
| `Web.ParserAcceptsStrictFrames` | rust/src/web.rs:449-565 | the parser accepts if and only if the frame is complete and strict |
| `Web.LengthsAgree` | rust/src/web.rs:538-556 | framer and parser read the same length from the same lines |
| `Web.RejectedNeverParses` | rust/src/web_server.rs:256-305 | a rejected buffer and a complete request followed by anything never parse |
| `WebServer.ReadOneRequest` | rust/src/web_server.rs:278-345 | whatever the chunks, a completed read is a complete prefix of the stream, the buffer is bounded, and a flowing single request is read whole |
| `WebServer.ChunkingDoesNotMatter` | rust/src/web_server.rs:278-345 | two readings of one stream that complete are equal; a single request is read as itself or the connection closes |
| `WebServer.HandleConnection` | rust/src/web_server.rs:236-268 | the actor is reached only by the parsed form of the stream's complete prefix, never with bytes queued behind it |
| `LocalClient.ToHttp1Bytes` | rust/src/web.rs:148-160 | the printer's output is the message of status line, fields and body |
| `LocalClient.ReadResponse` | rust/src/local_client.rs:597-661 | the client's parser computes ParseResponse |
| `LocalClient.ResponseRoundTrip` | rust/src/local_client.rs:597-661 | every servable response is read back with status, fields and body, and exactly the size limits decide |
| `LocalClient.BuiltResponseRoundTrip` | rust/src/web.rs:1009-1048 | the client's parser reads every response the server builds back whole exactly when its body is within the parser's limit |
| `LocalClient.ReadToEnd` | rust/src/local_client.rs:558-583 | whatever the chunks, a completed read is the whole stream within the limit, and a flowing stream is refused exactly above it |
| `LocalClient.BuiltResponseArrives` | rust/src/local_client.rs:558-661 | read loop and parser together: a built response arrives whole if and only if head and body together are within the limit |
| `LocalClient.EntityTagReadsBack` | rust/src/web.rs:976-989 | the tag of a revision arrives unchanged and names that revision |
| `LocalClient.StatusLineReads` | rust/src/web.rs:1050-1065 | every three-digit status line is read back as its status |
| `Requests.BuildRequest` | rust/src/local_client.rs:437-470 | the request is printed exactly when every extra field is printable |
| `Requests.RequestRoundTrip` | rust/src/web.rs:449-565 | a printed request parses to the same verb, target, fields and body if and only if it is deliverable: sizes, distinct names, no inner tab, no forbidden field, no body on GET |
| `Requests.InnerTabIsRefused` | rust/src/local_client.rs:701-705 | a tab inside a value passes the client's check and is always refused by the server |
| `Requests.MutationRequestRoundTrip` | rust/src/local_client.rs:368-390 | every mutation request of the client parses as sent and its precondition names the revision the client read |

## Left out

- Real sockets, D-Bus, BlueZ, TLS, timers and threads: their answers are nondeterministic values or schedules.
- File ownership, mode, symlink and `openat2` checks, and the process lock: a failed check is one more failing open.
- XML, JSON and percent decoding: callbacks, group responses and event bodies start from parsed trees; string lengths in JSON limits count characters as bytes.
- Host, Origin, CSRF, routing and body rules of `WebApp::handle`: between the parser and the actor the model has no further filter.
- Label tables and the flattening of backend errors into public failure names: `BackendError` and `Failure` carry the underlying reason.
- The seventeen-character colon form of an identity; only the compact form is modelled.
- The deadline loops that write a response or a request.
- The legacy backend and the Python fallback session.
- The age of the last action in a status, and the readiness page.
- Runs.NoWriteWhileUnresolved: assumes that no host crash hits a directory whose own entry is not durable while a debt is open; `Runs.SafeExactlyWhenAnchored` proves that this assumption is needed.
- Runs.OnlyRecoveryResolves: carries the same assumption as `Runs.NoWriteWhileUnresolved`.
- Runs.QuietUntilRecovery: carries the same assumption as `Runs.NoWriteWhileUnresolved`.
- NativeCore.Core.Start: the contract decides between accepted, rejected and unknown, but not which reason accompanies the last two.
- NativeCore.Core.Stop: the same about its reasons.
- Acquisition.RetryConnectAttempts: the duration of an attempt is given; that a scan respects its window is the caller's assumption.
- LocalClient.BuiltResponseRoundTrip: content type, nonce and the one extra value are printable and at most 120 characters, which covers every value the server uses; the read limit before the parser is in `LocalClient.BuiltResponseArrives`.
- LocalClient.BuiltResponseArrives: the same bounds on content type, nonce and extra value.
- Requests.MutationRequestRoundTrip: host and token are printable and at most 64 characters, the path at most 40, which covers every request the client sends.
