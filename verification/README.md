# Zero OS: a verified model of the kernel core and its audit trail

This project models five parts of Zero OS in Dafny and proves what they promise over every run:

- **The kernel state machine** (`Kernel*.dfy`). Seventeen syscalls over processes, capability tables, endpoints
  with message queues, metrics and id counters. `KernelSpec` gives the machine as a transition function: a syscall
  is decided (one effect, one reply, its commits), then performed. `Kernel` gives it as an object that updates its
  fields in place, and shows that each handler makes exactly the step of the transition function. Runs are
  sequences of registrations and syscalls, by any caller and with any arguments, from the empty kernel.
- **The audit layer** (`Fnv`, `Commits`, `CommitLog`, `Gateway`). The FNV-1a fold, the byte encoding of commits, the
  hash-chained commit log with its trimming, and the gateway that writes the event log and the commit log together.
- **Replay** (`Replay`, `StateHash`, `ReplaySystem`). The reducers that rebuild a system from its log, the canonical
  byte stream of the state hash, the incremental hasher, and verified replay.
- **The bump allocator** (`Allocator`). Its 32-bit arithmetic, a machine of any number of interleaved threads with
  stale loads and spurious swap failures, and the retry loop.
- **The worker's object heap** (`WasmHeap`) and **the identity paths** (`Paths`).

`Tables`, `Words` and `Common` hold ordered tables, machine words and shared types.

Words are integers with explicit wrap-around where the code relies on it: XOR, AND and NOT are defined bit by bit,
FNV multiplies modulo 2^64, and the allocator adds and subtracts modulo 2^32. Text that is hashed is a sequence of
UTF-8 bytes. Timestamps, the replies of the kernel function behind the gateway, and what rival threads ask for are
parameters.

## Where the code and its description differ

- The check that endpoint owners are not zombies is not an invariant: exit and kill leave endpoints in place.
  `ExitLeavesZombieOwner` is a run that breaks it; `CleanRunsExactly` says exactly which runs do.
- Log verification starts from a zero predecessor. `VerifiedExactlyUntrimmed` is the exact condition under which it
  accepts; `FirstTrimIsRejected` shows logs that it rejects for having been trimmed. An empty log passes with any
  head, so it binds nothing.
- Replaying the log is said to reconstruct the exact state. What is retained does so exactly up to 100000 appends:
  `RetainedSufficesExactly`; `RetainedFails` is the failing family.
- The cause of a commit is stored but not hashed: `CauseIsNotVerified`. `HeadBindsLog` is about the hashed fields.
- A commit type for registrations is declared, but registering a process emits nothing: `RegistrationsAreNotLogged`.
  `EmittedSufficeExactly`: the emitted commits account for a run if and only if nothing was registered on the way.
  `AuditFollowsRun` takes the registrations as a further input.
- Sending with capabilities does not count towards the sender's own metrics: `SendersCountAllButCapSends`.
- The commit of a grant does not name the rights given: `HistoryForgetsPermissions`.
- No syscall sets an expiry: `AuthorityHasLineage` shows that every capability of a run from the empty kernel has
  expiry 0. `ExpiryIsFinal` and `ExpiryFreezesQueue` therefore speak of kernels whose state was brought in with
  expiring capabilities, as any state that meets the invariant may be.
- The allocator keeps its promise exactly for heaps of at most 2^31 bytes: `SoundExactlyUpToHalf`, with the run
  `RunsBackwards` past the bound. The other allocator theorems assume that bound and a heap that lies inside the
  32-bit address space. Even with base and heap in the lower half one intermediate sum can wrap, without harm:
  `IntermediateSumsExactly` and `AlignmentSumWraps`.
- Dropping an index of the object heap that is not live is not guarded against: `DropSafeExactly`, with the harm of a
  second drop in `SecondDropSharesSlot`.
- Path validation accepts `.` components, trailing slashes and paths in no user's directory, all of which the
  documented rules forbid: `CodeAcceptsMoreThanDocumented`. `DocumentedExactly` says which accepted paths meet the
  rules, and `AcceptedIsCanonicalExactly` which are canonical.

## Model

| member | source | states |
|---|---|---|
| `Kernel.KernelState.constructor` | crates/zos-kernel-core/src/state.rs:40-50 | a new kernel is the empty state of the model |
| `Kernel.KernelState.RegisterProcess` | crates/zos-kernel-core/src/state.rs:173-187 | the new state is the old one with one more running process, an empty capability table and a fresh pid |
| `Kernel.KernelState.UpdateSyscallMetrics` | crates/zos-kernel-core/src/state.rs:252-257 | bumps exactly the caller's call count and last-active time, and nothing for an unknown caller |
| `Common.PermissionBits` | crates/zos-kernel-core/src/types.rs:136-157 | read, write and grant are bits 0, 1 and 2 of the byte, which reads back |
| `Common.SubsetIsBitwise` | crates/zos-kernel-core/src/types.rs:160-162 | the subset test compares the two bytes bit by bit |
| `Kernel.KernelState.InsertCapability` | crates/zos-kernel-core/src/capability.rs:68-73 | returns the slot taken and leaves every other table as it was |
| `Kernel.KernelState.KillProcess` | crates/zos-kernel-core/src/state.rs:216-223 | makes exactly the named process a zombie, and reports whether it was known |
| `Kernel.KernelState.StepExit` | crates/zos-kernel-core/src/step.rs:330-345 | refines the decision and effect of `Exit`; an unknown caller still leaves its commit |
| `Kernel.KernelState.StepKill` | crates/zos-kernel-core/src/step.rs:347-374 | refines the decision and effect of `Kill` |
| `Kernel.KernelState.StepListProcesses` | crates/zos-kernel-core/src/step.rs:376-387 | the loop over the pids realises `ListProcesses`; `ProcessListIsTable` says what that is |
| `Kernel.KernelState.StepCreateEndpoint` | crates/zos-kernel-core/src/step.rs:389-431 | refines the decision and effect of `CreateEndpoint`, zombies and unknown callers refused |
| `Kernel.KernelState.Deliver` | crates/zos-kernel-core/src/step.rs:491-506 | one message at the end of one queue, counted for its sender and globally |
| `Kernel.KernelState.StepSend` | crates/zos-kernel-core/src/step.rs:433-520 | refines the decision and effect of `Send`, each refusal in the order of the code |
| `Kernel.KernelState.StepReceive` | crates/zos-kernel-core/src/step.rs:522-587 | refines the decision and effect of `Receive` |
| `Kernel.KernelState.CollectCaps` | crates/zos-kernel-core/src/step.rs:641-659 | the collecting loop returns the capabilities of the named slots in order, or refuses if one is empty |
| `Kernel.KernelState.StepSendWithCaps` | crates/zos-kernel-core/src/step.rs:589-697 | refines the decision and effect of `SendWithCaps`; the sender's own counters do not move |
| `Kernel.KernelState.StepCall` | crates/zos-kernel-core/src/step.rs:699-720 | a call is a send that answers "would block" on success |
| `Kernel.KernelState.StepListCaps` | crates/zos-kernel-core/src/step.rs:722-732 | the loop over the slots realises `ListCaps`, empty for a caller without a table; `ListIsTable` says what that is |
| `Kernel.KernelState.StepCapGrant` | crates/zos-kernel-core/src/step.rs:734-814 | refines the decision and effect of `CapGrant` |
| `Kernel.KernelState.StepCapRevoke` | crates/zos-kernel-core/src/step.rs:816-838 | refines `CapRevoke`: the caller's own slot, or a refusal |
| `Kernel.KernelState.StepCapDelete` | crates/zos-kernel-core/src/step.rs:840-861 | refines `CapDelete`, with its own commit |
| `Kernel.KernelState.StepCapInspect` | crates/zos-kernel-core/src/step.rs:863-891 | the two tests and the report realise `CapInspect`; `InspectionPredictsSend` says what the report is good for |
| `Kernel.KernelState.StepCapDerive` | crates/zos-kernel-core/src/step.rs:893-957 | refines the decision and effect of `CapDerive` |
| `Kernel.KernelState.RemoveCapability` | crates/zos-kernel-core/src/capability.rs:86-88 | removes exactly one slot of one table and reports whether it was held |
| `Kernel.KernelState.Execute` | crates/zos-kernel-core/src/step.rs:269-324 | every syscall moves the object from one state, reply and commit list of the transition function to the next |
| `KernelInvariant.StepKeepsInv` | crates/zos-kernel-core/src/step.rs:269-324 | every syscall by any caller keeps the whole invariant |
| `KernelInvariant.RunSatisfiesInv` | crates/zos-kernel-core/src/invariants.rs:35-208 | in every reachable state tables match, owners exist, every held or queued capability names an existing object, ids and slots are below their counters and capability ids are globally unique |
| `KernelInvariant.InsertionIsFresh` | crates/zos-kernel-core/src/step.rs:941-944 | in every reachable state a known process, zombie or not, has a table, so the zero-slot fallback is dead here and at lines 413-416 and 797-800, and an insertion overwrites nothing |
| `KernelChecks.CheckAllInvariants` | crates/zos-kernel-core/src/invariants.rs:35-44 | the report holds exactly the violations of the state, and is empty if and only if the declarative condition holds |
| `KernelChecks.CheckEndpointOwnership` | crates/zos-kernel-core/src/invariants.rs:79-113 | reports exactly the endpoints whose owner is missing and those whose owner is a zombie |
| `KernelChecks.CheckCapabilityObjects` | crates/zos-kernel-core/src/invariants.rs:116-157 | reports exactly the slots that name a missing endpoint or process |
| `KernelChecks.CheckAllCapIds` | crates/zos-kernel-core/src/invariants.rs:189-205 | reports exactly the held capability ids that are not below the counter |
| `KernelChecks.CleanWhenOwnersLive` | crates/zos-kernel-core/src/invariants.rs:35-208 | in every reachable state the full check is clean if and only if no endpoint owner is a zombie |
| `KernelChecks.ExitLeavesZombieOwner` | crates/zos-kernel-core/src/invariants.rs:96-108 | a three-event run whose last step breaks the zombie-owner check |
| `KernelChecks.CleanUnlessOwnerDies` | crates/zos-kernel-core/src/step.rs:330-374 | a step from a clean state stays clean if and only if it is not the exit or killing of a process that owns an endpoint |
| `KernelChecks.CleanRunsExactly` | crates/zos-kernel-core/src/step.rs:330-374 | over whole runs: the report is clean if and only if no event was the exit or kill of a process that owned an endpoint at that moment |
| `KernelAuthority.AuthorityOnlyDescends` | crates/zos-kernel-core/src/step.rs:734-814 | after any continuation, each capability on an already allocated object descends from one held before: same object and expiry, no more rights |
| `KernelAuthority.MissingRightStaysMissing` | crates/zos-kernel-core/src/step.rs:893-957 | if no capability on an allocated object carries a right, none ever will |
| `KernelAuthority.AuthorityHasLineage` | crates/zos-kernel-core/src/step.rs:389-431 | every capability of a run from empty comes with a chain: creation of its endpoint, then successful grants, each by a holder of an unexpired grant right at that step |
| `KernelAuthority.ExpiryIsFinal` | crates/zos-kernel-core/src/capability.rs:38-40 | once all capabilities on an object are expired, no later use of one succeeds, whatever is derived or granted meanwhile |
| `KernelIpc.DeliveryIsFifo` | crates/zos-kernel-core/src/types.rs:232-248 | over any run, messages received followed by those pending are those pending at the start followed by those sent |
| `KernelIpc.SentUnderAuthority` | crates/zos-kernel-core/src/step.rs:433-720 | each message sent has an event: its true sender held an unexpired write capability on that endpoint, the 4096-byte and four-capability limits hold, and it carries the tag, the data and copies of the capabilities named in the call, each with its own rights |
| `KernelIpc.ExpiryFreezesQueue` | crates/zos-kernel-core/src/step.rs:522-587 | once all capabilities on an endpoint are expired its queue never changes again |
| `KernelIpc.RunConserves` | crates/zos-kernel-core/src/step.rs:498-506 | over every run, messages received plus queued equal the global count and the endpoint totals, and bytes received plus queued equal the byte totals |
| `KernelIpc.SendersCountAllButCapSends` | crates/zos-kernel-core/src/step.rs:681-683 | the senders' own counters add up to the global count less the sends with capabilities |
| `KernelCommits.SyscallsAccountForChange` | crates/zos-kernel-core/src/step.rs:269-324 | over any run of syscalls from any state meeting the invariant, folding the emitted commits over liveness, owners, occupied slots and next slots of the first state gives exactly those of the last |
| `KernelCommits.EmittedSufficeExactly` | crates/zos-kernel-core/src/step.rs:269-324 | from any state meeting the invariant, the emitted commits account for a run if and only if no process was registered on the way |
| `KernelCommits.AuditFollowsRun` | crates/zos-kernel-core/src/step.rs:175-213 | told the pid of each registration, that fold follows every run from the empty kernel |
| `KernelCommits.RegistrationsAreNotLogged` | crates/zos-kernel-core/src/state.rs:173-187 | no commit of any run announces a registration |
| `KernelCommits.RefusalIsSilent` | crates/zos-kernel-core/src/step.rs:269-324 | a refused syscall emits no commit and changes only the caller's call count and last-active time |
| `KernelCommits.HistoryForgetsPermissions` | crates/zos-kernel-core/src/step.rs:802-813 | what the log leaves out: grants of different rights leave equal commits and different capabilities |
| `KernelBounds.CountersBelowRunLength` | crates/zos-kernel-core/src/state.rs:53-71 | in a run of n events ids, slots, generations and message counts are at most n + 1 and byte counts at most 4096 n, so no word wraps in a run the host can reach |
| `KernelReplies.SuccessExactly` | crates/zos-kernel-core/src/step.rs:269-324 | in every reachable state a syscall succeeds if and only if the caller has what it needs; "endpoint not found" is never answered |
| `KernelReplies.TablesFollowReplies` | crates/zos-kernel-core/src/step.rs:269-324 | in every reachable state, for every syscall: a grant, derivation or creation adds exactly one capability, in the slot it answers, with the rights asked for and the object of its source; a revocation or deletion removes exactly one; nothing else and no refusal touches any table |
| `KernelReplies.InstalledAsAsked` | crates/zos-kernel-core/src/step.rs:734-956 | what a successful grant or derivation leaves in the slot it answers: the rights asked for, the object and expiry of the source, the next generation, a fresh id |
| `KernelReplies.RepliesExactly` | crates/zos-kernel-core/src/step.rs:269-324 | in every reachable state every syscall is answered exactly so: which error when several apply, and otherwise which reply |
| `KernelReplies.InspectionPredictsSend` | crates/zos-kernel-core/src/step.rs:863-891 | an inspection report decides exactly which sends through the slot succeed |
| `KernelReplies.InspectionMatchesList` | crates/zos-kernel-core/src/step.rs:863-891 | a capability that is listed is also reported, field by field, its rights as the three low bits |
| `KernelRecords.CommitsAnnounceExactly` | crates/zos-kernel-core/src/step.rs:175-213 | which commits a syscall leaves, with what in every field, stamped with its time |
| `KernelRecords.MessagesAreJournalled` | crates/zos-kernel-core/src/step.rs:508-518 | over every run, the send commits that name an endpoint are exactly the journal of the messages sent to it, in order |
| `KernelRecords.JournalMatchesMessages` | crates/zos-kernel-core/src/step.rs:685-695 | note for note, sender, endpoint, tag and size of the message and the time of the event that sent it |
| `KernelLife.ProcessOrigin` | crates/zos-kernel-core/src/state.rs:173-187 | every process of a run has the name, the start time and the pid of one registration |
| `KernelLife.StatusFollowsRun` | crates/zos-kernel-core/src/state.rs:216-223 | a process is a zombie if and only if it exited or was killed during the run, and runs otherwise |
| `KernelLife.ListedAsRegistered` | crates/zos-kernel-core/src/step.rs:376-387 | a process is listed under its registered name, as a zombie if and only if it has ended |
| `KernelLife.MetricsFollowRun` | crates/zos-kernel-core/src/state.rs:252-257 | the metrics of every process are the tally of its own calls since its registration |
| `KernelLife.EndpointMetricsFollowRun` | crates/zos-kernel-core/src/types.rs:232-248 | the metrics of every endpoint count what was sent to it; the high-water mark is the peak of its queue |
| `KernelLife.FirstIdsAreOne` | crates/zos-kernel-core/src/state.rs:40-50 | the first process, endpoint and capability of a run have id 1 |
| `KernelReplies.DeriveThenDelete` | crates/zos-kernel-core/src/step.rs:840-861 | deleting what was just derived puts every capability table back |
| `KernelReplies.ListIsTable` | crates/zos-kernel-core/src/step.rs:722-732 | the capability list is the caller's table in slot order, nothing missing and nothing else |
| `KernelReplies.ProcessListIsTable` | crates/zos-kernel-core/src/step.rs:376-387 | the process list is the process table in pid order, each with its name and status, nothing missing and nothing else |
| `Fnv.ScaleInjective` | crates/zos-axiom/src/commitlog.rs:175-211 | multiplying by the FNV prime is injective on 64-bit words |
| `Fnv.AbsorbInjective` | crates/zos-axiom/src/replay.rs:287-290 | one FNV-1a step is injective in the word and in the byte |
| `Fnv.AbsorbFromZero` | crates/zos-axiom/src/commitlog.rs:177-182 | from the zero word, one step is the byte times the prime |
| `Fnv.AbsorbXorsFirst` | crates/zos-axiom/src/replay.rs:287-290 | one step is exclusive-or first and multiplication second |
| `Fnv.PublishedVectors` | crates/zos-axiom/src/commitlog.rs:176-183 | the published 64-bit FNV-1a values of the empty text and of `a` |
| `Fnv.DigestWords` | crates/zos-axiom/src/replay.rs:327-338 | word k of a digest is the hash times the k-th power of the prime, little-endian |
| `Words.XorIsBitwise` | crates/zos-axiom/src/commitlog.rs:181 | each bit of the exclusive or is the sum of the two bits modulo 2 |
| `Words.LittleEndianReads` | crates/zos-axiom/src/commitlog.rs:186 | a word is read back from its little-endian bytes |
| `Fnv.OneByteChangesDigest` | crates/zos-axiom/src/commitlog.rs:369-377 | two equal-length inputs that differ in exactly one byte always have different 32-byte results |
| `Fnv.AbsorbAll` | crates/zos-axiom/src/commitlog.rs:179-195 | a byte loop is the fold over its input |
| `Fnv.Finalize` | crates/zos-axiom/src/replay.rs:327-338 | the four-chunk loop produces the expanded digest |
| `Commits.PayloadInjective` | crates/zos-axiom/src/commitlog.rs:213-367 | for one discriminant, the payload bytes determine every payload field |
| `Commits.EncodeInjective` | crates/zos-axiom/src/commitlog.rs:175-367 | the hash input determines predecessor, sequence number, timestamp, commit type and payload |
| `Commits.EncodeRoundTrip` | crates/zos-axiom/src/commitlog.rs:175-367 | an independent reader recovers every hashed field of every commit from its bytes |
| `Commits.OneByteTamperingShows` | crates/zos-axiom/src/commitlog.rs:175-378 | two commits whose hash inputs differ in one byte have different ids |
| `Commits.ComputeHash` | crates/zos-axiom/src/commitlog.rs:175-378 | the running computation equals one digest of the encoded commit |
| `CommitLog.LogIsWindow` | crates/zos-axiom/src/commitlog.rs:146-169 | after any number of appends the log is exactly the last 100000 commits ever made, with the right counter and head |
| `CommitLog.EverythingIsChained` | crates/zos-axiom/src/commitlog.rs:124-169 | the commits ever made form one correctly hashed chain from zero |
| `CommitLog.EverythingIsNumbered` | crates/zos-axiom/src/commitlog.rs:146-169 | the i-th commit ever made has sequence number i |
| `CommitLog.EverythingRecordsRequests` | crates/zos-axiom/src/commitlog.rs:146-169 | each append is recorded with its commit type, cause and time, in order |
| `CommitLog.VerifiedExactlyUntrimmed` | crates/zos-axiom/src/commitlog.rs:421-448 | verification accepts a log if and only if nothing was trimmed yet or the last trimmed commit hashed to zero |
| `CommitLog.FirstTrimIsRejected` | crates/zos-axiom/src/commitlog.rs:421-448 | a log that starts at time 0 is rejected as soon as its genesis commit is trimmed, whatever was appended |
| `CommitLog.CauseIsNotVerified` | crates/zos-axiom/src/commitlog.rs:175-367 | rewriting the cause of any commit of any log leaves the verdict of verification unchanged |
| `CommitLog.RangeIsSlice` | crates/zos-axiom/src/commitlog.rs:386-391 | a range query returns the slice of the retained window that its sequence numbers name |
| `CommitLog.ChainBinding` | crates/zos-axiom/src/commitlog.rs:421-440 | two chains with the same last id agree on every hashed field of every commit, or exhibit a collision or a commit hashing to zero |
| `CommitLog.HeadBindsLog` | crates/zos-axiom/src/commitlog.rs:421-440 | the same for two non-empty logs that pass verification with the same head |
| `CommitLog.HeadBindsEverything` | crates/zos-axiom/src/commitlog.rs:146-169 | two logs with one head, trimmed or not, were grown by commits that agree on every hashed field, or those exhibit a collision or a zero hash |
| `CommitLog.CommitLog.constructor` | crates/zos-axiom/src/commitlog.rs:124-143 | a new log holds the sealed genesis commit |
| `CommitLog.CommitLog.AppendCommit` | crates/zos-axiom/src/commitlog.rs:146-169 | the log becomes the append of the request and the answer is its new head |
| `CommitLog.CommitLog.TrimIfNeeded` | crates/zos-axiom/src/commitlog.rs:443-448 | keeps exactly the latest 100000 commits, in order |
| `CommitLog.CommitLog.FirstBroken` | crates/zos-axiom/src/commitlog.rs:426-437 | the loop finds the first commit that does not hash to its id or does not name its predecessor |
| `CommitLog.CommitLog.VerifyIntegrity` | crates/zos-axiom/src/commitlog.rs:421-440 | answers true if and only if every commit hashes to its id, names its predecessor from zero, and the last one is the head |
| `Gateway.GateIsWindow` | crates/zos-axiom/src/gateway.rs:65-95 | over any run both logs are windows of the unbounded trails |
| `Gateway.EventsArePaired` | crates/zos-axiom/src/gateway.rs:65-95 | requests have even ids, each answer the next odd id, naming its request and sender |
| `Gateway.TrailRecordsCalls` | crates/zos-axiom/src/gateway.rs:65-95 | every syscall is recorded with its number, arguments and result in the two events right after those of the operations before it |
| `Gateway.RetainedAnswersKeepRequests` | crates/zos-axiom/src/syslog.rs:146-151 | between operations, even after trimming, each retained answer directly follows its retained request |
| `Gateway.CommitsFormBlock` | crates/zos-axiom/src/gateway.rs:82-86 | the commits of one syscall are one contiguous block in order, and exactly the commits that name its request |
| `Gateway.RetainedCommitsTraced` | crates/zos-axiom/src/gateway.rs:82-86 | in the retained log, a commit names a syscall as its cause if and only if its sequence number lies in that syscall's block, and then records its commit type and time |
| `Gateway.SysLog.LogRequest` | crates/zos-axiom/src/syslog.rs:70-89 | appends one request event and answers its id |
| `Gateway.SysLog.LogResponse` | crates/zos-axiom/src/syslog.rs:92-110 | appends one answer event that names its request |
| `Gateway.AxiomGateway.Handle` | crates/zos-axiom/src/gateway.rs:65-95 | the pair of logs makes exactly one step of the model; the ids answered are the successive heads |
| `Gateway.AxiomGateway.AppendInternalCommit` | crates/zos-axiom/src/gateway.rs:123-125 | the commit log grows by one uncaused commit, whose id is answered and is the new head; the event log not at all |
| `Replay.ApplyKeepsWellFormed` | crates/zos-kernel/src/replay.rs:18-170 | each reducer keeps matching tables, existing owners, and ids and slots below their counters |
| `Replay.ReplayIsWellFormed` | crates/zos-axiom/src/replay.rs:229-234 | every replay from empty, also one that stops on an error, leaves a well-formed state |
| `Replay.IndependentCommitsCommute` | crates/zos-kernel/src/replay.rs:18-170 | two commits that touch different processes and different endpoints give the same state in either order |
| `Replay.SwapAnywhere` | crates/zos-axiom/src/replay.rs:229-234 | swapping two such neighbours anywhere in a log that replays gives the same final state |
| `Replay.TagsReadBack` | crates/zos-kernel/src/replay.rs:211-222 | exactly the tags 1 to 6 are accepted, and each is the object type it was written for |
| `Replay.InsertionReplays` | crates/zos-kernel/src/replay.rs:68-107 | the record of a capability replays to exactly that capability in its slot, generation and expiry zero; no other slot changes |
| `Replay.RemovalReplays` | crates/zos-kernel/src/replay.rs:109-117 | an insertion and its removal leave every table as it was |
| `Replay.BirthReplays` | crates/zos-kernel/src/replay.rs:23-41 | a creation and an endpoint replay to a running process of that name with an empty table, and its endpoint |
| `Replay.DeathReplays` | crates/zos-kernel/src/replay.rs:43-66 | an exit or fault replays to a zombie of the same name with its table kept; a destroyed endpoint is gone |
| `Replay.CountersAreTight` | crates/zos-kernel/src/replay.rs:18-170 | each counter is one more than an id the log uses, or still one |
| `StateHash.StreamDetermines` | crates/zos-kernel/src/replay.rs:172-207 | equal streams mean equal process names and states, equal capabilities in every slot and equal endpoint owners |
| `StateHash.DigestBinds` | crates/zos-kernel/src/replay.rs:172-207 | equal state hashes mean equal hashed state, or an explicit collision |
| `StateHash.CapLayout` | crates/zos-kernel/src/replay.rs:188-197 | where slot, id, type, object, rights, generation and expiry lie in the bytes of a capability |
| `StateHash.ProcLayout` | crates/zos-kernel/src/replay.rs:175-182 | where pid, name length, name and status lie in the bytes of a process, and which byte each status is |
| `StateHash.OwnerLayout` | crates/zos-kernel/src/replay.rs:200-204 | an endpoint is its id and then its owner |
| `StateHash.StreamLayout` | crates/zos-kernel/src/replay.rs:172-207 | the stream opens with the number of processes and closes with the endpoints |
| `StateHash.ExitShowsInDigest` | crates/zos-kernel/src/replay.rs:43-51 | replaying the exit of a process that is not a zombie always changes the state hash |
| `StateHash.StateHasher.WriteU8` | crates/zos-axiom/src/replay.rs:287-290 | the incremental hash stays the fold over all bytes absorbed |
| `StateHash.StateHasher.WriteAll` | crates/zos-axiom/src/replay.rs:293-321 | a multi-byte write absorbs exactly its bytes in order |
| `StateHash.StateHasher.WriteStr` | crates/zos-axiom/src/replay.rs:307-313 | a string is absorbed as its length and its bytes |
| `StateHash.StateHasher.WriteState` | crates/zos-kernel/src/replay.rs:172-203 | the nested loops absorb exactly the canonical stream of the state |
| `ReplaySystem.System.ExitProcess` | crates/zos-kernel/src/replay.rs:43-51 | the in-place reducer is the pure one, errors included |
| `ReplaySystem.System.InsertCapability` | crates/zos-kernel/src/replay.rs:68-107 | the in-place reducer is the pure one: generation and expiry zero, counters raised past the new ids |
| `ReplaySystem.System.ApplyCommit` | crates/zos-axiom/src/replay.rs:151-208 | one commit in place, with its error, is one step of the pure reducer |
| `ReplaySystem.System.ReplayCommits` | crates/zos-axiom/src/replay.rs:229-234 | the loop stops at the first error and leaves the state of the commits before it |
| `ReplaySystem.System.ComputeStateHash` | crates/zos-kernel/src/replay.rs:172-207 | the loops compute the digest of the canonical stream |
| `ReplaySystem.System.ReplayAndVerify` | crates/zos-axiom/src/replay.rs:249-267 | succeeds if and only if every commit applies and the rebuilt state hashes as expected; otherwise the error of the replay, or the mismatch |
| `ReplaySystem.VerifiedReplayRebuilds` | crates/zos-axiom/src/replay.rs:249-267 | a replay verified against the hash of a state rebuilds everything hashed of that state, or exhibits a collision |
| `ReplaySystem.HeadBindsReplay` | crates/zos-axiom/src/replay.rs:229-234 | two verified logs with one head replay to the same outcome, error included, or exhibit a collision or a zero hash |
| `ReplaySystem.RetainedSufficesExactly` | crates/zos-axiom/src/commitlog.rs:109-112 | replaying what a log retains reconstructs the state after every series of n appends if and only if n is at most 100000 |
| `ReplaySystem.RetainedFails` | crates/zos-axiom/src/commitlog.rs:443-448 | logs whose retained commits replay to an error because the creation they rely on was trimmed |
| `Allocator.RoundUpIsLeast` | crates/zos-unsafe-primitives/src/allocator.rs:118 | the rounded address is the least multiple of the alignment not below |
| `Words.AndIsBitwise` | crates/zos-unsafe-primitives/src/allocator.rs:118 | a bit of the conjunction is set if and only if both bits are |
| `Allocator.MaskIsRoundUp` | crates/zos-unsafe-primitives/src/allocator.rs:118 | the mask expression in 32-bit words is the rounded address, up to the word size |
| `Allocator.AttemptIsFit` | crates/zos-unsafe-primitives/src/allocator.rs:113-124 | for heaps up to 2^31 bytes, wrapping arithmetic serves exactly what unbounded arithmetic would |
| `Allocator.IntermediateSumsExactly` | crates/zos-unsafe-primitives/src/allocator.rs:118-119 | with base and heap in the lower half, the sum with the alignment wraps if and only if address and alignment are both 2^31, never for a request of at least one byte; no other sum wraps and the result is right in every case |
| `Allocator.AlignmentSumWraps` | crates/zos-unsafe-primitives/src/allocator.rs:118 | the heap, head and layout at which that sum wraps |
| `Allocator.FaithfulExactlyUpToHalf` | crates/zos-unsafe-primitives/src/allocator.rs:113-124 | the arithmetic is faithful at every head and layout if and only if the heap is at most 2^31 bytes |
| `Allocator.HeadRunsBackwards` | crates/zos-unsafe-primitives/src/allocator.rs:118-124 | past that bound, a request that does not fit is granted and the new head is 0 |
| `Allocator.RunsBackwards` | crates/zos-unsafe-primitives/src/allocator.rs:106-136 | three calls of one thread reach it: the heads are 0, 2^31 - 1, 2^31 + 1 and 0, and the last region leaves the heap |
| `Allocator.SoundExactlyUpToHalf` | crates/zos-unsafe-primitives/src/allocator.rs:106-136 | every run of the allocator returns sound regions if and only if the heap has at most 2^31 bytes |
| `Allocator.RunIsSafe` | crates/zos-unsafe-primitives/src/allocator.rs:106-136 | every interleaving with stale loads and spurious failures: the head never falls or passes SIZE, claims equal sequential service in claim order, null only when the request does not fit at the current head |
| `Allocator.AllocationsAreSound` | crates/zos-allocator/src/lib.rs:102-124 | every interleaving: all returned regions are aligned, inside the heap and pairwise disjoint, and their sizes add up to at most SIZE |
| `Allocator.HeadNeverFalls` | crates/zos-unsafe-primitives/src/allocator.rs:127-133 | between any two points of a run the head does not fall, and stays within SIZE |
| `Allocator.AttemptsAreBounded` | crates/zos-unsafe-primitives/src/allocator.rs:113-135 | if the swaps of one thread fail only when the head moved and its loads see the current head, it fails at most SIZE swaps in the whole run, whatever the other threads do |
| `Allocator.BumpAllocator.CompareExchangeWeak` | crates/zos-unsafe-primitives/src/allocator.rs:127-131 | succeeds if and only if it does not fail spuriously and the head is the expected one, and then serves the request |
| `Allocator.BumpAllocator.AllocOnce` | crates/zos-unsafe-primitives/src/allocator.rs:113-135 | one turn with a stale load, rivals and a spurious failure: it is repeated only if disturbed or if the head grew; null and addresses are right |
| `Allocator.BumpAllocator.Alloc` | crates/zos-unsafe-primitives/src/allocator.rs:106-136 | the retry loop under any interference, stale loads and spurious failures: failed attempts are at most the disturbances plus the growth of the head, so SIZE + 1 attempts without disturbance; an address is that of sequential service, null means it does not fit |
| `WasmHeap.ChainIsAcyclic` | web/public/worker.js:150-172 | a free chain that reaches the end visits no slot twice |
| `WasmHeap.ReservedValues` | web/public/worker.js:142-146 | a new heap has 132 entries: undefined everywhere but null, true and false in the last three |
| `WasmHeap.AddRefines` | web/public/worker.js:150-158 | adding returns an index that was neither live nor reserved, keeps the chain well formed and is one map update |
| `WasmHeap.DropRefines` | web/public/worker.js:168-172 | dropping a live index is one map removal and puts the slot in front of the chain |
| `WasmHeap.DropSafeExactly` | web/public/worker.js:168-172 | a drop keeps the slab well formed if and only if the index is reserved or live |
| `WasmHeap.FreeDropMakesCycle` | web/public/worker.js:168-172 | a second drop of a free slot closes the chain into a cycle |
| `WasmHeap.SecondDropSharesSlot` | web/public/worker.js:150-172 | after a second drop of any free slot, additions hand that slot out again while the first object put there is still in it |
| `WasmHeap.AddsFollowChain` | web/public/worker.js:150-158 | while there are free slots, additions hand them out in chain order, store each object and do not grow the array |
| `WasmHeap.ReuseIsLastInFirstOut` | web/public/worker.js:150-172 | dropping any different live indices and adding as many objects hands the indices out in reverse order with the new objects and leaves every other entry, the other free slots and the length as they were |
| `WasmHeap.WasmBindgenHeap.constructor` | web/public/worker.js:142-146 | starts as the empty map with the reserved values in place |
| `WasmHeap.WasmBindgenHeap.AddObject` | web/public/worker.js:150-158 | the map gains one entry at a new index; every other entry unchanged |
| `WasmHeap.WasmBindgenHeap.GetObject` | web/public/worker.js:162-164 | reads the entry, the reserved value, the link of a free slot, or undefined past the end |
| `WasmHeap.WasmBindgenHeap.DropObject` | web/public/worker.js:168-172 | reserved: nothing; live: the entry goes; anything else loses the chain |
| `WasmHeap.WasmBindgenHeap.TakeObject` | web/public/worker.js:176-180 | returns the entry and removes it; for any other index, what was read and what the drop leaves |
| `Paths.SplitJoin` | crates/zos-identity/src/paths.rs:153-185 | joined components split back into themselves |
| `Paths.JoinSplit` | crates/zos-identity/src/paths.rs:153-185 | a split path joins back into itself |
| `Paths.CanonicalKeepsComponents` | crates/zos-identity/src/paths.rs:153-185 | the canonical form has exactly the non-empty, non-dot components, in order |
| `Paths.CanonicalIsIdempotent` | crates/zos-identity/src/paths.rs:153-185 | canonicalising twice is canonicalising once |
| `Paths.CanonicalDecidesMeaning` | crates/zos-identity/src/paths.rs:153-185 | two paths have the same canonical form if and only if they have the same components |
| `Paths.AcceptedStaysInside` | crates/zos-identity/src/paths.rs:74-129 | an accepted path lies under `home` or `users` and has no parent component |
| `Paths.AllowedExactly` | crates/zos-identity/src/paths.rs:117-129 | being allowed is having `home` or `users` as first component and something after it |
| `Paths.AcceptedUnderBase` | crates/zos-identity/src/paths.rs:74-129 | under either base, a path is accepted if and only if the rest has no null, no doubled slash and no parent component |
| `Paths.RejectionExactly` | crates/zos-identity/src/paths.rs:74-114 | which error a rejected path gets, for each of the six errors |
| `Paths.CodeAcceptsMoreThanDocumented` | crates/zos-identity/src/paths.rs:5-14 | three accepted paths that the documented rules forbid: a dot component, a trailing slash, and no user directory |
| `Paths.DocumentedExactly` | crates/zos-identity/src/paths.rs:74-129 | an accepted path meets the documented rules if and only if it has no dot component, no trailing slash and, under `home`, a numeral and something below it |
| `Paths.NumeralExactly` | crates/zos-identity/src/paths.rs:204-219 | the numerals of that condition are exactly the printed user ids |
| `Paths.InHomeExactly` | crates/zos-identity/src/paths.rs:118-121 | a canonical path lies in a given home directory if and only if its first two components say so and something follows |
| `Paths.AcceptedIsCanonicalExactly` | crates/zos-identity/src/paths.rs:74-129 | an accepted path is canonical if and only if it has no dot component and no trailing slash |
| `Paths.UserPathExactly` | crates/zos-identity/src/paths.rs:204-219 | a subpath is accepted if and only if it has no double dot and no null; which error otherwise; the components of the result |
| `Paths.UsersAreSeparate` | crates/zos-identity/src/paths.rs:204-219 | paths built for different users never coincide or nest |
| `Paths.CanonicalizePath` | crates/zos-identity/src/paths.rs:153-185 | the two loops compute the canonical form |
| `Paths.ValidatePath` | crates/zos-identity/src/paths.rs:74-129 | the checks and the loop find the first rule broken |
| `Paths.BuildUserPath` | crates/zos-identity/src/paths.rs:204-219 | accepts exactly the subpaths without double dot and null, and answers the user's own tree |

## Left out

- Fixed-width kernel counters: ids, slots and metrics are unbounded; `CountersBelowRunLength` bounds them by the run length, so none reaches its width in fewer than 2^32 - 1 events.
- Fixed-width replay counters: a replayed id or slot of the largest word value, whose successor does not fit its counter, is not modelled as wrapping or stopping.
- Commit sequence numbers are unbounded and their low 64 bits are hashed; `ChainBinding`, `HeadBindsLog` and `HeadBindsEverything` take logs whose numbers fit 64 bits, and state hash theorems take states whose tables and names have fewer than 2^64 entries or bytes.
- Aliasing inside the kernel object: capability tables, processes and endpoints are values held in the object's maps, replaced as a whole when the code changes one of their fields.
- Event log queries, statistics, totals and detail accessors: they would only add easy members.
- `register_process_with_pid`, `remove_process` and `remove_endpoint`: not part of the runs, since they overwrite or drop entries that other tables still name.
- Recursive revocation: the code removes only the caller's own slot.
- Replay of process metrics and of fields the state hash does not read.
- The `System` behind replay and its equivalence with the kernel core: only the fields replay touches are modelled.
- Weak memory beyond the head: a relaxed load may return any value the head ever had, which includes every value the memory model allows; other locations are not modelled.
- `BumpAllocator` takes what happens around each attempt as a finite list: a loop that is disturbed for ever is outside the model, as the code gives no bound there.
- The null pointer is a value of its own rather than address 0.
- Heap indices of the worker are natural numbers; negative and fractional ones are not modelled.
- User ids are natural numbers rather than 128-bit words; key path builders on top of `BuildUserPath` are omitted.
- Collision resistance of FNV-1a: theorems say "equal, or here is a collision".
- Boot, platform layers, the supervisor, the syscall mailbox, storage, networking, cryptography, the desktop and all clients.
