# Verified model of the Zyguor gateway

The gateway stands between an agent and the things it asks for. Requests that write a file, run `cargo test`
or send an HTTP POST are held until an administrator approves them. This project models that machinery and
proves what it is for:

* a reviewed operation runs at most once, and only as it was reviewed;
* it runs behind its audit records, and a rejection is final;
* what came back from it is what its completion record and the administrator's answer say;
* what an agent runs without review is what it asked for, and the configuration's own entry allows it;
* no held request disappears without a record, through process death and power loss at any step;
* what `cargo test` runs on is what was fingerprinted for review, unless the hash collides;
* a written file is never seen half written.

`dafny verify dfyconfig.toml` checks everything.

## How the model is built

**The durable review store** (`src/pending_review.rs`).
`Execution` and `Persisted` hold the data and the two conversions, with the loops that write and read the list
of reviews. `Disk` is a directory at the level of system calls: inodes, the names that are shown, and the set
of directory images that power loss could bring back. `ReviewStore.PendingReviewStore` is the class with its
two maps; a save creates a temporary, writes, syncs, renames, syncs the directory and cleans up, one call at a
time, any of which may fail. It is proved to do what the functions of `StoreOperations` say, on the triple of
memory, shown file and surviving images, and to leave, at every moment of a save, a file that means what a
finished save with one of its three outcomes would have made it mean.

**The lifecycle** (`src/main.rs`).
`Lifecycle` is a state machine. One administrator command is in progress at a time, each of its states being
one lock section or one outside call; any number of agent calls interleave with it, and so does anybody else
who changes the workspace. Every save, audit write and operation may come out in any way, and process death or
power loss may happen before any step. `Workplace` is the workspace as this part meets it: a step that captures
evidence, compares it or runs an operation is tied to what the workspace is at that step, and a run keeps what
it was at every event and what each operation came back with. `History` folds the administrator-side events into an account per request.
`LifecycleInvariant` and `LifecycleSteps` prove one invariant of every step, and `Guarantees` draws the theorems
about all runs. `Outcomes` says what is recorded and answered of an operation, case by case from what the write, the
Cargo run or the POST came back with, `Commands` that everything recorded, carried out or answered belongs to the
one command being served, and what an error leaves, and `AgentLanguage` what an agent's call may run and
record. `Finality` and `Acknowledgement` say which answers are final and when a request can still be
invoked, `AgentCalls` what an agent's call has left when it ends with an error, and `Scenarios` builds the runs
in which the less pleasant cases happen.

`AdminHandler.Gateway` is the code itself: the handler, its helpers and the sections of the agents' calls as
methods over the shared store, the audit log and the workspace, which capture, compare, copy and write by
calling the methods of the other parts. Each is proved to take steps of the machine (`HandlerSteps`), so that
the theorems hold of the code and its answers are proved true. Between two sections any number of calls may
begin and move on. Each method also keeps account of the locks it takes (`LockScripts`), and of the records
that stand in the log.

**Fingerprint and snapshot** (`src/workspace_fingerprint.rs`, `src/workspace_snapshot.rs`, `src/cargo_test.rs`).
`FileTree` is a tree as a map from paths to items; `PathOrder` the order of paths; `Encoding` the
length-prefixed stream, with a decoder; `Coverage` which files it is about, their names spelled out. `Fingerprint` is the walk. Each of its system calls answers for itself,
because others may change the workspace between any two of them; the fingerprint is tied to what the walk has
read, and if nobody changes anything that is the workspace's covered files, whatever order directories are listed
in. `Snapshot.FileSystem` copies the same inputs in a second recursive walk that changes the tree step by step, and
compares fingerprints before a run may start; a snapshot may be asked for anywhere, the source directories
included. `Binding` joins both parts, and the file writes, to the runs of the lifecycle, in which every capture and
every revalidation of a fingerprint has a walk of its own behind it.

**Files, log and locks** (`src/filesystem.rs`, `src/audit.rs`).
`WriteFile` is the target check, the recorded target state and the atomic replacement. The directories it works
on and the tree the walks go over are one workspace: `Mirror` says what each shows of the other, and that writes,
temporaries that are left and snapshots change both alike. `Uuids` is the text of a version 4 UUID and the names
made with it, and `Room` says when there is room for files of the gateway's own. `AuditLog` is one append, call by
call, and what any history of appends and power losses leaves of the confirmed ones. `LockDiscipline` interleaves
any number of threads at every acquisition, release and write. `Policy` is the policy table and its validation.

Nondeterminism (`*`) stands for everything the gateway does not control: failures, scheduling, directory
order, the results of operations. Methods take a flag `reliable`; when it is set no I/O operation fails, and the
contracts then say exactly when the method succeeds. The hash is any function; what depends on it being
injective is stated as "equal, or a collision".

## Where the code does less than one might expect

Each of these is proved to happen, and exactly when.

* `insert` looks at the pending map only. With an id that is already claimed it puts the id in both maps and
  writes a file the loader refuses (`StoreOperations.OverlapExample`, `Persisted.OverlapIsRefused`); store and
  file stay in agreement exactly if the id is not claimed, the review cannot be written, or the save is rolled
  back (`StoreOperations.InsertKeepsAgreement`, `ReviewStore.PendingReviewStore.Insert`). Fresh ids, drawn at
  `src/main.rs:1327`, are what rules it out; the run theorems use exactly that.
* An acknowledgement answered as uncertain is not always final: `Scenarios.AcknowledgedThenInvoked` is a run in
  which the request is acknowledged, power is lost, and the request is approved and invoked. That can happen
  exactly if the claim that is acknowledged was itself answered as uncertain, and since then no save has
  committed and power has not been lost (`Acknowledgement.AcknowledgementFinality`). Every other success is
  final (`Finality.AnsweredIsFinal`).
* A record whose write returned Ok is not always safe from power loss. Over every history of appends, stopped
  anywhere, and power losses, it is exactly if the call that created the log got past its directory sync, or
  the file has come back from a power loss since (`AuditLog.ConfirmedSurvives`). The bad case takes three
  events (`AuditLog.RecordedCanBeLost`).
* Behind a torn write the next record is read as part of the torn line: a record is a line of its own exactly
  if the log was empty or ended its last line (`AuditLog.RecordIsALine`).
* An error to the agent does not mean that nothing is held. A review is inserted before the purpose text is
  checked (`src/main.rs:326`, `1369`), and an insertion can take effect without being known to be durable
  (`Scenarios.InvalidPurposeHeld`, `Scenarios.UncertainInsertionHeld`). In every run these two are exactly the
  failed calls whose review has been held (`AgentCalls.FailedCallHeld`). An audit call can return Err after the
  record was written (`src/audit.rs:253-262`); theorems about records are about calls that returned Ok.
* Approving a write compares the target with what was recorded, then claims and writes; the write itself
  re-checks only that the target is missing or a regular file. What it replaces is what was reviewed exactly if
  the target has not changed between the comparison and the rename, up to a collision
  (`Binding.ReplacedAsReviewed`); `Scenarios.UnreviewedOverwritten` is a run in which it has.
* A write that fails may leave its temporary, and below `src` or `tests` the fingerprint covers it. The evidence of
  a Cargo review survives a failed write exactly if no covered file has come or gone by it, up to a collision
  (`Binding.FailedWriteKeepsFingerprint`); `Scenarios.TemporaryChangesFiles` is a run in which one has come.

## Model

| member | source | states |
|---|---|---|
| Policy.Validate | src/config.rs:61-86 | a configuration is accepted exactly if no safe capability asks for review and no privileged one is allowed outright; an error names a capability that offends in the way it says |
| Policy.ValidConfigSeparatesPrivilege | src/main.rs:600-650 | validation is exactly what makes request evaluation send only privileged requests to review and never allow one, over all requests and scope checks; `Policy.EvaluateMeaning` says what evaluation gives |
| Policy.EvaluateMeaning | src/main.rs:600-650 | each kind of request is decided by its own entry of the configuration, with the reason of its kind; reads, writes and HTTP requests out of scope are blocked as such whatever the entry says |
| Policy.OwnEntryDecides | src/main.rs:600-650 | changing any other entry of the configuration changes no decision |
| Policy.ValidConfigTable | src/config.rs:61-86 | a configuration is valid exactly if addition, reading, git status and GET do not ask for review, and writing, Cargo tests and POST are not allowed outright |
| Policy.ReviewReasonMeaning | src/main.rs:695-706 | exactly the privileged requests have a review reason, and it is the one they were evaluated with |
| Persisted.ReviewRoundTrip | src/pending_review.rs:110-204 | writing and reading a review gives it back exactly for the shapes the constructors build; everything that can be read has such a shape and is written back unchanged up to its status |
| Persisted.ReadAsWritten | src/pending_review.rs:110-204 | field by field, what is read from a written review: the same id, request and purpose, and the evidence its kind of request has |
| Persisted.SerializeMap | src/pending_review.rs:332-342 | whatever order the map yields, each review is written once with its status; it fails exactly if some review cannot be written |
| Persisted.Serialize | src/pending_review.rs:329-351 | both maps are written, pending first, under version 3; succeeds exactly if every review can be written |
| Persisted.FromSerialized | src/pending_review.rs:353-389 | the loader's loop succeeds exactly if the version is 3 and the ids are distinct, names any other version in its error, and otherwise builds the two maps; agrees with the recursive definition of loading |
| Persisted.LoadMeaning | src/pending_review.rs:353-389 | a decoded state of whatever version loads exactly if its version is 3 and its ids are distinct, and any other version is what the error names |
| Persisted.LoadListMeaning | src/pending_review.rs:364-388 | a list is accepted exactly if its ids are distinct, and the result holds each entry under its id in the map its status names, with disjoint maps and only reviewable requests |
| Persisted.SaveThenLoad | src/pending_review.rs:329-389 | loading what was saved from a well-formed store gives that store, for every order of both map walks |
| Persisted.LoadThenSave | src/pending_review.rs:329-389 | saving what was loaded writes a permutation of the list that was read |
| Persisted.OverlapIsRefused | src/pending_review.rs:371-375 | a store with one id in both maps saves to a file the loader refuses |
| Disk.PowerLossView | src/pending_review.rs:589-638 | of a file that is never torn, power loss leaves one of the complete contents that could survive |
| StoreOperations.OperationsKeepAgreement | src/pending_review.rs:284-311 | claim, restore and consume keep memory, shown file and every surviving image well formed and in agreement, for every outcome of the save |
| StoreOperations.InsertMoves | src/pending_review.rs:686-706 | an insertion moves one id, from nowhere to pending, and no other; it is refused exactly if the id is pending, and moves memory, file and images together as the save comes out |
| StoreOperations.ClaimMoves | src/pending_review.rs:732-754 | a claim moves one id from pending to claimed and no other, and each refusal says where the id is |
| StoreOperations.RestoreMoves | src/pending_review.rs:756-788 | a restoration moves one id from claimed back to pending and no other, only with the very review that was claimed |
| StoreOperations.ConsumeMoves | src/pending_review.rs:284-311 | a consumption moves one id from claimed to nowhere and no other |
| StoreOperations.InsertKeepsAgreement | src/pending_review.rs:686-706 | insertion keeps them in agreement exactly if the id is not already claimed, the review cannot be written, or the save is rolled back |
| StoreOperations.OverlapExample | src/pending_review.rs:686-706 | a run of insert, claim, insert with one id that ends with Ok and disagreement |
| StoreOperations.ClaimThenRestore | src/pending_review.rs:732-788 | a committed claim undone by a committed restore gives the same store, known durable |
| ReviewStore.SavePhases | src/pending_review.rs:525-662 | what the state file says before the rename, after it and after the directory sync, decoded, is exactly the three outcomes of a move |
| ReviewStore.CrashInsideSave | src/pending_review.rs:525-662 | at every system call of a save the file is complete, and after death or power loss there what is read back is what the finished save with that phase's outcome could leave |
| ReviewStore.SaveHistory | src/pending_review.rs:525-662 | at every moment of a save the file means, shown and surviving, what the save finished with the outcome of that moment would make it mean |
| ReviewStore.SaveIsPrivate | src/pending_review.rs:557-568 | from the moment it is created, whatever file a save creates has mode 0600, and no other file changes its mode |
| ReviewStore.LostMeans | src/pending_review.rs:391-507 | after power loss the file means one of the stores that could come back, and nothing else |
| ReviewStore.PendingReviewStore.LoadFrom | src/pending_review.rs:391-507 | if the file can be opened, inspected and read, starting from it succeeds exactly if it decodes, a missing file being an empty store, and memory is then what it decodes to |
| ReviewStore.PendingReviewStore.JustLoaded | src/pending_review.rs:391-507 | a store just read from a file is valid and means to the new process what the file meant to the old one |
| ReviewStore.PendingReviewStore.CommitThroughTemporary | src/pending_review.rs:557-641 | call by call the state file is old, then renamed, then synced, and the reported outcome names the phase reached, which is the last when no call fails; once renamed the name shows a new file with the whole state, synced, of mode 0600 |
| ReviewStore.PendingReviewStore.SaveToAnchoredPath | src/pending_review.rs:525-662 | a save of an unwritable store changes nothing; otherwise the outcome is before-commit exactly if the rename did not take effect, and the cleanup never touches the committed file and leaves no temporary if it can be removed |
| ReviewStore.PendingReviewStore.Insert | src/pending_review.rs:686-706 | the object and its file move as the insertion on memory, file and images says, with memory rolled back exactly before the commit, and at every moment of the save the file means an insertion with that outcome; an id that is claimed is not refused, and the file written then cannot be loaded |
| ReviewStore.PendingReviewStore.Claim | src/pending_review.rs:732-754 | object, file and every moment of the save move as the claim on memory, file and images says; when no call fails the save commits |
| ReviewStore.PendingReviewStore.RestoreClaimed | src/pending_review.rs:756-788 | the same for a restoration, which refuses a review that differs from the claimed one |
| ReviewStore.PendingReviewStore.ConsumeClaimed | src/pending_review.rs:284-311 | the same for a consumption |
| LifecycleSteps.StepInv | src/main.rs:1086-1418 | every step of the administrator, of any agent call, and every process death or power loss keeps the invariant |
| LifecycleSteps.RunInv | src/main.rs:1086-1418 | the invariant holds in every state of every run |
| LifecycleSteps.HoldingInv | src/main.rs:1365-1370 | inserting a freshly drawn id's review, with any outcome, keeps it, whatever command is in progress |
| LifecycleSteps.ClaimingInv | src/main.rs:1104-1110 | a claim that returns Ok hands out the recorded review and leaves no image with the id pending |
| Guarantees.AtMostOnce | src/main.rs:1020-1114 | in every run an id's operation is invoked at most once, and from then on the id is pending in no memory, file or surviving image |
| Guarantees.RejectionIsFinal | src/main.rs:830-851 | once a rejection is on record the operation has not been and never is invoked, and the id is never pending again |
| Guarantees.RecordedWasBuilt | src/main.rs:1327-1369 | every recorded review was built from one agent call's request, purpose and evidence when its fresh id was drawn |
| Guarantees.WhatWasReviewedRuns | src/main.rs:1098-1114 | the review an invocation uses is that one, whatever claims, restores, saves and reloads lie between |
| Guarantees.WriteAheadReviewed | src/main.rs:928-952 | a reviewed invocation stands right behind its command's start, a revalidation of the identical review, and the approval and pre-execution records, all in one command |
| Guarantees.WriteAheadAllowed | src/main.rs:328-346 | what an agent runs without review is unprivileged and has its pre-execution record first; the arms that would run a privileged request are never reached; `AgentLanguage` says what was asked for and allowed |
| AgentLanguage.CallsSayWhatTheyDid | src/main.rs:315-383 | in every run, from its beginning on a call's events are part of this: if its purpose is given, of at most 4096 bytes, and the configuration it found permits that very request, a record of the start, the request itself carried out, and a completion that says Success if that succeeded and Failed if not; if it does not permit it, one record that nothing was executed; or an error the call deserves. Nothing else, and nothing for what is blocked or held |
| AgentLanguage.OnlyPermittedRuns | src/main.rs:315-346 | in every run, whatever is run without review was asked for by the call that drew its id, with a purpose given; is an addition, git status, a read or GET in scope; is allowed by its own entry of the configuration; and comes right behind its pre-execution record among the events of that call |
| Guarantees.AuditLanguage | src/main.rs:830-1006 | an id's administrator-side records form a prefix of (Approval or Reconciliation)* (Rejection, or Approval PreExecution and perhaps Completion) Reconciliation*, and a completion states what the invocation just before it returned; `Outcomes` says what that is |
| Guarantees.NoSilentLoss | src/pending_review.rs:686-706 | an id whose insertion returned Ok is in exactly one map, in memory, file and every surviving image, until a rejection, reconciliation or pre-execution record for it exists |
| Guarantees.MemoryAndDiskAgree | src/pending_review.rs:271-311 | between steps memory is what the file decodes to, and every surviving image is a store of reviewable requests that can be written and is read back as itself |
| Guarantees.AnswersAreTruthful | src/main.rs:1116-1292 | a success answer means the operation succeeded, is recorded, and the id is nowhere; a failure answer reports the real result; an error means it was not invoked except the one that says it was; the errors for ineligible reviews and unexpected results never occur |
| Guarantees.RunAnswersAreTruthful | src/main.rs:1258-1292 | the same at every step of every run that ends a command; an acknowledgement answered with an error has changed neither memory nor disk |
| Outcomes.RunSaysWhatCameBack | src/main.rs:871-1247 | in every run, a write, Cargo run or POST returns what it came back with; right behind it come its completion record, which says Success exactly if the file was written, the tests passed or the status was 200 to 399, or its answer, or the end of the process; the answer carries the very result, error or status, as completed exactly in those cases, and as a lost completion record exactly if there is none; no other record or answer speaks of an operation, and the other records say NotExecuted, or Unknown for a reconciliation |
| Outcomes.SuccessIsEarned | src/main.rs:1116-1247 | in every run, a success answer stands right behind a completion record with Success, and that right behind an operation of that kind and id which came back with that very result |
| Commands.OneCommandAtATime | src/main.rs:1086-1292 | in every run, whatever is recorded, revalidated, carried out or answered is about the request of the command being served and of the kind that command has, and no command begins before the last was answered or the process ended |
| Commands.ErrorsAreTrue | src/main.rs:1086-1292 | in every run, an error says how memory and disk stand: what was not found was not there; what could not be recorded is pending again, known durable, or still claimed; what could not be saved has not changed, and where only its durability is uncertain memory has moved on |
| Finality.AnsweredIsFinal | src/main.rs:1249-1290 | in every run, an id answered as rejected, acknowledged or executed is in no map, file or surviving image ever after, and is never invoked again |
| Finality.DormantForGood | src/pending_review.rs:284-311 | a drawn id that no image has pending and no command or call is working on stays so and is never invoked |
| Finality.InvocableIffPending | src/main.rs:1098-1114 | between commands a drawn request can be invoked in some continuation of the run exactly if some image that could come back has it pending |
| Acknowledgement.PendingIffUncertainClaim | src/pending_review.rs:732-754 | a claimed request is pending in an image that could come back exactly if its claim was answered as uncertain, and since then no save has committed and power has not been lost |
| Acknowledgement.AcknowledgementFinality | src/main.rs:1274-1290 | a durable acknowledgement is final; after an uncertain one the request can still be invoked in some continuation exactly if its claim was answered as uncertain, and since then no save has committed and power has not been lost |
| Scenarios.AcknowledgedThenInvoked | src/main.rs:1274-1290 | a run that acknowledges a request as uncertain, and a continuation that loses power and invokes it |
| AgentCalls.FailedCallHeld | src/main.rs:1365-1376 | in every run, a call that ended with an error has had its review held exactly if its purpose was refused after the insertion or the insertion took effect without being known to be durable, and has left nothing exactly if no review was built or the save was rolled back |
| Scenarios.InvalidPurposeHeld | src/main.rs:326 | a run in which a call ends with an error about its purpose and its review is pending |
| Scenarios.UncertainInsertionHeld | src/pending_review.rs:686-706 | a run in which a call ends with an error about its insertion and its review is pending |
| History.UnbrokenInLanguage | src/main.rs:830-1006 | records whose account is not broken are in the audit language |
| History.AccountMeaning | src/main.rs:928-1006 | the folded account counts the invocations and finds the records the trace holds |
| AdminHandler.Gateway.Resume | src/pending_review.rs:391-507 | a process that starts with a store that means what the disk had left continues the run that was interrupted |
| AdminHandler.Gateway.StartAgain | src/pending_review.rs:391-507 | at whatever moment of whatever save, or between saves, the process has died or power was lost: if the file can be opened and read a new process starts from it and continues the run that was interrupted |
| AdminHandler.Gateway.CanStop | src/pending_review.rs:391-507 | between its sections the gateway can stop: its file is one a new process can start from |
| HandlerSteps.WhatIsMeant | src/pending_review.rs:391-507 | what is left of the file after process death or power loss is a restart of, or an image that could come back from, a state the interrupted run reaches |
| AdminHandler.Gateway.CaptureEvidence | src/main.rs:1329-1363 | what is captured for a review is the fingerprint of what the walk has read, or the target state there is; if nobody changes the workspace meanwhile and no I/O fails, it is captured exactly unless a link is covered or the target is not writable |
| AdminHandler.Gateway.AgentBegin | src/main.rs:1325-1363 | a call draws an id, is evaluated, captures what its review needs from the workspace as it is, and builds its review or evaluates to run or block, as the machine says |
| AdminHandler.Gateway.AgentInsert | src/main.rs:1365-1370 | the lock section of an insertion is the machine's step, does not disturb a command in progress or what is held, when nothing fails holds the review, and can stop at every moment of its save |
| AdminHandler.Gateway.AgentMove | src/main.rs:315-383 | every other step of an agent call, its records included, is the machine's step and disturbs nothing; an operation carried out is noted with how it went |
| AdminHandler.Gateway.OthersInBetween | src/main.rs:1313-1419 | between two sections of a command any calls may begin and move on and the workspace may change; the command, its records and what is held are not disturbed |
| AdminHandler.Gateway.PersistAuditLocked | src/main.rs:1442-1452 | takes the log's lock, writes, and drops it; returns Ok exactly if the record was confirmed, and then the log is the old log and that record's text; otherwise the old log is a prefix of the new one |
| AdminHandler.Gateway.InspectPendingRequest | src/main.rs:662-673 | hands out the pending review with that id if there is one, or else the command has ended saying so; it is still pending after others have acted |
| AdminHandler.Gateway.CompareEvidence | src/main.rs:708-773 | accepts only if what the review recorded is what is found, by a walk of its own for a fingerprint; if nobody changes the workspace meanwhile and no I/O fails, exactly if it is what the workspace is |
| AdminHandler.Gateway.RevalidatePendingRequest | src/main.rs:708-773 | goes on to the claim only if target state, fingerprint or destination are found unchanged, and if nobody changes the workspace and no I/O fails exactly then; otherwise the command has ended saying so |
| AdminHandler.Gateway.ClaimRequest | src/main.rs:652-661 | the claim of an approval or rejection; when nothing fails it hands out what memory has pending; it can stop at every moment of its save |
| AdminHandler.Gateway.RestoreClaimedRequest | src/main.rs:675-684 | puts the review back and ends the command with an answer that is true; it can stop at every moment of its save |
| AdminHandler.Gateway.ConsumeClaimedRequest | src/main.rs:685-694 | consumes the review and ends the command with an answer that is true; when nothing fails it hands out the claimed review; it can stop at every moment of its save |
| AdminHandler.Gateway.RecordAboutClaimed | src/main.rs:775-828 | a record about a claimed review; the command goes on as the write's result says, and every confirmed record of this process stands in the log, in order |
| AdminHandler.Gateway.AuditClaimedApproval | src/main.rs:853-869 | on an approval record that returned Ok the command goes on with a review that is eligible and has its evidence; otherwise the review was restored and the answer is true |
| AdminHandler.Gateway.AuditClaimedRejection | src/main.rs:830-851 | the rejection is recorded and the review consumed, or the answer says which of it failed |
| AdminHandler.Gateway.PerformWrite | src/main.rs:1118-1122 | Ok only if the target, on disk and in the tree, has become exactly the content and nothing else has changed; otherwise nothing has, except that a temporary may be left, or what had its name be gone, in both; if no I/O fails, UUIDs are left and the path is not too long, Ok exactly for accepted requests |
| AdminHandler.Gateway.TakeSnapshot | src/cargo_test.rs:147-160 | a snapshot that is made shows in the workspace if it is made there; the run may go on only if the copy has the approved fingerprint, and if no I/O fails exactly if the workspace has it and the copy is not made inside its own sources |
| AdminHandler.Gateway.PerformCargoTest | src/cargo_test.rs:147-183 | `cargo` is started only in a snapshot whose covered files have the approved fingerprint; if no I/O fails and there is room for a snapshot (`Room.Roomy`), exactly if the workspace has that fingerprint |
| AdminHandler.Gateway.RunOperation | src/main.rs:952 | exactly one invocation event is added, of the operation the request stands for on the workspace as it is, returning what was heard from outside: `cargo` is started or not, a POST is sent exactly if its destination is allowed, and nothing else is; if no I/O fails, then where there is room (`Room.CanWrite`, `Room.Roomy`) a write returns Ok exactly if it is accepted, and a Cargo test is started exactly if the workspace has the approved fingerprint |
| AdminHandler.Gateway.ExecuteReviewedAction | src/main.rs:928-1006 | starts only behind its pre-execution record; the outcome says what the operation returned and whether its completion was recorded; when nothing fails or disturbs, the operation was carried out on the workspace as it was at the start |
| AdminHandler.Gateway.ExecuteClaimedReviewedAction | src/main.rs:1020-1085 | consumes after execution, restores if nothing was started; the answer is true; when nothing fails or disturbs, the operation was carried out on the workspace as it was at the start |
| AdminHandler.Gateway.WriteReconciliationAudit | src/main.rs:811-829 | the record of an acknowledgement, without which nothing is consumed |
| AdminHandler.Gateway.InspectAndRevalidate | src/main.rs:1098-1102 | what is inspected is still pending when it has been revalidated, though other lock sections lie between |
| AdminHandler.Gateway.ExecuteApproved | src/main.rs:1112-1247 | behind the claim, when nothing fails, the answer reports the execution, and if nobody has touched the workspace that of the operation carried out on it; the arms for ineligible requests and missing evidence are dead |
| AdminHandler.Gateway.Reconcile | src/main.rs:1270-1290 | when nothing fails, what memory had claimed is acknowledged |
| AdminHandler.Gateway.Approve | src/main.rs:1098-1247 | an approval from inspection to answer, with others acting between its sections; the answer is true, and when nothing fails and nobody touches the workspace before the operation, a pending request is executed exactly if what was recorded is unchanged, and then, where there is room (`Room.CanWrite`, `Room.Roomy`), a write is answered as approved with its target written, unless its content is too long, and a Cargo test is started |
| AdminHandler.Gateway.Reject | src/main.rs:1249-1257 | a rejection from claim to answer; the answer is true, and when nothing fails a pending request is rejected |
| AdminHandler.Gateway.AcknowledgeClaimedRequest | src/main.rs:1258-1290 | an acknowledgement from reading to answer; the answer is true, and when nothing fails a claimed request is acknowledged |
| AdminHandler.Gateway.HandleAdminCommand | src/main.rs:1086-1292 | every command is a sequence of steps of the machine that ends with a true answer; when nothing fails it serves exactly the requests memory holds, and an approval that nobody disturbs is executed exactly if what was recorded is unchanged, and is then done, where there is room (`Room.CanWrite`, `Room.Roomy`): the write written, the Cargo test started |
| AdminHandler.Gateway.RunAdminListener | src/main.rs:1704-1731 | commands are handled one after another, and each answer was true at the point of the run where it was given |
| AdminHandler.Gateway.CodeInvokesOnce | src/main.rs:1086-1292 | at any point between the code's steps each operation was invoked at most once, none after a rejection, and what was invoked or rejected is pending nowhere |
| AdminHandler.Gateway.CodeRecordsInLanguage | src/main.rs:830-1006 | the records the code has written about a request are in the audit language |
| AdminHandler.Gateway.CodeSaysWhatCameBack | src/main.rs:928-1247 | at any point of the code, what an operation came back with is what its completion record and its answer say |
| AdminHandler.Gateway.CodeRunsWhatIsPermitted | src/main.rs:315-383 | at any point of the code, whatever a call has run without review was asked for by it and permitted by the configuration's own entry, and its events are in the language of calls |
| AdminHandler.Gateway.CodeServesOneCommand | src/main.rs:1086-1292 | whatever the code has recorded, carried out or answered belongs to the command it was serving |
| AdminHandler.Gateway.CodeInvokesAsReviewed | src/main.rs:1098-1161 | every invocation by the code stands behind its four events, is that of a review some call has built, and a started test run ran on the files that call has read, or there is a collision |
| AdminHandler.Gateway.CodeLosesNothing | src/pending_review.rs:686-706 | a held review is in exactly one of the object's maps until it is settled, and the file decodes to what the maps say |
| AdminHandler.Gateway.CodeInterleaves | src/main.rs:1086-1452 | however what the code's threads have done with the locks is interleaved: no thread holds both, some thread can always go on, and the free log is one whole section after another, and whole lines if no write has failed |
| PathOrder.SortSorts | src/workspace_fingerprint.rs:64-69 | sorting gives the same paths in order |
| PathOrder.SortedUnique | src/workspace_fingerprint.rs:64-69 | a set of paths has only one sorted listing, so the order of collection is forgotten |
| PathOrder.PathLessMeaning | src/workspace_fingerprint.rs:64-69 | one path is before another exactly if, where their names first differ, its name is less byte by byte, or it ends there |
| Encoding.JoinedInjective | src/workspace_fingerprint.rs:106-109 | different relative paths have different bytes |
| Encoding.JoinedSpelled | src/workspace_fingerprint.rs:106-109 | a path's bytes are its names in order, with a slash between them |
| Encoding.FrameSpelled | src/workspace_fingerprint.rs:108-111 | a file stands in the stream as the length of its path in eight bytes, the least significant first, its path, the length of its contents likewise, and its contents |
| Encoding.DecodeEncode | src/workspace_fingerprint.rs:108-111 | a decoder of the 64-bit little-endian length-prefixed form gives back every path and contents in order |
| Encoding.StreamInjective | src/workspace_fingerprint.rs:71-112 | equal streams come from equal maps of paths to contents |
| Encoding.FingerprintBinds | src/workspace_fingerprint.rs:71-121 | equal fingerprints mean equal files or a collision |
| Fingerprint.CollectFiles | src/workspace_fingerprint.rs:124-166 | in a directory that may change while it is walked over, each regular file is found once, in any order of listing, none is left out that every answer on the way admitted, and whatever the answers led to has been inspected; no link is passed over; if nothing changes or fails, it fails only for a link |
| Fingerprint.GatherRootFiles | src/workspace_fingerprint.rs:11-35 | likewise of the covered root files |
| Fingerprint.GatherDirectories | src/workspace_fingerprint.rs:37-62 | and of the files below the source directories |
| Fingerprint.ComputeFingerprint | src/workspace_fingerprint.rs:8-122 | whatever changes during the walk, the result is the hash of the stream of the files that were read: covered ones only, each read right behind an inspection that found a regular file, none left out that every answer admitted; if nobody changes the workspace these are its covered files, and if no I/O fails there is a result exactly unless a link is where the walk looks |
| Fingerprint.StandsStill | src/workspace_fingerprint.rs:8-122 | if all answers are those of one tree, what was read are exactly its covered files, and it has no link where the walk looks |
| Fingerprint.SameReading | src/main.rs:738-760 | two walks that come to the same fingerprint have read the same files, or there is a collision, whatever changed during either |
| Fingerprint.HoldsWhatWasRead | src/cargo_test.rs:147-160 | a tree with the recorded fingerprint holds exactly the files the walk has read, or there is a collision |
| Fingerprint.OnlyCoveredMatters | src/workspace_fingerprint.rs:5-62 | trees that agree on the covered names have the same covered files and fingerprint |
| Coverage.SameFingerprintSameInputs | src/workspace_fingerprint.rs:5-62 | two workspaces have the same fingerprint exactly if they have the same regular file, or none, as "Cargo.toml", "Cargo.lock" and "build.rs" and at every path below "src" and "tests", up to a collision; the names are spelled in bytes |
| Coverage.WalkReadsInputs | src/workspace_fingerprint.rs:5-62 | a walk reads regular files at these paths only, every one that was there all along, and in a workspace that stands still exactly the files there are |
| Coverage.SnapshotHasInputs | src/workspace_snapshot.rs:4-5 | a snapshot that was made has the workspace's files at these paths, and no other files |
| Fingerprint.CoveredEncodable | src/workspace_fingerprint.rs:108-110 | every covered path fits its length prefix |
| Snapshot.FileSystem.CopyDirectory | src/workspace_snapshot.rs:115-163 | on success exactly the files and directories below the source are below the destination; a destination inside the source is not refused, but the copying cannot succeed; nothing outside the destination changes; a link error exactly when there is a link, if no I/O fails and the destination is elsewhere |
| Snapshot.FileSystem.CopyWorkspaceInputs | src/workspace_snapshot.rs:46-113 | on success exactly the covered inputs are in the destination, which lies outside the source directories; if no I/O fails, a destination outside them fails only for a link |
| Snapshot.FileSystem.CreateSnapshot | src/workspace_snapshot.rs:15-34 | on success the snapshot is new, outside the source directories, has the workspace's covered files, no link and nothing else; on failure nothing outside it has changed, and when the removal does not fail, nothing at all |
| Snapshot.FileSystem.PrepareRun | src/cargo_test.rs:147-160 | a run may start only on a faithful copy with the approved fingerprint; if no I/O fails, exactly when the workspace has no covered link and that fingerprint and the snapshot is not made inside its source directories |
| Snapshot.SnapshotFaithful | src/workspace_snapshot.rs:46-113 | the two walks agree: a completed copy has the same covered files, no covered link, and nothing outside the covered names |
| Workplace.SameFiles | src/cargo_test.rs:147-160 | a snapshot that passes the comparison has the files that any walk with that fingerprint has read, or there is a collision; those of the workspace, if it stood still during the walk |
| Uuids.TextInjective | src/filesystem.rs:285 | different UUIDs have different texts |
| Uuids.TemporarySpelled | src/filesystem.rs:285 | a temporary is named ".zyguor-write-", the UUID, ".tmp", so different UUIDs give different names |
| Uuids.NewName | src/workspace_snapshot.rs:17-21 | where fewer names are taken than there are UUIDs, one of them makes a new name |
| Room.SpareIsRoomy | src/workspace_snapshot.rs:15-34 | a snapshot can be made under any free name if the temporary directory is there, outside the source directories and not too deep, and there are fewer files than UUIDs |
| Room.RoomExample | src/workspace_snapshot.rs:15-34 | a workspace and a temporary directory with room for a write and a snapshot |
| Binding.RunSights | src/main.rs:708-773 | in every run, at every revalidation what was recorded was what was found, every run was started behind the gate, every write wrote exactly its content if it returned Ok and changed at most its own temporary if not, and every POST that returned went to an allowed destination |
| Binding.ReviewedWorkspaceRuns | src/main.rs:1150-1161 | in every run, if an approved test run is started, the covered files of the snapshot it runs in are exactly those that were read when the review was recorded, or there is a collision, whatever changed during that walk and since; if the workspace stood still during the walk they are its covered files |
| Binding.ReviewedInputsRun | src/cargo_test.rs:147-160 | in every run, an approved test run starts in a snapshot that has, as "Cargo.toml", "Cargo.lock" and "build.rs" and at every path below "src" and "tests", exactly the files read when the review was recorded, or there is a collision |
| Binding.ManifestWasThere | src/main.rs:737-741 | in every run, when the approval of a test run was revalidated the workspace had something called "Cargo.toml" |
| Binding.ResultMeansStarted | src/cargo_test.rs:147-183 | an approved test run that returned a result was started in some snapshot |
| Binding.ReviewedTargetRevalidated | src/main.rs:708-735 | in every run, an invoked write's target had, when it was compared, the contents it had when the request was recorded, or was missing both times, or there is a collision |
| Binding.ReplacedAsReviewed | src/filesystem.rs:246-283 | in every run, a write that returned Ok wrote the reviewed content, and what it replaced is what was reviewed exactly if the target had not changed between the comparison and the rename, up to a collision |
| Scenarios.UnreviewedOverwritten | src/filesystem.rs:246-283 | a run in which the target changes after the comparison and an approved write that returns Ok replaces contents nobody has reviewed |
| Binding.PostedWhereAllowed | src/main.rs:901-926 | in every run, an approved POST that came back with a status went to a destination that was allowed both when it was revalidated and when it was sent |
| Binding.WriteUnfitsFingerprint | src/main.rs:738-760 | in every run, after an approved write that returned Ok under a covered name, with other contents than were read when a Cargo review was recorded, that review does not fit the workspace the write has left, or there is a collision |
| Binding.RevalidatedAsRecorded | src/main.rs:738-760 | in every run, whenever a Cargo review is revalidated the walk has read exactly what was read when the review was recorded, or there is a collision, whatever changed during either walk |
| Binding.RewrittenInputIsRefused | src/main.rs:743-760 | in every run, if since a Cargo review was recorded any of these files was rewritten, added or removed, and nobody changes the workspace during the walk, the approval ends as not revalidated, or there is a collision |
| Binding.WriteKeepsFingerprint | src/main.rs:738-760 | in every run, a write that returned Ok leaves the evidence of a Cargo review valid exactly if the target's name is not covered, or the target already had that content, or there is a collision |
| Binding.FailedWriteKeepsFingerprint | src/filesystem.rs:293-341 | in every run, a write that failed leaves it valid exactly if by its temporary no covered file has come, gone or changed, or there is a collision |
| Scenarios.TemporaryChangesFiles | src/filesystem.rs:333-341 | a run in which an approved write fails and leaves its temporary as a covered file |
| WriteFile.CheckComponents | src/filesystem.rs:253-271 | refuses exactly the paths with a component that could lead out of the workspace |
| WriteFile.Workspace.RevalidateWriteTarget | src/filesystem.rs:128-180 | if no I/O fails, accepts exactly the inner paths whose target is missing or a regular file |
| WriteFile.Workspace.CaptureWriteTargetState | src/filesystem.rs:181-244 | the state is missing, or the hash of all that is in the target, however the reads are cut |
| WriteFile.StateDecides | src/filesystem.rs:181-244 | recorded and current state are equal exactly if the contents are, or both are missing, or there is a collision |
| WriteFile.Workspace.WriteTextFile | src/filesystem.rs:246-345 | Ok replaces only the target, by exactly the content with the permissions of what was there (`WriteFile.WroteMeaning`); Err leaves it unchanged with at most the temporary behind, and not even that if it can be removed; if no I/O fails, Ok exactly for accepted requests (`WriteFile.AcceptedMeaning`) |
| WriteFile.WroteMeaning | src/filesystem.rs:293-331 | a write that went well leaves at the target one synced file with the whole content, with the mode of the file that was there, or that of any new file if none was; every other name in every directory stands for the same file |
| WriteFile.AcceptedMeaning | src/filesystem.rs:246-283 | accepted are at most 1048576 bytes, to a relative path that leads nowhere outside, ends in a name, and has a directory in which that name is missing or stands for a regular file |
| WriteFile.Folder.ReplaceThroughTemporary | src/filesystem.rs:285-344 | after every system call the target is as it was or exactly the new file, synced, and no file but the one under the temporary's name has been touched; a failed call removes that if it can, even where it was there before, but no directory |
| WriteFile.NeverHalfWritten | src/filesystem.rs:285-344 | at any moment, and after power loss at any moment, a reader finds the target as it was, as it could have come back before, or exactly the new file |
| Mirror.WroteMirrors | src/filesystem.rs:246-345 | after a write that returned Ok the tree of the workspace with the new content at the target shows what the directories show, in every directory |
| Mirror.UntouchedMirrors | src/filesystem.rs:246-345 | after one that failed so does the tree with the temporary that was left, as a regular file, or without what had its name |
| Mirror.PlacedMirrors | src/workspace_snapshot.rs:15-34 | so it does after something new has come to be anywhere in the tree |
| Mirror.PlaceSpelled | src/filesystem.rs:273-291 | a path of names leads to exactly these names, one after the other, from the root of the workspace |
| Mirror.PlaceWithout | src/filesystem.rs:253-276 | leaving out a component that stands for the directory it is in makes no difference |
| AuditLog.AnchoredAuditLog.Persist | src/audit.rs:169-269 | the calls of one append end in one of three ways: confirmed, absent or torn, or present but reported as failed; when none of them fails, confirmed |
| AuditLog.ConfirmedSurvives | src/audit.rs:169-266 | over every history of appends, stopped anywhere, and power losses, a confirmed record and all before it survive every continuation exactly if the call that created the log got past its directory sync or the file has come back from a power loss since |
| AuditLog.LinkedSinceBirth | src/audit.rs:236-266 | whether the log's directory entry is on disk was decided when the file came to be: no later append changes it |
| AuditLog.NoConfirmedRecordIsLost | src/audit.rs:169-266 | if every call that ever creates the log gets past its directory sync, no confirmed record is ever lost |
| AuditLog.RecordedCanBeLost | src/audit.rs:241-251 | a first call that cannot sync the directory and a confirmed second one, after which power loss leaves no log |
| AuditLog.RecordIsALine | src/audit.rs:69-76 | a reader finds a record as a line of its own exactly if the log was empty or ended its last line |
| LockScripts.StoreSection | src/main.rs:1104-1110 | a section that takes the store lock, uses the store and drops the lock leaves a well-behaved thread well behaved; the contracts of the code's sections say that this is all they do with locks |
| LockScripts.LogSection | src/main.rs:1442-1452 | a section that takes the audit lock, writes and drops the lock does too, and leaves whole lines unless its write is torn |
| LockScripts.ScriptsStart | src/main.rs:1086-1452 | what the code's threads have done with the locks is a start of the interleavings the theorems are about |
| LockDiscipline.NeverBoth | src/main.rs:1104-1114 | in every interleaving no thread holds the store lock and the audit lock together |
| LockDiscipline.NoDeadlock | src/main.rs:1365-1378 | as long as a thread is not done, some thread can take a step |
| LockDiscipline.SectionsInOrder | src/audit.rs:69-76 | whenever the audit lock is free the log is exactly what its sections have written, one after another in the order the lock was taken |
| LockDiscipline.WholeLinesInOrder | src/audit.rs:69-76 | and if no write has been torn, cutting the log at newlines gives exactly the records, even if a record takes several writes |

## Left out

- JSON text: a state file's payload is its decoded list, and a record's text is one line; serde_json is taken to emit no raw newline.
- SHA-256: any function from bytes to text.
- A store without a state file path, whose saves always succeed: `src/pending_review.rs:277`.
- Sockets, peer credentials, the MCP server and tokio: only that administrator commands are sequential and agent calls interleave with them.
- Agent calls in `AdminHandler`: they are written as the steps between which others may run, not as one method each, because a method body cannot be interrupted.
- Wasm, libgit2, reqwest, DNS and URL parsing: an operation returns any result of its kind, and which destinations are allowed is a set that may change at any time.
- Path resolution and directory handles of cap-std, symbolic links in parent directories: a write is modelled in the directory its parent path leads to.
- Process spawning, timeouts, capture files and environment of `cargo test`: the model ends where the process would be started; what it does to the workspace is anything.
- Numeric limits of the configuration, bounded reads, admin command parsing, response formatting: no property here turns on these parts.
- Lock poisoning, timestamp failures, message texts.
- Changes to the workspace by others while it is being copied into a snapshot, or while one target is compared or written to: in the runs others act between these steps, including between the comparison of a target and the write. During a fingerprint walk of a capture or a revalidation they act between any two system calls.
- Copying onto something others have just put into the snapshot: a snapshot is changed by nobody but the copying.
- Path length limits of file systems: the one limit is that a path's length is a machine word.
- A request for the very name that the UUID drawn for its own temporary gives: a drawn UUID is not in the request.
- File names that are not UTF-8: `to_string_lossy` is the identity here.
- Permissions of copied files and of the audit log, and what the umask takes from the mode of a new file: the mode a new file gets is a parameter.
- The order of agent records relative to administrator records of one id: the audit language is about the administrator's records, and the agent's own completion record of a held request is set aside.
- Edits of the state file by others: a run starts with no state file.
- Removal of a snapshot after a run: the model ends before.
