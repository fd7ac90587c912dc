# Gateway verification

A Dafny model of the control-plane gateway: the supervisor relay hub, the
credential and policy store, the log buffers and the small text transformations
around them, with proofs about every interleaving, every run and every input.
`dafny verify dfyconfig.toml` checks everything.

## What is modelled

**Relay hub.** `RelayHub` is a transition system over the four kinds of hub
threads (ServeSupervisor with its reader, Disconnect, OpenChannel, ServeRelay).
Each critical section, channel operation and close is one action, so the windows
between unlocking and closing or sending are there. `RelayPairing` and
`RelaySessions` hold the two inductive invariants, `RelayRuns` and the end of
`RelaySessions` what they mean over whole runs. `RelayTraces` says, for each table
entry, closed session and outcome, exactly which past steps make it so. `RelayLocked` is the hub object
itself: the critical sections on its two maps, updated in place and tied to the
actions. `Keepalive` is the timed loop of a control stream.

**Store.** `StoreState` says what each store call does to the registry state and
to `state.json`; the class in `Store` does it in place, with the loops over maps
in an arbitrary order. `CredentialTraces` characterises every answer about a
credential in terms of the calls made, `RegistryTraces` the sandbox records and
proposals. `Reaping` compares before and after a reap. `StoreMachine` cuts
a flush into its stages and adds faults, crashes and restarts; `CrashSafety` says
what survives them. `PolicyHistory` relates the 32 retained revisions to the full
history, `ProviderAttachment` attaching to detaching, `SessionTtl` the configured
lifetime to a session's expiry.

**Policy changes.** `PolicyUpdate` is setSandboxBasePolicy with its rollback and
mergeProposalYAML; `ProposalApproval` is approveProposal on top of both.

**Logs.** `LogRing` is the bounded buffer, `LogFollow` the polling follow loop
beside appends and removals, `LogFleet` the loop over several sandboxes.

**Text.** `ShellQuote` against a lexer for the POSIX.1-2017 Shell Command Language
(sections 2.2.1, 2.2.2, 2.3 and 2.6.7), `CappedBuffer`, and `SandboxRoutes`, the
allowlist against the router.

## Findings

- A data stream can be stranded. If a claim is in flight when the opener drains its
  empty channel, the later send puts the stream in a buffer nobody reads, and no
  later step of the hub takes it out or closes it. `StrandingHappens` is such a run,
  `StrandedIffInFlightAtDrain` the exact condition, `StrandedOrder` the only order of
  events that leads there, `StrandedForGood` says that it stays.
- The comment on handleSandboxPolicy (internal/httpapi/providers.go:310-312) promises
  the previous base after a compose or validate failure. In memory that holds. On disk
  it fails if the flush of the rollback fails, an error the code ignores: the rejected
  text stays in `state.json` (`RollbackOnDiskIff`, `FailedRollbackKeepsRejectedText`).
- A failure outside that promise: if the flush of the new text fails, the error is
  returned without a rollback and the new text stays in memory (`FailureKeepsBaseIff`,
  `FailedFlushKeepsNewText`).
- An approval whose decision cannot be flushed reports an error, with the new base
  stored and the proposal still pending in `state.json` (`FailedApprovalKeepsAllIff`,
  `FailedApprovalOnDisk`, `FailedDecisionLeavesHalf`).
- With a rule name and several different rules in a proposal, the merged policy
  depends on Go's map order (`OverlayDeterministicIff`, `OverlayDependsOnOrder`).
- UpsertSandbox lets a caller overwrite the revision fields, of a known or a new
  sandbox (`UpsertMayForgeNumber`, `UpsertKeepsHistoryIff`, `WindowAlwaysRefinesIff`).
- A follower has every matching line exactly when their timestamps strictly increase
  and none of them left the buffer between two turns (`FollowIsComplete`). Either way
  of missing one happens (`EqualTimestampsLoseALine`, `EvictionLosesALine`).
- A lifetime above 9223372036 seconds wraps around (`LifetimeExactIff`); one second
  more already means no expiry (`LongLifetimesWrap`). A flag whose nanoseconds wrap
  to 0 counts as unset (`RefusedIff`).
- If the clock goes back, a session reaped as expired stays refused although its
  expiry is in the future again (`ReapedBeforeClockWentBack`); nothing that was
  revoked or deleted comes back, whatever the clock does.

## Assumptions

- Secrets, session ids and channel ids are never drawn twice; SHA-256 has no
  collisions. The clock is not assumed to be monotone; where a result needs a
  validation time at or after the reap times, its row says so.
- JSON encoding and decoding of the state are inverse to each other.
- `policy`, `provider` and YAML functions are arbitrary total functions; where YAML
  output has to read back, the row says so. The values
  of the two relay paths are arbitrary too, as long as they do not overlap with
  `/v1/sandboxes/`.
- A log line is stored with a non-zero timestamp: the clock used for stamping never
  reads the zero time.

## Model

| member | source | states |
|---|---|---|
| RelayPairing.StepKeepsPaired | internal/sshrelay/hub.go:167-241 | every action of every thread keeps the pairing invariant: pending entries open and unclaimed, claims unique and matching, each sent stream in one place |
| RelayPairing.SendFindsBufferEmpty | internal/sshrelay/hub.go:236-240 | a relay that has claimed and not yet sent finds its opener's ready channel empty |
| RelayRuns.ClaimedAtMostOnce | internal/sshrelay/hub.go:220-227 | over a whole run at most one ServeRelay claims a given opener's entry |
| RelayRuns.SendNeverBlocked | internal/sshrelay/hub.go:236-240 | in every reachable state the send has room and the close-on-full branch has not been taken |
| RelayRuns.DeliveredToItsOwnOpener | internal/sshrelay/hub.go:204-207 | a taken stream came from a relay call with the opener's own sandbox and channel, and no other opener has it |
| RelayRuns.StreamsConserved | internal/sshrelay/hub.go:182-240 | an accepted stream is always in exactly one place: with its relay, buffered, with an opener, or closed |
| RelayRuns.StrandedIffInFlightAtDrain | internal/sshrelay/hub.go:182-193 | after an empty drain a stream is in the buffer exactly when its claim was in flight at the drain and it has been sent since |
| RelayRuns.StrandedOrder | internal/sshrelay/hub.go:182-240 | a stream in a returned opener's buffer got there by claim, delete, empty drain, send, in that order |
| RelayRuns.StrandingHappens | internal/sshrelay/hub.go:186-192 | a concrete run that leaves an open stream behind |
| RelayRuns.StrandedForGood | internal/sshrelay/hub.go:182-193 | a stream in the buffer of a returned opener stays there, unclosed, in every later state |
| RelaySessions.StepKeepsLinked | internal/sshrelay/hub.go:86-122 | every action keeps: map entries are live sessions, and open sessions are entries or about to be closed |
| RelaySessions.OpenSessionsAccounted | internal/sshrelay/hub.go:105-122 | in every reachable state an open registered session is its sandbox's entry or held by a thread about to close it |
| RelaySessions.OneOpenStreamPerSandbox | internal/sshrelay/hub.go:105-111 | with no thread between unlock and close, a sandbox has at most one open control stream, the registered one |
| RelaySessions.RegisteredUntilReplaced | internal/sshrelay/hub.go:114-122 | a session stays registered until its own cleanup, a Disconnect or a newer session; an older session's cleanup never removes it |
| RelayTraces.EntryIffEntered | internal/sshrelay/hub.go:87-122 | the map entry of a sandbox is s exactly when s registered and no newer session, Disconnect or own cleanup followed |
| RelayTraces.GoneUntilSwap | internal/sshrelay/hub.go:86-95 | a Disconnect takes out its sandbox's entry and no other, and the sandbox stays out until a session of it registers |
| RelayTraces.PendingIffRegistered | internal/sshrelay/hub.go:173-227 | a channel is pending for an opener exactly from its registration on a connected sandbox to its cleanup or a ServeRelay with its sandbox and channel |
| RelayTraces.ClosedIffClosed | internal/sshrelay/hub.go:87-160 | a session is closed exactly when its reader, its end, its successor, a Disconnect or an opener that could not write has closed it |
| RelayTraces.OutcomeIffDecided | internal/sshrelay/hub.go:167-214 | an OpenChannel call ends with a stream exactly if it received it, with an error exactly if the lookup, the write or the select decided on that error |
| RelayTraces.ReceiveDelivers | internal/sshrelay/hub.go:204-207 | receiving takes the buffered stream and leaves the buffer empty |
| RelayTraces.ReturnsWhatItReceived | internal/sshrelay/hub.go:204-207 | a returned call has stream c exactly when it received c |
| RelayTraces.FindWrite | internal/sshrelay/hub.go:194-197 | a waiting opener has written its message, one about to close its session has failed to |
| RelayTraces.FindRegister | internal/sshrelay/hub.go:173-181 | the session an opener deals with was its sandbox's entry when it registered |
| RelayTraces.NotConnectedMeansClosed | internal/sshrelay/hub.go:208-209 | giving up as not connected needs that session closed |
| RelayTraces.FindAccept | internal/sshrelay/hub.go:232-235 | a relay call has a stream only if its accept succeeded |
| RelayTraces.ReturnedStreamWasDialled | internal/sshrelay/hub.go:167-241 | a returned stream was dialled with the sandbox and channel its opener began with |
| RelayTraces.DeliveryHappens | internal/sshrelay/hub.go:167-241 | a run that delivers a stream |
| RelayTraces.ReplacementHappens | internal/sshrelay/hub.go:99-122 | a run in which a reconnecting supervisor replaces its old session, which ends closed |
| RelayTraces.DisconnectHappens | internal/sshrelay/hub.go:86-95 | its continuation by a Disconnect, which closes the session it took |
| RelayTraces.OpenerIsNotStuck | internal/sshrelay/hub.go:167-214 | in every reachable state an unfinished OpenChannel call has a next step, and its waiting is open to all four ends |
| RelayTraces.RelayIsNotStuck | internal/sshrelay/hub.go:217-241 | so has an unfinished ServeRelay call; its send never waits |
| RelayLocked.Hub.RegisterSession | internal/sshrelay/hub.go:105-108 | the section does the Swap action to the maps and returns the replaced session |
| RelayLocked.Hub.UnlinkSession | internal/sshrelay/hub.go:115-119 | the section does the Unlink action and leaves every other session's entry |
| RelayLocked.Hub.TakeSession | internal/sshrelay/hub.go:88-91 | the section does the Take action, which `RelayTraces.GoneUntilSwap` characterises, and returns the victim |
| RelayLocked.Hub.RegisterChannel | internal/sshrelay/hub.go:173-180 | the section does the Register action, or refuses without a session |
| RelayLocked.Hub.RemoveChannel | internal/sshrelay/hub.go:183-185 | the section does the Remove action |
| RelayLocked.Hub.ClaimChannel | internal/sshrelay/hub.go:220-227 | the section does the Claim action: an entry of another sandbox is left and refused |
| Keepalive.Watch | internal/sshrelay/hub.go:142-162 | the loop drops at the first tick more than the timeout after the last sighting |
| Keepalive.NeverEarly | internal/sshrelay/hub.go:154-157 | a drop comes more than the timeout after every earlier sighting and the start |
| Keepalive.SilentDropBound | internal/sshrelay/hub.go:142-162 | a supervisor silent after s is dropped after s + timeout and by s + timeout + interval |
| Store.Store.Open | internal/storage/store/store.go:125-194 | fails without touching anything exactly when a file cannot be accessed or parsed; otherwise loads the file or the empty state and flushes it, under any fault |
| Store.Store.FlushLocked | internal/storage/store/store.go:196-210 | state.json changes only by a completed rename, to the whole in-memory state |
| Store.Store.KeepPrevious | internal/storage/store/store.go:258-271 | fields left empty keep their previous values |
| Store.Store.UpsertSandbox | internal/storage/store/store.go:255-275 | memory and files after the call under any fault |
| Store.Store.DeleteSandbox | internal/storage/store/store.go:278-289 | removes the record, its token and exactly its sessions, in any iteration order |
| Store.Store.SetBasePolicy | internal/storage/store/store.go:302-325 | stores the text as a new numbered revision and trims to 32; refuses an unknown sandbox |
| Store.Store.GetPolicyRevision | internal/storage/store/store.go:341-354 | succeeds exactly when a retained revision has that number, and returns the first such one |
| Store.Store.AttachProvider | internal/storage/store/store.go:567-583 | appends unless already there; without a flush in that case |
| Store.Store.DetachProvider | internal/storage/store/store.go:586-603 | filters the provider out |
| Store.Store.IssueSandboxToken | internal/storage/store/auth.go:86-104 | replaces the digest of an existing sandbox; returns the secret only after a successful flush |
| Store.Store.SandboxForToken | internal/storage/store/auth.go:107-123 | an answer allowed by some iteration order over the tokens |
| Store.Store.CreateSSHSession | internal/storage/store/auth.go:126-159 | stores the session of an existing sandbox; returns it only after a successful flush |
| Store.Store.ValidateSSHSession | internal/storage/store/auth.go:162-187 | an answer allowed by some iteration order over the sessions; `CredentialTraces.AnswerByHistory` says which answers those are |
| Store.Store.RevokeSSHSession | internal/storage/store/auth.go:190-200 | marks a known session revoked; success only after a successful flush |
| Store.Store.DropReapable | internal/storage/store/auth.go:219-225 | removes the reapable sessions while iterating and counts them; `CredentialTraces.Track` says which those are |
| Store.Store.ReapSSHSessions | internal/storage/store/auth.go:216-230 | returns exactly the number removed and flushes only if it is not zero |
| Store.Store.PutProposal | internal/storage/store/proposals.go:27-48 | refuses a missing id or sandbox, defaults the status to pending |
| Store.Store.DecideProposal | internal/storage/store/proposals.go:76-95 | sets approved or rejected on a known proposal, whatever its status was |
| CredentialTraces.KnownIff | internal/storage/store/store.go:255-289 | a sandbox is registered exactly when an upsert of it was not followed by its deletion |
| CredentialTraces.MissingSandboxUnreachable | internal/storage/store/auth.go:116-118 | tokens and sessions always belong to registered sandboxes, so both missing-sandbox branches are dead |
| CredentialTraces.AnswerByHistory | internal/storage/store/auth.go:162-187 | every answer, errors included, from the calls made: not found if never minted, deleted or reaped, then revoked, then expired at nowNs/10^6 >= (created + lifetime)/10^6, then wrong sandbox, else the record minted; for any iteration order and any clock |
| CredentialTraces.Track | internal/storage/store/auth.go:216-230 | a minted session is in the table exactly until its sandbox is deleted or a reap finds it revoked or expired, with its revocation mark up to date |
| CredentialTraces.SessionAcceptedIffStands | internal/storage/store/auth.go:162-187 | in particular a token is accepted for s exactly when it was minted for s, not revoked, s not deleted since, not expired by the call's own creation time and lifetime, and no reap found it so |
| CredentialTraces.SessionAcceptedIffLive | internal/storage/store/auth.go:162-187 | from the latest reap time on, the reaps drop out of that condition |
| CredentialTraces.ReapedBeforeClockWentBack | internal/storage/store/auth.go:216-230 | a session reaped as expired stays refused if the clock goes back before its expiry |
| CredentialTraces.TokenResolvesIffLatest | internal/storage/store/auth.go:107-123 | a supervisor token resolves to s exactly when its issue is the latest issue-or-delete of s |
| RegistryTraces.BaseTextIsLatest | internal/storage/store/store.go:255-325 | the base text is the one given last by a policy change or a non-silent upsert, none if none was given since the last deletion |
| RegistryTraces.DetailsAreLatest | internal/storage/store/store.go:255-275 | the other fields are those of the latest upsert |
| RegistryTraces.AttachedIffGiven | internal/storage/store/store.go:255-275 | a provider is attached exactly when an attach or an upsert gave it and no detach, deletion or upsert with another list followed |
| RegistryTraces.ProposalByHistory | internal/storage/store/proposals.go:27-95 | a proposal is as last submitted, pending by default, with status and reason of the last decision since |
| RegistryTraces.ProposalIffStored | internal/storage/store/proposals.go:27-48 | a proposal is there exactly when one with an id and a sandbox was put |
| Reaping.ReapIsInvisible | internal/storage/store/auth.go:216-230 | from the reap time on, no accept/reject outcome changes |
| StoreMachine.CallIsItsStages | internal/storage/store/store.go:196-210 | a store call is its in-memory part followed by the stages of its flush, and only a completed rename makes it durable |
| StoreMachine.MayCrashAnytime | internal/storage/store/store.go:196-210 | the process may die between any two stages without touching state.json |
| StoreMachine.OpenIsItsStages | internal/storage/store/store.go:152-193 | an Open is its load followed by the stages of its flush, with the same outcome as `Store.Open`, and is down again if the flush fails |
| StoreMachine.StepKeepsHistorical | internal/storage/store/store.go:125-210 | through every stage, fault, crash and start: memory is the run of `applied`, state.json the run of `durable`, never garbled |
| CrashSafety.OpenAlwaysParses | internal/storage/store/store.go:152-156 | wherever the process died, the next start can read the file |
| CrashSafety.OpenRecoversLastRename | internal/storage/store/store.go:152-193 | a start recovers exactly the memory of the last completed rename |
| CrashSafety.OpenStartsEmpty | internal/storage/store/store.go:133-151 | without any completed rename a start is empty |
| CrashSafety.AnsweredFromHistory | internal/storage/store/auth.go:162-187 | every answer about a session follows from the history at every point of every run with faults, crashes and restarts |
| CrashSafety.AcceptedIffStandsInHistory | internal/storage/store/auth.go:162-187 | the session characterisation holds at every point of every run with faults, crashes and restarts, for any clock |
| CrashSafety.AcceptedIffLiveInHistory | internal/storage/store/auth.go:162-187 | so does its form without reaps, for validation times not before a reap time |
| CrashSafety.ResolvedIffLatestInHistory | internal/storage/store/auth.go:107-123 | so does the supervisor-token characterisation |
| CrashSafety.RevokeIsPermanent | internal/storage/store/auth.go:190-200 | after a revocation that returned success no later validation accepts that session, at any time |
| CrashSafety.DeleteEndsSessions | internal/storage/store/store.go:278-289 | after a deletion that returned success no session token minted before for that sandbox is ever accepted, at any time |
| CrashSafety.DeleteOrRotateEndsTokens | internal/storage/store/auth.go:86-104 | after a deletion or rotation that returned success no earlier supervisor token of that sandbox ever resolves |
| PolicyHistory.WindowRefinesHistory | internal/storage/store/store.go:302-325 | if upserts keep the revision fields, the retained revisions are the last min(n, 32) of the n policies set, numbered consecutively up to PolicyRev |
| PolicyHistory.WindowAlwaysRefinesIff | internal/storage/store/store.go:255-325 | this holds throughout a run exactly when every upsert of that sandbox keeps the revision fields |
| PolicyHistory.EmptyFieldsKeepRevisions | internal/storage/store/store.go:265-270 | upserts that supply no revision fields keep them |
| PolicyHistory.RevisionFoundIff | internal/storage/store/store.go:341-354 | revision k is found exactly when n - 32 < k <= n and k >= 1, and it is the k-th policy set |
| PolicyHistory.HistorySurvivesRestarts | internal/storage/store/store.go:196-210 | the same through faults, crashes and restarts |
| PolicyHistory.UpsertKeepsHistoryIff | internal/storage/store/store.go:255-275 | an upsert of a known or new name keeps the numbering exactly when it leaves the revision fields empty or, for a known name, repeats the stored ones |
| PolicyHistory.UpsertMayForgeNumber | internal/storage/store/store.go:265-273 | a concrete upsert that breaks the numbering |
| ProviderAttachment.DetachUndoesAttach | internal/storage/store/store.go:566-603 | detaching after an effective attach restores the whole state |
| ProviderAttachment.DetachRemovesAll | internal/storage/store/store.go:593-599 | every occurrence of the provider goes and no other entry |
| ProviderAttachment.AttachKeepsDistinct | internal/storage/store/store.go:574-579 | attaching never introduces a repetition and leaves the provider attached |
| ProviderAttachment.AttachGoesLast | internal/storage/store/store.go:574-581 | a new provider goes to the end of the list, whose order is kept |
| PolicyUpdate.SetSandboxBasePolicy | internal/httpapi/providers.go:371-406 | store and answer after the call for any faults of its two flushes |
| PolicyUpdate.RefusedIff | internal/httpapi/providers.go:371-391 | refused without a change exactly for an unknown sandbox or a policy that does not parse, validate or write |
| PolicyUpdate.AnsweredWhen | internal/httpapi/providers.go:392-406 | a storable policy succeeds exactly when its flush does and the effective policy composes, which is then the answer |
| PolicyUpdate.StoredBaseIsClean | internal/httpapi/providers.go:375-391 | with YAML that reads back, the stored base parses to the submitted policy without its provider rules, and that is valid |
| PolicyUpdate.SetBaseTransaction | internal/httpapi/providers.go:371-406 | success stores the prepared text as one revision; a compose failure restores the text and costs two; an early failure changes nothing; providers and other records never change |
| PolicyUpdate.FailureKeepsBaseIff | internal/httpapi/providers.go:392-404 | a failure keeps the previous base in memory exactly when it is not the flush of a different text |
| PolicyUpdate.FailedFlushKeepsNewText | internal/httpapi/providers.go:392-395 | a concrete failed change that leaves the new text in memory |
| PolicyUpdate.RollbackOnDiskIff | internal/httpapi/providers.go:396-403 | after a compose failure the file has the previous base exactly when the rollback's flush succeeded |
| PolicyUpdate.FailedRollbackKeepsRejectedText | internal/httpapi/providers.go:396-403 | a concrete compose failure after which a restart loads the rejected text |
| PolicyUpdate.OverlayRules | internal/httpapi/proposals.go:164-171 | the overlaid rules are those of some iteration order |
| PolicyUpdate.OverlayDeterministicIff | internal/httpapi/proposals.go:164-171 | all orders agree exactly when no rule name is given or the rules differ only in name |
| PolicyUpdate.OverlayDependsOnOrder | internal/httpapi/proposals.go:164-171 | a two-rule proposal with two possible merges |
| PolicyUpdate.MergeProposalYaml | internal/httpapi/proposals.go:150-180 | parses, overlays, validates and writes, failing where the code does |
| PolicyUpdate.MergeOverlays | internal/httpapi/proposals.go:150-180 | a merged text is a valid policy in which the proposal's rules are in place and every other rule and the rest are unchanged |
| PolicyUpdate.MergeFailure | internal/httpapi/proposals.go:150-180 | a merge fails only if an input does not parse or an overlay is invalid or cannot be written |
| ProposalApproval.ApplyMerged | internal/httpapi/proposals.go:143-147 | the base change and the decision in sequence |
| ProposalApproval.ApproveProposal | internal/httpapi/proposals.go:123-148 | an approved proposal changes nothing and succeeds; a missing one or a missing sandbox is refused unchanged; otherwise merge, change, decide |
| ProposalApproval.ApprovalOverlaysBase | internal/httpapi/proposals.go:135-142 | the merge is over the stored base, or over the empty policy if that is blank, and keeps every rule the proposal does not write |
| ProposalApproval.ApprovedIff | internal/httpapi/proposals.go:123-148 | an approval succeeds exactly when the merge can be stored, both flushes succeed and the effective policy composes |
| ProposalApproval.ApprovedBaseIsOverlay | internal/httpapi/proposals.go:123-148 | with YAML that reads back, an approved base parses to the overlay of the proposal over the previous base |
| ProposalApproval.ApprovalIsTransactional | internal/httpapi/proposals.go:123-148 | without disk failure an approval is all or nothing, and a failed one moves PolicyRev by 2 exactly on a compose failure, else by 0 |
| ProposalApproval.FailedApprovalKeepsAllIff | internal/httpapi/proposals.go:143-147 | under disk failures a failed approval keeps base, providers and proposals in memory exactly when it did not fail at the flush of a changed base or at the decision |
| ProposalApproval.FailedApprovalOnDisk | internal/httpapi/proposals.go:143-147 | after a failed approval state.json is untouched or has the previous proposals, and it has the previous base exactly when the text is the same or the rollback was flushed |
| ProposalApproval.FailedDecisionLeavesHalf | internal/httpapi/proposals.go:143-147 | a concrete approval that fails with the new base on disk and the proposal pending there |
| LogRing.Buffer.Append | internal/logbuf/logbuf.go:93-112 | the buffer is the last max lines ever appended, and every waiter gets exactly one wake-up |
| LogRing.Buffer.AppendLines | internal/logbuf/logbuf.go:96-104 | lines without a timestamp are stamped, then the batch is appended and trimmed |
| LogRing.Buffer.WakeAll | internal/logbuf/logbuf.go:105-111 | one wake-up each, then no waiter is registered |
| LogRing.Buffer.Subscribe | internal/logbuf/logbuf.go:114-120 | registers a new waiter with no wake-up yet |
| LogRing.Buffer.Snapshot | internal/logbuf/logbuf.go:122-142 | the filtered last max lines, limited to the newest |
| LogRing.SelectIsFilter | internal/logbuf/logbuf.go:126-136 | the selected lines are exactly those with a late enough timestamp, the source and a level of the level table, in order and multiplicity |
| LogRing.SnapIsNewest | internal/logbuf/logbuf.go:137-139 | with a limit the newest selected lines are kept |
| LogRing.RingRefinesLog | internal/logbuf/logbuf.go:93-104 | appending any batches through the bound keeps the last max lines of their concatenation |
| LogRing.SnapshotAgreesIff | internal/logbuf/logbuf.go:122-142 | a snapshot equals the unbounded log's answer exactly when no evicted line matches or at least `limit` retained lines do |
| LogFollow.Poll | internal/httpapi/providers.go:496-504 | one turn of the follow loop over the selection that `LogRing.SelectIsFilter` characterises |
| LogFollow.FollowNeverRepeats | internal/httpapi/providers.go:495-514 | over all appends, removals and turns printed timestamps strictly increase |
| LogFollow.FollowIsOnePass | internal/httpapi/providers.go:495-514 | over all appends, evictions, removals and turns the output is one pass over the lines that were in the buffer at some turn |
| LogFollow.WantedIsFilter | internal/httpapi/providers.go:495-514 | wanted are exactly the lines with the source and level asked for that are newer than the start, in order and multiplicity |
| LogFollow.LostIsNeverMet | internal/httpapi/providers.go:495-514 | lost are exactly the arrivals up to the last turn that were in the buffer at no turn |
| LogFollow.TurnSeesAll | internal/httpapi/providers.go:495-505 | a turn covers everything that has arrived |
| LogFollow.FollowIsComplete | internal/httpapi/providers.go:495-514 | every matching line newer than the start that arrived by the last turn is printed once and in order exactly when their timestamps strictly increase and none of them left the buffer between two turns |
| LogFollow.EqualTimestampsLoseALine | internal/httpapi/providers.go:498-501 | two lines of one instant: the second is never printed |
| LogFollow.EvictionLosesALine | internal/logbuf/logbuf.go:102-104 | increasing timestamps, but the first line is evicted before the turn |
| LogFleet.FleetIsManyFollowers | internal/httpapi/gateway.go:405-422 | over a whole run, with appends and removals between any two snapshots, each sandbox gets exactly the output of a follower of that sandbox alone |
| LogFleet.FleetIsComplete | internal/httpapi/gateway.go:405-422 | per sandbox, every line is printed exactly when the timestamps strictly increase and none left its buffer between two of its snapshots |
| LogFleet.ServeOne | internal/httpapi/gateway.go:408-414 | the inner loop prints one sandbox's turn under its name and moves only its timestamp |
| LogFleet.ServeAll | internal/httpapi/gateway.go:407-415 | one pass over the names is the run of its events, wherever appends and removals come in between |
| ShellQuote.ShellQuote | internal/httpapi/ssh_api.go:371-386 | the quoting loop computes Quoted |
| ShellQuote.ShellJoin | internal/httpapi/ssh_api.go:363-369 | the join loop computes Joined |
| ShellQuote.UnquotedIff | internal/httpapi/ssh_api.go:371-386 | an argument is passed bare exactly when it is not empty and has only plain characters; else it is in single quotes |
| ShellQuote.RoundTrip | internal/httpapi/ssh_api.go:362-386 | the shell lexer reads a joined argv back as exactly that argv |
| ShellQuote.JoinIsInjective | internal/httpapi/ssh_api.go:362-386 | different argvs give different lines |
| CappedBuffer.CappedBuffer.Write | internal/httpapi/ssh_api.go:395-408 | the buffer stays the capped form of everything written, and every write reports its full length |
| CappedBuffer.CappedBuffer.String | internal/httpapi/ssh_api.go:410-414 | returns the capped form of everything written |
| CappedBuffer.WritesAreCapped | internal/httpapi/ssh_api.go:395-408 | after any writes: the concatenation if it fits, else its first max bytes and one marker; never over the limit before the cut |
| CappedBuffer.ChunkingIsInvisible | internal/httpapi/ssh_api.go:395-408 | the result depends only on the bytes, not on the chunks |
| SandboxRoutes.ParsersAgree | internal/httpapi/auth.go:137-165 | below /v1/sandboxes/ the allowlist accepts exactly the own-prefix requests the router sends to a self-service handler of that sandbox with at most two segments, and both see the same segments |
| SandboxRoutes.AllowedReachesOnlySelfService | internal/httpapi/gateway.go:300-318 | no accepted request reaches the credential, exec, policy-writing, listing or decision handlers or the bare sandbox |
| SandboxRoutes.AllowedIff | internal/httpapi/auth.go:137-165 | the whole allowlist by method and path: connect only for the own sandbox, relay and whoami by GET, below the own prefix six kinds of requests |
| SandboxRoutes.RequestsReachTheirHandlers | internal/httpapi/gateway.go:300-318 | each request of the API reaches its own handler with the sandbox and id it names |
| SandboxRoutes.TrimStrips | internal/httpapi/auth.go:151 | trimming takes off exactly the slashes at both ends |
| SandboxRoutes.SplitThenJoin | internal/httpapi/auth.go:151 | joining the segments of a path gives it back |
| SessionTtl.LifetimeExactIff | internal/httpapi/gateway.go:136-161 | n configured seconds are kept exactly when n <= 9223372036 |
| SessionTtl.LongLifetimesWrap | internal/httpapi/gateway.go:136-161 | 9223372037 seconds become no expiry, 18446744074 seconds become 0.29 s |
| SessionTtl.ExpiryExact | internal/storage/store/auth.go:135-145 | with such a lifetime, from the flag or from the environment alone, a session expires exactly 1000 n ms after its creation stamp |
| SessionTtl.ZeroAndDefault | internal/httpapi/gateway.go:222-228 | explicit 0 means no expiry whatever the environment says; no setting means 24 hours |
| SessionTtl.RefusedIff | internal/httpapi/gateway.go:136-161 | start-up is refused exactly for a negative or unreadable setting that is looked at |

## Left out

- HTTP handlers, headers, status codes, logging and the edge router: plumbing; ServeMux redirects of unclean paths happen before the router modelled here.
- Update times (UpdatedAt, CreatedAt of proposals, DecidedAt) and GatewayID: recorded, never read by the modelled code.
- Power loss: a crash is a process crash; the code does not sync the file, and the model treats a completed rename as durable.
- Channel-id and secret generation failures: the calls return before touching anything.
- Bytes on the control stream: whether a write or read fails is left open, as is why a supervisor's loop ends.
- The map from sandbox name to log buffer: a get-or-create map; a removal is the Drop event of `LogFollow`.
- Parsing of the lifetime text: `SessionTtl` starts from the integer the scanner read.
- The composition of the effective policy and of parsing: taken as given functions.
- Isolation of Snapshot and GetSandbox copies: nested slices share memory in the code; the model has values.
- Settings, templates, services, workspaces, profiles, providers and the inference route: single-map upserts with only easy claims.
- Shell reserved words, assignments and aliases: the lexer stops at tokens and quote removal, and reads `=` and `%` literally.
