# FrankenRemote: verified model of control, input and file transfer

FrankenRemote lets a viewer control a desktop on another host. This project models, in Dafny 4.11, the parts that
decide what a remote viewer may do and what both sides may afterwards claim was done:

- **Authority** (`Authority.dfy`, `AuthorityProofs.dfy`, `Decisions.dfy`, `Renewal.dfy`, `Evidence.dfy`,
  `SessionAuthority.dfy`): observation, lease, tickets, view freshness and suspension. The transitions are functions on
  a value; a run is any sequence of calls by any participant; the class is the object the program updates in place.
  `Decisions` says of every call, from the fields of a reachable state and the clock alone, exactly when it succeeds and
  what it then changes; `Renewal` says where every renewed deadline comes from.
- **Input at the host** (`Input.dfy`, `Meaning.dfy`, `Ledger.dfy`, `Submission.dfy`, `InputRuns.dfy`): admission of
  numbered actions, what each event is for on a desktop, its expansion into native operations, a final check before each one, pessimistic tracking of held keys, receipts,
  release-only cleanup and reconciliation.
- **Input at the viewer** (`Client.dfy`, `ViewerRuns.dfy`): numbering, the window of unanswered actions, suspension, and
  the one slot between client and transport.
- **Both together** (`Agreement.dfy`, `HostSide.dfy`, `Parties.dfy`): the protocol of viewer and host joined by their
  ordered streams, and the client, the native owner and the authority as its parties.
- **Files** (`Mailbox.dfy`, `Transfer.dfy`, `Lane.dfy`, `Receiving.dfy`): the worker mailbox as interleaved steps, sender
  and receiving host as one protocol and as the objects at its ends, staging, publication and reservations.
- **Limits** (`Rates.dfy`, `Queue.dfy`, `Probes.dfy`): token buckets, the flood-fair queue and codec probes.

`Common.dfy` holds the shared `Option`, `Result` and 64-bit helpers. `dafny verify dfyconfig.toml` checks everything.

## How the world enters the model

- The operating-system sink is arbitrary. A `Tape` gives, for each native operation, how preparation, final
  authorisation and the call end: submitted, not submitted, unknown, expired, fenced, withdrawn, or a panic at any of
  these points. A `Sweep` does the same for each release of local cleanup. Statements hold for every tape and sweep.
- Other threads are arbitrary. Between any two steps of an owner, any list of authority calls and revocations may
  happen. Each locked call is one atomic step.
- Some statements say what happens when a request is left alone: `Undisturbed` means that nobody else acts during it and
  that every check is made at one time; `Usable` credentials are those that a check at that time accepts. The sink stays
  arbitrary also then. `SilentSweep` and `CalmReconcile` say the same of cleanup and of a reconciliation.
- Safety is paired with progress: an undisturbed request is carried out as far as the sink goes, a suspended lease is
  released, confirmed and resumed, viewer and host find a way back from every state, an idle mailbox completes a command,
  and any file gets across.
- Two ghost records make effects observable: `down`, what may be pressed at the system through this owner, and `log`,
  every native call that may have happened, with the run of authority calls that allowed it.
- Clocks, the wire codec, the disk, the directory as other programs leave it, digests and the network are parameters.
- Integers of the program are 64-bit where overflow matters (`u64`, `CheckedAdd`, `Saturated`); elsewhere unbounded.

## Where the code does not meet a property

The first five have a concrete input and an exact condition. For the lapse only the host sees it is a condition on the
joint state of both parties; the others can be read off the inputs.

- *A partial receipt names a proper prefix of the plan.* It does not if the sink carries the whole plan out and panics
  while it cancels after the last operation (`PanicsLate`, a condition on the sink and the plan): the receipt then says
  "partial" with the full count. Without such a sink it always does (`PartialIsProperPrefix`); with one, and nobody else
  acting, it never does (`ServeCalmly`); `OnePressAnsweredAsPartial` is a run from approval on. The viewer's count check
  rejects these receipts exactly when the plan is the longest one possible (`ReceiptPassesExactly`).
  In the other direction the check passes only what some host could report, except a partial submission of nothing
  (`PassingIsPossible`).
- *An action the viewer accepts is never an invalid transition at the host.* It can be if only the host's view lapses:
  the host releases a held key, recovers, and issues a new ticket, while the viewer never suspended and still
  remembers the press (`UnseenLapse`). Agreement survives a ticket if and only if this is not the case
  (`TicketAgreesExactly`), and whenever it is lost there is an action that shows it (`LostAgreementShows`). Nothing in
  the modelled streams tells the viewer of a lapse that only the host saw. The host then refuses and fences; nothing is
  pressed.
- *A line scroll the viewer accepts is executed.* A host whose backend wants separate wheel steps refuses exactly the
  scrolls that are not whole, bounded lines (`AcceptedNeverFaults`); one part of a line is one (`PartOfALine`).
- *Waiting the advised time is enough.* The advice of the rate limiter is rounded down. It is always enough exactly for
  limiters whose rate divides a token or refills the bucket in a microsecond (`AdviceExactly`); of the default limiters,
  those of cursor uploads and recovery requests are not among them (`DefaultLimiters`, `AdviceTooShort`). For a single
  bucket and request the condition is `RetryExactly`; one microsecond more always suffices (`RetryPlusOne`).
- *Lane byte counters are exact.* A lane's counter is exact in every run if and only if its byte limit is below the
  largest word or its count limit is at most one (`CountersExactly`); otherwise two pushes make it wrong
  (`CounterGoesWrong`).
- *Action numbers enter the transport without repetition.* A client that is told to abandon a record the transport
  already took uses its number twice (`AbandonUnsent`); the caller promises not to.
- The last branch of the queue's `pop`, documented as a final fallback, is never reached (`Queue.FloodFairQueue.Pop`),
  and neither is the refusal of readiness without a suspension (`DefensiveRefusalUnreachable`), nor the branch that
  revokes after a failed ledger record (`RecordReceipt` proves the record succeeds).

## Model

| member | source | states |
|---|---|---|
| `AuthorityProofs.ReachableKeeps` | crates/fr-core/src/authority.rs:234-979 | After any sequence of calls of any participants, the view and deadline invariants hold in every state on the way |
| `AuthorityProofs.ReachableView` | crates/fr-core/src/authority.rs:331-465 | In every reachable state: a suspension exists exactly when a bounded, not-ready view coincides with a held lease; a view deadline exists exactly when the view is bounded and ready; tickets and a presented report exist only while ready |
| `AuthorityProofs.DefensiveRefusalUnreachable` | crates/fr-core/src/authority.rs:371-416 | The refusal for a stale view under a lease without a suspension is never the one that is taken |
| `AuthorityProofs.ApplyKeeps` | crates/fr-core/src/authority.rs:234-979 | Each of the 28 calls keeps the invariants |
| `AuthorityProofs.ApplyFrame` | crates/fr-core/src/authority.rs:371-951 | What one call may do to tickets, owner tokens, suspensions and lease deadlines: a ticket is new only by issue, a release is recorded only by a confirmation for the installed lease, an owner token never comes back, a held lease is never shortened |
| `AuthorityProofs.ResumeNeedsRelease` | crates/fr-core/src/authority.rs:371-416 | A suspension of a surviving lease ends only by fresh evidence, only after its release was confirmed, only inside the ten-second limit, and with no ticket left |
| `AuthorityProofs.ReleasedOnlyByConfirm` | crates/fr-core/src/authority.rs:502-513 | Only a confirmation for the installed lease makes a suspension released: its owner's own, or the unguarded one of the policy object |
| `AuthorityProofs.OwnerNeverReturns` | crates/fr-core/src/authority.rs:938-951 | A displaced native owner is never installed again |
| `AuthorityProofs.OtherCall` | crates/fr-core/src/authority.rs:371-513 | Only a confirmation, this owner's own or the unguarded one, confirms this owner's release; no call brings a displaced owner back, or resumes an owner unconfirmed |
| `AuthorityProofs.DeadlineIsTicketOrView` | crates/fr-core/src/authority.rs:791-813 | An accepted submission deadline is the ticket expiry or the view deadline, whichever is earlier, and lies in the future |
| `AuthorityProofs.LeaseOnlyGrows` | crates/fr-core/src/authority.rs:591-659 | Over any run, as long as a lease is held, no call of any participant moves its deadline back |
| `AuthorityProofs.ObservationOnlyGrows` | crates/fr-core/src/authority.rs:294-586 | Over any run, as long as an observation is held, no call of any participant moves its deadline back |
| `AuthorityProofs.TicketProvenance` | crates/fr-core/src/authority.rs:685-748 | Every ticket of every reachable state was issued by a call of the run and has been held in every state since |
| `AuthorityProofs.SubmissionHasProvenance` | crates/fr-core/src/authority.rs:685-813 | An accepted check at the end of any run is backed by an issue for the same lease and ticket less than a ticket lifetime earlier, no fencing call in between, and a ready view ever since |
| `AuthorityOwner.SessionAuthority.LapseView` | crates/fr-core/src/authority.rs:450-465 | A lapse starts a suspension only for a ready bounded view under a lease, and drops every ticket; the new state and the reply equal the specification transition |
| `AuthorityOwner.SessionAuthority.MarkViewReadyUntil` | crates/fr-core/src/authority.rs:371-416 | Readiness with a deadline, refused while a release is pending or late; the new state and the reply equal the specification transition |
| `AuthorityOwner.SessionAuthority.IssueTicket` | crates/fr-core/src/authority.rs:685-733 | A ticket capped by lease and observation, in one of eight slots; the new state and the reply equal the specification transition |
| `AuthorityOwner.SessionAuthority.AuthorizeSubmission` | crates/fr-core/src/authority.rs:754-785 | The linear search over the fixed slots decides as the specification does; the new state and the reply equal the specification transition |
| `AuthorityOwner.SessionAuthority.ApplyResumeBoundary` | crates/fr-core/src/authority.rs:863-896 | Elapsed observation, challenges, lease and tickets are cleared in place; the new state and the reply equal the specification transition |
| `AuthorityOwner.SessionAuthority.Perform` | crates/fr-core/src/authority.rs:274-951 | All 28 calls: the object updated in place, with its fixed ticket slots, does and answers exactly what the transition of the same name says, so that every run of the object is a run of the model |
| `Ledger.AdmissionIsContiguous` | crates/fr-core/src/input_sequence.rs:131-168 | Over any sequence of operations the admitted numbers are exactly 0, 1, 2, ... |
| `Ledger.OutcomesAreFinal` | crates/fr-core/src/input_sequence.rs:131-195 | A recorded outcome never changes, is never executed again, and is repeated exactly while among the last `capacity` |
| `Ledger.InputSequenceLedger.AdmitAction` | crates/fr-core/src/input_sequence.rs:131-168 | The ring and its floor answer as the unbounded history does |
| `Ledger.InputSequenceLedger.RecordOutcome` | crates/fr-core/src/input_sequence.rs:175-195 | One terminal outcome per admitted number; any failure fences |
| `Ledger.InputSequenceLedger.FindReceipt` | crates/fr-core/src/input_sequence.rs:131-147 | Found exactly within the retained window |
| `Ledger.InputSequenceLedger.Open` | crates/fr-core/src/input_sequence.rs:111-126 | A window outside the storage bound is refused |
| `Submission.InputSession.constructor` | crates/fr-core/src/input_submission.rs:441-492 | A new owner holds nothing and has submitted nothing |
| `Submission.InputSession.Serialize` | crates/fr-core/src/input_submission.rs:302-338 | The preamble of every timed use: own clock, revocation, lease and owner identity, each refusal with its reason |
| `Submission.InputSession.Check` | crates/fr-core/src/input_submission.rs:828-850 | Acceptance names the run of authority calls that accepted it; refusal has exactly its reason; a revoked owner is always refused |
| `Submission.InputSession.RecordReceipt` | crates/fr-core/src/input_submission.rs:871-888 | Ledger ring and receipt ring keep the same window of the same history; anything but success revokes |
| `Submission.InputSession.FindAnswer` | crates/fr-core/src/input_submission.rs:744-750 | The retained receipt, exactly while it is in the window |
| `Submission.InputSession.HeldCount` | crates/fr-core/src/input_submission.rs:751-761 | The number of held keys, buttons and wheel steps; zero exactly if nothing is held |
| `Submission.InputSession.AdmitRequest` | crates/fr-core/src/input_submission.rs:762-806 | Which requests run, and the exact answer to those that do not; a gap revokes |
| `Submission.InputSession.Dispatch` | crates/fr-core/src/input_submission.rs:762-817 | What an executed request adds to the record of native calls is what its event is for, or, if it did not complete, the beginning of that: text in its order, every place reached first by a move to it, scrolls with their own deltas, wheel steps that add up; at most one operation is uncertain, and the answer is given once; what stopped one is its event, a check or the sink; left alone, exactly the longest prefix the sink carries out is executed; every other request touches nothing; after revocation nothing is submitted |
| `Submission.InputSession.ReleaseHeld` | crates/fr-core/src/input_submission.rs:687-740 | Exactly the releases the system confirms are no longer tracked; releases plus remaining equals what was held; no press |
| `Submission.InputSession.CleanUp` | crates/fr-core/src/input_submission.rs:681-684 | Fence first, then release; without a panic on something held, everything is swept |
| `Submission.InputSession.Maintain` | crates/fr-core/src/input_submission.rs:650-677 | A live lease is left alone, a suspended one is released and confirmed only once nothing is held, any other status revokes; with nobody else acting the status is that of the authority, and a lease suspended within its limit whose held input the system releases ends unrevoked, unfenced, with nothing held and its release confirmed |
| `Submission.InputSession.ConfirmRelease` | crates/fr-core/src/input_submission.rs:289-338 | Confirmation needs that nothing is down, and leaves no unconfirmed suspension of this owner |
| `Submission.InputSession.CheckLive` | crates/fr-core/src/input_submission/held.rs:145-154 | Live control, clock and revocation before each reconciling release |
| `Submission.InputSession.ReconcileHeld` | crates/fr-core/src/input_submission/held.rs:41-112 | Old or foreign snapshots do nothing, a gap revokes, and a current one releases, in order, what the viewer does not hold; applied means both hold the same, and with live control, nobody else acting and a system that releases, it is applied |
| `Submission.MissingReleasesReconcile` | crates/fr-core/src/input_submission/held.rs:113-144 | Confirming every missing release leaves exactly the keys and buttons held on both sides |
| `Submission.Attempt.Track` | crates/fr-core/src/input_submission.rs:973-998 | A press is tracked before its call, a release only after it |
| `Submission.Attempt.NativeCall` | crates/fr-core/src/input_submission.rs:935-953 | Nothing can be pressed once a release is confirmed; what may be down stays tracked, whatever the call does |
| `Submission.Attempt.One` | crates/fr-core/src/input_submission.rs:908-972 | Exactly when an operation is confirmed, uncertain, or put back, and the verdict of each way it can end |
| `Submission.Attempt.Advance` | crates/fr-core/src/input_submission.rs:908-972 | The next operation of the plan: left alone, it is confirmed exactly if the sink carries it out, and the credentials stay usable; a panic follows a confirmed operation exactly if the sink panics while it cancels |
| `Submission.Attempt.KeyTransition` | crates/fr-core/src/input_submission.rs:999-1039 | Faults before the first operation, or the plan in order; a repeat may be a release and a press |
| `Submission.Attempt.WheelSteps` | crates/fr-core/src/input_submission.rs:1040-1052 | Each step is pressed and released; one slot is enough |
| `Submission.Attempt.RunPointer` | crates/fr-core/src/input_submission.rs:1063-1066 | A sample inside the granted bounds in absolute mode |
| `Submission.Attempt.RunButton` | crates/fr-core/src/input_submission.rs:1067-1081 | Position, then transition; the barrier is raised before the first operation |
| `Submission.Attempt.RunText` | crates/fr-core/src/input_submission.rs:1109-1118 | One operation per scalar; which scalars, in which order, is stated of the record by `Dispatch` |
| `Submission.Attempt.RunScroll` | crates/fr-core/src/input_submission.rs:1082-1108 | Bounded whole lines become steps; the barrier is raised before the first operation |
| `Submission.Attempt.RunRelative` | crates/fr-core/src/input_submission.rs:1119-1140 | The relative position is the exact sum of the confirmed motion |
| `Submission.Attempt.RunMode` | crates/fr-core/src/input_submission.rs:1141-1159 | A mode change needs nothing held and a newer epoch, and retires every ticket |
| `Submission.Attempt.Execute` | crates/fr-core/src/input_submission.rs:1053-1160 | A first check, then the event; not completing always has a cause in a check, the event, or the sink |
| `Submission.ExecuteAndRecord` | crates/fr-core/src/input_submission.rs:806-817 | The answer is recorded also when a panic passes through |
| `InputRuns.Open` | crates/fr-core/src/input_submission.rs:441-492 | An owner is attached exactly with a usable ticket to a lease without an owner, under an identity never used before; it can then be used at once |
| `InputRuns.Step` | crates/fr-core/src/input_submission.rs:650-817 | Any one request, service call, snapshot, cleanup or act of another thread keeps the owner valid |
| `InputRuns.Live` | crates/fr-core/src/input_submission.rs:650-817 | For every sequence of commands, every sink and every interference: the record only grows, after revocation only releases reach the system, nothing was down when a suspension ended, and nothing is down once its release is confirmed |
| `InputRuns.EveryEffectWasAuthorized` | crates/fr-core/src/input_submission.rs:828-940 | Every press, motion and character ever submitted was finally checked inside the one run of authority calls, with this very owner installed, of a granted kind and inside the granted bounds, and with a ticket issued for this lease less than a lifetime before and not fenced since |
| `InputRuns.EffectsAreOfTheirEpoch` | crates/fr-core/src/input_submission.rs:828-940 | What reached the system did so in the epoch its ticket was issued in: the view was not lost in between, and is ready |
| `InputRuns.ReceiptMeaning` | crates/fr-core/src/input_submission.rs:1161-1210 | What each receipt outcome says about the plan and about the end of the attempt, in both directions, and which refusal it carries |
| `InputRuns.PartialIsProperPrefix` | crates/fr-core/src/input_submission.rs:1161-1210 | In every world a partial receipt names a proper prefix unless the sink carries the whole plan out and panics while it cancels after the last operation; if it does, and nobody else acts, the receipt is partial over the whole plan |
| `InputRuns.CompletesExactly` | crates/fr-core/src/input_submission.rs:762-817 | Left alone, a request completes if and only if the sink carries out every operation of its plan and never panics |
| `InputRuns.ServeCalmly` | crates/fr-core/src/input_submission.rs:762-817 | Any valid owner, any admitted request with usable credentials, nobody else acting: the recorded answer is partial over the whole plan if and only if the sink panics late, and a success if and only if it serves the plan |
| `InputRuns.OnePressAnsweredAsPartial` | crates/fr-core/src/input_submission.rs:215-222 | The run that shows it, from approval on: one key press reaches the system and is answered as partial, with all of its one operation |
| `Client.InputClient.constructor` | crates/fr-client/src/input.rs:202-262 | Nothing sent, nothing remembered, nothing owed |
| `Client.InputClient.Open` | crates/fr-client/src/input.rs:202-262 | Exactly which configurations are refused |
| `Client.InputClient.Tick` | crates/fr-client/src/input.rs:291-342 | Exactly when housekeeping succeeds and when it suspends, and what a lapse does |
| `Client.InputClient.Suspend` | crates/fr-client/src/input.rs:454-480 | Everything remembered moves to what the host released; the first suspension keeps its start |
| `Client.InputClient.TryResume` | crates/fr-client/src/input.rs:481-492 | Resumes exactly with a fresh view and no awaited ticket |
| `Client.InputClient.Presented` | crates/fr-client/src/input.rs:403-449 | Exactly when evidence is taken; it gives exactly its own deadline, or suspends |
| `Client.InputClient.AbandonUnsent` | crates/fr-client/src/input.rs:497-529 | The newest action gives its number back; numbering stays 0, 1, 2, ... if and only if the transport had not taken it |
| `Client.InputClient.Ready` | crates/fr-client/src/input.rs:588-603 | Ready exactly if in time, not suspended, mapped, with a fresh view and an unexpired ticket |
| `Client.InputClient.Act` | crates/fr-client/src/input.rs:655-727 | Exactly when an action is sent; success takes the next number with its own deadline, keeps the window accounted, and remembers the transition; failure consumes nothing |
| `Client.InputClient.Submit` | crates/fr-client/src/input.rs:655-727 | Exactly when an action of a ready view is accepted |
| `Client.InputClient.MovePointer` | crates/fr-client/src/input.rs:621-651 | Exactly when a sample is sent; pointer numbers are used once |
| `Client.InputClient.Receive` | crates/fr-client/src/input.rs:824-889 | Each action completes once with a fitting count, repeats change nothing, anything else stops |
| `Client.InputClient.ReceiveAction` | crates/fr-client/src/input.rs:847-889 | Pending numbers complete; of the settled ones the last 32 repeat and must be identical, older ones are no longer retained; unknown ones stop |
| `Client.InputClient.ReconcileHeld` | crates/fr-client/src/input/held.rs:31-104 | Exactly when a snapshot is sent; it never names more than was sent, and is what stays remembered |
| `Client.InputClient.ReportAdmitted` | crates/fr-client/src/input/readiness.rs:139-169 | Exactly the next report number is taken; a negative report is the barrier of the suspension |
| `Client.InputClient.AcceptTicket` | crates/fr-client/src/input/ticket.rs:106-217 | Exactly which tickets are taken; input resumes only on a ticket that answers a report sent after the loss report, and does so if the view is fresh |
| `Client.AccountComplete` | crates/fr-client/src/input.rs:847-889 | Every number below the next is pending or completed, never both, each once |
| `ViewerRuns.Live` | crates/frd/src/session_startup/viewer/controlled.rs:463-700 | For every sequence of actions, samples, snapshots, reports, tickets, receipts and transport admissions: the numbers the transport took are exactly 0, 1, 2, ..., none is ever taken back, and each is awaiting its receipt or completed |
| `ViewerRuns.ControlledViewer.AbandonIfSuspended` | crates/frd/src/session_startup/viewer/controlled.rs:506-515 | A suspension empties the slot and gives back only what the transport never took; otherwise nothing changes |
| `ViewerRuns.ControlledViewer.Admit` | crates/frd/src/session_startup/viewer/controlled.rs:623-711 | The transport takes the one waiting record |
| `ViewerRuns.ControlledViewer.Action` | crates/frd/src/session_startup/viewer/controlled.rs:534-550 | One encoded record at a time waits for the transport; with a free slot and a client that sends, exactly the granted actions are encoded |
| `Agreement.AcceptedNeverFaults` | crates/fr-client/src/input.rs:728-820 | An accepted action is refused by a host holding the same exactly if it is a partial line scroll on a step-wise backend |
| `Agreement.PartOfALine` | crates/fr-client/src/input.rs:728-820 | A scroll by one part of a line is accepted by the viewer and refused by such a host |
| `Agreement.PlanMatchesSent` | crates/fr-client/src/input.rs:700-727 | Executing the whole plan leaves the host holding what the viewer remembers |
| `Agreement.ReceiptPassesExactly` | crates/fr-client/src/input.rs:874-882 | The receipt of an accepted action passes the count check unless the sink panics late on a plan of the longest length; if it does, and nobody else acts at the host, the receipt fails |
| `Agreement.StreamIsAdmitted` | crates/fr-core/src/input_sequence.rs:131-195 | The viewer numbers are admitted without a gap up to the first failure |
| `Agreement.StepKeeps` | crates/fr-client/src/input/readiness.rs:41-169 | Each step of viewer, host and the three streams keeps the agreement invariant |
| `Agreement.ViewerAndHostAgree` | crates/fr-client/src/input.rs:698-889 | In every run without an unseen lapse: an action under a valid ticket is never refused as an invalid transition, and whenever the host has caught up with a live viewer both hold the same |
| `Agreement.TicketAgreesExactly` | crates/fr-client/src/input/ticket.rs:106-217 | Taking a ticket keeps the agreement if and only if it is not a ticket of a later host epoch taken over a remembered press |
| `Agreement.UnseenLapse` | crates/fr-client/src/input/ticket.rs:182-217 | The run in which only the host lapses: the release of a held key is then refused as an invalid transition |
| `Agreement.LostAgreementShows` | crates/fr-client/src/input/ticket.rs:182-217 | Whenever agreement is lost, some action the viewer accepts next is refused by the host, after everything before it, as an invalid transition |
| `Parties.Acts` | crates/fr-client/src/input.rs:655-727 | The client, accepting an action, takes exactly the step of the protocol that appends it; refusing one, at most a lapse |
| `Parties.Snapshots` | crates/fr-client/src/input/held.rs:31-104 | A snapshot is the step of the protocol that appends it |
| `Parties.Reports` | crates/fr-client/src/input/readiness.rs:139-169 | A presentation report is the step that appends it, after at most a lapse |
| `Parties.Sees` | crates/fr-client/src/input.rs:403-449 | Evidence of the view is a lapse, the end of a suspension, or nothing |
| `Parties.Moves` | crates/fr-client/src/input.rs:621-651 | A pointer sample changes nothing of the protocol but for a lapse |
| `Parties.Maps` | crates/fr-client/src/input.rs:386-402 | Nor does a confirmed mapping |
| `Parties.Receives` | crates/fr-client/src/input.rs:824-889 | Neither does a receipt |
| `Parties.TakesTicket` | crates/fr-client/src/input/ticket.rs:106-217 | A ticket is taken or dropped, and input resumes only as the protocol allows |
| `Parties.Abandons` | crates/fr-client/src/input.rs:497-529 | Taking a record back removes it, the newest one, from the stream |
| `Parties.Serves` | crates/fr-core/src/input_submission.rs:762-817 | Dispatching an action is the step that takes it from the stream, at its last final check, with success exactly if its receipt says so; that its ticket is then of the present epoch of a ready host is proved |
| `Parties.Reconciles` | crates/fr-core/src/input_submission/held.rs:41-112 | Reconciling a snapshot is the step that takes it from the stream, at its first check, when the host is ready if it succeeds |
| `Parties.Maintains` | crates/fr-core/src/input_submission.rs:650-677 | A service call of the host is the end of the grant, a release of held input while the host is not ready, or nothing |
| `Parties.WholeCall` | crates/fr-core/src/input_submission.rs:762-817 | The authority calls made during such a call, by anyone, and the message are one path of the protocol, at whose end it again shows the owner and its authority |
| `HostSide.CallIsPath` | crates/frd/src/media/presented.rs:216-242 | One authority call, made for a presentation report as its verdict asks or for none, is a path of host steps; readiness, epoch, release and report are then those of the authority |
| `HostSide.CallsArePath` | crates/frd/src/media/presented.rs:176-242 | So is any run of such calls of any participants |
| `HostSide.SkippedReport` | crates/frd/src/media/presented.rs:238-239 | A report whose verdict is obsolete only counts as taken |
| `Mailbox.EveryCommandAnsweredOnce` | crates/fr-files/src/worker.rs:247-288 | In every interleaving the receipts answer the accepted commands one by one in order, each is what executing that command returned or the failure of an exited worker, and an exited worker leaves none unanswered |
| `Mailbox.AnswersAreFinal` | crates/fr-files/src/worker.rs:247-259 | Collected receipts, accepted commands and execution results are never taken back |
| `Mailbox.RunKeeps` | crates/fr-files/src/worker.rs:491-538 | The accounting of slot, worker and lock holds in every state of every interleaving |
| `Transfer.ReportsAreTrue` | crates/fr-files/src/sender.rs:606-942 | A reported outcome is true of the host directory now and at every later time: published means exactly these bytes, durable exactly if the worker made that publication durable, refused and interrupted mean nothing, ever |
| `Transfer.OutcomeIsFinal` | crates/fr-files/src/sender.rs:643-664 | A reported outcome is never replaced |
| `Transfer.StepKeeps` | crates/fr-files/src/wire.rs:168-333 | Each step of sender, lanes, adapter and worker keeps the invariant |
| `Transfer.CommitKeeps` | crates/fr-files/src/atp/receive.rs:286-447 | Only a slice at its own offset is appended, so that a complete file is the whole content |
| `Mailbox.Inbox.Enqueue` | crates/fr-files/src/worker.rs:260-288 | A copied command is accepted exactly if the place is free and a number is left; otherwise nothing is consumed |
| `Mailbox.Inbox.Drain` | crates/fr-files/src/worker.rs:497-508 | A worker that gives up answers what it never executed |
| `Mailbox.Inbox.TakeReceipt` | crates/fr-files/src/worker.rs:247-259 | A receipt is handed over once |
| `Lane.FileSender.Prepare` | crates/fr-files/src/sender.rs:746-841 | Exactly when nothing is prepared; the prepared record carries the next bytes of the file and is paid for; the final record waits for drained bytes and the full count; each refusal has its reason |
| `Lane.FileSender.Deliver` | crates/fr-files/src/sender.rs:606-628 | What enters the lane is exactly what the protocol may send next, paid for once |
| `Lane.FileSender.TakeReply` | crates/fr-files/src/sender.rs:843-942 | Replies are taken exactly as the protocol takes them, of which `ReportsAreTrue` and `TransferCompletes` say what they lead to; an acceptance sets chunk size and rate |
| `Lane.FileSender.Fail` | crates/fr-files/src/sender.rs:643-664 | A result stays; otherwise only a transfer whose final record never left says that nothing was published |
| `Lane.FileAdapter.Receive` | crates/fr-files/src/wire.rs:168-206 | Records reach the worker only in order and within the accepted size; a refused offer is answered |
| `Lane.FileAdapter.PollReply` | crates/fr-files/src/wire.rs:212-274 | The reply is the actual result of the worker; every failure ends the lane |
| `Receiving.Directory.Reserve` | crates/fr-files/src/receive.rs:269-288 | Reserved exactly if file, byte and transfer limits allow |
| `Receiving.Directory.Settle` | crates/fr-files/src/receive.rs:290-307 | A reservation ends once: given back, or kept as an orphan; the counters stay exact |
| `Receiving.PendingFile.WriteChunk` | crates/fr-files/src/receive.rs:360-383 | Appended exactly if in order, bounded and written; otherwise the file is over |
| `Receiving.PendingFile.Verify` | crates/fr-files/src/receive.rs:388-419 | Verified exactly if complete, intact and synced |
| `Receiving.PendingFile.Publish` | crates/fr-files/src/receive.rs:432-469 | Published under the first free candidate of at most nine, replacing nothing; failure adds nothing and has its reason |
| `Receiving.PendingFile.Drop` | crates/fr-files/src/receive.rs:477-498 | The reservation is given back unless the private file may remain |
| `Receiving.HostReceiver.Check` | crates/fr-files/src/session.rs:551-580 | Exactly when the session stands; anything else closes it; the rate budget refills as the bucket model does |
| `Receiving.HostReceiver.Pay` | crates/fr-files/src/session.rs:581-588 | Pays or refuses as the bucket model does |
| `Receiving.HostReceiver.Begin` | crates/fr-files/src/session.rs:373-433 | Exactly when an offer is admitted; the declaration is charged for good before the disk is touched |
| `Receiving.HostReceiver.Write` | crates/fr-files/src/session.rs:447-474 | Exactly when a slice is staged; the staged bytes are the concatenation of the accepted slices |
| `Receiving.HostReceiver.Complete` | crates/fr-files/src/session.rs:480-504 | A receipt means the verified bytes were published after a look that still stood; an error means nothing was published |
| `Receiving.HostReceiver.Service` | crates/fr-files/src/session.rs:509-515 | The session stays open exactly if the sample stands; one that no longer stands keeps no file |
| `Receiving.HostReceiver.Cancel` | crates/fr-files/src/session.rs:519-528 | Cancels exactly the named transfer |
| `Receiving.HostReceiver.Close` | crates/fr-files/src/session.rs:530-535 | Fenced, and nothing is left staged |
| `Receiving.HostReceiver.NeverMoreThanDeclared` | crates/fr-files/src/session.rs:393-433 | Published transfers and bytes never exceed the declared ones, nor the policy |
| `Receiving.Share` | crates/fr-files/src/receive.rs:269-307 | Any interleaving of the calls of any number of sessions on one directory keeps every session valid and the reservation counters exact |
| `Receiving.Turn` | crates/fr-files/src/receive.rs:269-307 | One session's call leaves every other session and its reservation as they were |
| `Rates.WindowBound` | crates/fr-core/src/dos.rs:447-481 | Any window of any run grants at most what was in the bucket plus rate times elapsed time |
| `Rates.RetryExactly` | crates/fr-core/src/dos.rs:447-470 | Waiting exactly the advised time is enough if and only if the request fits, tokens arrive, and the advice was not rounded down |
| `Rates.RetryPlusOne` | crates/fr-core/src/dos.rs:447-470 | One microsecond more is enough exactly for requests that fit |
| `Rates.AdviceExactly` | crates/fr-core/src/dos.rs:427-481 | Over every run of whole-token requests on a limiter that starts full, every advice to a request that fits is sufficient if and only if the rate divides a token or refills the whole bucket in a microsecond |
| `Rates.DefaultLimiters` | crates/fr-core/src/limits.rs:320-352 | Of the default limiters, exactly those of cursor uploads (60) and recovery requests (120) can give advice that is too short |
| `Rates.AdviceTooShort` | crates/fr-core/src/limits.rs:337 | The default cursor limiter, used up: the advice is 16666 microseconds, and the request is then refused again |
| `Rates.TokenBucket.Consume` | crates/fr-core/src/dos.rs:447-470 | The 64-bit saturating arithmetic equals the exact bucket |
| `Rates.TokenBucket.Replenish` | crates/fr-core/src/dos.rs:472-481 | Saturation never changes a refill; a clock that goes back refills nothing |
| `Rates.Pacer.Turn` | crates/fr-files/src/sender.rs:581-586 | The sender refills as the bucket model does |
| `Rates.Pacer.Taken` | crates/fr-files/src/sender.rs:606-628 | Paying for a prepared record never underflows |
| `Rates.Pacer.Accept` | crates/fr-files/src/sender.rs:881-885 | The agreed rate is the lower of both, and starts empty |
| `Queue.LanesAreFifo` | crates/fr-core/src/dos.rs:264-370 | Each lane gives back what it admitted, in order |
| `Queue.BulkIsNotStarved` | crates/fr-core/src/dos.rs:339-370 | While bulk waits, at most three ordinary items are served before it, whatever is pushed meanwhile |
| `Queue.HighIsServedFirst` | crates/fr-core/src/dos.rs:339-370 | Whatever is pushed meanwhile, the k-th pop serves the k-th item that waits with high priority, and nothing of the other lanes before them |
| `Queue.FloodFairQueue.Push` | crates/fr-core/src/dos.rs:264-334 | Admitted, or refused with its reason, as the run model says; the object is always where the run of its pushes and pops leads |
| `Queue.FloodFairQueue.Pop` | crates/fr-core/src/dos.rs:339-370 | High first; a waiting ordinary item next while fewer than three went since bulk; bulk after three; each the oldest of its lane; the last resort is never reached |
| `Queue.LanesStayWithin` | crates/fr-core/src/dos.rs:264-334 | In every run every lane stays within its count and byte limits |
| `Queue.CountersExactly` | crates/fr-core/src/dos.rs:264-334 | A lane's byte counter is exact in every run if and only if its byte limit is below the largest word or its count limit is at most one |
| `Queue.CounterGoesWrong` | crates/fr-core/src/dos.rs:264-334 | Two pushes after which the counter of any other lane is wrong |
| `Probes.CodecProbeTracker.OnSessionClosed` | crates/fr-core/src/dos.rs:916-927 | Exactly the probes of the session are cancelled, each once; all others stay |
| `Probes.CodecProbeTracker.Complete` | crates/fr-core/src/dos.rs:930-941 | Removes exactly one matching probe, if there is one |
| `Decisions.StatusExactly` | crates/fr-core/src/authority.rs:522-557 | For every state of the invariant and every sample, from fields and clock alone: exactly when control is live, and until the earliest of lease, observation and view; exactly when it is suspended, released or not, and until the earliest of lease, observation and the limit counted from the deadline of the view; and exactly when each error is the answer |
| `Decisions.ClockExactly` | crates/fr-core/src/authority.rs:968-979 | A sample is accepted exactly if the clock never went back; it notices a passed view and nothing else; a regression closes the session for good |
| `Decisions.ObservationChallengeExactly` | crates/fr-core/src/authority.rs:561-572 | A challenge is issued exactly while observing and with no other open; its deadline is one lifetime from now |
| `Decisions.ObservationResponseExactly` | crates/fr-core/src/authority.rs:576-586 | A response is accepted exactly if it names the nonce of the open challenge in time; the observation then lasts until that deadline; another nonce changes nothing |
| `Decisions.ControlChallengeExactly` | crates/fr-core/src/authority.rs:621-636 | The same for a lease in force |
| `Decisions.ControlResponseExactly` | crates/fr-core/src/authority.rs:640-659 | A response renews the lease exactly if it names the installed lease and the nonce of the open challenge before every deadline; another nonce, or another lease, leaves lease, observation and challenge as they were |
| `Decisions.ObservationExactly` | crates/fr-core/src/authority.rs:294-307 | Observation starts exactly from checked capabilities or a waiting approval, with nothing left over |
| `Decisions.DeliveryExactly` | crates/fr-core/src/authority.rs:311-317 | Delivery is allowed exactly while observing |
| `Decisions.ReadyExactly` | crates/fr-core/src/authority.rs:331-341 | A report without a deadline makes a view ready exactly until evidence is required |
| `Decisions.EvidenceExactly` | crates/fr-core/src/authority.rs:371-416 | Evidence is taken exactly if it names a later instant, shortens nothing, and no suspension stands in the way; a lease released in time is then ready again, the same lease |
| `Decisions.PresentedExactly` | crates/fr-core/src/authority.rs:422-431 | The same, and the report is what the view rests on |
| `Decisions.RequiringExactly` | crates/fr-core/src/authority.rs:353-362 | Requiring evidence takes the view away and suspends a lease, from the deadline of the view if that passed first; an unbounded controller is not displaced |
| `Decisions.StaleExactly` | crates/fr-core/src/authority.rs:444-446 | A view declared stale has no tickets; its lease is suspended from the newest checked instant, and a suspension is never restarted |
| `Decisions.RecoveryExactly` | crates/fr-core/src/authority.rs:474-493 | Recovery starts exactly while nothing is ready, with a newer generation |
| `Decisions.ConfirmExactly` | crates/fr-core/src/authority.rs:502-513 | A release is recorded exactly for the installed lease, and by its owner only as that owner; since when stays |
| `Decisions.GrantExactly` | crates/fr-core/src/authority.rs:591-618 | Control is granted exactly if the view is seen and nobody has it |
| `Decisions.LiveControlExactly` | crates/fr-core/src/authority.rs:828-834 | Control is live exactly if the view is seen under a lease in force |
| `Decisions.ClaimExactly` | crates/fr-core/src/authority.rs:938-951 | The installed lease without an owner is claimed under a number never used before |
| `Decisions.InvalidateExactly` | crates/fr-core/src/authority.rs:738-748 | Exactly the tickets of the installed lease are dropped |
| `Decisions.BoundaryExactly` | crates/fr-core/src/authority.rs:863-896 | After a boundary only what is in force is left: observation, lease, challenges and tickets each by its own deadline; the answer is whether that is live control |
| `Decisions.IssueExactly` | crates/fr-core/src/authority.rs:685-733 | A ticket is issued exactly if the view is seen, and presented where asked for, under this lease, with an unused number and a free or expired slot; a refusal changes nothing |
| `Decisions.IssueEffect` | crates/fr-core/src/authority.rs:685-733 | A ticket lasts one ticket lifetime but never longer than lease and observation; every other ticket in force stays |
| `Decisions.SubmissionExactly` | crates/fr-core/src/authority.rs:791-813 | A native effect is allowed exactly if the view is seen under this lease and the named ticket is in force, until the ticket or the view ends |
| `Decisions.EndingsExactly` | crates/fr-core/src/authority.rs:817-934 | Revoking gives up the lease alone; suspending, closing and refusing give up everything that rests on observation, and nothing else |
| `Decisions.StagesExactly` | crates/fr-core/src/authority.rs:274-290 | The stages before observation follow one another |
| `Decisions.ReachableDistinct` | crates/fr-core/src/authority.rs:685-733 | In every reachable state no two tickets of a lease have the same number |
| `Renewal.RenewalHasProvenance` | crates/fr-core/src/authority.rs:561-1022 | Over any run, for observation and lease: a call that changes the deadline of a held grant answers the open challenge in time and for the installed lease; an earlier call issued it with the same nonce and was told exactly the new deadline; in between it was neither answered, replaced nor dropped |
| `Renewal.ChallengeProvenance` | crates/fr-core/src/authority.rs:561-636 | Every open challenge of every reachable state was issued by a call of the run and has been open in every state since |
| `Meaning.PlanIsMeant` | crates/fr-core/src/input_submission.rs:1053-1160 | On any desktop, the plan of an accepted event leaves exactly what the event is for, whatever the backend: strokes, clicks at their place, text in order, scrolled pixels and lines, relative motion; every beginning of the plan is the beginning of that |
| `Meaning.StepsAddUp` | crates/fr-core/src/input_submission/scroll.rs:28-62 | The steps of a line scroll add up to its deltas |
| `Input.TextIsMeasuredInBytes` | crates/fr-core/src/input_submission.rs:1109-1118 | The limit on text is a limit on its UTF-8 encoding |
| `Input.ConfirmExactly` | crates/fr-core/src/input_submission.rs:973-998 | A confirmed press is held, a confirmed release is not, and nothing else changes |
| `Input.DownExactly` | crates/fr-core/src/input_submission.rs:935-953 | Something is down at the system only by its own press, as soon as it may have happened, until its own confirmed release |
| `Input.SharedExactly` | crates/fr-core/src/input_submission/held.rs:113-144 | What both sides hold |
| `Ledger.HistoryExactly` | crates/fr-core/src/input_sequence.rs:131-195 | After any run the outcomes are those accepted, an action is pending exactly if one more was admitted than recorded, and nothing new is admitted exactly if an earlier operation was a reason: a fence, a failure, or a gap |
| `Ledger.AnswersExactly` | crates/fr-core/src/input_sequence.rs:131-195 | After any run the answer to every number, told from how many actions were admitted and recorded |
| `Submission.InputSession.SettledExactly` | crates/fr-core/src/input_submission.rs:762-806 | Exactly which requests are executed, and the answer to every other one: the recorded answer within the window, a gap that names the next action, an obsolete pointer |
| `Submission.InputSession.CurrentExactly` | crates/fr-core/src/input_submission/held.rs:41-112 | Exactly which snapshots count |
| `Submission.ReleasedResumes` | crates/fr-core/src/authority.rs:371-416 | A lease released in time is ready again at the first evidence inside the limit: the same lease, the same owner, no suspension |
| `Submission.EndingsAreTold` | crates/fr-core/src/input_submission.rs:908-972 | Every way a native call may end reaches the answer as itself |
| `Submission.UnreleasedExactly` | crates/fr-core/src/input_submission.rs:687-740 | Something is still held exactly if it was held and the system did not release it |
| `Submission.PointerExactly` | crates/fr-core/src/input_submission.rs:1119-1159 | A completed mode change is in force and starts relative motion anew; completed motion is where it was to be; nothing else changes either |
| `Submission.InputSession.FollowRecovery` | crates/fr-core/src/input_submission.rs:386-392 | The view follows the newest recovery generation, and never goes back |
| `Client.EventExactly` | crates/fr-client/src/input.rs:728-820 | The event sent is the action itself, with its own place, deltas, unit and text; exactly which actions are sent, and which are told apart as released by a suspension |
| `Client.ReleasedExactly` | crates/fr-client/src/input.rs:454-480 | What a suspension released, and what takes it off again |
| `Client.AcknowledgeExactly` | crates/fr-client/src/input/readiness.rs:41-58 | Exactly which reports are acknowledged, and which of them end a suspension |
| `Client.InputClient.ConfirmMapping` | crates/fr-client/src/input.rs:386-402 | Exactly when a mapping is confirmed; another one ends the grant |
| `ViewerRuns.FirstAction` | crates/fr-client/src/input.rs:386-449 | A new grant with a confirmed mapping and one fresh picture sends every action it is granted, as number zero |
| `Agreement.RecoveryIsPossible` | crates/fr-client/src/input/ticket.rs:106-217 | From every state of the invariant in which the host still works there is a way back: both sides live, a current ticket, nothing held anywhere, nothing on its way |
| `Mailbox.IdleAccepts` | crates/fr-files/src/worker.rs:260-288 | A command given to an idle, unlocked mailbox that is not stopped is accepted |
| `Mailbox.QueuedCompletes` | crates/fr-files/src/worker.rs:491-538 | A waiting command is executed by a serving worker, its own result collected under its own number, and the mailbox idle again |
| `Transfer.RepliesAreTrue` | crates/fr-files/src/wire.rs:212-333 | Every final reply ever in the lane is true from then on: published, with that length, and durable or not as the worker left it; or refused and never there |
| `Transfer.DurableOnlyByWorker` | crates/fr-files/src/receive.rs:432-469 | A publication becomes durable exactly by the worker succeeding durably at the last operation, and stays so |
| `Transfer.TransferCompletes` | crates/fr-files/src/sender.rs:606-942 | From rest, any file in any pieces gets across: the directory gains exactly that file, the sender reports it published with its length and durability, and both ends are at rest again |
| `Queue.NormalKeepsItsShare` | crates/fr-core/src/dos.rs:339-370 | While ordinary items wait and none of high priority does, B bulk items are served only after 3 (B - 1) ordinary ones, whatever is pushed meanwhile |
| `Queue.NextServed` | crates/fr-core/src/dos.rs:339-370 | After any run, what the next pop hands out, told from how many ordinary items went since the last bulk one |
| `Queue.AdmitsExactly` | crates/fr-core/src/dos.rs:264-334 | After any run, an item is admitted exactly if its lane has a place and room for its bytes; a refusal names the lane, what waits in it and the limit |
| `Input.AcceptedExactly` | crates/fr-core/src/input_submission.rs:999-1159 | Exactly which events the host carries out: kind granted, place reachable, and fitting what is held, the mode and its epoch, and the length of encoded text |
| `Input.FaultsAreTold` | crates/fr-core/src/input_submission.rs:999-1159 | Which fault is told for every event that is not |
| `Input.LinesExactly` | crates/fr-core/src/input_submission/scroll.rs:28-50 | A scroll has a discrete form exactly if it is at most 32 whole lines |
| `Agreement.PassingIsPossible` | crates/fr-client/src/input.rs:874-882 | The count check passes nothing a host could not have reported: every passing outcome and count is the receipt of some end of the attempt on some backend, but for a partial submission of nothing |
| `Transfer.UnknownIsJustified` | crates/fr-files/src/sender.rs:643-664 | In every run the sender reports an unknown publication only if the final record had entered the lane or the worker had panicked on this transfer |
| `Transfer.RefusalIsTold` | crates/fr-files/src/wire.rs:168-206 | From rest, an offer the host cannot take is refused, the sender learns it, and the directory is as it was |
| `Transfer.TakenExactly` | crates/fr-files/src/sender.rs:843-942 | Exactly which replies are taken, and what each leaves |
| `Rates.AdviceIsRounded` | crates/fr-core/src/dos.rs:447-470 | The advice is the waiting time rounded down to whole microseconds, at least one, and a second if nothing ever arrives |
| `Receiving.PendingFile.BlockedExactly` | crates/fr-files/src/receive.rs:432-469 | The requested name comes first; an attempt is given up for a taken name only if no other may be tried, otherwise only for a failing call |

## Left out

- Submission.InputSession.Dispatch: the sink is taken to ask for final authorisation at most once, before the native call, as the trait demands; a sink that submits without asking is not modelled.
- Submission.InputSession.Maintain: no other thread may confirm this owner's release, neither through this owner's monitor nor through the unguarded call of the policy object; every caller in the repository is the owner itself.
- Submission.InputSession.Check: a poisoned mutex and its refusal are not modelled.
- Client.InputClient.Tick: the control responder and the clipboard, file and microphone projections that share the tick are not modelled.
- Client.InputClient.AcceptTicket: the profile with acknowledged presentation reports only; the older profile, which waits for a bound on clock age, reference recovery, and the clock correlation itself are not modelled.
- Client.InputClient.Receive: decoding is not modelled; a record that does not decode changes nothing.
- Transfer.ReportsAreTrue: a send that fails is taken not to have entered the lane, as the transport promises; directory trees, batches and pausing are not modelled.
- Receiving.HostReceiver.Begin: portable-name rules are a parameter; directory manifests, conflict-name spelling and anonymous staging are not modelled.
- Receiving.PendingFile.Verify: the digest is an arbitrary predicate on the bytes; hashing is not modelled.
- Queue.FloodFairQueue.Push: admission statistics and the call that empties all lanes are not modelled.
- Lane.FileSender.Prepare: the local file is taken not to change while it is read; in the program a change shows in the size, or in the digest the host verifies.
- Client.InputClient.TryResume: the ticket that a reference recovery waits for is not modelled; the same holds of Client.InputClient.Ready.
- Client.InputClient.Ready: see the line above.
- HostSide.CallsArePath: the calls are those of the profile with acknowledged presentation reports: nothing but a report makes the view ready, and the grant goes on; verification of a report and its verdict are parameters.
- ViewerRuns.Live: deadlines of the waiting record and the transport itself are not modelled; a viewer that fails is closed.
- Agreement.ViewerAndHostAgree: reference recovery and the older profile are not steps of the protocol.
- A second panic during unwinding, which aborts the process.
- Ticket issue, challenge and renewal wrappers of the input session and its control lease: they forward to the authority calls that are modelled.
- Limits validation, identifiers, generations, audio, clipboard, toolbar, session startup and the wire codecs.
- Mailbox.EveryCommandAnsweredOnce: threads are steps on values; the class beside them models only what the lock protects.
- Lane.FileSender.Deliver: record expiry, the flight window and lane retirement are not modelled.
- The remaining guards of the denial-of-service module (admission accounting, idle watchdog, allocation checks).
