# Neondoll: verified models of the Core and Body protocols

Neondoll splits a Doll into a Core, which decides, and Bodies, which act. This project models the
parts of both whose correctness is hard to see from one function, and proves what they promise:

- **Path recovery** (`RecoveryEpoch.dfy`, `PathRecovery.dfy`, `PathOutcomes.dfy`): one Body replaces
  its tunnel when the path is lost. Any number of recovery attempts, discovery runs with migration, cutover and rollback,
  and a shutdown interleave over one generation counter.
- **Authority and the Primary Peer** (`Ordering.dfy`, `Authority.dfy`, `AuthorityReplay.dfy`,
  `AuthorityAnswers.dfy`, `PrimaryPeer.dfy`): answers reconstructed from portable, unordered records.
  The answer is first defined without any order, and the replay is proved to compute it.
- **Enrollment, authentication and revocation** (`Enrollment.dfy`, `EnrollmentService.dfy`,
  `AdmissionRules.dfy`, `Authentication.dfy`, `SessionProofs.dfy`): durable tables and an
  in-memory network that must agree, with rollback, and the lock that orders authentication against revocation.
- **Context building** (`ContextWindow.dfy`, `TurnGroups.dfy`, `ContextBuilder.dfy`,
  `ContextAssembly.dfy`): the bounded context shown to the model, from session history to messages.
- **Concurrent and timed cores** (`KeyedLocks.dfy`, `TransferBudget.dfy`, `ProbeScheduler.dfy`).
- **Tool calls and transcripts** (`ToolLoop.dfy`, `ToolBinding.dfy`, `Transcript.dfy`).

Concurrent code is a transition system: one step is one critical section, one channel operation or one
call into the outside, and a run is any sequence of enabled steps. Code that works in place is a class or
a method with loops, proved equal to a function on values; the properties are lemmas about that function
and about every run. Clocks, generated identifiers, signatures, estimators, providers and failing calls are
inputs.

Seven promises turned out to hold only under a condition. Each is stated with its exact condition and with an
input or a run at which it fails:

- A recovery's commit is accepted, its marker released and the next loss reserved, exactly when no direct
  reservation of a generation meets a recovery in flight. Otherwise nothing is recovered again before shutdown.
- `RecoverPath` calls a failed stop retryable. A retry stops the same tunnel again, and that panics, exactly when
  the failed stop had left its bind open.
- `ReplayPrimary` returns the same state or failure in any order, but which error it returns depends on
  the order exactly when both kinds of validation fault occur.
- The claim of a one-time approval extends an accepted history exactly when neither its identifier nor its
  decision was claimed before; identifiers of different claims can be equal.
- The comment on `interactionTurnGroups` says that tool records without an initiating user are never visible;
  a tool record without a turn identifier is, and it is the only exception.
- `BindToolContext` formats exchanges while it searches, so one exchange that cannot be formatted hides all
  later ones, even when the text wanted is among them.
- A signature determines the message exactly up to its version, metadata, status, permissions and frame type,
  which are carried unsigned.

To verify the whole project: `dafny verify dfyconfig.toml`.

## Model

| member | source | states |
|---|---|---|
| `PathEpoch.BodyTunnel.Stop` | Body/wgtunnel.go:171-185 | Stop takes the device down even when the bind cannot be closed, the tunnel then stays marked started, and stopping it again panics, exactly then |
| `PathEpoch.RecoveryEpoch.constructor` | Body/recovery_epoch.go:39-43 | A new epoch is open at generation 0 with the initial tunnel active and no recovery in flight |
| `PathEpoch.RecoveryEpoch.NextGen` | Body/recovery_epoch.go:48-57 | In place, exactly the unconditional reservation of the value model; nothing else changes |
| `PathEpoch.RecoveryEpoch.NextGenForTunnel` | Body/recovery_epoch.go:70-88 | In place, exactly the reservation for a lost tunnel: refused when closed, not active any more, or already being recovered |
| `PathEpoch.RecoveryEpoch.TryCommit` | Body/recovery_epoch.go:102-118 | In place, exactly the commit: only for the current, uncommitted generation of an open epoch; the marker is cleared for the current one even on refusal |
| `PathEpoch.RecoveryEpoch.TryCancel` | Body/recovery_epoch.go:126-132 | In place, the marker is released by the current generation only |
| `PathEpoch.RecoveryEpoch.TryReserveMigration` | Body/recovery_epoch.go:152-162 | Answers whether the generation is still current in an open epoch, changing nothing |
| `PathEpoch.RecoveryEpoch.Shutdown` | Body/recovery_epoch.go:185-193 | Closes the epoch, forgets the active tunnel and leaves its device down; over a tunnel whose bind was left open it panics half way, exactly then |
| `PathRecovery.RunKeepsMachine` | Body/recovery.go:30-81 | Every interleaving of recoveries, discovery runs, raw reservations, shutdown and panics keeps the ownership invariant of tunnels, generations and commits |
| `PathRecovery.LiveTunnelsHaveOneOwner` | Body/migrate.go:126-265 | In every run a live tunnel is the active one or held by exactly one unfinished attempt, never both |
| `PathRecovery.ShutdownLeavesNothingLive` | Body/recovery_epoch.go:185-193 | After shutdown, once all attempts have returned, no tunnel is live |
| `PathRecovery.ReplacementBreaksFirst` | Body/recovery_epoch.go:102-118 | Whatever step changes the active tunnel of an open epoch is a commit whose predecessor is already down |
| `PathRecovery.CommitsAreOrderedAndBreakFirst` | Body/recovery_epoch.go:95-118 | Over every run each generation commits at most once, in rising order, and only over a stopped tunnel |
| `PathRecovery.NoNilStopAndNoZeroTicket` | Body/migrate.go:68-96 | No attempt of any run comes to stop a nil tunnel, and MigratePath never hands out generation 0 although it does not test for it |
| `PathRecovery.PanicsExactlyOnJammedTunnel` | Body/wgtunnel.go:171-185 | A step of any run panics if and only if it stops again an installed tunnel whose bind an earlier stop left open; candidates never are |
| `PathRecovery.NoBindFailureNoPanic` | Body/wgtunnel.go:171-185 | A run in which every bind closes never panics |
| `PathRecovery.RetryAfterJammedStopPanics` | Body/recovery.go:28-60 | A run in which a stop failure is returned as retryable and the retry panics |
| `PathRecovery.RunKeepsExclusive` | Body/body_supervisor.go:521-602 | Every run either keeps one owner of the in-flight marker or, from the first raw reservation that meets a recovery in flight, is wedged until shutdown |
| `PathRecovery.OneRecoveryAtATime` | Body/recovery_epoch.go:70-88 | In every run of an open epoch at most one attempt is between reservation and release and other losses get no reservation; its commit is accepted if and only if no raw reservation met a recovery in flight |
| `PathRecovery.MarkerIsReleased` | Body/body_supervisor.go:542-601 | The marker is up only on behalf of an unfinished attempt holding the current generation, if and only if no raw reservation met a recovery in flight |
| `PathRecovery.NextLossIsReservedExactlyWhen` | Body/recovery_epoch.go:70-88 | When all attempts have returned, the next loss gets a reservation if and only if no raw reservation met a recovery in flight |
| `PathOutcomes.NextLossIsRecoveredExactlyWhen` | Body/recovery.go:30-81 | When all attempts have returned and a path is available, recovery installs the new tunnel if and only if, besides, the active tunnel is not jammed; a jammed one makes it panic, a wedged epoch refuses it |
| `PathRecovery.WedgedForGood` | Body/recovery_epoch.go:70-132 | Once wedged, until shutdown no run replaces the tunnel and no loss ever gets a reservation |
| `PathRecovery.RawReservationWedges` | Body/recovery_epoch.go:48-57 | A run in which one raw reservation during a recovery leaves all attempts returned and the epoch wedged |
| `PathOutcomes.FailedCutoverRollsBack` | Body/migrate.go:165-265 | In every run, a cutover whose stop, start or handshake fails while its generation is current goes on to start a tunnel in place of the broken one, and commits it with that generation |
| `PathOutcomes.DiscoveryMigratesExactlyWhen` | Body/body_supervisor.go:542-602 | In every run, discovery that finds the preferred path with nothing in flight installs its candidate with the next generation, if and only if the active tunnel is not jammed |
| `PathOutcomes.DiscoveryGivesUp` | Body/body_supervisor.go:543-562 | Discovery that is cancelled or refused a probe returns, changes no tunnel and releases its ticket |
| `PathOutcomes.FailedRecoveryReturns` | Body/recovery.go:49-66 | In every run, a recovery that cannot stop the old tunnel or find a path returns with its marker down and nothing replaced |
| `PathOutcomes.RecoveryTriesTheNextPath` | Body/path_select.go:113-160 | In every run, a path without a handshake is stopped and the next one, if it works, is installed |
| `PathOutcomes.NothingIsReplacedUnproven` | Body/migrate.go:136-216 | In every run only tunnels that were started and completed their handshake are committed, and a cutover breaks the active path only after validation under the current generation |
| `Ordering.Sort` | Core/Peer/authority.go:195-203 | The records come out as a sorted permutation under time, tie breaker and identifier |
| `Ordering.SortedUnique` | Core/Peer/authority.go:195-203 | When keys identify records, a multiset of records has only one sorted arrangement, so an unstable sort is harmless |
| `Ordering.StringLessExactlyWhen` | Core/Peer/authority.go:199-202 | The order of tie breakers and identifiers is by the first differing character, a beginning coming first |
| `Authority.DefaultOnlyWhenNothingStands` | Core/Peer/authority.go:232-253 | The default answer is given exactly when no decision is in force, and a single highest-ranking decision exists otherwise |
| `Authority.DelegationCoversRevocation` | Core/Peer/authority.go:277-286 | Any delegation backing a decision at query time also backs every revocation of it issued by then |
| `Authority.RevokedNeverStands` | Core/Peer/authority.go:217-242 | Given an issued revocation, its target is never in force |
| `Authority.RevocationIsFinal` | Core/Peer/authority.go:217-242 | A revoked decision is never the basis of an answer again, even after the revoker's delegation lapses or the revocation is revoked |
| `Authority.OrderDoesNotMatter` | Core/Peer/authority.go:185-264 | Acceptance and answer are the same under every permutation of records, delegations and consumptions |
| `Authority.PastAnswersAreStable` | Core/Peer/authority.go:189-242 | Adding anything dated after the query leaves the answer unchanged whenever the longer history is accepted |
| `Authority.ClaimIsAcceptable` | Core/Peer/authority.go:256-261 | Appending the returned claim keeps the history accepted if and only if neither its identifier nor its decision was claimed before |
| `Authority.ClaimsMayCollide` | Core/Peer/authority.go:256-261 | A history in which the returned claim is refused although its decision was never claimed: two pairs of decision and attempt share one claim identifier |
| `Authority.ApprovalIsSingleUse` | Core/Peer/authority.go:288-317 | A consumed approval is never the basis of an answer at that time or later, for any query |
| `AuthorityAnswers.AnswerFollowsItsBasis` | Core/Peer/authority.go:254-263 | The answer prohibits or allows exactly as its basis does and names it; a one-time approval leaves the claim of its attempt, and is rejected exactly without one |
| `AuthorityAnswers.NothingStandingLeavesAutonomy` | Core/Peer/authority.go:248-253 | With nothing in force approval is required exactly when the query demands it, and otherwise the Doll acts on its own |
| `AuthorityAnswers.BasisIsInForce` | Core/Peer/authority.go:233-247 | The basis is in scope, issued, unexpired, for the occasion, unclaimed, unrevoked, from the Primary or an empowered peer, and the latest of its rank |
| `AuthorityAnswers.EntitledPeersAreHeard` | Core/Peer/authority.go:233-247 | A decision that nothing has taken back, from somebody entitled, keeps the answer from being the default |
| `AuthorityAnswers.PrimaryPrevails` | Core/Peer/authority.go:244-247 | Where the Primary has decided, the answer rests on that decision or a later one of the Primary, whatever others decided |
| `AuthorityAnswers.DecisionsAreSound` | Core/Peer/authority.go:64-101 | Every decision of an accepted history is attributed, assured, of one kind and the only one with its identifier |
| `AuthorityAnswers.RevocationsHaveTargets` | Core/Peer/authority.go:217-224 | Every revocation of an accepted history has an earlier target in its scope that its issuer may revoke |
| `AuthorityAnswers.ClaimsHaveApprovals` | Core/Peer/authority.go:288-310 | Every claim of an accepted history has its one-time approval, for the same occasion and in its lifetime |
| `AuthorityReplay.HasDelegation` | Core/Peer/authority.go:277-286 | The loop finds a backing delegation exactly when one exists |
| `AuthorityReplay.ValidateDelegations` | Core/Peer/authority.go:266-275 | Accepts exactly the delegations that are valid with distinct identifiers |
| `AuthorityReplay.IndexById` | Core/Peer/authority.go:289-292 | The index leads from an identifier to the last decision that has it, and from no other |
| `AuthorityReplay.ValidateConsumptions` | Core/Peer/authority.go:288-310 | Accepts exactly the consumptions with distinct identifiers and decisions that each claim the one-time approval their identifier leads to, and returns the decisions claimed by the query time |
| `AuthorityReplay.IndexedIsEnough` | Core/Peer/authority.go:207-216 | With the distinct decision identifiers the replay insists on, looking approvals up by identifier is the same as having one in the history |
| `AuthorityReplay.CollectRevoked` | Core/Peer/authority.go:211-231 | The pass over the sorted records accepts exactly the order-free condition on identifiers and revocation targets, and returns the decisions revoked by the query time |
| `AuthorityReplay.Select` | Core/Peer/authority.go:232-247 | The last primary and last ordinary decision kept by the loop give the one decision outranking all others in force |
| `AuthorityReplay.ReconcileAuthority` | Core/Peer/authority.go:185-264 | The replay computes the order-free answer, or rejects, on every input |
| `PrimaryPeer.OrderDoesNotMatter` | Core/Peer/relationship.go:98-150 | Success, failure and the reconstructed state are the same under every permutation of the events |
| `PrimaryPeer.ErrorIsStableExactlyWithoutMixedFaults` | Core/Peer/relationship.go:99-104 | Which error is returned is independent of the order if and only if the events do not mix the two kinds of validation fault |
| `PrimaryPeer.ErrorDependsOnOrder` | Core/Peer/relationship.go:99-104 | Two events whose order decides which error is returned |
| `PrimaryPeer.OnlyThePrimaryStepsDown` | Core/Peer/relationship.go:116-148 | Between any two points of an accepted history, a Primary who is no longer Primary stepped down in between, while Primary, by their own reverified transfer or grant of a requested release |
| `PrimaryPeer.RequestWasMade` | Core/Peer/relationship.go:116-148 | A standing release request was made by the Doll to the present Primary after the last change of Primary |
| `PrimaryPeer.ReplayIsTheLastChange` | Core/Peer/relationship.go:98-150 | A replay fails exactly for an invalid event, a repeated identifier or an event that does not fit the Primary it meets; otherwise the last establishment, transfer or release fixes the Primary, a request is pending exactly when asked for since, and the last event is the last |
| `PrimaryPeer.FoldIsTheLastChange` | Core/Peer/relationship.go:114-149 | The same for events already in order |
| `PrimaryPeer.ReplayedInOrder` | Core/Peer/relationship.go:105-113 | Events are replayed by time, then tie breaker, then identifier |
| `PrimaryPeer.ReplayPrimary` | Core/Peer/relationship.go:98-150 | Validation loop, sort and switch compute the order-free replay |
| `PrimaryPeer.Walk` | Core/Peer/relationship.go:114-149 | The switch over sorted events computes the fold, rejecting repeated identifiers |
| `Enrollment.NextKeeps` | Core/Enrollment/service.go:177-273 | Every call, failing or not, keeps the invariant tying pendings, receipts, credentials, invitations, rows and in-memory memberships, and replies only with the stored receipt |
| `Enrollment.RunKeeps` | Core/Persistence/enrollment.go:174-221 | The same over every run with a clock that does not go back, with rows changing only forward |
| `Enrollment.EveryRunIsConsistent` | Core/Enrollment/service.go:396-447 | In every reachable state a receipt exists exactly for enrolled requests, an invitation backs at most one receipt, and memory agrees with the store |
| `Enrollment.OneReceiptPerRequest` | Core/Enrollment/service.go:396-447 | Two receipts ever returned for the same request are the same receipt |
| `Enrollment.NoEnrollmentAfterRefusal` | Core/Persistence/enrollment.go:162-221 | A request denied or expired at some point is not enrolled at any later point |
| `Enrollment.RevocationIsPermanent` | Core/Persistence/enrollment.go:288-316 | A revoked credential and its membership stay revoked in every run |
| `AdmissionRules.UnprovenIsRefused` | Core/Enrollment/service.go:178-199 | A request for another version or Core or without proof changes nothing, and the first lack is the error |
| `AdmissionRules.CompletionIsAllOrNothing` | Core/Enrollment/service.go:396-447 | Completion enrolls a waiting request in full, with owner, permissions and keys in receipt, credential and membership, spends its invitation and touches nothing else, or changes nothing |
| `AdmissionRules.RedeemNeedsTheSecret` | Core/Invitation/store.go:179-222 | Whatever a redemption changes or returns takes a proven request with the secret of the invitation; to change anything the invitation must be unspent and in time |
| `AdmissionRules.RedeemEnrolls` | Core/Enrollment/service.go:190-235 | A request enrolled by redemption spends an invitation that was unspent and in time, and gets exactly its permissions |
| `AdmissionRules.GoodRedemptionSucceeds` | Core/Enrollment/service.go:190-235 | A new request with the secret of a good invitation and nothing failing gets its receipt |
| `AdmissionRules.BeginEnters` | Core/Enrollment/service.go:319-394 | A request is entered exactly as made, for a proven key under an unused code, and nothing else changes |
| `AdmissionRules.GoodRequestIsEntered` | Core/Enrollment/service.go:319-358 | A new request below the limit with nothing failing is entered and answered |
| `AdmissionRules.BeginRespectsTheLimit` | Core/Enrollment/service.go:322-328 | After a request is entered no more wait than the limit allows |
| `AdmissionRules.NotLimitedBelowTheLimit` | Core/Enrollment/service.go:322-328 | Below the limit nobody is turned away for it |
| `AdmissionRules.ApproveNeedsTheOwner` | Core/Enrollment/service.go:237-254 | Only a named, authorized owner with the code approves, before too many failed proofs, and the request is enrolled with that owner and those permissions |
| `AdmissionRules.GoodApprovalSucceeds` | Core/Enrollment/service.go:237-254 | An authorized approval of a waiting request in time with nothing failing enrolls it |
| `AdmissionRules.DenyNeedsTheOwner` | Core/Enrollment/service.go:256-273 | Only a named, authorized owner with the code denies, a waiting request in time, and nothing else changes |
| `AdmissionRules.RevokeNeedsTheOwner` | Core/Enrollment/service.go:90-134 | Only a named, authorized owner revokes; the first time is kept, the membership is revoked and no other Body is touched |
| `AdmissionRules.OnlyApprovalAndRedemptionEnroll` | Core/Enrollment/service.go:190-254 | Nothing but an approval or a redemption enrolls a request |
| `EnrollmentService.Network.NewMembership` | Core/Network/identity.go:134-173 | Adds one pending membership and displaces none |
| `EnrollmentService.Network.SetBodyWireGuardPublicKey` | Core/Network/identity.go:226-236 | Sets the key of a known, not yet revoked membership and nothing else |
| `EnrollmentService.Network.ActivateMembership` | Core/Network/identity.go:177-187 | Activates a known membership and nothing else |
| `EnrollmentService.Network.RevokeMembership` | Core/Network/identity.go:191-198 | Revokes a known membership and nothing else |
| `EnrollmentService.Network.RemoveMembership` | Core/Network/identity.go:240-246 | Removes a known membership and nothing else |
| `EnrollmentService.Service.CompleteLocked` | Core/Enrollment/service.go:396-447 | Step by step with rollback, the completion has exactly its atomic effect: a failure leaves tables and network as they were |
| `EnrollmentService.Service.StoreComplete` | Core/Persistence/enrollment.go:174-221 | The transaction commits all rows together or changes nothing, with a replay reported for a spent invitation or a row that no longer waits |
| `EnrollmentService.Service.RollBack` | Core/Enrollment/service.go:406-430 | Removing the new peer leaves the memberships exactly as before it was created |
| `EnrollmentService.Service.Insert` | Core/Persistence/enrollment.go:49-66 | Inserts a pending row exactly when its request, its code verifier and its pair of key and nonce are new and the store does not fail |
| `EnrollmentService.Service.FindByVerifier` | Core/Persistence/enrollment.go:72-74 | Finds the pending request with a code verifier exactly when there is one |
| `EnrollmentService.Service.GetReceipt` | Core/Persistence/enrollment.go:223-237 | In a consistent state a receipt is found exactly for an enrolled request, and it is that request's, for the key it was made with |
| `EnrollmentService.Service.Begin` | Core/Enrollment/service.go:177-188 | In place, exactly the modelled Begin: quota, failing code generation, repeated requests, and the row that stays when the answer cannot be signed |
| `EnrollmentService.Service.Redeem` | Core/Enrollment/service.go:190-235 | In place, exactly the modelled Redeem, including a retry after the invitation is spent |
| `EnrollmentService.Service.Approve` | Core/Enrollment/service.go:237-254 | In place, exactly the modelled Approve |
| `EnrollmentService.Service.Deny` | Core/Enrollment/service.go:256-273 | In place, exactly the modelled Deny |
| `EnrollmentService.Service.Revoke` | Core/Enrollment/service.go:90-134 | In place, exactly the modelled Revoke: store first, then memory, then the refresh that may fail |
| `Authentication.RunKeepsLifecycle` | Core/Enrollment/authentication.go:76-120 | Every interleaving keeps readers and writer of the lifecycle lock apart and each session tied to a live credential or a pending disconnect |
| `Authentication.RevokedBodyHasNoSession` | Core/Enrollment/service.go:90-134 | Once Revoke has returned without error the Body has no session, then or at any later point of any run |
| `Authentication.QuietMeansNoRevokedSession` | Core/Enrollment/authentication.go:76-84 | While no revocation is in progress no revoked Body has a session, even after a Revoke that reported an error |
| `Authentication.AcceptedAtMostOnce` | Core/Enrollment/authentication.go:86-120 | No issued challenge is accepted twice over any connections and proofs |
| `SessionProofs.NothingIsAcceptedUnproved` | Core/Enrollment/authentication.go:86-120 | In every run, whatever was accepted, and every session, goes back to a challenge issued for that Body and proved while the very credential was stored and live |
| `SessionProofs.ProofIsJudged` | Core/Enrollment/authentication.go:66-120 | A proof is accepted exactly when it is good for a current credential, opens a session exactly when it is also to activate, and uses its challenge up in any case |
| `SessionProofs.HelloIsChallenged` | Core/Enrollment/authentication.go:25-64 | A Body that may authenticate gets a challenge for its stored credential, and nobody else does |
| `SessionProofs.RevocationAlone` | Core/Enrollment/service.go:90-134 | A refused revocation changes nothing; a granted one revokes the credential and drops exactly that Body's sessions |
| `SessionProofs.OthersAreLeftAlone` | Core/Enrollment/service.go:90-134 | In every step a session ends only by hanging up or by revocation of its own Body, and a credential changes only by its own revocation |
| `ContextWindow.NewestGroupsAreTheGroups` | Core/ContextBuilder/window.go:38-77 | The scan order lists every group with a selectable member exactly once |
| `ContextWindow.NewestGroupsByLastMember` | Core/ContextBuilder/window.go:58-77 | The scan order is by each group's last member, newest first |
| `ContextWindow.FittingIsLongest` | Core/ContextBuilder/window.go:58-77 | The run stopped at is within the budget, and one more group would exceed it |
| `ContextWindow.AssembleTokens` | Core/ContextBuilder/window.go:79-104 | The reported tokens are those of the required items plus those of the chosen groups |
| `ContextWindow.KeepsLongestFittingRun` | Core/ContextBuilder/window.go:10-105 | What is kept is all required items and the longest newest-first run of whole groups that fits: it fits and every longer one exceeds the budget |
| `ContextWindow.AssemblePartitions` | Core/ContextBuilder/window.go:79-104 | Kept and omitted items partition the input by rising positions; nothing is lost, doubled or moved |
| `ContextWindow.GroupKeysIdentify` | Core/ContextBuilder/window.go:43-48 | Records compete together exactly when they name the same group, or name none and have the same identifier |
| `ContextWindow.KeptByTheRecord` | Core/ContextBuilder/window.go:79-89 | Required records are kept, withheld ones are not, and a named group is kept whole or not at all |
| `ContextWindow.FailsExactlyWhen` | Core/ContextBuilder/window.go:10-29 | Each error is returned exactly under its condition |
| `ContextWindow.CollectGroups` | Core/ContextBuilder/window.go:33-57 | The grouping pass computes each group's tokens and member positions |
| `ContextWindow.PickGroups` | Core/ContextBuilder/window.go:58-77 | The backward pass marks exactly the members of the longest fitting run |
| `ContextWindow.Mark` | Core/ContextBuilder/window.go:74-76 | Marks exactly the members of one group, leaving the other marks |
| `ContextWindow.Emit` | Core/ContextBuilder/window.go:79-104 | The final pass emits kept and omitted items in order, with tokens and the window's bounds |
| `ContextWindow.Select` | Core/ContextBuilder/window.go:10-105 | The whole policy computes the specified choice or the specified error |
| `TurnGroups.RecordedTurns` | Core/ContextBuilder/source.go:105-120 | The first pass settles exactly the messages with a recorded turn |
| `TurnGroups.InteractionTurnGroups` | Core/ContextBuilder/source.go:105-141 | Both passes compute group and omission of every message by its initiating user |
| `TurnGroups.ResolveSession` | Core/ContextBuilder/source.go:54-94 | A session resolves to one record per message, or to the specified error, and never mixes sessions |
| `TurnGroups.TurnSharesGroup` | Core/ContextBuilder/source.go:105-141 | A response is in the group of the user message that opened its turn, and that message is selectable |
| `TurnGroups.VisibleResponses` | Core/ContextBuilder/source.go:101-141 | A response stays visible if and only if it has an initiating user or is a tool record without a recorded turn |
| `TurnGroups.LoneToolRecordIsVisible` | Core/ContextBuilder/source.go:101-141 | The exception is real: a lone tool record without a turn is visible, against the comment on the function |
| `ContextBuilder.ContextFitsItsBudget` | Core/ContextBuilder/builder.go:78-203 | EstimatedTokens is the summed estimate of the returned messages and at most the budget |
| `ContextBuilder.HistoryIsAccountedFor` | Core/ContextBuilder/builder.go:100-200 | Included plus omitted history is the whole history, and no transient is counted as history |
| `ContextBuilder.WindowSpansIncluded` | Core/ContextBuilder/builder.go:184-199 | The reported window bounds are the lowest and highest sequence of the optional history included, and absent exactly when there is none |
| `ContextBuilder.TurnsStayWhole` | Core/ContextBuilder/source.go:54-141 | For every session history the included history appears in order and every included response of a turn comes after the included user message that opened it |
| `ContextBuilder.ContextIsInOrder` | Core/ContextBuilder/builder.go:109-202 | Instructions come first, then history, then the required messages, then the kept transients in their order, every required one among them |
| `ContextBuilder.BuiltFromSoundInput` | Core/ContextBuilder/builder.go:78-168 | A context is only built from a named, known source in order, known roles, and required and transient messages that say something |
| `ContextBuilder.BuiltExactlyWhenRequiredFits` | Core/ContextBuilder/builder.go:78-176 | A context is built if and only if request and records are well formed and everything required fits the budget |
| `ContextAssembly.CheckRecords` | Core/ContextBuilder/builder.go:92-99 | The loop reports the first record that crosses sources or is out of order |
| `ContextAssembly.AdmitInstructions` | Core/ContextBuilder/builder.go:109-117 | The running check succeeds exactly when all instructions fit together |
| `ContextAssembly.AdmitRequired` | Core/ContextBuilder/builder.go:118-130 | The running check reports the first invalid or unaffordable required message |
| `ContextAssembly.CollectHistory` | Core/ContextBuilder/builder.go:131-144 | Turns records into priced items and gathers their identifiers, or refuses an unknown role |
| `ContextAssembly.CollectTransients` | Core/ContextBuilder/builder.go:144-168 | Accepts exactly the transients that are valid, distinct and not named like history |
| `ContextAssembly.SplitKept` | Core/ContextBuilder/builder.go:183-199 | Splitting by record identifier is splitting by origin, in order |
| `ContextAssembly.CountHistory` | Core/ContextBuilder/builder.go:178-182 | Counting omissions by record identifier counts exactly the omitted history |
| `ContextAssembly.RunPolicy` | Core/ContextBuilder/builder.go:169-175 | What the policy keeps and omits of history and transients together falls into the two parts again |
| `ContextAssembly.LayOut` | Core/ContextBuilder/builder.go:176-202 | The result is instructions, kept history, required messages, kept transients, with exact metadata |
| `ContextAssembly.BuildSource` | Core/ContextBuilder/builder.go:78-203 | The whole method computes the specified context or error on every input |
| `KeyedLocks.RunKeeps` | Core/Interaction/locks.go:21-57 | Every interleaving of acquire, cancel, release and drop over any keys keeps counts, tokens and map consistent |
| `KeyedLocks.MutualExclusion` | Core/Interaction/locks.go:21-48 | In every run a key has at most one holder |
| `KeyedLocks.EntriesAreExactlyTheUsed` | Core/Interaction/locks.go:50-57 | References count holders, waiters and leavers exactly, removed entries have no users, and the map is empty when nobody is inside |
| `KeyedLocks.NothingBlocksButHolders` | Core/Interaction/locks.go:35-47 | Returning the token never blocks, drop finds its own entry, and a waiter can proceed exactly when nobody holds its key |
| `KeyedLocks.Locks.CountIn` | Core/Interaction/locks.go:22-33 | In place, exactly the first critical section, with a new entry only for an unknown key |
| `KeyedLocks.Locks.TakeToken` | Core/Interaction/locks.go:35-36 | In place, exactly the receipt of the token |
| `KeyedLocks.Locks.ReturnToken` | Core/Interaction/locks.go:36-43 | In place, exactly the return of the token |
| `KeyedLocks.Locks.CountOut` | Core/Interaction/locks.go:50-57 | In place, exactly the drop |
| `TransferBudget.RunConserves` | Core/Memory/provider.go:373-432 | Over every interleaving the charged bytes are envelopes plus delivered plus reserved bytes, within the limits, under wrapping arithmetic |
| `TransferBudget.LimitsHold` | Core/Memory/provider.go:373-432 | Neither limit is ever passed and no addition or subtraction of any next step wraps around |
| `TransferBudget.QuietCountIsExact` | Core/Memory/provider.go:400-432 | With no read in progress the count is exactly the admitted envelopes and the payload handed to callers |
| `TransferBudget.RefusedOnlyWhenFull` | Core/Memory/provider.go:373-420 | Admission and reservation are refused or shortened exactly by what is left |
| `TransferBudget.SharedBudget.Make` | Core/Memory/provider.go:354-359 | A budget with a zero bound is refused, any other starts empty |
| `TransferBudget.SharedBudget.HasRecordCapacity` | Core/Memory/provider.go:367-371 | Within the limit it answers no exactly when no record of any size could be admitted, so nothing need be pulled |
| `TransferBudget.SharedBudget.AdmitTransfer` | Core/Memory/provider.go:381-388 | In place, exactly the admission step |
| `TransferBudget.SharedBudget.ReserveBytes` | Core/Memory/provider.go:404-420 | In place, exactly the reservation step, none when the budget is spent |
| `TransferBudget.SharedBudget.SettleBytes` | Core/Memory/provider.go:421-431 | In place, exactly the settlement, an impossible byte count handing over nothing |
| `ProbeScheduler.RunIsSane` | Body/path_probe.go:249-411 | In every reachable state the attempts are exhausted exactly when a cooldown is running |
| `ProbeScheduler.WaitIsExact` | Body/path_probe.go:249-343 | In every reachable state with no probe in flight, asking after any delay succeeds if and only if the delay is at least the advised one |
| `ProbeScheduler.SlotsBeforeLastProbe` | Body/path_probe.go:249-284 | With a monotone clock every slot is no later than the last probe time and successive slots keep the minimum interval |
| `ProbeScheduler.SlotsAreSpaced` | Body/path_probe.go:249-284 | Any k + 1 slots span at least k minimum intervals |
| `ProbeScheduler.BackoffDoubles` | Body/path_probe.go:358-384 | After k failures in a row short of exhaustion, counted also from the slot granted after a cooldown, the backoff is the initial one doubled k - 1 times, capped |
| `ProbeScheduler.BackoffAfterDoubles` | Body/path_probe.go:378-382 | The first failure earns the initial backoff and each further one twice the last, capped |
| `ProbeScheduler.SlotAfterSuccessExactlyWhen` | Body/path_probe.go:358-400 | After a success or cancellation a slot is granted exactly from the minimum interval on |
| `ProbeScheduler.SlotAfterResetExactlyWhen` | Body/path_probe.go:404-411 | After a reset a slot is granted exactly when minimum interval and initial backoff have passed since the last probe, if any |
| `ProbeScheduler.SlotAfterExhaustionExactlyWhen` | Body/path_probe.go:269-278 | Out of attempts a slot is granted exactly when interval, backoff and cooldown are over, the cooldown being ten times the largest backoff unless configured |
| `ProbeScheduler.OneProbeAtATime` | Body/path_probe.go:249-284 | A granted slot is the only one until its result or cancellation is recorded |
| `ProbeScheduler.ExhaustionPauses` | Body/path_probe.go:269-278 | Once the attempts are exhausted, asking grants nothing and changes nothing before the cooldown is over |
| `ProbeScheduler.Scheduler.constructor` | Body/path_probe.go:225-240 | A new scheduler has the filled-in configuration and has never probed |
| `ProbeScheduler.Scheduler.TryAcquireSlot` | Body/path_probe.go:249-284 | In place, exactly the modelled request for a slot |
| `ProbeScheduler.Scheduler.BackoffDuration` | Body/path_probe.go:293-343 | Computes the advised wait of the model |
| `ProbeScheduler.Scheduler.RecordResult` | Body/path_probe.go:358-384 | In place, exactly the modelled result, reading the clock twice |
| `ProbeScheduler.Scheduler.RecordCancelled` | Body/path_probe.go:391-400 | In place, exactly the modelled cancellation |
| `ProbeScheduler.Scheduler.ClearBackoff` | Body/path_probe.go:404-411 | In place, exactly the modelled reset |
| `ToolLoop.ToolMap` | Core/CognitiveExecution/executor.go:106-112 | The map finds a tool by name exactly when one was declared, the last declaration winning |
| `ToolLoop.Settle` | Core/CognitiveExecution/executor.go:151-153 | After the loop no exchange is required and nothing else has changed |
| `ToolLoop.PerformCalls` | Core/CognitiveExecution/executor.go:154-168 | The calls of a response are carried out in order, all of them or up to the limit |
| `ToolLoop.Respond` | Core/CognitiveExecution/executor.go:141-168 | After an answer the execution ends for the stated reason, or more calls have been carried out and shown |
| `ToolLoop.Iterate` | Core/CognitiveExecution/executor.go:114-169 | One iteration ends the execution for the stated reason or makes progress towards the limit |
| `ToolLoop.Execute` | Core/CognitiveExecution/executor.go:84-170 | For every provider, builder and executor: an unusable request makes no call; otherwise it ends within limit + 1 provider calls and limit tool calls, each context shows all calls so far with exactly the latest required, and the outcome and its cause are determined |
| `ToolLoop.RequiredOnce` | Core/CognitiveExecution/executor.go:142-168 | An exchange is required in the first context built after it and in no other, and never changes place or content |
| `ToolBinding.MatchIsInjective` | Core/CognitiveExecution/executor.go:191-216 | Every bound message has an exchange of its own with exactly its text |
| `ToolBinding.MatchExactlyWhenContained` | Core/CognitiveExecution/executor.go:191-218 | First fit succeeds if and only if the wanted texts, with multiplicity, are among the exchanges before the first that cannot be formatted; otherwise the error kind is determined |
| `ToolBinding.UnformattableHidesLaterExchange` | Core/CognitiveExecution/executor.go:196-214 | An input on which binding fails although an exchange with the text exists |
| `ToolBinding.EqualTextsInOrder` | Core/CognitiveExecution/executor.go:191-216 | Messages with equal text get their exchanges in order |
| `ToolBinding.AttachTools` | Core/CognitiveExecution/executor.go:185-190 | Only the first system message gets the tools |
| `ToolBinding.FindFit` | Core/CognitiveExecution/executor.go:196-214 | The inner loop finds the first unused exchange with the text, or stops at one that cannot be formatted |
| `ToolBinding.BindMessage` | Core/CognitiveExecution/executor.go:192-217 | One message is bound, skipped or found missing exactly as the matching says |
| `ToolBinding.BindToolContext` | Core/CognitiveExecution/executor.go:184-219 | On success and on failure the messages are left exactly as the matching says |
| `Transcript.ReadSigned` | DollNetwork/enrollment_signing.go:40-66 | Reading a transcript gives back the kind and the fields it was made from |
| `Transcript.SignedRead` | DollNetwork/enrollment_signing.go:40-66 | Only transcripts can be read, each in one way |
| `Transcript.SignedIsInjective` | DollNetwork/enrollment_signing.go:40-66 | Equal transcripts have the same kind and the same list of fields |
| `Transcript.SignedMessage` | DollNetwork/enrollment_signing.go:40-66 | The loops produce the transcript, of exactly the length computed before, or refuse a field outside 1 to 256 bytes |
| `Transcript.Measure` | DollNetwork/enrollment_signing.go:41-51 | The first pass accepts exactly fields of 1 to 256 bytes and adds up four bytes and the field for each |
| `Transcript.FramesFillTheirRoom` | DollNetwork/enrollment_signing.go:45-60 | The framed fields are as long as that sum |
| `Transcript.StringField` | DollNetwork/enrollment_signing.go:24-36 | Accepts exactly values of 1 to 256 bytes |
| `Transcript.AppendField` | DollNetwork/enrollment_signing.go:61-66 | Appends the four-byte big-endian length and the field |
| `Transcript.CollectFields` | DollNetwork/enrollment_signing.go:267-288 | Accepts exactly lists of fields of 1 to 256 bytes, unchanged |
| `Transcript.TranscribeMessage` | DollNetwork/enrollment_signing.go:290-300 | Field collection and framing together give the transcript of a message |
| `Transcript.SameBytesExactlyWhenSameSignedPart` | DollNetwork/enrollment_signing.go:245-265 | Two enrollment or authentication messages, of the same or different kinds, sign the same bytes if and only if they differ at most in version, metadata, status, permissions and frame type |
| `Transcript.TranscriptReads` | DollNetwork/enrollment_signing.go:186-258 | Reading a transcript gives kind and fields of the message in their order |
| `Transcript.ReceiptPermissionsAreNotSigned` | DollNetwork/enrollment_signing.go:245-251 | Whatever the permissions and status of a receipt, its transcript is the same |
| `Transcript.ReceiptsThatCoincide` | DollNetwork/enrollment.go:60-71 | Two signable receipts with different permissions and the same transcript |
| `Transcript.SignableExactlyWhenFieldsFit` | DollNetwork/enrollment_signing.go:24-36 | A message can be signed if and only if each field has between 1 and 256 bytes |

## Left out

- PathEpoch.RecoveryEpoch.NextGen: generations are unbounded, so the wrap-around of a 64-bit counter is not modelled.
- ProbeScheduler.BackoffDoubles: durations are exact integers; the rounding of the floating-point power and minimum, and the saturation of time differences, are not modelled.
- Authentication.RevokedBodyHasNoSession: assumes a session revoker that drops every session of the Body; without one configured, Revoke drops none.
- EnrollmentService.Service.Begin: the answer carries request, key and expiry; its approval code and nonce are left out.
- ToolBinding.BindToolContext: the two pointers into the exchange are modelled as the index of the exchange; the text of an exchange is an input.
- ToolLoop.Execute: which check of provider, configuration or budget fails is an input, and the correlation identifiers passed to the executor are left out.
- Transcript.SameBytesExactlyWhenSameSignedPart: fields are the bytes after base64 decoding and time formatting, so two texts for the same bytes count as the same field.
- TransferBudget.LimitsHold: validation and encoding of a transfer happen before admission and only contribute the envelope size; the byte read when probing past a spent budget is not handed on.
- The outer loop of `runSupervisor`: its current tunnel can be stale with respect to the epoch.
- How many probes a discovery run makes: it gives up at the first refused slot, and a probe that reaches nothing changes nothing.
- Which path a recovery tries: that a path fails to start is not told apart from there being no further path.
- `Body/wss_bind.go` and `Core/Gateway/host.go`: transport plumbing, without the isolation such a model would need.
- `Core/PermissionRequest` and continuation of interrupted tool calls: they depend on store transitions outside these files.
- `PairingService`, `Result`, listing operations, `Active`, `Elapsed`, `CopyBounded`, the cognition-run source and `Build`: they would add easy members only.
- Membership endpoints, address allocation beyond being a function of the peer, and invitation creation limits.
- Cryptography, JSON, the SQL engine, WireGuard devices, HTTP handlers, configuration loading and prompt text.
- Guards, action policies, external identities and the capability registry: single branches.
