# Verified models of MonKado's state machines, caches and parsers

MonKado is a wishlist backend written in Go over PostgreSQL. This project models the parts of it
whose correctness depends on long histories, on interleavings or on exact text and arithmetic, and
proves what they promise. `dafny verify dfyconfig.toml` checks everything. Each model stands alone apart
from the two small shared modules, except `TwoFactorAccount`, which runs the operations of `TwoFactor`.
The modules named after a model and ending in `Answers` or `Earned` hold laws about it: they say what
every request is answered and what it changes, for every run or every reachable state, in terms of what
had happened before rather than of the functions that compute it.

| file | what it models |
|---|---|
| `AdmissionLimiter.dfy` | one slot with two waiters, where a grant can race a cancellation |
| `PushOutbox.dfy` | leased push deliveries: claim, authorise, send, fenced commit, backoff |
| `WishOrder.dfy` | position allocation and two-phase reordering under unique positions |
| `GiftReservations.dfy` | reservations through the link, the owner and a group, with history and versions |
| `PrivateGroups.dfy` | members, invitations, join codes, owner succession, account deletion |
| `TwoFactor.dfy`, `TwoFactorAccount.dfy` | enrolment, verification, replacement, recovery codes, lockout, sessions |
| `ThumbnailCache.dfy` | least recently used store with single-flight conversions |
| `PreviewCache.dfy` | bounded preview cache, price age and staleness |
| `FirecrawlAdmission.dfy` | rolling-window and fixed-spacing pacing of provider requests |
| `LinkedData.dfy` | merging and expanding in-document schema references |
| `Prices.dfy` | canonical amounts, the choice of one price, the prices of an offer tree |
| `ResponsiveImages.dfy` | the width candidates of a responsive image attribute |
| `JsonControls.dfy` | escaping raw control characters in almost-JSON |
| `AvifBoxes.dfy` | the box walk that bounds an AVIF file |
| `ImageFrames.dfy` | animation scans of PNG and WebP, and the eight EXIF orientations |
| `AdmissionAnswers.dfy` | who gets the image slot, waits or is rejected |
| `WishAnswers.dfy` | when wishes, places and versions change |
| `ReservationAnswers.dfy` | when a reservation succeeds, and what it leaves behind |
| `GroupAnswers.dfy` | who belongs, who is invited, who owns a group and what a code opens |
| `TwoFactorEarned.dfy` | what replaces an authenticator and what earns a session |
| `TwoFactorAnswers.dfy` | what each request of a sign-in or of account management is answered |
| `ThumbnailAnswers.dfy`, `PreviewAnswers.dfy` | use order, eviction and the answers of the two caches |
| `LinkedAnswers.dfy` | where definitions and products are found, and what an expansion takes from them |
| `SrcsetAnswers.dfy` | what any descriptor means, and the preferred order of widths |
| `PriceAnswers.dfy` | which offers have a say in a price, and what each has to declare |
| `JsonAnswers.dfy` | which characters escaping touches, told from the parts of a text |
| `AvifAnswers.dfy` | which trees of boxes are accepted, however they are written |
| `Common.dfy`, `Digits.dfy` | optional values, bytes and small facts several models share; decimal digits and the numbers they stand for |

How the models are built:

- A transaction is one atomic step over the rows it locks; tables are maps, and unique keys are the
  keys of those maps. A statement outside a transaction is a step of its own.
- Each stateful component has a pure step, and theorems about every run of it, in every
  interleaving of its callers. Beside it stands the imperative form: a class whose methods update
  fields one after the other and are proved equal to that step.
- Clocks are inputs that never go back. Identifiers, tokens and row versions are fresh numbers.
- Hashes, ciphers, codecs, HTTP and the database itself are abstract; the authenticator codes that
  match a secret are a set given with each request.

Three promises hold only under a condition, which is proved exact:

- The fixed pacing mode meets the ten-per-minute bound in every run if and only if no wait ends more
  than 1000 milliseconds early (`FixedBound`): ten gaps of 6.1 seconds leave one second to spare, and
  ten starts on time with an eleventh 1001 milliseconds early break the bound.
- `widthImageSources` drops a candidate whose width exceeds a 64-bit integer: `AllReadable` says
  that every candidate is kept if and only if all widths fit.
- `parseAmount` accepts a decimal if and only if it is worth 1 to 9,999,999,999 hundredths exactly
  (`ParseIsCanonical`): longer values are refused, whatever their form.

## Model

| member | source | states |
|---|---|---|
| AdmissionLimiter.StepKeepsConsistent | internal/admission/limiter.go:33-86 | acquire, grant, cancellation and repeated release each keep: the slot is active iff exactly one caller owns it, counting a grant still in flight, and waiters queue only behind an owner |
| AdmissionLimiter.EveryRunIsSafe | internal/admission/limiter.go:33-86 | the same for every interleaving of any number of callers |
| AdmissionLimiter.ActiveMeansOneOwner | internal/admission/limiter.go:38-48 | the slot has exactly one owner iff it is active, at most two callers wait, and none waits for a free slot |
| AdmissionLimiter.GrantsFollowArrival | internal/admission/limiter.go:78-86 | a later arrival is granted before an earlier one only if the earlier one gave up |
| AdmissionLimiter.AllFinishedIsIdle | internal/admission/limiter.go:74-86 | once every caller has finished, the limiter is inactive and its queue is empty: no slot is lost |
| AdmissionLimiter.ReleaseIsIdempotent | internal/admission/limiter.go:74-77 | releasing twice is releasing once |
| AdmissionLimiter.Limiter.Enter | internal/admission/limiter.go:37-49 | the admission decision in place: admitted, queued or refused, with a fresh release handle iff admitted |
| AdmissionLimiter.Limiter.Abandon | internal/admission/limiter.go:56-69 | a waiter that times out is removed, or passes on the grant that raced it |
| AdmissionLimiter.Limiter.AdvanceQueue | internal/admission/limiter.go:78-86 | the slot goes to the first waiter or becomes free |
| AdmissionLimiter.ReleaseHandle.Call | internal/admission/limiter.go:74-77 | only the first call advances the queue |
| AdmissionAnswers.CallersAreAnswered | internal/admission/limiter.go:33-77 | how every caller's standing moves: a newcomer gets a free slot, waits beside at most one other, and is rejected else; a granted waiter holds, an expired one has left, a holder releases; nobody else's standing changes |
| AdmissionAnswers.GrantsAreExact | internal/admission/limiter.go:37-86 | the slot is granted to a newcomer that finds it free and, when a holder or a waiter already granted gives it up, to the longest waiting caller; never otherwise |
| AdmissionAnswers.EveryCallerIsAnswered | internal/admission/limiter.go:33-49 | the answer to a newcomer after any run, from the callers that were granted the slot and those that wait |
| PushOutbox.RetryDelay | internal/application/push.go:167-174 | the doubling loop computes the capped backoff delay |
| PushOutbox.DelayIsCapped | internal/application/push.go:167-174 | the delay is at least min(first times 2 to the attempts, maximum) and at most the maximum |
| PushOutbox.DelayDoubles | internal/application/push.go:167-174 | the delay is the first one doubled for each attempt while half of the maximum is not reached, and exactly the maximum from then on |
| PushOutbox.DelayGrows | internal/application/push.go:167-174 | the delay never shrinks as attempts grow |
| PushOutbox.EveryRunKeepsInv | internal/application/push.go:109-184 | rows, claims, leases, sends and worker programs stay consistent in every interleaving of workers, crashes, cascades and clock ticks |
| PushOutbox.AtMostOneSendPerClaim | internal/application/push.go:128-154 | each claim is followed by at most one send |
| PushOutbox.SendsAreBounded | internal/application/push.go:165-175 | no delivery is ever sent more often than the configured maximum |
| PushOutbox.UnknownOutcomeIsNeverReplayed | internal/application/push.go:120-123 | a claim is followed by another only after a definite 429 or 5xx answer to it; a lost acknowledgement is never replayed |
| PushOutbox.BackToPending | internal/application/push.go:165-179 | a delivery returns to pending only by a commit under its own live lease after such an answer, with attempts to spare |
| PushOutbox.FinishedStaysFinished | internal/application/push.go:111-123 | sent, failed and cancelled are absorbing over every continuation of every run |
| PushOutbox.StatusIsEarned | internal/application/push.go:111-184 | in every run a delivery takes a status iff it is entitled to it: Sent iff the send under its live lease was answered 2xx, Cancelled iff the authorisation was refused, Failed iff the outcome is unknown, the answer is any other code, the attempts are exhausted or the lease ran out, Pending iff the answer is 429 or 5xx with attempts left, Sending iff it was due and is claimed |
| PushOutbox.RowsAreOtherwiseKept | internal/application/push.go:111-184 | a step that leaves a delivery's status leaves the whole row, a claim counts one attempt and leases it from the start of the pass, and settling it ends the lease and dates it |
| PushOutbox.AttemptEndsAsAnswered | internal/application/push.go:145-181 | the status one undisturbed attempt leaves behind, for every answer |
| PushOutbox.RefusedAttemptCancels | internal/application/push.go:145-150 | without authorisation nothing is sent and the delivery is cancelled |
| PushOutbox.AppearsOnce | internal/application/push.go:109-124 | a delivery appears once, pending, without attempts and due as asked |
| PushOutbox.Disappears | internal/application/push.go:111-181 | a delivery disappears iff it cascades away, was due more than a week before, or the provider answered 404 or 410 for a subscription that is still its owner's |
| PushOutbox.Outbox.Settle | internal/application/push.go:147-181 | classifying the outcome, then either the fenced update or, for a subscription that is gone, its deletion unless another member has taken it over, is the commit step of the protocol; `StatusIsEarned` says which answer leads where |
| PushOutbox.Outbox.ClaimNext | internal/application/push.go:125-144 | the claim step of the protocol for a pending delivery that was due, or nothing changes and none is due |
| PushOutbox.Outbox.Attempt | internal/application/push.go:145-181 | after the claim, exactly one authorisation, one send if it was granted, and one commit, each taking effect, with anything happening in between |
| PushOutbox.Outbox.DeliverPush | internal/application/push.go:109-184 | a pass that meets no error extends the run by, of its own steps, exactly the start, the deletions and, if sending is enabled, the sweep, at most a batch of claims each followed by its authorisation, a send if granted and its commit, then the end; every one of them takes effect whatever happens in between, and a pass shorter than the batch ends when nothing is due |
| WishOrder.DistinctKnownIdsArePermutation | internal/application/wishes.go:247-257 | distinct known ids of full length are a permutation of the list (pigeonhole) |
| WishOrder.OrderIsUnique | internal/application/wishes.go:226-226 | unique positions determine the order |
| WishOrder.ParkingIsFree | internal/application/wishes.go:258-265 | every parking position is above all others, so no intermediate update collides |
| WishOrder.TargetIsFree | internal/application/wishes.go:266-277 | every target position has been vacated when it is assigned |
| WishOrder.PlacedIsListed | internal/application/wishes.go:266-277 | afterwards sorting by position gives exactly the requested ids, over the same set of positions |
| WishOrder.PlacedIsStamped | internal/application/wishes.go:258-277 | only moved wishes get a new version, and all positions stay below the next one |
| WishOrder.EveryRunKeepsOrder | internal/application/wishes.go:77-281 | in every run of additions, edits, deletions and reorderings positions are unique and at most the next one, and the list holds at most 1000 wishes |
| WishOrder.SameVersionSameList | internal/persistence/migrations/001_baseline.sql:873-908 | over every run a version of the list stands for one content; a version once left never returns |
| WishOrder.ReorderingActsOnWhatWasRead | internal/application/wishes.go:217-222 | a reordering made with a version read earlier moves wishes only in exactly the list that was read, into the requested order over the same positions |
| WishOrder.FirstReorderingWins | internal/application/wishes.go:217-222 | of all reorderings made with one version, at most one ever moves a wish |
| WishOrder.StepIsDetermined | internal/application/wishes.go:258-277 | the step leaves no choice: requested order and positions determine every row |
| WishOrder.WishList.Create | internal/application/wishes.go:77-96 | the addition step: a new wish goes last, under the 1000-wish limit, and moves the list's version on; a copied wish is placed the same way |
| WishOrder.WishList.Update | internal/application/wishes.go:109-139 | the edit step: a changed wish keeps its place and moves the list's version on, an unchanged one moves nothing |
| WishOrder.WishList.Delete | internal/application/wishes.go:142-169 | the deletion step: the wish goes if its version is current, the next position stays, and the list's version moves on |
| WishOrder.WishList.ReorderWishes | internal/application/wishes.go:207-281 | the reordering step: succeeds iff the version is current and the ids name every wish once, with the errors and the reply; the list's version moves on iff some wish moved |
| WishOrder.WishList.Recognise | internal/application/wishes.go:247-257 | the id loop accepts exactly the full permutations |
| WishOrder.WishList.Park | internal/application/wishes.go:258-265 | the first phase, keeping positions unique at every update |
| WishOrder.WishList.Place | internal/application/wishes.go:266-277 | the second phase, keeping positions unique at every update |
| WishAnswers.WishesComeAndGo | internal/application/wishes.go:77-169 | a wish is in the list from its creation, under the limit of 1000, until a removal that names its current version |
| WishAnswers.PlacesAreKept | internal/application/wishes.go:77-281 | a new wish is placed after every other; places change only by a reordering with the list's version and every wish named once, which lists the wishes as asked over the same places |
| WishAnswers.VersionsTellChanges | internal/application/wishes.go:77-281 | a wish has a new version iff it was created, edited or moved |
| WishAnswers.ListVersionTellsChanges | internal/persistence/migrations/001_baseline.sql:873-908 | the list has a new version iff a wish came, went, was edited or was moved |
| GiftReservations.StepKeepsInv | internal/application/reservations.go:20-155 | every operation keeps capacity, history agreement, the participant limit and version bookkeeping |
| GiftReservations.NeverOverReserved | internal/application/reservations.go:122-128 | in every run mixing link, owner and group reservations with edits and deletions, no wish is reserved beyond its quantity |
| GiftReservations.HistoryIsFaithful | internal/application/reservations.go:113-144 | a member's reservation and an Active history row of the same id, wish and quantity are the same thing, in both directions |
| GiftReservations.AtMostOneHundredVisitors | internal/application/group_wishlists.go:193-211 | at most 100 identified participants beside the owner, although the owner's row is never limited |
| GiftReservations.SameVersionSameRow | internal/application/reservations.go:95-111 | over whole runs, a row that still has a version is the row that had it, in the same slot |
| GiftReservations.ChangesAreBasedOnCurrentVersion | internal/application/reservations.go:95-144 | in every run, whatever the event, an existing reservation changes only by a Put of its own participant for its wish that names its current version, and then to the requested quantity under a fresh version |
| GiftReservations.RemovalsAreBasedOnCurrentVersion | internal/application/reservations.go:95-119 | in every run, a reservation disappears only by its own participant's Delete that names its current version, or with its wish, list or member |
| GiftReservations.NoLostUpdate | internal/application/reservations.go:106-111 | a request made with a version read earlier in the run takes effect only while the row is exactly the one that was read, and on that row alone |
| GiftReservations.FirstWriterWins | internal/application/reservations.go:106-111 | of all requests made with one version, at most one ever takes effect in a run |
| GiftReservations.VersionsNeverReturn | internal/application/reservations.go:126-137 | a version that no row has any more never comes back |
| GiftReservations.EnrolAndReserveKeepsInv | internal/application/reservations.go:65-79 | enrolment together with the reservation keeps all invariants |
| GiftReservations.ListRows.EnrolThenReserve | internal/application/reservations.go:65-79 | the participant inserted before the reservation is gone again when the reservation is refused |
| GiftReservations.RefusedRequestsChangeNothing | internal/application/reservations.go:20-82 | whatever the way in, a refused request leaves all rows as they were |
| GiftReservations.RemoveMemberKeepsInv | internal/application/members.go:190-234 | deleting a member's account keeps them too, for the owner and for a visitor |
| GiftReservations.ListRows.ReservedByOthers | internal/application/reservations.go:122-125 | the sum over the other participants' rows |
| GiftReservations.ListRows.ReservationInTransaction | internal/application/reservations.go:84-155 | the shared transaction, statement by statement, is the step |
| GiftReservations.ListRows.PutReservation | internal/application/reservations.go:122-144 | the absolute-quantity part of it; `PutSucceedsExactlyWhenItFits` says what that answers and stores |
| GiftReservations.ListRows.ReserveAsOwner | internal/application/reservations.go:44-82 | the owner's way in |
| GiftReservations.ListRows.ReserveThroughGroup | internal/application/group_wishlists.go:179-215 | the group's way in |
| ReservationAnswers.PutSucceedsExactlyWhenItFits | internal/application/reservations.go:84-155 | in every run and through all three ways in, a Put succeeds iff its caller may reserve, the wish exists, the precondition matches, the quantity is 1 to 100 and fits beside the others' rows; afterwards exactly the caller's slot differs, holding the requested quantity, which is also the answer and, for a member, an Active history row |
| ReservationAnswers.ReservedIsTheSum | internal/application/reservations.go:122-125 | what counts as reserved is each row of the wish once, with its quantity, and nothing else |
| ReservationAnswers.DeleteSucceedsExactlyWhenCurrent | internal/application/reservations.go:95-119 | in every run a Delete succeeds iff it names the current version of the caller's own row; exactly that row goes and a member's history of it is cancelled |
| ReservationAnswers.GetShowsTheOwnRow | internal/application/reservations.go:84-98 | a read answers the caller's own row and changes nothing |
| ReservationAnswers.RefusalsAreJustified | internal/application/reservations.go:84-130 | every refusal names a reason that holds |
| ReservationAnswers.JoiningIsExact | internal/application/group_wishlists.go:193-211 | joining gives everyone but the owner one place, under the limit, and keeps the place one has |
| ReservationAnswers.EditingIsExact | internal/application/wishes.go:109-139 | an edit of a quantity takes effect iff the wish exists and everything reserved still fits |
| ReservationAnswers.WishesComeAndGo | internal/application/wishes.go:77-169 | a new wish is the only change; a deleted one takes exactly its reservations along |
| ReservationAnswers.PeopleGo | internal/application/members.go:190-234 | a deleted member's reservations go with its participation and history, and nobody else's |
| PrivateGroups.StepKeepsInv | internal/application/groups.go:107-386 | every group operation keeps groups sound, memberships limited and references valid |
| PrivateGroups.GroupsStayBounded | internal/application/groups.go:282-372 | in every reachable state a group's owner is a member, members and pending invitations are at most 100 together, nobody both belongs and is invited, and nobody is in more than 50 groups |
| PrivateGroups.AcceptanceNeedsNoSizeCheck | internal/application/groups.go:330-372 | an acceptance succeeds iff the invitation is current and the member has room; it never meets an existing membership and never overfills the group |
| PrivateGroups.InvitedMemberCanJoin | internal/application/group_join_links.go:100-116 | the holder of an invitation is never turned away by a full group when joining by code |
| PrivateGroups.DepartureHandsOver | internal/application/groups.go:198-235 | a group ends only with its last member; a departing owner is succeeded by the longest-standing other member |
| PrivateGroups.DeletionSparesOthers | internal/application/members.go:219-232 | deleting an account ends exactly the groups it was alone in |
| PrivateGroups.InviteKeepsSound | internal/application/groups.go:302-313 | an invitation counts as a place once expired ones are gone |
| PrivateGroups.JoinKeepsSound | internal/application/group_join_links.go:100-116 | the join's own occupancy count keeps the limit |
| PrivateGroups.GroupRows.InviteGroupMember | internal/application/groups.go:282-327 | the invitation transaction is the step |
| PrivateGroups.GroupRows.AnswerGroupInvitation | internal/application/groups.go:330-372 | the answer transaction is the step |
| PrivateGroups.GroupRows.JoinGroup | internal/application/group_join_links.go:66-120 | the join transaction is the step |
| PrivateGroups.GroupRows.FindSuccessor | internal/application/groups.go:220-222 | the earliest other member by joining time, then identifier |
| PrivateGroups.GroupRows.RemoveGroupMember | internal/application/groups.go:198-216 | the removal transaction is the step |
| PrivateGroups.GroupRows.RemoveMember | internal/application/members.go:219-232 | the loop over owned groups and the cascades are the deletion step |
| GroupAnswers.MembershipIsEarned | internal/application/groups.go:107-386 | in one step from any reachable state, whoever belongs afterwards belonged and did not depart, or entered by founding the group, accepting an own live invitation or showing the published code with room for both sides, and since that time; nobody else gets in, and nobody who may is kept out |
| GroupAnswers.GroupsComeAndGo | internal/application/groups.go:124-235 | a group exists from its founding until its last member departs, and its owner changes only when it departs, to the member that joined first of the others |
| GroupAnswers.InvitationsComeAndGo | internal/application/groups.go:282-386 | the live invitations are those not yet expired, answered, revoked, used up or gone with the group or its holder, and new ones last fourteen days |
| GroupAnswers.CodesComeAndGo | internal/application/group_join_links.go:15-65 | a group's code changes only by a member's publishing one where there is none, or withdrawing it |
| GroupAnswers.AccountsComeAndGo | internal/application/members.go:190-234 | accounts come by registration, go by deletion and are visible as their holder last said |
| GroupAnswers.JoinIsAnswered | internal/application/group_join_links.go:66-120 | the exact success condition of joining by code, with a reason that holds for every refusal: without the published code nobody gets in |
| GroupAnswers.InviteIsAnswered | internal/application/groups.go:282-327 | the exact success condition of an invitation, with a reason that holds for every refusal |
| GroupAnswers.AnswerIsAnswered | internal/application/groups.go:330-372 | the exact success condition of accepting and of declining |
| GroupAnswers.RemovalIsAnswered | internal/application/groups.go:198-216 | a removal succeeds iff both belong |
| TwoFactor.VerifyAuthenticator | internal/security/totp.go:40-59 | the search over neighbouring time steps |
| TwoFactor.AcceptedStepIsFresh | internal/security/totp.go:49-58 | a code is accepted iff some neighbouring step later than the last accepted one matches |
| TwoFactor.StepKeepsLockout | internal/application/two_factor.go:127-156 | every operation keeps the failure count below five, the window at ten, and lockouts effective |
| TwoFactor.StepKeepsWindow | internal/application/two_factor.go:132-140 | every operation keeps: the counter covers every proof of the current one-minute window |
| TwoFactor.StepKeepsReplay | internal/application/two_factor.go:158-172 | every operation keeps accepted steps increasing and candidates fresh |
| TwoFactor.StepKeepsSessions | internal/application/two_factor.go:303-357 | every operation keeps: a flow that may complete was proved, and grants come from distinct flows |
| TwoFactor.StepKeepsRecovery | internal/application/two_factor.go:174-190 | every operation keeps: unexpired flows hold distinct codes, a flow with a code must replace, spent codes are gone |
| TwoFactor.EveryRunKeepsAccount | internal/application/two_factor.go:35-442 | all of these in every reachable state |
| TwoFactor.OneProvedSessionPerFlow | internal/application/two_factor.go:303-357 | one session at most per challenge, and only after a code for that credential was accepted in the same challenge |
| TwoFactor.CompletionIsEarned | internal/application/two_factor.go:303-357 | a returned session belongs to the credential in force; a challenge that reserved a recovery code gets one only after its new authenticator was confirmed with it |
| TwoFactor.NoSessionOutlivesItsAuthenticator | internal/application/two_factor.go:235-243 | an unrevoked second-factor session always belongs to the current credential |
| TwoFactor.RecoveryCodesPayOnce | internal/application/two_factor.go:262-270 | no two unexpired challenges hold one code, and one code pays for one replacement |
| TwoFactor.NoCodeIsReplayed | internal/application/two_factor.go:166-170 | accepted time steps strictly increase per credential (section 5.2 of RFC 6238) |
| TwoFactor.AtMostFiveRejectionsPerLockout | internal/application/two_factor.go:144-156 | rejections without an acceptance in any span shorter than fifteen minutes are at most five, across completion, setup and reauthentication |
| TwoFactor.AtMostTenProofsPerWindow | internal/application/two_factor.go:127-142 | a one-minute verification window sees at most ten proofs, accepted or rejected, through any operation |
| TwoFactorAccount.Account.BeginFactor | internal/application/two_factor.go:35-58 | a new challenge with its required action |
| TwoFactorAccount.Account.StartFactorVerification | internal/application/two_factor.go:127-142 | lockout and window, in place |
| TwoFactorAccount.Account.FactorFailed | internal/application/two_factor.go:144-156 | one rejected proof, locking after the fifth |
| TwoFactorAccount.Account.VerifyCurrentFactor | internal/application/two_factor.go:158-172 | one authenticator proof against the current credential |
| TwoFactorAccount.Account.ReserveRecovery | internal/application/two_factor.go:174-190 | the conditional reservation of a recovery code |
| TwoFactorAccount.Account.TwoFactorSetup | internal/application/two_factor.go:193-219 | the candidate is created once per challenge |
| TwoFactorAccount.Account.RecoveryCodes | internal/application/two_factor.go:221-233 | ten new codes replace all others |
| TwoFactorAccount.Account.RevokeFactorProofs | internal/application/two_factor.go:235-242 | all sessions and all other challenges end |
| TwoFactorAccount.Account.ConfirmTwoFactorSetup | internal/application/two_factor.go:245-300 | the confirmation transaction is the step |
| TwoFactorAccount.Account.CompleteTwoFactor | internal/application/two_factor.go:303-357 | the completion transaction is the step |
| TwoFactorAccount.Account.ReauthenticateTwoFactor | internal/application/two_factor.go:367-419 | the reauthentication transaction is the step |
| TwoFactorAccount.Account.RegenerateRecoveryCodes | internal/application/two_factor.go:422-442 | the regeneration transaction is the step |
| TwoFactorEarned.ReplacementIsTheOwners | internal/application/two_factor.go:245-300 | in every run, the authenticator in force gives way to another only in a challenge in which a code of it was accepted, at the reauthentication that began it or in it, or that spends one of its recovery codes, and only to one whose own code was accepted |
| TwoFactorEarned.SignInIsTheOwners | internal/application/two_factor.go:35-58 | in every run, a sign-in begun while an authenticator is in force gets a session only after a code of that authenticator was accepted in it or one of its recovery codes was spent in it |
| TwoFactorEarned.SessionsAreGranted | internal/application/two_factor.go:303-357 | a second-factor session appears only as the answer to a completion, as one more grant to its challenge |
| TwoFactorEarned.EveryRunIsWarranted | internal/application/two_factor.go:35-442 | every installation, session and open challenge of every run has the proof or the payment behind it |
| TwoFactorAnswers.LimitIsExact | internal/application/two_factor.go:127-156 | in every run a verification is turned away iff the proofs in the history lock it or its minute has ten attempts |
| TwoFactorAnswers.SignInLimitIsExact | internal/application/two_factor.go:127-156 | the same for a sign-in that waits for a code |
| TwoFactorAnswers.SigningIn | internal/application/two_factor.go:303-357 | after any run, a password and then a fresh code of the authenticator in force give a session for it in place of the previous one; any other code is rejected and counted |
| TwoFactorAnswers.Installing | internal/application/two_factor.go:193-300 | a challenge that may install gets a candidate, keeps it, and installs it with a fresh code of it |
| TwoFactorAnswers.InstallReplacesAll | internal/application/two_factor.go:221-300 | an installation leaves ten new recovery codes and no other, and ends every session and every other challenge |
| TwoFactorAnswers.RegeneratingReplacesAll | internal/application/two_factor.go:422-442 | new recovery codes come only from the challenge meant for them, and end everything else |
| TwoFactorAnswers.Reauthenticating | internal/application/two_factor.go:367-419 | a fresh code of a signed-in member begins the challenge asked for, bound to that session |
| TwoFactorAnswers.HoldingIsExact | internal/application/two_factor.go:174-190 | a recovery code is held iff it is unspent, of the authenticator in force and held by nobody else |
| TwoFactorAnswers.UsableFlowsAreFresh | internal/application/two_factor.go:76-113 | in every run a challenge can be used only within five minutes, under the same security stamp, and, unless it signs in, by the live session that began it |
| TwoFactorAnswers.UnusableFlowsAreRefused | internal/application/two_factor.go:76-113 | any other is refused with one answer and changes nothing |
| TwoFactorAnswers.GoogleIsChecked | internal/application/google.go:273-320 | a Google account linked elsewhere gives no session; a claim confirms the member and ends all that was open |
| TwoFactorAnswers.RevocationEndsEverything | internal/application/two_factor.go:235-243 | administrative revocation ends every session and every challenge, and keeps the authenticator |
| TwoFactorAnswers.ReauthenticatingByRecovery | internal/application/two_factor.go:392-413 | a recovery code that can be held begins a replacement and pays for it; any other is a failed proof, and nothing else can be begun with one |
| TwoFactorAnswers.SessionsEndAsAsked | internal/application/two_factor.go:235-357 | a session is ended by an event iff it is signed out, replaced at a sign-in, or ended with all others by a revocation, new codes, another authenticator or a Google claim |
| TwoFactorAnswers.StampsMoveOn | internal/application/two_factor.go:99-99 | the security stamp moves on with a new password or address and with a Google claim, and only then; a member is confirmed by such a claim, or as told |
| TwoFactorAnswers.FlowsEndWithTheStamp | internal/application/two_factor.go:98-100 | in every run, no challenge begun before a change of password or address can be used after it |
| TwoFactorAnswers.PurgingSparesUsableFlows | internal/application/two_factor.go:98-100 | deleting expired challenges changes nothing for any that can be used, and only a confirmed member, or one Google confirms, can use one |
| ThumbnailCache.TrimIsLongest | internal/images/thumbnail_cache.go:97-103 | eviction keeps the longest recently used prefix that fits |
| ThumbnailCache.FirstSurvives | internal/images/thumbnail_cache.go:93-103 | a new image that fits at all is never evicted by its own insertion |
| ThumbnailCache.InsertKeepsValid | internal/images/thumbnail_cache.go:93-103 | both limits hold after eviction and `bytes` is the sum of the cached lengths |
| ThumbnailCache.TouchKeepsValid | internal/images/thumbnail_cache.go:64-68 | a hit moves its key to the front and keeps the list free of duplicates |
| ThumbnailCache.StepKeepsInv | internal/images/thumbnail_cache.go:57-110 | every step of any number of callers keeps store, flights and callers consistent |
| ThumbnailCache.CacheIsTransparent | internal/images/thumbnail_cache.go:57-110 | every result equals the conversion of that caller's own source, or is its own cancellation |
| ThumbnailCache.SingleFlight | internal/images/thumbnail_cache.go:70-88 | at most one conversion per key is in flight, and its key is not cached |
| ThumbnailCache.ProducerCancellationIsNotShared | internal/images/thumbnail_cache.go:79-82 | a live caller woken by a cancelled producer looks again instead of failing |
| ThumbnailCache.NewImageSurvives | internal/images/thumbnail_cache.go:93-105 | a finished conversion that fits is in the cache afterwards |
| ThumbnailCache.Cache.Lookup | internal/images/thumbnail_cache.go:64-69 | the hit in place |
| ThumbnailCache.Cache.Board | internal/images/thumbnail_cache.go:63-86 | the first critical section: a hit, another caller's flight to wait for, or a fresh flight of its own |
| ThumbnailCache.Cache.Settle | internal/images/thumbnail_cache.go:89-107 | the publication in place: the flight's outcome stored and its key released, and an image that may be cached inserted and the store trimmed |
| ThumbnailCache.Cache.Evict | internal/images/thumbnail_cache.go:97-103 | the eviction loop leaves exactly the trimmed order |
| ThumbnailAnswers.OrderIsRecency | internal/images/thumbnail_cache.go:64-103 | in every run the use order is the order of the last hit or conversion of each key in the history: a hit brings its key to the front and leaves the others as they were |
| ThumbnailAnswers.EvictionIsExact | internal/images/thumbnail_cache.go:93-105 | a finished conversion that fits comes in, and another image stays iff it fits beside the new one and all that were used since |
| ThumbnailAnswers.EntriesStayOtherwise | internal/images/thumbnail_cache.go:63-107 | nothing leaves or enters the cache otherwise |
| ThumbnailAnswers.LookIsAnswered | internal/images/thumbnail_cache.go:63-86 | a look hits, joins the one conversion under way for its key, or starts a fresh one |
| ThumbnailAnswers.WakingIsExact | internal/images/thumbnail_cache.go:71-84 | a live waiter stays while the conversion runs, looks again iff its caller's cancellation cut it short, and else gets its result |
| ThumbnailAnswers.FinishIsAnswered | internal/images/thumbnail_cache.go:87-107 | the producer gets its own result, or its own cancellation |
| ThumbnailAnswers.CancelledCallersLeave | internal/images/thumbnail_cache.go:57-75 | a caller whose context has ended leaves with that error, before it begins or while it waits |
| PreviewCache.FitKeepsNewest | internal/importer/preview_cache.go:184-194 | every survivor of an eviction was used more recently than everything evicted |
| PreviewCache.FitIsLargest | internal/importer/preview_cache.go:184-194 | nothing is evicted without need |
| PreviewCache.PutKeepsValid | internal/importer/preview_cache.go:143-202 | a deposit keeps `bytes` equal to the sum of sizes and all limits |
| PreviewCache.LookKeepsValid | internal/importer/preview_cache.go:77-128 | so does a lookup |
| PreviewCache.BoundsHold | internal/importer/preview_cache.go:15-20 | in every run: 128 entries, 16 MiB, 64 pending keys, exact byte count |
| PreviewCache.OneOwnerPerKey | internal/importer/preview_cache.go:105-126 | at most one import works for a key on behalf of others |
| PreviewCache.PendingKeysAreOwned | internal/importer/preview_cache.go:118-126 | no key stays pending without an import that will release it |
| PreviewCache.HitRepeatsTheLatestImport | internal/importer/preview_cache.go:88-104 | a hit is the latest stored import of its key, apart from URL and staleness warning |
| PreviewCache.ServedPriceIsFresh | internal/importer/preview_cache.go:171-179 | no price is served 48 hours or more after it was observed, in both modes and for every kind of source |
| PreviewCache.StalenessIsToldOnce | internal/importer/preview_cache.go:100-103 | a price found ten minutes or more after insertion carries exactly one staleness warning, before that only the one it came with |
| PreviewCache.PreviewStore.RemoveExpired | internal/importer/preview_cache.go:211-218 | the expiry loop |
| PreviewCache.PreviewStore.Acquire | internal/importer/preview_cache.go:77-128 | one pass of the lookup is the step |
| PreviewCache.PreviewStore.Deposit | internal/importer/preview_cache.go:143-202 | the deposit is the step |
| PreviewCache.PreviewStore.MakeRoom | internal/importer/preview_cache.go:184-194 | the eviction loop terminates, since an empty cache has no bytes, with exactly the specified survivors |
| PreviewCache.PreviewStore.FindOldest | internal/importer/preview_cache.go:185-191 | the scan finds a least recently used entry |
| PreviewAnswers.StoresIsAccepts | internal/importer/preview_cache.go:143-180 | an import is accepted iff it is complete, weighs at most 16 MiB with its image in base64 unless adaptive, and may still be repeated |
| PreviewAnswers.LatestIsRecorded | internal/importer/preview_cache.go:143-202 | the deposit on record is the last accepted import of the key in the history |
| PreviewAnswers.OrderIsRecency | internal/importer/preview_cache.go:88-99 | in every run, of two cached keys the one hit or stored later in the history comes later in the use order |
| PreviewAnswers.EvictionIsExact | internal/importer/preview_cache.go:181-202 | a key stays beside a new import iff it has not expired and everything used no earlier fits with the import |
| PreviewAnswers.EntriesStayOtherwise | internal/importer/preview_cache.go:77-218 | otherwise only time takes anything out, and nothing comes in |
| PreviewAnswers.LookupIsAnswered | internal/importer/preview_cache.go:77-128 | a lookup repeats an entry iff one has not expired, else waits iff another caller works for the key, else works itself: for the others too iff fewer than 64 callers do |
| PreviewAnswers.OwnersComeAndGo | internal/importer/preview_cache.go:105-142 | a caller works for a key from the lookup that made it do so until its release |
| PreviewAnswers.HitIsExact | internal/importer/preview_cache.go:88-104 | in every run a hit hands out the last accepted import of its key, within ten minutes of it or two days but for ten seconds of its price's reading, with the staleness warning iff the price has aged ten minutes |
| FirecrawlAdmission.RollingBound | internal/importer/local_firecrawl.go:310-357 | at most 10 starts in any 60-second window in rolling mode, with any number of concurrent callers |
| FirecrawlAdmission.FixedBound | internal/importer/local_firecrawl.go:309-359 | in fixed mode the spacing gives the same bound for every run and window if and only if no wait may end more than 1000 milliseconds early |
| FirecrawlAdmission.EveryStartWasAdmitted | internal/importer/local_firecrawl.go:331-360 | in every run, each start was the admission of a caller that had waited for its planned time, outside every block and with the provider enabled |
| FirecrawlAdmission.EachStartHasItsEntry | internal/importer/local_firecrawl.go:299-360 | in every run, starts and the caller still waiting are at most the entries: no wait is used for two starts |
| FirecrawlAdmission.StartsRespectBlocks | internal/importer/local_firecrawl.go:331-345 | from any state, along any events without a further 429, the block stays as it is and every new start is at or after its end |
| FirecrawlAdmission.LimitIsObserved | internal/importer/local_firecrawl.go:383-391 | after a 429 nothing starts before the time its Retry-After names, or for a minute when it names none to come, until the next 429 |
| FirecrawlAdmission.RefusalIsFinal | internal/importer/local_firecrawl.go:377-382 | after a 401, 402 or 403, from any state and along any events, no request ever starts again |
| FirecrawlAdmission.OnlyRefusalsDisable | internal/importer/local_firecrawl.go:377-392 | in every run the provider is disabled iff one of those answers was given |
| FirecrawlAdmission.RollingEntryIsExact | internal/importer/local_firecrawl.go:299-329 | after any run in rolling mode, a caller waits until the tenth last start leaves the window, or not at all, and is turned away iff the provider blocks or the wait would outlast its deadline |
| FirecrawlAdmission.RollingStartIsExact | internal/importer/local_firecrawl.go:331-360 | it starts iff its wait is over, nothing blocks it and the window has room |
| FirecrawlAdmission.PlansFollow | internal/importer/local_firecrawl.go:346-360 | in every run of the fixed mode the plan is one interval after the last start, plus what the waits were early |
| FirecrawlAdmission.FixedEntryIsExact | internal/importer/local_firecrawl.go:299-317 | with punctual waits a caller waits until one interval after the last start |
| FirecrawlAdmission.FixedStartIsExact | internal/importer/local_firecrawl.go:331-360 | it starts iff its wait is over and nothing blocks it |
| FirecrawlAdmission.CancelledReservesNothing | internal/importer/local_firecrawl.go:346-360 | from a free semaphore, in both modes, a caller that enters and is cancelled after any passing of time and blocks leaves every later run with the same starts, holder and pacing as if it had never entered |
| FirecrawlAdmission.LocalFirecrawl.PruneRollingStarts | internal/importer/local_firecrawl.go:364-368 | the pruning loop |
| FirecrawlAdmission.LocalFirecrawl.Plan | internal/importer/local_firecrawl.go:299-317 | the first critical section |
| FirecrawlAdmission.LocalFirecrawl.Reserve | internal/importer/local_firecrawl.go:332-360 | the second critical section |
| FirecrawlAdmission.LocalFirecrawl.Block | internal/importer/local_firecrawl.go:377-392 | the reaction to a provider's refusal, in place; `RefusalIsFinal`, `OnlyRefusalsDisable` and `LimitIsObserved` say what it leads to |
| LinkedData.AddSummarises | internal/importer/linked_data.go:36-53 | adding a definition keeps: an identifier's entry is the union of its definitions if they agree on every key, and a permanent conflict otherwise |
| LinkedData.IndexIsDetermined | internal/importer/linked_data.go:36-53 | the index depends on the set of definitions alone |
| LinkedData.IndexSummarises | internal/importer/linked_data.go:36-53 | any order of merging gives that index |
| LinkedData.Walker.Visit | internal/importer/linked_data.go:22-62 | with members visited in any order, succeeds iff the document has at most the budgeted nodes and levels, and then has merged exactly its definitions |
| LinkedData.Walker.Merge | internal/importer/linked_data.go:40-52 | the member-wise merge is the union or a conflict, whatever the order of members |
| LinkedData.MoreBudgetChangesNothing | internal/importer/linked_data.go:66-112 | the budget only guards: a larger one expands alike, and so does a smaller one that lacks no more than was left over |
| LinkedData.ExpandedObjectIsMerged | internal/importer/linked_data.go:85-109 | an expanded object has exactly its own members and those of its definition, and keeps the values of its own that are no relations |
| LinkedData.CyclesAreCut | internal/importer/linked_data.go:84-109 | in what comes out, along the relations, an object whose identifier is already open on the way to it is only that identifier, however references go in circles |
| LinkedData.AnonymousExpandsToItself | internal/importer/linked_data.go:68-112 | documents without references come out unchanged |
| LinkedData.Expander.ExpandValue | internal/importer/linked_data.go:68-112 | the recursive closure terminates on cyclic references, is the specified expansion, and leaves the set of open identifiers as it found it |
| LinkedData.Expander.ExpandObject | internal/importer/linked_data.go:84-109 | the object case in place; `ObjectsTakeTheirDefinition` says what the result consists of |
| LinkedData.FindProducts | internal/importer/metadata.go:288-310 | the search finds every wanted object, or more than the limit exactly when there are more |
| LinkedData.LinkedProducts | internal/importer/linked_data.go:10-127 | the result is a function of the documents, independent of map iteration order, and fails iff a budget or the limit of products is passed |
| LinkedAnswers.DefinitionsAreEverywhere | internal/importer/linked_data.go:22-53 | the definitions are exactly the identified objects, at any place in the documents, that say more than their name |
| LinkedAnswers.ObjectsTakeTheirDefinition | internal/importer/linked_data.go:84-109 | of an expanded object every member is pinned: relations are the expansion of its own member or else of its definition's, with its identifier open, and all others are its own or else exactly its definition's |
| LinkedAnswers.OpenObjectsAreNamed | internal/importer/linked_data.go:84-86 | an object whose identifier is open comes out as that identifier, in its own spelling, and nothing else |
| LinkedAnswers.ValuesExpandAlike | internal/importer/linked_data.go:68-83 | plain values stay, and lists expand item by item |
| LinkedAnswers.BudgetIsTheSteps | internal/importer/linked_data.go:66-112 | an expansion succeeds iff the budget pays for every part it passes through, and leaves the rest |
| LinkedAnswers.AnsweredWithinBudget | internal/importer/linked_data.go:114-127 | the products are answered iff their parts together are within the budget |
| LinkedAnswers.EachProductExpands | internal/importer/linked_data.go:114-127 | each product found is answered once, in order, as its expansion |
| LinkedAnswers.ProductsAreCompleted | internal/importer/linked_data.go:36-127 | every member of an expanded product that is no relation is its own or is given by some definition anywhere in the documents, when all of its identifier agree; and all such members are there |
| LinkedAnswers.FoundOncePerWay | internal/importer/metadata.go:288-310 | the search finds in document order, once for each way through lists, graphs and main entities of at most 64 steps, exactly the wanted objects |
| Prices.ParseIsCanonical | internal/importer/metadata.go:413-432 | an amount is accepted iff it is a decimal of 1 to 9,999,999,999 whole hundredths, and is then written in the one shortest way |
| Prices.ParsedIsShown | internal/importer/metadata.go:419-438 | whatever is accepted keeps its exact value and is not zero |
| Prices.ParseIsIdempotent | internal/importer/metadata.go:419-438 | parsing a parsed amount changes nothing |
| Prices.EqualExactlyWhenWorthTheSame | internal/importer/metadata.go:419-438 | equal values give equal strings, and only they |
| Prices.MinorOfShow | internal/importer/selected_state_offer.go:125-129 | the hundredths encoding is the inverse of writing an amount, hence exact and strictly increasing |
| Prices.MinorIsExact | internal/importer/selected_state_offer.go:125-129 | the encoding of any accepted amount is its value in hundredths |
| Prices.ChoosePrice | internal/importer/metadata.go:433-453 | an amount is chosen iff every price parses to it and none names another currency |
| Prices.ChoiceIgnoresOrder | internal/importer/metadata.go:433-453 | the choice depends on the set of prices |
| Prices.CollectPrices | internal/importer/structured.go:270-323 | the appending loops collect the specified prices |
| Prices.OwnPrices | internal/importer/structured.go:296-314 | the specification loop of a single offer |
| Prices.LeafPricesAreCollected | internal/importer/structured.go:270-323 | every price of every single offer in the tree is collected, whatever aggregates surround it |
| Prices.OverflowPoisons | internal/importer/structured.go:271-273 | a tree cut off anywhere poisons the whole collection |
| Prices.ChosenPriceIsEveryones | internal/importer/structured.go:266-323 | a chosen price means the tree was followed completely and every single offer declares exactly that amount, in euros |
| PriceAnswers.CollectedIsSaid | internal/importer/structured.go:270-323 | the collected prices are exactly those of the single offers, those of aggregates that stand among nothing but aggregates without offers, and the unreadable one of a tree that was cut off |
| PriceAnswers.ChosenExactly | internal/importer/structured.go:266-323 | an amount is chosen iff there is an offer, the tree is followed completely, every single offer declares that amount in euros and no other, and so does every such aggregate: outright, or by a low price that equals the high one or stands for one offer |
| PriceAnswers.RangesAreUnreadable | internal/importer/structured.go:284-293 | a range of different prices for more than one offer is unreadable |
| PriceAnswers.UnsupportedExactly | internal/importer/metadata.go:433-453 | another currency is reported iff someone who has a say states an amount in one |
| ResponsiveImages.RoundTrip | internal/importer/metadata_images.go:123-175 | parsing printed candidates (section 4.8.4.2.1 of the WHATWG HTML Standard) gives exactly the first 64 whose width fits an integer, as a stable permutation in preference order |
| ResponsiveImages.AllReadable | internal/importer/metadata_images.go:156-159 | nothing is lost iff every width fits a 64-bit integer |
| ResponsiveImages.ReadsOne | internal/importer/metadata_images.go:130-159 | one printed candidate is read back, commas in its URL included |
| ResponsiveImages.NextAdvances | internal/importer/metadata_images.go:129-158 | every pass consumes at least one character |
| ResponsiveImages.PreferredIsStableSort | internal/importer/metadata_images.go:161-169 | widths up to 1600 first in descending order, then larger ones ascending, equal widths in document order |
| ResponsiveImages.ReadCandidate | internal/importer/metadata_images.go:130-159 | the index loops stay in bounds and read the specified candidate |
| ResponsiveImages.WidthImageSources | internal/importer/metadata_images.go:123-175 | the whole loop |
| SrcsetAnswers.WidthsAreNamed | internal/importer/metadata_images.go:153-157 | a descriptor is understood iff it names, with or without a plus sign, a positive number of pixels that a 64-bit integer holds |
| SrcsetAnswers.EntriesOfferWidths | internal/importer/metadata_images.go:130-159 | an entry with any descriptor, or with anything after it, gives its URL iff it names a width and nothing follows |
| SrcsetAnswers.EntriesAreIndependent | internal/importer/metadata_images.go:123-159 | the first 64 entries are read each by itself: an unusable one is ignored and disturbs no other |
| SrcsetAnswers.PreferenceIsByWidth | internal/importer/metadata_images.go:161-169 | widths up to 1600 come first, the largest first, then the larger ones, the smallest first |
| JsonControls.EscapeIsClean | internal/importer/metadata.go:324-339 | no control character is left unescaped inside a string (section 7 of RFC 8259), and the scanner ends as on the input |
| JsonControls.OnlyCleanIsUntouched | internal/importer/metadata.go:324-339 | the text is unchanged iff it had no such character |
| JsonControls.EscapeIsIdempotent | internal/importer/metadata.go:324-339 | escaping twice is escaping once |
| JsonControls.EscapeKeepsMeaning | internal/importer/metadata.go:324-339 | the decoded text is the same before and after |
| JsonControls.EscapeControls | internal/importer/metadata.go:324-339 | the loop over the characters |
| JsonAnswers.RawCharactersAreSpelled | internal/importer/metadata.go:324-339 | of any text written from outer characters, quotes, letters, escape pairs and raw control characters, exactly the raw ones come out spelled as escapes, and nothing else is touched |
| JsonAnswers.EveryTextHasParts | internal/importer/metadata.go:324-339 | every text, unfinished strings included, consists of such parts |
| JsonAnswers.EscapeIsSpelling | internal/importer/metadata.go:324-339 | hence that is what comes out of any text |
| AvifBoxes.ValidateAvif | internal/images/avif.go:16-118 | a file is accepted iff its box tree is well formed and within 512 boxes, 8 levels, 128 items and the area limits |
| AvifBoxes.Walker.Walk | internal/images/avif.go:21-107 | the recursive walk terminates, stays in bounds and counts exactly what the boxes declare |
| AvifBoxes.FirstBox | internal/images/avif.go:27-43 | an accepted header advances by at least 8 bytes and within the data |
| AvifBoxes.AnyAssignmentFits | internal/images/avif.go:111-116 | under any assignment of declared extents to items the total area stays within 16,000,000 pixels |
| AvifBoxes.ProductFits | internal/images/avif.go:98-99 | no product of two 32-bit dimensions overflows 64 bits |
| AvifBoxes.TotalFits | internal/images/avif.go:114-116 | nor does the largest area times the number of items |
| AvifAnswers.TreesAreRead | internal/images/avif.go:21-107 | for every tree of boxes, with sizes written in 32 or 64 bits, the bytes declare exactly the boxes, levels, items and largest picture of the tree, or nothing when a box in it is amiss |
| AvifAnswers.AcceptedTrees | internal/images/avif.go:16-118 | a printed tree is accepted iff no box is a movie, a sequence brand, a payload of the wrong length, a miscounted list or an empty picture, and it is within 512 boxes, 8 levels, 1 to 128 items and sixteen million pixels |
| ImageFrames.PngIsAnimatedByControl | internal/images/processor.go:131-143 | for every list of PNG chunks (section 5.3 of the W3C PNG Specification) the scan is true iff one is acTL |
| ImageFrames.WebpIsAnimatedByFrames | internal/images/processor.go:144-156 | for every list of padded WebP chunks (sections 2.3 and 2.7 of RFC 9649) it is true iff one is ANIM, ANMF or a VP8X with the animation bit |
| ImageFrames.FlagsAreRead | internal/images/processor.go:144-156 | the animation bit of a VP8X chunk is the second lowest, whatever the other flags are |
| ImageFrames.BrokenPngIsAnimated | internal/images/processor.go:131-143 | chunks followed by one that is longer than the file are animated; a rest too short for a chunk is ignored |
| ImageFrames.BrokenWebpIsAnimated | internal/images/processor.go:144-156 | after whole chunks the scan depends on what follows them as on a file of its own |
| ImageFrames.WebpEnds | internal/images/processor.go:144-156 | what follows is ignored when too short for a chunk, animated when it breaks off inside one, and read as a chunk when only its padding is missing |
| ImageFrames.ScanPng | internal/images/processor.go:132-143 | the offset loop |
| ImageFrames.ScanWebp | internal/images/processor.go:144-156 | the offset loop, which may end past an odd last chunk |
| ImageFrames.TargetIsBijective | internal/images/processor.go:248-282 | each orientation is a bijection of the pixels; 6 and 8 undo each other and every other one itself |
| ImageFrames.EdgesArePlaced | internal/images/processor.go:248-282 | for each of the eight orientations, the first stored row and the first stored column lie along the sides that the orientation tag names (Orientation in section 8 of TIFF Revision 6.0), and every pixel keeps its distance from both |
| ImageFrames.Orient | internal/images/processor.go:248-282 | every output pixel is written, from the one source pixel that is as far from the first stored row and column as it is from the sides where these are shown |

## Left out

- SQL text, triggers as code, isolation anomalies and deadlocks: transactions are atomic, and the
  constraints they rely on (unique keys, cascades, the reserved-quantity trigger) are part of the steps.
- Cryptography, random tokens and password or Google sign-in before the second factor: abstract inputs.
- HTTP, cookies, HTML parsing and heuristics, network clients, logging, configuration, file storage, e-mail and notification queues.
- Image codecs, scaling and colour conversion; parsing of the EXIF directory that yields an orientation.
- Wish contents other than position, quantity and version; list and group names, images and profiles.
- Row selection with SKIP LOCKED: a claim may take any due delivery, which includes the one the query picks.
- Group suggestions and their reservations, which repeat the reservation transaction on another table.
- Counter wrap-around of the preview cache's 64-bit use order and of PostgreSQL's 32-bit row versions: both are unbounded numbers here.
- The circuit breaker, the HTTP rate limiter, pagination and activity labels: simpler claims than those proved.
- PreviewCache.ServedPriceIsFresh: assumes that a provider honours the maximum age it is asked for and that an import takes less than ten seconds.
- LinkedData.LinkedProducts: which objects count as products is a predicate given to it; their recognition by type name is not part of this model. All products are found before the first is expanded, which gives the same result.
- PushOutbox.Outbox.DeliverPush: an error return or a crash in the middle of a pass is the protocol's stop step at that point, not a run of this method; a due delivery that another transaction holds locked at the very moment of the query counts as claimed by it.
- AvifBoxes.ValidateAvif: does not say which of the two error codes a refused file gets.
- JsonControls.EscapeControls: works on decoded characters; the replacement of invalid UTF-8 is not modelled.
- ResponsiveImages.WidthImageSources: the library's stable sort is an insertion sort here.
- ReservationAnswers.PutSucceedsExactlyWhenItFits: the reply's mark for a reservation that was created rather than changed is not modelled.
- GroupAnswers.CodesComeAndGo: the version that guards the link itself is not modelled.
- PrivateGroups.GroupRows.AnswerGroupInvitation: the expiry is read once, at the moment the group is locked.
