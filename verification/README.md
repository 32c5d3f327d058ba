# Authline, modelled in Dafny

Authline onboards holders of regulated assets on Stellar. Three parties meet on one ledger: the Trustline
Authorizer, a contract that is the admin of an asset's Stellar Asset Contract (SAC) and sets holders'
authorized flags under a denylist or an allowlist; the onboarding router, which opens a line, discovers the
SAC admin on chain and asks it to authorize; and the relayer, which diagnoses a holder, hands out at most
one envelope to sign, vets what comes back and submits it. Around them stand the SDK's SEP-7 requests and
claimable-balance deliveries.

`StellarLedger` is the small ledger everything runs on. On it:

- `Authorizer` states one call of the authorizer in closed form and `AuthorizerContract` is the contract
  with its loops, proved equal to it. `Router` is the onboarding router against arbitrary admin code.
- `AuthorizerRuns` takes whole histories of both contracts, interleaved with anything other users do, from
  deployment on, and the runs among them in which the authorizer administers the asset. `AuditLog` shows
  that the events determine the state; `Supply` does the same for balances.
- `Sponsorship` has the vetter, the builder and execution of operation lists under CAP-33; `Relayer` the
  diagnosis and the callback's acceptance; `CaseProtocol` runs request, signature and callback end to end.
- `RateLimiter` and `Coalescing` are the relayer's two pieces of shared mutable state.
- `Text`, `UrlForm` and `Sep7` print, sign, parse and verify requests; `Claimable` covers claim
  predicates, deliveries and amounts.

## Where code and comment part

- A freeze writes only the set of the policy in force, so a later policy switch can re-admit the account;
  it lasts through policy switches exactly when the other set refused the account already
  (`AuthorizerRuns.FreezeLasts`); `FreezeUndoneByPolicySwitch` shows a run in which it does not.
- The sponsorship vetter does not accept "exactly the two shapes": creations may repeat or come late
  (`Sponsorship.AcceptsOtherShapes`). Such lists fail on the ledger, so what executes is one of the two
  shapes (`Sponsorship.ExecutedIsOnboarding`).
- The 1.6 XLM threshold of Case C assumes an account with no other subentries
  (`Relayer.ThresholdSuffices`, `Relayer.ThresholdIgnoresSubentries`).
- "Ready" is said to mean that a payment will succeed. It also holds of a full line and of an unauthorized
  line of an asset that names no authorizer, and never of the issuer (`Relayer.ReadyMeansPayable`,
  `Relayer.ReadinessMisleads`).
- The callback answers "authorized" to a sandwich, a router call or a ready holder even when the line is
  not authorized: `CaseProtocol.CallbackAnswer` says exactly when it is true, and `SponsoredOverstates`,
  `RouterOverstates` and `ReadyOverstates` show that it can be false.
- A negated `rel_before` does hide a claimable balance (`Claimable.BareWindowHides`); a reclaim window
  below one second is no window (`Claimable.DeliveryWindows`).

## Model

| member | source | states |
|---|---|---|
| AuthorizerContract.TrustlineAuthorizer.constructor | contracts/trustline-authorizer/src/lib.rs:281-285 | a new contract starts unpaused with both sets and the log empty, on the given admin, SAC and policy |
| AuthorizerContract.TrustlineAuthorizer.Deploy | contracts/trustline-authorizer/src/lib.rs:274-287 | deployment yields a contract exactly for a built-in SAC and is otherwise the typed refusal NotSac |
| AuthorizerContract.TrustlineAuthorizer.SetFlag | contracts/trustline-authorizer/src/lib.rs:681-689 | writing one flag changes that account in that set and no other |
| AuthorizerContract.TrustlineAuthorizer.AuthorizeTrustline | contracts/trustline-authorizer/src/lib.rs:298-321 | for any caller, the new world and the outcome are those of Apply: pause first, then self, then policy, then the SAC; one event on success and no trace on refusal |
| AuthorizerContract.TrustlineAuthorizer.AddBannedAccounts | contracts/trustline-authorizer/src/lib.rs:330-343 | the loop over any batch, duplicates included, ends in the closed form: the ban set grown by the batch, one event per position, SAC untouched, and nothing at all if refused |
| AuthorizerContract.TrustlineAuthorizer.RemoveBannedAccounts | contracts/trustline-authorizer/src/lib.rs:347-360 | the same loop lifting bans |
| AuthorizerContract.TrustlineAuthorizer.AllowAccounts | contracts/trustline-authorizer/src/lib.rs:363-376 | the same loop growing the allowed set |
| AuthorizerContract.TrustlineAuthorizer.DisallowAccounts | contracts/trustline-authorizer/src/lib.rs:380-393 | the same loop shrinking the allowed set |
| AuthorizerContract.TrustlineAuthorizer.FreezeAccounts | contracts/trustline-authorizer/src/lib.rs:405-426 | set update, SAC write and event of each position interleave in the loop, and the result is the closed form: the set of the policy in force, every flag the SAC lets be cleared, one event per position that says truthfully whether its flag was cleared |
| AuthorizerContract.TrustlineAuthorizer.UnfreezeAccounts | contracts/trustline-authorizer/src/lib.rs:430-451 | the mirror loop: re-admission in the set of the policy in force and every flag the SAC lets be set |
| AuthorizerContract.TrustlineAuthorizer.DeauthorizeTrustline | contracts/trustline-authorizer/src/lib.rs:460-475 | clears one flag and no set; a SAC refusal is the typed error NoTrustline |
| AuthorizerContract.TrustlineAuthorizer.MintToAccount | contracts/trustline-authorizer/src/lib.rs:481-498 | pause, admin, amount, SAC in that order; only the recipient balance and the log change |
| AuthorizerContract.TrustlineAuthorizer.ClawbackFromAccount | contracts/trustline-authorizer/src/lib.rs:503-520 | likewise for a clawback |
| AuthorizerContract.TrustlineAuthorizer.PauseContract | contracts/trustline-authorizer/src/lib.rs:527-539 | admin only, refused when already paused |
| AuthorizerContract.TrustlineAuthorizer.UnpauseContract | contracts/trustline-authorizer/src/lib.rs:541-553 | admin only, works while paused, refused when running |
| AuthorizerContract.TrustlineAuthorizer.SetAdmin | contracts/trustline-authorizer/src/lib.rs:564-574 | works while paused; the event names the outgoing admin |
| AuthorizerContract.TrustlineAuthorizer.UpgradeContract | contracts/trustline-authorizer/src/lib.rs:576-587 | works while paused; to the contract itself only the event is visible |
| AuthorizerContract.TrustlineAuthorizer.SetPolicy | contracts/trustline-authorizer/src/lib.rs:592-602 | the policy changes and both sets stand |
| AuthorizerContract.TrustlineAuthorizer.IsEligible | contracts/trustline-authorizer/src/lib.rs:639-643 | the getter is the condition under which authorize_trustline passes everything but the SAC |
| Authorizer.OneMoreWrite | contracts/trustline-authorizer/src/lib.rs:410-415 | a batch of SAC writes extended by one account is the shorter batch followed by that write, whether or not the account occurred before |
| Authorizer.OneMoreFreeze | contracts/trustline-authorizer/src/lib.rs:410-424 | the whole effect of a freeze or unfreeze (sets, flags, events) extended by one account is the shorter one followed by that position |
| Authorizer.AdmissionExactly | contracts/trustline-authorizer/src/lib.rs:691-717 | a call gets through if and only if: it is not stopped by the pause, the admin in office signed it unless it is authorize_trustline, its batch has 1 to 50 accounts, and its own condition holds |
| Authorizer.OnlyTheAdminActs | contracts/trustline-authorizer/src/lib.rs:691-703 | anything a call other than authorize_trustline changes was signed by the admin in office, and authorize_trustline changes no storage |
| Authorizer.RefusalsExactly | contracts/trustline-authorizer/src/lib.rs:298-553 | for every call and world which refusal is seen, each one if and only if: the pause before the missing signature, that before everything else |
| Authorizer.StorageExactly | contracts/trustline-authorizer/src/lib.rs:330-602 | the storage after an accepted call, account by account in both sets |
| Authorizer.CallIsTold | contracts/trustline-authorizer/src/lib.rs:118-262 | from the events of an accepted call alone the whole call can be told, batch and amounts included, and each carries the admin in office and the ledger number |
| Router.TrustlineOnboard.Body | contracts/trustline-onboard/src/lib.rs:72-124 | the statements of onboard, with early returns and a caught call of an arbitrary contract, return the result of the specification and, when that is a success, leave its world |
| Router.TrustlineOnboard.Invoke | contracts/trustline-onboard/src/lib.rs:57-59 | with the host undoing a failed invocation the final world is the specified one in every case |
| Router.Truthful | contracts/trustline-onboard/src/lib.rs:23-33 | for any code behind the SAC admin: Authorized implies authorized in the final ledger, TrustlineOnly implies the line kept and unauthorized and nothing else changed, any error leaves the world as it was |
| Router.Idempotent | contracts/trustline-onboard/src/lib.rs:81-91 | onboarding again after Authorized changes nothing and answers Authorized, even if the admin contract has been replaced |
| Router.AuthorizerAnswers | contracts/trustline-authorizer/src/lib.rs:298-321 | toward the router this authorizer succeeds exactly for an eligible holder whose flag the SAC sets, and every refusal is typed |
| Router.NeverTrustlineOnly | contracts/trustline-authorizer/src/lib.rs:30-33 | with this authorizer as SAC admin no refusal is ever read as a missing interface, whichever SAC it manages |
| Router.OnboardFollowsPolicy | contracts/trustline-onboard/src/lib.rs:89-123 | when it manages that SAC and trust() succeeds: Authorized if and only if the opened line is authorized or the holder is eligible, else AuthorizationRefused with the line rolled back; and what is logged |
| Router.Classification | contracts/trustline-onboard/src/lib.rs:89-123 | once the admin is asked, for any code behind it: TrustlineOnly if and only if it is no wasm contract or failed untyped, AuthorizationRefused if and only if it failed typed, and a return is judged by the view; with the world each leaves |
| Router.BeforeAsking | contracts/trustline-onboard/src/lib.rs:72-91 | and what is answered without asking it, each outcome if and only if |
| AuthorizerRuns.OnboardAsCall | contracts/trustline-onboard/src/lib.rs:81-123 | an onboarding of a SAC whose admin this contract is changes the world as nothing, as opening the line, or as opening the line and then one successful call of the authorizer |
| AuthorizerRuns.RunIsHistory | contracts/trustline-authorizer/src/lib.rs:269-274 | every run on a managed asset is one of the histories, which start as early as deployment and leave adminship and issuer flags free |
| AuthorizerRuns.RunStaysManaged | contracts/trustline-authorizer/src/lib.rs:269-274 | in every run the authorizer stays admin of its AUTH_REQUIRED SAC |
| AuthorizerRuns.OnlyAuthorizeOrUnfreezeRaises | contracts/trustline-authorizer/src/lib.rs:298-321 | whatever the step (call, onboarding, anything others do to the ledger), a flag goes from off to on only by authorizing an eligible account or by an admin unfreeze that names it |
| AuthorizerRuns.StaysExpelled | contracts/trustline-authorizer/src/lib.rs:659-669 | over one step of any history a refused account becomes admitted if and only if the step is an accepted unban under the denylist, allow under the allowlist, unfreeze, or switch to a policy that admits it |
| AuthorizerRuns.StaysStopped | contracts/trustline-authorizer/src/lib.rs:397-404 | on a managed asset an account both refused and unauthorized stays so over every step but exactly those |
| AuthorizerRuns.FreezeHolds | contracts/trustline-authorizer/src/lib.rs:405-426 | after a freeze that took the flag, over every interleaving of calls, onboardings, line deletions and recreations, edits of either set and switches of policy, the account is unauthorized and ineligible until one of exactly those calls |
| AuthorizerRuns.FreezeExpels | contracts/trustline-authorizer/src/lib.rs:405-415 | the refusal half over any history, managed or not |
| AuthorizerRuns.PolicyStands | contracts/trustline-authorizer/src/lib.rs:592-602 | the policy in force moves by accepted switches alone |
| AuthorizerRuns.FreezeLasts | contracts/trustline-authorizer/src/lib.rs:411-414 | in every history from a freeze on, through any number of policy switches, the account stays out until an accepted unban, allow or unfreeze names it, if and only if before the freeze the set of the other policy refused it already |
| AuthorizerRuns.BarredForGood | contracts/trustline-authorizer/src/lib.rs:589-591 | an account that both sets refuse is out under every policy until its name is lifted off one |
| AuthorizerRuns.BarredHolds | contracts/trustline-authorizer/src/lib.rs:589-591 | and on a managed asset it regains no authorization in that time either |
| AuthorizerRuns.FreezeUndoneByPolicySwitch | contracts/trustline-authorizer/src/lib.rs:592-602 | a concrete run in which switching from allowlist to denylist makes a frozen, never banned account eligible |
| AuthorizerRuns.PausedStep | contracts/trustline-authorizer/src/lib.rs:705-710 | no step of any history from a paused state other than a successful unpause moves a set, the policy or a flag by the contract's hand |
| AuthorizerRuns.PauseHolds | contracts/trustline-authorizer/src/lib.rs:524-539 | the same over whole histories, whoever administers the SAC: from a pause to the next unpause |
| AuthorizerRuns.NobodyAuthorizedWhilePaused | contracts/trustline-authorizer/src/lib.rs:524-526 | and on a managed asset no account gains its flag by any route in that time |
| AuthorizerRuns.FreezeBatch | contracts/trustline-authorizer/src/lib.rs:405-426 | for any accepted batch: every named account ineligible and, when revocable, unauthorized; every other account untouched; one event per position with the truth about its flag; all balances kept |
| AuthorizerRuns.StorageAfterBoth | contracts/trustline-authorizer/src/lib.rs:435-439 | unfreeze after freeze restores the sets if and only if every named account had been admitted |
| AuthorizerRuns.FreezeThenUnfreeze | contracts/trustline-authorizer/src/lib.rs:428-451 | freeze then unfreeze restores storage and every holder's authorization if and only if every named account was admitted and, where it can carry the flag, authorized |
| AuthorizerRuns.StorageMovesByAdmin | contracts/trustline-authorizer/src/lib.rs:691-703 | a step of a history that changes the storage is a call of the contract, not authorize_trustline, that the admin then in office signed |
| AuthorizerRuns.EveryEventIsSigned | contracts/trustline-authorizer/src/lib.rs:118-122 | every event a history logged names the admin in office when it was logged and, unless it is Authorized, comes from a call that this admin signed |
| AuthorizerRuns.ViewsExactly | contracts/trustline-authorizer/src/lib.rs:298-520 | after any accepted call, the authorized view of every account: on or off exactly where the call writes it, and otherwise as it was |
| AuditLog.BatchIsSequence | contracts/trustline-authorizer/src/lib.rs:333-341 | every batched entry point has the effect of its positions one after the other, each with its own event |
| AuditLog.CallAudited | contracts/trustline-authorizer/src/lib.rs:118-122 | if the log folds to the state before a call it folds to the state after it, and each new event is lawful where it stands |
| AuditLog.StepAudited | contracts/trustline-authorizer/src/lib.rs:118-122 | the same for every step of a history, onboardings and other users' doings included |
| AuditLog.DeployedIsAudited | contracts/trustline-authorizer/src/lib.rs:274-287 | the constructor arguments alone are where the fold of a just deployed contract starts |
| AuditLog.LogDeterminesState | contracts/trustline-authorizer/src/lib.rs:118-262 | from deployment on, before and after the issuer hands over the SAC or takes it back, in every state of every history: folding the events from the constructor arguments gives the admin, policy, pause flag, both sets and the SAC's own record of this contract's flag writes; every event names the admin and policy its prefix folds to, and no Authorized event contradicts the policy at its point |
| AuditLog.LastWriteOfBatch | contracts/trustline-authorizer/src/lib.rs:415-424 | the last recorded flag of an account after a batch, for batches with duplicates |
| AuditLog.LastWordCoversLedger | contracts/trustline-authorizer/src/lib.rs:118-122 | at any point of any run an account that holds the flag is one whose last recorded flag was on |
| Supply.CallSupply | contracts/trustline-authorizer/src/lib.rs:481-520 | any call, batched or not, moves a holder's balance by exactly what its Minted and Clawback events say |
| Supply.BalanceIsSupplied | contracts/trustline-authorizer/src/lib.rs:481-520 | over any run in which others leave a holder's balance alone, its balance has moved by exactly what the log says was minted less what was clawed back |
| Supply.NothingMintedWhileFrozen | contracts/trustline-authorizer/src/lib.rs:479-480 | after a freeze that took the flag no mint to the account gets through, over every interleaving, before an admin step re-admits it |
| Sponsorship.AssertSafeToSponsor | packages/authline-sdk/src/sponsor.ts:52-174 | the counting loop accepts exactly: plain envelope, source sponsor or user, Begin by the sponsor for the user first, End by the user last, and between them one opening of the right line by the user and otherwise only creations of the user with zero balance by the sponsor |
| Sponsorship.BuildSponsoredOnboard | packages/authline-sdk/src/exchange.ts:84-149 | refuses exactly a user-sourced envelope for a missing account, and else builds the sandwich with minimal explicit sources |
| Sponsorship.BuiltIsSafe | packages/authline-sdk/src/exchange.ts:84-149 | everything built passes the vetter, whatever signatures it carries |
| Sponsorship.AcceptsOtherShapes | packages/authline-sdk/src/sponsor.ts:43-48 | against the comment: an accepted list that is neither of the two documented shapes |
| Sponsorship.ShapeOfAccepted | packages/authline-sdk/src/sponsor.ts:121-173 | an accepted list is a documented shape if and only if it has three operations, or four with the creation first |
| Sponsorship.SafeIsSandwich | packages/authline-sdk/src/sponsor.ts:52-174 | a list is safe if and only if it can be written as Begin, creations, one opening of the pinned line with no zero limit, creations, End, with the sources the vetter demands |
| Sponsorship.NeverZeroLimit | packages/authline-sdk/src/sponsor.ts:139-141 | no trustline operation of an accepted list has the limit zero |
| Sponsorship.BuiltIsMinimal | packages/authline-sdk/src/exchange.ts:120-148 | a built envelope is a documented shape at the minimal fee and names a source only where it differs from the transaction's |
| Sponsorship.NoLateCreation | packages/authline-sdk/src/sponsor.ts:147-164 | in an accepted list that executes, no account creation comes after the first place |
| Sponsorship.ExecutedIsOnboarding | packages/authline-sdk/src/sponsor.ts:43-48 | an accepted list of any length that executes atomically is exactly one of the two shapes |
| Sponsorship.SandwichExecutes | packages/authline-sdk/src/sponsor.ts:35-41 | the ledger such a list leaves, in closed form |
| Sponsorship.SponsorshipIsBounded | packages/authline-sdk/src/sponsor.ts:35-41 | any accepted envelope that succeeds locks at most three base reserves of the sponsor, takes its fee only if it is the source, opens the user's line at no reserve of the user's own, gives it the limit the envelope names, and touches no other account or asset |
| Sponsorship.BuiltExecutes | packages/authline-sdk/src/exchange.ts:70-76 | a built envelope, sponsor- or user-sourced, does succeed whenever its source can pay the fee and the sponsor can lock those reserves |
| Relayer.ReadyMeansPayable | packages/relayer/src/service.ts:159-179 | "ready" promises that a payment lands; that is so, for any amount, if and only if the holder is not the issuer, the position is not too full, and it is not an unauthorized line of an asset that names no authorizer |
| Relayer.ReadinessMisleads | packages/relayer/src/service.ts:159-179 | an input for each failure: ready with a full line, ready with an unauthorized one, and an issuer that is never ready and can always be paid |
| Relayer.CasesAreExhaustive | packages/relayer/src/service.ts:194-211 | ready is diagnosed exactly when nothing is missing, A exactly for an unauthorized line, B with creation exactly for a missing account; the second "ready" branch is dead |
| Relayer.ReasonsExactly | packages/relayer/src/service.ts:164-180 | each reason is given if and only if it is the first thing missing |
| Relayer.CaseCAffordsLine | packages/relayer/src/service.ts:191-192 | a Case C account with nothing else reserved can pay its line and up to 0.1 XLM of fee |
| Relayer.ThresholdIgnoresSubentries | packages/relayer/src/service.ts:207-210 | a Case C account with one other subentry for which trust() fails |
| Relayer.ThresholdSuffices | packages/relayer/src/service.ts:191-192 | the threshold covers line and fee for every account with n further reserves of its own if and only if n is zero or less |
| Relayer.CollectSigners | packages/authline-sdk/src/sep7.ts:326-333 | the loops collect exactly fee source, source, operation sources and address credentials |
| Relayer.CoSigners | packages/authline-sdk/src/exchange.ts:173-206 | the loop collects every source but the user's, and reports whether anything is signed |
| Relayer.NeededExactly | packages/authline-sdk/src/sep7.ts:326-333 | an address must sign if and only if it pays, sources the transaction or an operation, or is named in address credentials; the handoff sees exactly the first two |
| Relayer.HandoffExactly | packages/authline-sdk/src/exchange.ts:173-206 | an envelope is judged complete if and only if some layer is signed or every source is the user |
| Relayer.FeeBumpDescribed | packages/authline-sdk/src/sep7.ts:321-344 | a fee bump is described as the transaction it wraps, with its own payer and fee and the signatures of both layers |
| Relayer.EmittedHandoff | packages/authline-sdk/src/exchange.ts:307-321 | for every emitted envelope, whatever authorization entries it carries: the handoff misses nobody but the relayer, which has signed the sandwich; it agrees with the full set of needed signers if and only if no entry names a third party |
| Relayer.ValidateSponsoredCallback | packages/relayer/src/service.ts:341-387 | accepts exactly the vetted sandwiches for a pinned asset, sourced by the relayer, under the fee cap and carrying the holder's hint, with the intent determined |
| Relayer.ValidateSep7Callback | packages/relayer/src/service.ts:409-481 | accepts exactly those or a single pinned router call that the holder sources and signed, or that the relayer pays on the holder's own address credentials; refuses everything else |
| Relayer.AcceptedExactly | packages/relayer/src/service.ts:424-434 | an envelope is accepted if and only if it is no fee bump and one of the two kinds accepts it, so the dispatch on its shape loses nothing |
| Relayer.OnboardOfExactly | packages/authline-sdk/src/sep7.ts:345-363 | an envelope carries a router call if and only if its one operation is onboard with a contract and an address as its two arguments |
| Relayer.RouterCallsExactly | packages/relayer/src/service.ts:429-481 | with distinct pins: a router call is accepted with an intent if and only if it calls the pinned router for the SAC of that very pinned asset and that holder, and the holder sourced and signed it or the relayer pays, under the cap, on the holder's own credentials alone |
| Relayer.SandwichesExactly | packages/relayer/src/service.ts:341-387 | with distinct pins: a sandwich is accepted with an intent if and only if the relayer sources it under the cap, the holder's hint is on it, and it is safe for that very pinned asset and holder |
| Relayer.FoundSacIsPinned | packages/relayer/src/service.ts:442-443 | what is found by SAC is a pin of that SAC, and nothing is found only if there is none |
| Relayer.CountersignedOnboard | packages/relayer/src/service.ts:442-481 | every accepted router call names the SAC and the holder of its intent, and is countersigned only if the relayer sources it under the cap on the holder's own credentials |
| Relayer.SubmittedIsSigned | packages/relayer/src/server.ts:53-58 | whatever the relayer countersigns needs nobody but it and the holder; once submitted it carries the relayer's hint, and a sandwich the holder's too |
| Relayer.SponsoredIsAccepted | packages/relayer/src/service.ts:637-646 | the emitted Case B envelope, once holder-signed, is accepted with the same asset and holder |
| Relayer.OnboardIsAccepted | packages/relayer/src/service.ts:637-646 | the emitted Case C envelope is accepted with the same asset and holder, countersigned exactly for a contract holder |
| Relayer.SignerIsHolder | packages/authline-sdk/src/sep7.ts:374-388 | the signer read off every onboarding envelope the SDK builds, sponsor- or user-sourced, signed or not, is the holder, with or without pubkey |
| Relayer.SignerNamed | packages/authline-sdk/src/sep7.ts:374-378 | the signer is the named key, else the holder of a router call, else the account of the first sponsorship |
| Relayer.SignerOtherwise | packages/authline-sdk/src/sep7.ts:374-388 | of any other envelope the signer is the one further account its operations name, or else the source |
| Relayer.SignerUndecided | packages/authline-sdk/src/sep7.ts:386-387 | where operations name several further accounts it is the source |
| Relayer.SignedOnce | packages/relayer/src/server.ts:53-58 | submission leaves exactly one relayer signature where it countersigns and none otherwise, when the hints differ |
| Relayer.FirstTrustOfSafe | packages/relayer/src/service.ts:341-387 | the asset looked up from an accepted sandwich is the one the vetter checked |
| Relayer.AcceptedSponsoredIsBounded | packages/relayer/src/service.ts:404-407 | whatever anybody posts to the open endpoint, an accepted and successful sandwich costs the relayer at most the fee cap and three base reserves and opens the holder's line for a pinned asset |
| CaseProtocol.AuthorizeMakesReady | packages/relayer/src/service.ts:618-635 | Case A: the relayer's authorize call makes an eligible holder with a line ready |
| CaseProtocol.SponsoredMakesReady | packages/relayer/src/service.ts:525-541 | Case B: the callback submits the signed sandwich, authorizes if regulated, and the holder is ready |
| CaseProtocol.OnboardMakesReady | packages/relayer/src/service.ts:525-541 | Case C: the callback submits the router call and the holder is ready |
| CaseProtocol.ProtocolReachesReady | packages/relayer/src/service.ts:181-188 | from every ledger on which the pin is true, the policy admits the holder and fees are covered, request (and callback) end with the holder ready, after no signature in cases ready and A and exactly one in B and C; a contract holder's router call, which the relayer pays, keeps under the fee cap and carries only its own credentials, a classic holder's any entries and any fee; for a pin without authorizer a classic holder's line is what ready means, and only a contract as SAC admin could refuse a Case C call |
| CaseProtocol.RequestExactly | packages/relayer/src/service.ts:608-645 | for every holder and ledger: which answer each case leads to, and of the envelope handed out its source, signatures, operations and fee |
| CaseProtocol.CallbackExactly | packages/relayer/src/service.ts:508-541 | a ready holder costs nothing; any other callback succeeds if and only if the submission does and, for a sandwich of a regulated asset, the authorization on what it left |
| CaseProtocol.CallbackAnswer | packages/relayer/src/service.ts:508-541 | the callback answers "authorized" whenever it does not fail; for ready holders, sandwiches and router calls, with arbitrary code behind the SAC admin and a pin that names the right SAC and, if any, this authorizer, the answer is true if and only if the line found or freshly opened carries the flag, the sandwich's line is then authorized on the authorizer's own SAC, or the admin contract answers the router instead of aborting |
| CaseProtocol.RegulatedAnswerIsTrue | packages/relayer/src/service.ts:508-541 | where the pin names this authorizer as the SAC admin, a callback that succeeds always leaves the holder authorized |
| CaseProtocol.SponsoredOverstates | packages/relayer/src/service.ts:525-541 | an accepted sandwich for an asset its issuer authorizes by hand: answered "authorized", flag off |
| CaseProtocol.RouterOverstates | packages/relayer/src/service.ts:525-541 | an accepted router call that ends as TrustlineOnly: answered "authorized", flag off |
| CaseProtocol.ReadyOverstates | packages/relayer/src/service.ts:516-524 | a holder whose line still waits for the issuer: answered "already authorized", flag off |
| CaseProtocol.EndpointIsBounded | packages/relayer/src/service.ts:390-407 | whatever anybody posts, once accepted and whether it then succeeds or fails, and with any SAC admin that moves nothing of accounts that authorized nothing, costs the relayer nothing if the holder sources it, at most the fee cap for a router call it countersigns, and the fee cap, three base reserves and its own authorize fee for a sandwich |
| CaseProtocol.AuthorizeIsPaid | packages/relayer/src/service.ts:618-623 | an authorization the relayer submits costs it exactly that fee and moves no other balance |
| CaseProtocol.RouterCallIsPaid | packages/relayer/src/service.ts:525-541 | a router call that succeeds costs its source exactly its fee, under any SAC admin that spares it |
| CaseProtocol.FailureIsPaid | packages/relayer/src/service.ts:390-407 | a failed submission costs its source the fee and changes nothing else |
| RateLimiter.TokenBuckets.PruneStale | packages/relayer/src/limits.ts:29-33 | the deleting loop leaves exactly the buckets touched within two minutes |
| RateLimiter.TokenBuckets.AllowRequest | packages/relayer/src/limits.ts:36-49 | one call prunes, refills, decides and stores as the specification says |
| RateLimiter.AlwaysTracks | packages/relayer/src/limits.ts:30-33 | in every run each bucket is its key's ideal one, and a key without a bucket was never called or is stale |
| RateLimiter.PruningIsInvisible | packages/relayer/src/limits.ts:29-33 | every decision of every run, at any pruning threshold, is a function of that key's own call times |
| RateLimiter.RefusalsLeaveNoTrace | packages/relayer/src/limits.ts:42-45 | striking refused calls from a history changes no later decision |
| RateLimiter.RunRefusalsLeaveNoTrace | packages/relayer/src/limits.ts:35-50 | striking every refused call of a run of the limiter, of any key, changes no later decision of any key |
| RateLimiter.TokensInRange | packages/relayer/src/limits.ts:40-46 | tokens stay between zero and the capacity |
| RateLimiter.WindowBound | packages/relayer/src/limits.ts:20-24 | any interval of d ms grants a key at most rpm + d * rpm / 60000 calls |
| RateLimiter.RunWindowBound | packages/relayer/src/limits.ts:35-50 | the same for the decisions of the limiter itself: any stretch of any run, among any other keys' calls and prunings |
| RateLimiter.TightWindow | packages/relayer/src/limits.ts:40-46 | the level equals what the most loaded window ending now leaves over |
| RateLimiter.GrantedIffEveryWindowAllows | packages/relayer/src/limits.ts:40-49 | a call is granted if and only if one more grant keeps every window that ends with it within budget |
| RateLimiter.PatientIsGranted | packages/relayer/src/limits.ts:20-24 | a call at least 60000 / rpm ms after the previous one is granted |
| RateLimiter.MemoryBound | packages/relayer/src/limits.ts:20-24 | after any call the map holds at most one bucket more than its threshold, or no more than the keys called in the last two minutes |
| RateLimiter.LimiterMemory | packages/relayer/src/limits.ts:20-33 | as configured: ten thousand and one buckets, or the keys of the last two minutes |
| RateLimiter.BucketsKept | packages/relayer/src/limits.ts:29-33 | a bucket goes if and only if the map exceeds the threshold, the bucket was untouched for more than two minutes and its key is not the caller; others stand as they are |
| RateLimiter.ZeroDisables | packages/relayer/src/limits.ts:25-28 | a limit of zero grants every call and stores nothing |
| Coalescing.AuthorizeRoute.HandleAuthorizeRequest | packages/relayer/src/service.ts:849-856 | a request joins the run in the map for its key or starts and stores one |
| Coalescing.AuthorizeRoute.OnFinally | packages/relayer/src/service.ts:852-854 | the clean-up deletes the key's entry |
| Coalescing.StepKeepsInv | packages/relayer/src/service.ts:277-284 | every event of the loop keeps: the map holds exactly the unfinished runs, and no run submits for a key a run already authorized |
| Coalescing.OneRunPerKey | packages/relayer/src/service.ts:277-284 | at any point of any interleaving: one unfinished run per key, one submission per key at a time, and one success per key over all time |
| Coalescing.CleanUpIsOwn | packages/relayer/src/service.ts:852-854 | a run removes its own entry, never that of another run, also after a rejection |
| Coalescing.RequestJoinsLiveRun | packages/relayer/src/service.ts:850-856 | each request is given an unfinished run for its own key, an existing one whenever there is one |
| Coalescing.HistoryStands | packages/relayer/src/service.ts:850-856 | which run a request joined and what a run answered never change afterwards |
| Coalescing.AnswersStayTrue | packages/relayer/src/service.ts:300-307 | at every point of every interleaving, a run that answered authorized or already authorized has its key authorized on the chain |
| Coalescing.AnswerHasCause | packages/relayer/src/service.ts:298-319 | every answer has its cause in the past: a failed read a rejection, a failed submission the chain error, a successful one authorized, a read of an authorized account already authorized, an open asset not regulated |
| Coalescing.EventsAnswer | packages/relayer/src/service.ts:298-319 | and each such event settles its run at once, a read of an unauthorized account going on to the submission |
| Text.Utf8RoundTrip | packages/authline-sdk/src/sep7.ts:56-59 | decoding the UTF-8 of any text gives the text |
| Text.Utf8Injective | packages/authline-sdk/src/sep7.ts:56-59 | different texts have different UTF-8 |
| Text.FormRoundTrip | packages/authline-sdk/src/exchange.ts:339 | form-urlencoding of any text decodes to it (sections 5.1 and 5.2 of the WHATWG URL Standard) |
| Text.ComponentRoundTrip | packages/authline-sdk/src/exchange.ts:345-347 | percent-encoding of any text as a URI component decodes to it (section 2.1 of RFC 3986) |
| Text.ComponentDecodesExactly | packages/authline-sdk/src/sep7.ts:173-178 | a component decodes to a text if and only if its escapes are well formed and their bytes are that text's UTF-8 |
| Text.DecodesOnlyEncodings | packages/authline-sdk/src/sep7.ts:173-178 | what decodes as a character is its one encoding, neither overlong nor a surrogate |
| UrlForm.ParseSerialize | packages/authline-sdk/src/exchange.ts:323-339 | any list of name-value pairs survives serializing and parsing, also with another parameter appended by hand |
| UrlForm.Base64RoundTrip | packages/authline-sdk/src/exchange.ts:345-347 | any bytes survive base64 (section 4 of RFC 4648) |
| UrlForm.Base64Extends | packages/authline-sdk/src/exchange.ts:345-347 | longer inputs are encoded three bytes at a time; with Base64Examples this fixes every output |
| Sep7.BuildParams | packages/authline-sdk/src/exchange.ts:323-337 | the parameters set in sequence are the present ones in order, with the callback prefixed once |
| Sep7.OnboardingRequest | packages/authline-sdk/src/exchange.ts:293-348 | refuses exactly an overlong msg, a signer without domain, an envelope that does not decode, and one that the user's signature would leave incomplete without a callback; else returns the printed and signed URI |
| Sep7.UriExactly | packages/authline-sdk/src/exchange.ts:323-348 | the printed text: scheme, operation, each present parameter in its place, and the signature of all of that last |
| Sep7.EmittedMayBeHandedOff | packages/authline-sdk/src/exchange.ts:307-321 | of what the relayer emits only a contract holder's router call depends on the callback |
| Sep7.RequestRoundTrip | packages/authline-sdk/src/sep7.ts:76-161 | parsing the emitted URI gives back every field for all valid inputs: callback without its prefix, domain in lower case, signature as made |
| Sep7.FieldsReadBack | packages/authline-sdk/src/exchange.ts:323-348 | the fields read back one by one: what each option given or left out becomes |
| Sep7.HandedOffIsReadable | packages/authline-sdk/src/sep7.ts:76-161 | whatever the emitter hands out parses back, given an http(s) callback and a domain |
| Sep7.HeadExactly | packages/authline-sdk/src/sep7.ts:80-86 | a text has a head if and only if it is the scheme in any case, at most two slashes, a word of letters, a question mark and a query on one line |
| Sep7.TrimExactly | packages/authline-sdk/src/sep7.ts:80 | trimming takes exactly the blanks off both ends |
| Sep7.OnlyTxParses | packages/authline-sdk/src/sep7.ts:84-92 | the two refusals before the parameters are looked at, each if and only if |
| Sep7.FieldsVerdict | packages/authline-sdk/src/sep7.ts:93-160 | on any parameters which refusal is given, each if and only if it is the first fault in order, and otherwise every field of the result |
| Sep7.DomainsExactly | packages/authline-sdk/src/sep7.ts:67-68 | a domain has at most 253 characters, a dot among them, and reads as the next two rows say |
| Sep7.TailOfLabels | packages/authline-sdk/src/sep7.ts:67-68 | and is labels, each ended by a dot, before 2 to 63 letters |
| Sep7.LabelsExactly | packages/authline-sdk/src/sep7.ts:67-68 | a label has 1 to 63 letters, digits and inner hyphens |
| Sep7.LowerDomain | packages/authline-sdk/src/sep7.ts:145-150 | the lower-case form of a domain is again a domain and its own lower-case form |
| Sep7.ParsedIsEmittable | packages/authline-sdk/src/sep7.ts:76-161 | whatever text parses, with or without a network, its fields are valid inputs of the emitter: envelope, network, http(s) callback, key, message length and domain all hold |
| Sep7.ReemitIsStable | packages/authline-sdk/src/sep7.ts:76-161 | emitting what was parsed from any text and parsing again returns the same request, less the signature |
| Sep7.StripGivesSigned | packages/authline-sdk/src/sep7.ts:62-65 | stripping the signature from an emitted request gives exactly the text that was signed |
| Sep7.SignedRequestVerifies | packages/authline-sdk/src/sep7.ts:169-188 | every signed emitted request verifies under its key |
| Sep7.VerifiedIsSigned | packages/authline-sdk/src/sep7.ts:169-188 | of any received text that verifies, the text that was signed asks for the same envelope, network, callback, signer, message and domain as the whole |
| Sep7.VerifiesExactly | packages/authline-sdk/src/sep7.ts:169-188 | a text verifies if and only if its last parameter is a signature that decodes to 64 bytes which that valid key made over the text before it |
| Sep7.SignatureExactly | packages/authline-sdk/src/sep7.ts:62-65 | where the signature starts: an occurrence of its name after which no ampersand comes |
| Sep7.PayloadExactly | packages/authline-sdk/src/sep7.ts:53-60 | thirty-five zero bytes, a four, the fixed text and the request |
| Sep7.HeadOfPrefix | packages/authline-sdk/src/sep7.ts:62-65 | cutting a request text at an ampersand cuts its query there and nothing of its head |
| UrlForm.SplitAt | packages/authline-sdk/src/sep7.ts:92 | splitting a query at an ampersand splits both sides on their own |
| Sep7.PayloadInjective | packages/authline-sdk/src/sep7.ts:53-60 | two requests with equal signing payloads are equal |
| Sep7.HandlerRoundTrip | src/authline.tsx:1120-1132 | the hosted page reads back from its link the very request it was made for, for any base and any request text |
| Sep7.HandlerExactly | packages/authline-sdk/src/sep7.ts:430-433 | the link is the base up to its first query or fragment mark and the encoded request |
| Sep7.PageReads | src/authline.tsx:1120-1132 | the page takes the parameter wherever it stands in the query, up to the next one or a fragment |
| Sep7.HostedRequestRoundTrip | packages/authline-sdk/src/sep7.ts:430-433 | integrator to link to page to parsed request returns every field |
| Claimable.EvaluatesOptimistically | packages/authline-sdk/src/claimable.ts:408-417 | on every predicate tree the SDK computes the ledger's rule with each relative window taken to be open |
| Claimable.AgreesWithLedger | packages/authline-sdk/src/claimable.ts:408-417 | it equals the ledger's rule when no rel_before occurs, and while every relative window is open |
| Claimable.RelativeWindows | packages/authline-sdk/src/claimable.ts:403-406 | the ledger's rule implies it when every rel_before is under an even number of negations, and is implied by it when under an odd number |
| Claimable.BareWindowHides | packages/authline-sdk/src/claimable.ts:403-406 | against the comment: a bare rel_before hides a claimable balance if and only if it is under an odd number of negations and has passed |
| Claimable.ResolvedIsExact | packages/authline-sdk/src/claimable.ts:400-417 | on what Horizon serves resolved, the SDK decides exactly as the ledger |
| Claimable.RecordsExactly | packages/authline-sdk/src/claimable.ts:408-417 | any record of Horizon's, lawful predicate or not: the first field set decides, an unreadable date is closed, and nothing set is open |
| Claimable.ListsExactlyClaimable | packages/authline-sdk/src/claimable.ts:501-554 | the default listing is exactly, and in order, the balances the ledger lets the account claim now |
| Claimable.ListsEverything | packages/authline-sdk/src/claimable.ts:501-554 | the full listing has one entry a record in order with all it says, and reports the opening exactly of a negated absolute time |
| Claimable.DefaultKeepsClaimable | packages/authline-sdk/src/claimable.ts:501-554 | the default listing keeps exactly the claimable entries of the full one |
| Claimable.BuildDelivery | packages/authline-sdk/src/claimable.ts:201-241 | refuses exactly a non-account recipient, a non-positive amount and a window that is not a positive finite number; the sender is a second claimant only if a window is set and it is not the recipient |
| Claimable.DeliveryWindows | packages/authline-sdk/src/claimable.ts:174-181 | the recipient may always claim, the sender exactly from claimableAfter on, which is creation plus the whole seconds of the window; a window below one second is none |
| Claimable.FormatIsExact | packages/authline-sdk/src/claimable.ts:472-478 | every canonical integer string prints as optional minus, whole part without superfluous zero, dot and seven digits, and the printed number times ten million is the integer |
| Claimable.FormatIsInjective | packages/authline-sdk/src/claimable.ts:472-478 | different integers print differently |

## Left out

- The React screens, wallet wiring, HTTP server, environment parsing, polling and status reads: input and output; reads and submissions appear as steps or as results of them.
- Cryptography, StrKey checksums and XDR: envelopes appear decoded, keys and URLs are judged by parameters, signing and verifying are a parameter pair, and a signature is known by its hint.
- The issuer's classic SetTrustLineFlags and its clearing of AUTH_REQUIRED: in a managed run the issuer leaves both alone; histories, over which the log, the pause and the policy switch are proved, allow both.
- Storage expiry and its extension, and resource limits: an entry, once written, stays until removed.
- Upgrading to other code: `upgrade` publishes its event and the code stays this code.
- A router call for another asset, or for this one while somebody else administers it: part of what the environment may do.
- Operations that neither onboarding shape uses: the vetter refuses them, and executing one is a failure here.
- Saturation of 64-bit times and of fees: times, amounts and fees are unbounded integers; SAC balances keep their bounds.
- JavaScript floating point: tokens are whole sixty-thousandths, a window's length a real number, balances whole stroops.
- The SDK library's own checks of amounts, assets and addresses, and the transaction of a delivery beyond its claimants.
- Dates Horizon prints that JavaScript cannot read: the claim results ask that the instants involved read back.
- Ill-formed UTF-8 and unpaired surrogates: texts are sequences of Unicode scalar values; ill-formed input decodes to replacement characters whose exact number is not modelled.
- A hosted base URL with line breaks, and the removal of one trailing slash before the link is made (the link results hold for every base).
- Relayer error texts, the registry of pins, stellar.toml discovery, the claim plan and claim transaction, fee bumps, the in-flight gate, the guess-the-number and authorizer-stub contracts: tables, single expressions and finite case lists.
- Coalescing.OneRunPerKey: its chain reads report the truth at the time they complete or reject; a read that lags behind the ledger is not modelled, and neither is a holder that loses authorization between two runs.
- Relayer.ReadyMeansPayable: the buying liabilities of open offers, which also count against a line's limit, are not modelled.
- CaseProtocol.ProtocolReachesReady: nothing else happens between request and callback, as its promise is about reads and submissions that succeed.
