# Visa back office: stores, guards and handlers

This project models the server side of a visa application portal in Dafny and proves what holds over all its
runs. The server keeps visa cases ("pratiche"), payments, refresh sessions, one-time tokens and IP lists in a
store, in memory or in MongoDB, and guards its endpoints with a rate limiter, a login lock and an IP policy.

Time is an explicit, nondecreasing input (`Basics.Time`; 0 stands for Go's zero time). Every reading of the clock
that the model makes use of is its own parameter, so a method that reads the clock twice takes two instants. Random tokens and uuids are inputs
that are required to be fresh. Objects that the source updates in place are classes; each method is proved against
a function on plain values, and the properties of whole runs are proved about those functions.

| file | contents |
|---|---|
| `RateLimiter.dfy` | the fixed-window rate limiter, and what sliding intervals see of it |
| `LoginLock.dfy` | the login lock, driven as the login handler drives it |
| `IpAddresses.dfy`, `IpPolicy.dfy`, `IpRules.dfy` | prefix arithmetic, the allow/block decision, the lazily purged lists; section 3.1 of RFC 4632 and section 2.3 of RFC 4291 define the prefixes |
| `Pratiche.dfy` | a case, its transition table, its event log and every update of a case |
| `CaseCodes.dfy` | the `VST-year-number` codes |
| `Store.dfy`, `MemoryStore.dfy` | cases and payments as one value, and the class whose methods are atomic steps on it |
| `Handlers.dfy`, `PaymentHistory.dfy`, `Deliveries.dfy` | handlers as processes that interleave, what happened to payments, repeated webhook deliveries |
| `Sessions.dfy`, `SessionChains.dfy`, `SessionRaces.dfy` | refresh sessions, the rotation chains of whole runs, refreshes that race with a revocation |
| `Accounts.dfy` | one-time tokens, registration, invitation, activation and login |
| `MongoCases.dfy`, `MongoTokens.dfy` | the MongoDB store as single-document steps |
| `Basics.dfy`, `Text.dfy` | options, results, errors, time; `strings.TrimSpace` |

The main results: the bounds of both guards over sliding intervals, each with a run that reaches it
(`SlidingBound`, `SlidingBoundReached`, `FailureBound`, `FailureBoundReached`); the IP cascade as a statement about
address sets (`CascadeIsSetRule`); the event log as the whole truth about a case in every reachable store, in memory
and under every interleaving of MongoDB reads and replacements (`EveryRunIsSound`, `EveryInterleaving`,
`EveryInterleavingIsSound`); the webhook that completes its case against any other handlers
(`WebhookCompletesTheCase`); refunds, confirmations and events in balance (`RefundsConfirmationsEvents`); rotation
chains and final revocation (`SessionsFormChains`, `RevocationIsFinal`); no login before activation
(`NoLoginBeforeActivation`) and exactly who can still be let in (`StrandedIff`); lazy purging that nobody can observe
(`LazyAnswersAreEager`); the exact condition under which a MongoDB replacement is the atomic update
(`ReplaceIsAtomicIff`), and what a run of such replacements amounts to (`FittingIsSerial`).

## Where the code differs from what one would expect

- README.md:109-110 promises "exact block, then exact allow, then the more specific prefix". The code compares
  specificity first, so a full-length prefix (/32 or /128) set after the plain address hides it. `CascadeIsDocumented`
  gives the exact condition, `DocumentedPrecedenceCanFail` an example.
- With equal time stamps on an address and its own full-length prefix the order of the list decides, and the
  in-memory lists are built by ranging over a Go map. `OrderMattersIff` says exactly when the order can change the
  action or the reason, `OrderCanMatter` is an example.
- `RecordFailure` resets an elapsed attempt before it looks at the lock, so without the `IsLocked` call that the
  login handler makes first it can lift a running lock: `RecordFailureAloneKeepsLock` says exactly when.
- `RequestDocumento` lets a suspended case through its check, but the state change that follows always refuses it:
  `RequestChangesWorkOnly`.
- Tokens are consumed before their purpose is looked at, and nobody is issued a second activation token: an
  invitation token presented at the e-mail verification endpoint, or a verification token presented as a password
  reset, is spent and its account never becomes active (`WrongEndpointStrands`, `StrandedInTwoSteps`). So is an
  invitation used with a password that bcrypt refuses, as it does beyond 72 bytes (`OneChance`). `StrandedIff` says
  exactly which inactive users can still be let in.
- In the last millisecond before its expiry, up to and including the expiry itself, a token is accepted by the
  in-memory store and refused by MongoDB, which keeps dates in whole milliseconds: `StoresDisagreeAtExpiryOnly`.
- In MongoDB two overlapping updates of a case both report success and the later one wipes out the earlier
  (`LastWriteWins`): a completed case can fall back (`CompletionUndoneFromStart`), a submitted one can become a draft
  again and be deleted (`SubmittedDeletedFromStart`). So the guarantees of `Handlers.dfy` do not carry over unless
  every replacement still fits what is stored (`FittingOnlyEvolves`), as when updates of one case do not overlap.
- A refresh that was accepted just before an admin revokes all sessions of its user still creates a live session
  afterwards (`RevocationOutrun`); `RevocationSticksIff` says exactly when a revocation lasts.
- ::fffe:0:0/95 and ::fffe:0:0/96 hold the same IPv6 clients, since what lies between them is read as IPv4; blocking
  the first and allowing the second lets those clients through (`TwinsAreLetThrough`).
- Deleting a missing draft is "not found" in memory and "forbidden" in MongoDB.

## Model

| member | source | states |
|---|---|---|
| RateLimiter.SimpleRateLimiter.Allow | internal/httpapi/server.go:3528-3548 | the decision, the announced wait and the stored bucket of one call, no other key touched, and the ghost history the run lemmas speak about stays in step with the map |
| RateLimiter.SlidingBound | internal/httpapi/server.go:3528-3548 | over every run on a nondecreasing clock, a closed interval of k windows holds at most (k+1)·limit − 1 grants for one key |
| RateLimiter.SlidingBoundReached | internal/httpapi/server.go:3528-3548 | that bound is reached by an ordered run, for every limit ≥ 1 and every k from 1 to the window in clock ticks |
| RateLimiter.GrantsPerBucket | internal/httpapi/server.go:3533-3535 | the invariant behind it: grants since an instant are paid for by the buckets opened since, whose openings lie more than a window apart |
| RateLimiter.RetryAfterIsExact | internal/httpapi/server.go:3536-3543 | after a denial, other keys aside, any call later than the announced wait is granted and none before the bucket ends |
| RateLimiter.OtherKeysAside | internal/httpapi/server.go:3532-3546 | calls for other keys leave a key's bucket alone |
| LoginLock.LoginLockTracker.IsLocked | internal/httpapi/server.go:3571-3587 | reports exactly a lock that has not elapsed, drops the entry once it has, leaves other e-mails alone |
| LoginLock.LoginLockTracker.RecordFailure | internal/httpapi/server.go:3589-3610 | leaves the recorded entry, and answers what a check of that entry would say at the same instant, with the time left |
| LoginLock.LoginLockTracker.Clear | internal/httpapi/server.go:3612-3616 | forgets this e-mail only |
| LoginLock.LoginLockTracker.FailedLogin | internal/httpapi/server.go:588-624 | the handler records a failure only after a check that said no; the entry follows `Attempted`, and the answer reports a lock exactly if the entry it leaves is locked |
| LoginLock.FailureBound | internal/httpapi/server.go:588-624 | over every sequence of attempts with no success in between, a half-open interval as long as the window admits at most max(maxAttempts, 2·maxAttempts − 2) failures |
| LoginLock.FailureBoundReached | internal/httpapi/server.go:3571-3610 | that bound is reached by sequential attempts, for every maxAttempts ≥ 1 and every window of at least two clock ticks |
| LoginLock.LockHolds | internal/httpapi/server.go:3577-3580 | a lock is reported by every check until `lockedUntil`, whatever attempts are made meanwhile |
| LoginLock.ReportIsCheck | internal/httpapi/server.go:3597-3609 | the report of `RecordFailure` and a check right after it agree |
| LoginLock.LocksForAWindow | internal/httpapi/server.go:3600-3604 | the failure that reaches maxAttempts within its window locks for exactly one more window, and no other failure locks |
| LoginLock.ElapsedIsForgotten | internal/httpapi/server.go:3582-3585 | a check forgets an entry exactly when its lock has elapsed |
| LoginLock.RecordFailureAloneKeepsLock | internal/httpapi/server.go:3595-3599 | a running lock survives a bare `RecordFailure` if and only if the attempt window has not passed or a single failure locks |
| LoginLock.RecordFailureAloneDropsLock | internal/httpapi/server.go:3595-3604 | a concrete run in which it is lifted |
| CaseCodes.ParseRender | internal/store/memory.go:171-191 | a code can be parsed back to its year and number, beyond six digits too |
| CaseCodes.RenderInjective | internal/store/memory.go:171-191 | equal codes come from the same year and number |
| CaseCodes.CodesDistinct | internal/store/memory.go:171-191 | consecutive numbers in any years give pairwise distinct codes |
| CaseCodes.PaddedToSix | internal/store/memory.go:171-191 | numbers up to 999999 take exactly six digits, longer ones are written out |
| IpAddresses.WithinIffLonger | internal/httpapi/server.go:3119-3131 | two targets that share an address are nested, and one lies within the other exactly when it is at least as specific or the two are ::fffe:0:0/95 and ::fffe:0:0/96, whose difference are the IPv4-mapped addresses |
| IpAddresses.SameLengthSameBlock | internal/httpapi/server.go:3119-3131 | two distinct normalized blocks of one length never match the same client |
| IpAddresses.EqualSpecificity | internal/httpapi/server.go:3208-3221 | equally specific matching targets differ only as an address from its own full-length block |
| IpAddresses.MatchesByPrefix | internal/httpapi/server.go:3119-3131 | a target covers the addresses that share its prefix with any one of them, for single addresses and blocks alike |
| IpPolicy.FindBestMatch | internal/httpapi/server.go:3172-3206 | the loop returns a most specific matching rule and, among those, one set last; none exactly when none matches |
| IpPolicy.BestMatchIsBest | internal/httpapi/server.go:3172-3206 | the same of the function the policy is stated with |
| IpPolicy.BestMatchIsTightest | internal/httpapi/server.go:3172-3221 | the chosen rule matches and its address set is contained in that of every other matching rule |
| IpPolicy.TieBreak | internal/httpapi/server.go:3182 | the time stamps only ever decide between an address and its own full-length block |
| IpPolicy.EvaluateClientIPPolicy | internal/httpapi/server.go:3140-3170 | invalid clients are let through; otherwise the reported block and allow rules are the best of both lists, or none where none matches, a block always reports its rule, and the action is that of `Evaluate` |
| IpPolicy.ReportedRulesAreBest | internal/httpapi/server.go:3146-3170 | the same of the function the policy is stated with |
| IpPolicy.ReasonTellsWhy | internal/httpapi/server.go:3149-3169 | which reason goes with which pair of reported rules, and with which action |
| IpPolicy.UnreadableClientPasses | internal/httpapi/server.go:3141-3144 | a client address that cannot be parsed is let through, whatever the rules |
| IpPolicy.CascadeIsSetRule | internal/httpapi/server.go:3140-3170 | the cascade blocks iff the tightest matching block exists and lies within the tightest matching allow, except exactly when the chosen block is a full-length prefix and the chosen allow rule its address, or they are that pair |
| IpPolicy.CascadeIsSetRuleWithoutFullLength | internal/httpapi/server.go:3140-3170 | without full-length prefixes among the blocks only that one pair is left, and for IPv4 clients no exception at all |
| IpPolicy.TwinsAreLetThrough | internal/httpapi/server.go:3152-3161 | that pair as two one-rule lists |
| IpPolicy.SetRuleByBest | internal/httpapi/server.go:3152-3161 | the set statement can be read off the specificities of the two chosen rules, that pair apart |
| IpPolicy.OrderDoesNotMatter | internal/httpapi/server.go:3146-3170 | action and reason do not depend on how the rules are listed when the best blocks hold no tie of an address with its full-length prefix, and the best allows none either unless an exact block decides anyway |
| IpPolicy.OrderMattersIff | internal/httpapi/server.go:3146-3206 | every reordering of the two lists gets the same action and reason if and only if that condition holds, and so does every reordering the store could return, newest first |
| IpPolicy.OrderIndependentWithoutFullLength | internal/httpapi/server.go:3146-3206 | without full-length prefixes in the lists the order never changes action or reason |
| IpPolicy.FirstBestWins | internal/httpapi/server.go:3172-3206 | of several best rules the loop chooses the one listed first |
| IpPolicy.OrderCanMatter | internal/httpapi/server.go:3172-3188 | a list with such a tie, for any client, whose order alone changes the action |
| IpPolicy.CascadeIsDocumented | README.md:109-110 | the code follows the documented precedence except exactly when a full-length prefix hides the plain address that would have decided |
| IpPolicy.DocumentedPrecedenceCanFail | README.md:109-110 | an exact block hidden by its own /32 is let through |
| IpRules.IpRuleList.Upsert | internal/store/memory.go:786-800 | stores under the trimmed key with defaulted time stamps, or refuses a blank key |
| IpRules.IpRuleList.Remove | internal/store/memory.go:802-814 | removes whether or not the entry has expired |
| IpRules.IpRuleList.Get | internal/store/memory.go:832-845 | never returns an expired entry and drops it |
| IpRules.IpRuleList.List | internal/store/memory.go:816-830 | the loop returns the unexpired entries, each once, and leaves exactly those in the map |
| IpRules.LazyAnswersAreEager | internal/store/memory.go:786-906 | over every sequence of operations on a nondecreasing clock the purging map answers as one that never purges, and offers the same policy input afterwards |
| IpRules.GetFindsLastWritten | internal/store/memory.go:786-845 | after any run `Get` and `List` know exactly what was last written for a key, until it expires or is removed |
| IpPolicy.DecisionSeesNoPurge | internal/httpapi/server.go:3146-3170 | after any two sequences of list operations, the decision on what the purging lists return, each at its own instant, is the one on lists that never purge, in whatever order either comes, unless order can decide |
| IpRules.PurgedStep | internal/store/memory.go:816-845 | the step invariant: what the purging map lacks has already expired |
| Pratiche.NewIsSound | internal/store/memory.go:171-191 | a created case is replayed by its log |
| Pratiche.ApplyKeepsSound | internal/store/memory.go:295-428 | every update of a case keeps the log replaying to state, dates, operator and notes, on a path of allowed transitions with nondecreasing times, and only appends to it |
| Pratiche.ApplyIsLater | internal/store/memory.go:227-467 | every update keeps id, code and owner, takes at most one allowed transition and keeps the submission date once set |
| Pratiche.UpdatesKeepTheRest | internal/store/memory.go:227-467 | whatever is written is dated, and each update leaves alone the parts of the case that are not its own |
| Pratiche.DocumentsComeAndGo | internal/store/memory.go:320-336 | a document is added at the end, and deleting drops every document with that id and no other |
| Pratiche.NotesGrow | internal/store/memory.go:391-428 | a note goes to the end of the notes it is meant for, behind its time stamp; a blank one is forbidden |
| Pratiche.EditsTakeTheirFields | internal/store/memory.go:227-255 | an edit takes exactly the fields that are filled in, of the owner's draft only |
| Pratiche.OnlyKnownOperators | internal/store/memory.go:363-389 | exactly known users can be assigned |
| Pratiche.AllowedByPredecessors | internal/store/memory.go:282-293 | the transition table read backwards: from where each state is entered |
| Pratiche.CompletableIff | internal/store/memory.go:282-293 | a case can be brought to completion from every state but the refused, the cancelled and the unknown |
| Pratiche.EntriesBalanceExits | internal/store/memory.go:282-318 | for every state, entries minus exits in the log is 1 if it is current and 0 otherwise |
| Pratiche.OnlyWorkRepeats | internal/store/memory.go:282-293 | only the working, integration and suspended states can be entered twice |
| Pratiche.MilestonesVisited | internal/store/memory.go:282-293 | every log visited all the states that no path to its current state can avoid |
| Pratiche.CompletedPath | internal/store/memory.go:282-318 | a completed case was submitted, worked on and approved, and took each transition of the payment chain exactly once |
| Store.EveryRunIsSound | internal/store/memory.go:171-547 | in every reachable store each log replays to the stored fields, codes are distinct, and a payment has its payment date iff it has left the pending state |
| Store.StepKeepsSound | internal/store/memory.go:171-547 | every atomic call keeps that |
| Store.StepEvolves | internal/store/memory.go:257-269 | no call removes a case past the draft stage or takes it anywhere but to a later version of itself |
| Store.ConfirmedIsRefundedOnce | internal/store/memory.go:516-547 | a confirmed payment can be refunded, once, and keeps its case and its payment date |
| Store.RefundsNeedConfirmation | internal/store/memory.go:532-547 | a refund is accepted iff the payment is confirmed and not refunded since |
| Store.EventsAreNewOnce | internal/store/memory.go:700-712 | a webhook event is new exactly once |
| Store.WebhookKeysTellEventsApart | internal/store/memory.go:700-712 | events of one provider share a key iff their trimmed ids are equal |
| Store.DraftsBelongToTheirOwner | internal/store/memory.go:227-269 | drafts are edited and deleted by their owner only, other cases are left alone |
| Store.NewCaseIsADraft | internal/store/memory.go:171-191 | a new case is a draft of its user with the data given and nothing else |
| Store.NewPaymentIsPending | internal/store/memory.go:469-485 | a payment is created for a stored case in any state, pending |
| Store.EveryOperatorIsKnown | internal/store/memory.go:363-389 | in every reachable store the operators of all cases are known users |
| Store.CodesGivenAre | internal/store/memory.go:171-191 | over every run the codes given to new cases are those of consecutive numbers, whatever is deleted in between |
| Store.CodesNeverRepeat | internal/store/memory.go:171-191 | no code is ever given twice in a run, codes of deleted drafts included |
| MemoryStore.MemoryStore.CreatePratica | internal/store/memory.go:171-191 | the new draft with the next number, as one step of `Store.Step` |
| MemoryStore.MemoryStore.UpdatePraticaAsDraft | internal/store/memory.go:227-255 | the edited draft, or not found / forbidden, as one step |
| MemoryStore.MemoryStore.DeletePraticaAsDraft | internal/store/memory.go:257-269 | removes a draft of this user only, as one step |
| MemoryStore.MemoryStore.ChangePraticaState | internal/store/memory.go:295-318 | the whole new store and the result, or the error, as one step |
| MemoryStore.MemoryStore.AssignOperatore | internal/store/memory.go:363-389 | the assignment and its event, or not found for the case or the operator |
| MemoryStore.MemoryStore.AddNota | internal/store/memory.go:391-428 | the appended note and its event; a blank note is forbidden |
| MemoryStore.MemoryStore.AddDocumento | internal/store/memory.go:320-336 | appends and returns the document with its own clock reading, ids staying distinct; the case is dated by the second reading |
| MemoryStore.MemoryStore.DeleteDocumento | internal/store/memory.go:451-467 | cutting out the first hit is filtering by id; whether there was a hit |
| MemoryStore.CutIsWithout | internal/store/memory.go:458-465 | why: with distinct ids, the list without position i is the list without that id |
| MemoryStore.MemoryStore.SubmitPratica | internal/store/memory.go:271-280 | undisturbed, it succeeds exactly on a draft of this user and leaves it submitted; otherwise nothing changes |
| MemoryStore.MemoryStore.RequestDocumento | internal/store/memory.go:430-449 | undisturbed, it succeeds exactly on a case in processing, with both the state change and the note; otherwise nothing changes |
| MemoryStore.RequestMessageNotBlank | internal/store/memory.go:441-448 | the composed note is never blank, whatever the texts |
| MemoryStore.MemoryStore.CreatePayment | internal/store/memory.go:469-485 | a pending payment for a case in any state, as one step |
| MemoryStore.MemoryStore.FindPayment | internal/store/memory.go:505-514 | the search finds the one payment of a token if there is one |
| MemoryStore.MemoryStore.GetPaymentByToken | internal/store/memory.go:505-514 | reads it without changing anything |
| MemoryStore.MemoryStore.ConfirmPaymentByToken | internal/store/memory.go:516-530 | completes the payment whatever its old state, as one step |
| MemoryStore.MemoryStore.RefundPaymentByToken | internal/store/memory.go:532-547 | refunds a completed payment only, as one step |
| MemoryStore.MemoryStore.MarkWebhookEventProcessed | internal/store/memory.go:700-712 | remembers a new event, recognises an old one, as one step |
| Handlers.EveryInterleaving | internal/httpapi/server.go:1419-1443 | in every interleaving of handlers over the in-memory store, the store stays sound and each handler finds what it relies on at its program counter |
| Handlers.NextAssured | internal/httpapi/server.go:1440-1443 | the step invariant: no step of any process takes away what another relies on |
| Handlers.WebhookCompletesTheCase | internal/httpapi/server.go:1419-1443 | a webhook whose payment's case was awaiting payment or further along the chain when its changes began leaves that case, the one the payment was created for, completed, the log holding each of the four transitions exactly once |
| Handlers.WebhookCompletesWhatItFinds | internal/httpapi/server.go:1440-1443 | the same of any run up to the first change and any continuation of it |
| Handlers.PaymentsKeepTheirCase | internal/store/memory.go:469-547 | in every interleaving the payments are those whose creation was accepted, each for the case it was created for |
| Handlers.EveryWebhookTied | internal/httpapi/server.go:1435-1443 | in every interleaving a webhook changes the case of its own payment |
| Handlers.SubmitAlone | internal/store/memory.go:271-280 | undisturbed, the handler submits exactly a draft of the user |
| Handlers.RequestAlone | internal/store/memory.go:430-449 | undisturbed, `RequestDocumento` leaves what the in-memory method leaves |
| Handlers.RequestAloneRefused | internal/store/memory.go:430-449 | and changes nothing on a case that is not in processing |
| Handlers.SendAlone | internal/httpapi/server.go:2947-2962 | undisturbed, sending a visa completes exactly a case whose visa is being prepared |
| Handlers.LinkAlone | internal/httpapi/server.go:2865-2892 | undisturbed, a payment link is a pending payment, and an approved case awaits it if the provider answered |
| Handlers.RequestNoteSucceeds | internal/store/memory.go:430-449 | in every interleaving, after the state change of `RequestDocumento` its note cannot fail |
| Handlers.RequestChangesWorkOnly | internal/store/memory.go:430-449 | that state change succeeds iff the case is in processing at that moment, and leads to the integration request |
| Handlers.SentVisaIsCompleted | internal/httpapi/server.go:2947-2962 | a visa sent by hand leaves a completed case, even when a webhook gets in between |
| PaymentHistory.RefundsConfirmationsEvents | internal/httpapi/server.go:1419-1443 | in every interleaving, accepted refund calls for a token ≤ accepted confirmations ≤ the distinct webhook events marked for it |
| PaymentHistory.HistoriesCountCalls | internal/store/memory.go:516-547 | the histories count exactly the accepted calls of the run |
| PaymentHistory.EveryRunAccounts | internal/httpapi/server.go:1425-1439 | the invariant behind it: each confirmation uses up a mark of its own, and a refundable payment has one confirmation in hand |
| Deliveries.RepeatsLeaveNoTrace | internal/httpapi/server.go:1419-1443 | a run of deliveries mixed with any other calls, new payments included, ends in the same store as its subsequence of first deliveries per event for a payment known by then, each at its own clock readings |
| Deliveries.KeptOnce | internal/httpapi/server.go:1425-1433 | that subsequence delivers no event twice |
| Deliveries.RefusedDelivery | internal/httpapi/server.go:1419-1433 | a repeated delivery, or one for an unknown payment, changes nothing |
| Deliveries.AcceptedDelivery | internal/httpapi/server.go:1425-1443 | any other delivery marks its event, no other, and keeps the set of payments |
| Deliveries.DeliveryCompletesTheCase | internal/httpapi/server.go:1419-1443 | it completes its payment, and the payment's case if that is on the payment chain; otherwise no case changes, and no other case ever |
| Sessions.SessionStore.CreateRefreshSession | internal/store/memory.go:549-563 | stores under the trimmed id or refuses a blank one |
| Sessions.SessionStore.GetRefreshSessionByID | internal/store/memory.go:565-578 | never returns an expired session and drops it |
| Sessions.SessionStore.RevokeRefreshSession | internal/store/memory.go:599-617 | revokes an unrevoked session whether or not it has expired |
| Sessions.SessionStore.RevokeAllRefreshSessionsByUser | internal/store/memory.go:619-644 | the loop returns the exact number of the user's live sessions, revokes them and purges expired ones |
| Sessions.RevokeAllIsExact | internal/store/memory.go:619-644 | afterwards the user has no live session; those revoked are dated and marked, expired ones are gone, earlier revocations and everybody else's sessions are untouched |
| Sessions.SessionStore.Login | internal/httpapi/server.go:656-667 | adds the one new session, its expiry and its creation each dated by its own clock reading |
| Sessions.SessionStore.Refresh | internal/httpapi/server.go:669-736 | succeeds exactly on a stored, unexpired, unrevoked session of the token's user, and rotates it, with a clock reading for each of its four steps |
| Sessions.RefreshKeepsLiveCount | internal/httpapi/server.go:699-735 | a refresh, reading the clock four times, never leaves more live sessions than it found, and as many as there would be without it unless the old session would have expired meanwhile |
| SessionChains.SessionsFormChains | internal/httpapi/server.go:656-757 | over every run, the sessions descended from one login form an acyclic chain of successors with one user and role, nondecreasing expiry and at most one unrevoked member, the newest |
| SessionChains.EverySessionHasItsChain | internal/httpapi/server.go:656-757 | every stored session is in the chain of exactly one login |
| SessionChains.RevocationIsFinal | internal/httpapi/server.go:1859-1882 | after a bulk revocation no run of handlers, each taken as one step, ever makes a refresh succeed with a token issued to that user before |
| SessionChains.LogoutIsFinal | internal/httpapi/server.go:738-757 | after a logout, or an admin's revocation of one session, no run ever makes a refresh succeed with a token of that session |
| SessionChains.LogoutIsExact | internal/store/memory.go:599-617 | it dates and marks that session unless it was revoked before, and touches no other |
| SessionChains.ListingDropsExpired | internal/store/memory.go:580-597 | listing drops the expired sessions and no other |
| SessionChains.GoodForAWeek | internal/httpapi/server.go:656-667 | a new token is good for its user and role, up to a week after its issue and not longer |
| SessionChains.NewSessionIsDated | internal/store/memory.go:549-563 | a new session carries the clock readings of its creation, and no other session changes |
| SessionRaces.RevocationSticksIff | internal/httpapi/server.go:669-736 | with the store calls of refreshes interleaving, a bulk revocation leaves the user without any live session until the next login if and only if no refresh of that user was accepted before it and has yet to create its session |
| SessionRaces.RevocationOutrun | internal/httpapi/server.go:699-735 | a run from the empty table in which a refresh outruns the revocation |
| SessionRaces.RefreshAlone | internal/httpapi/server.go:669-736 | undisturbed, the four steps of a refresh are the one step of the chains |
| SessionRaces.OtherCallsAsInChains | internal/httpapi/server.go:738-757 | all other calls do to the table what they do in the chains |
| Accounts.TokenStore.CreatePasswordResetToken | internal/store/memory.go:646-661 | stores the token under its trimmed text or refuses blanks |
| Accounts.TokenStore.ConsumePasswordResetToken | internal/store/memory.go:663-680 | accepts an unused token up to its expiry and marks it, drops it otherwise |
| Accounts.NoLoginBeforeActivation | internal/httpapi/server.go:509-530 | over every run, a login of a self-registered user (an invited operator) is preceded by the consumption, at the right endpoint, of an e-mail verification (account activation) token issued to that user |
| Accounts.WrongCredentialsRefused | internal/httpapi/server.go:606-641 | a wrong password or a wrong one-time code changes nothing |
| Accounts.RightCredentialsLetIn | internal/httpapi/server.go:606-641 | with both, exactly the active user of the e-mail who has a password gets in |
| Accounts.EveryLoginHasCredentials | internal/httpapi/server.go:606-641 | over every run each login was answered to a request with the right password and code, for the user of its e-mail, active and with a password at that moment |
| Accounts.PasswordResetNeverActivates | internal/httpapi/server.go:821-849 | a password reset token activates nobody at either endpoint |
| Accounts.ConsumedAtMostOnce | internal/store/memory.go:663-680 | over every run a token is consumed at most once |
| Accounts.WrongEndpointStrands | internal/httpapi/server.go:821-900 | in every reachable world a good activation token presented at the endpoint it does not belong to, in either direction, is spent and leaves its user inactive without another |
| Accounts.OneChance | internal/httpapi/server.go:821-900 | presenting a good activation token activates its user or strands them for good, and activates exactly at its own endpoint with a password that can be hashed |
| Accounts.RunOrderly | internal/httpapi/server.go:509-530 | over every run nobody is issued a second token that could activate their account, and every registered user can be found by e-mail |
| Accounts.StrandedInTwoSteps | internal/httpapi/server.go:821-900 | two runs from the start that strand a user, one per endpoint |
| Accounts.StrandedIff | internal/httpapi/server.go:759-900 | after any run, an inactive user is never activated, and never logged in, by any continuation if and only if they hold no unused, unexpired activation token |
| Accounts.StrandedForGood | internal/httpapi/server.go:759-871 | such a user stays inactive and is never logged in, in any run from there |
| Accounts.NewUserGetsAToken | internal/httpapi/server.go:509-530 | a registered or invited user is inactive and gets one token, good up to its expiry (three days for an invitation) |
| Accounts.TakenEmailRefused | internal/store/memory.go:76-84 | an e-mail in use is refused and nothing changes |
| Accounts.ForgottenPasswordIsReset | internal/httpapi/server.go:759-871 | for half an hour the token sets the password of its user, and of nobody else |
| Accounts.ResetTouchesOneUser | internal/httpapi/server.go:804-871 | presenting a token touches no user but its own and no other token |
| Accounts.VerifyTouchesOneUser | internal/httpapi/server.go:873-900 | and a verification touches no password |
| Accounts.ActivationSetsPassword | internal/httpapi/server.go:821-849 | a good invitation leaves its user active with the new password |
| MongoTokens.TokenCollection.ConsumePasswordResetToken | internal/store/mongo.go:864-895 | undisturbed, accepts before the millisecond of the expiry, deletes a stale token and leaves it at the expiry instant |
| MongoTokens.StoresDisagreeAtExpiryOnly | internal/store/mongo.go:877-885 | the two stores differ on a token exactly from the start of its expiry's millisecond to the expiry itself |
| MongoTokens.AcceptedAtMostOnce | internal/store/mongo.go:864-895 | in every interleaving of any number of consumers a token is accepted at most once, and only by a consumer whose clock was before the millisecond of the expiry |
| MongoTokens.OneWinner | internal/store/mongo.go:881-895 | no two consumers of one token are both told yes |
| MongoTokens.ConsumerAlone | internal/store/mongo.go:864-895 | undisturbed, a consumer is told yes exactly for an unused token before the millisecond of its expiry |
| MongoCases.MongoStore.ReplaceOne | internal/store/mongo.go:468-475 | writes over a stored case and silently does nothing for a missing one |
| MongoCases.MongoStore.ChangePraticaState | internal/store/mongo.go:448-475 | undisturbed, reading, changing and replacing is the atomic update |
| MongoCases.MongoStore.AddNota | internal/store/mongo.go:509-550 | the same for notes |
| MongoCases.MongoStore.DeleteDocumento | internal/store/mongo.go:617-645 | the loop builds the list without the id; no replacement without a hit |
| MongoCases.MongoStore.DeletePraticaAsDraft | internal/store/mongo.go:424-435 | one guarded deletion; everything else is forbidden |
| MongoCases.EveryInterleavingIsSound | internal/store/mongo.go:382-594 | in every interleaving of creations, reads, replacements and deletions, every stored case and every copy in flight has a log on an allowed path that replays to its own fields, and the owner and code it was born with |
| MongoCases.CodesNeverCollide | internal/store/mongo.go:306-344 | two stored cases never share a code, though numbers are drawn and cases inserted in separate steps |
| MongoCases.LastWriteWins | internal/store/mongo.go:448-594 | of two overlapping updates of a case the first one written is wiped out entirely, and both callers are told it worked |
| MongoCases.CompletionCanBeUndone | internal/store/mongo.go:448-550 | a case reported as completed can be back where it was, with no completion in its log |
| MongoCases.CompletionUndoneFromStart | internal/store/mongo.go:448-550 | a run from the empty collection that gets there |
| MongoCases.SubmittedCanBeDeleted | internal/store/mongo.go:393-475 | a case reported as submitted can become a draft again and be deleted |
| MongoCases.SubmittedDeletedFromStart | internal/store/mongo.go:393-475 | a run from the empty collection that gets there |
| MongoCases.Reached | internal/store/mongo.go:448-475 | every path of allowed transitions is taken by some run |
| MongoCases.ReplaceIsAtomicIff | internal/store/mongo.go:393-645 | a replacement, of any kind of update, does and answers what the atomic update would iff the case is still stored and agrees with the copy on everything but the modification date and what the update overwrites with the same result |
| MongoCases.FittingIsSerial | internal/store/mongo.go:382-645 | if every replacement of a stored case is atomic in that sense, the collection is what atomic updates in the order of the replacements would have made of it |
| MongoCases.FittingOnlyEvolves | internal/store/mongo.go:382-645 | and then a case past the draft stage stays and only moves to later versions of itself |
| MongoCases.LogKeptIff | internal/store/mongo.go:393-645 | one replacement keeps all that was logged iff the copy has it all, or the very log to be written is already stored |
| MongoCases.ExclusiveIsSerial | internal/store/mongo.go:382-645 | in particular if no two updates hold copies of one case at once |
| MongoCases.ExclusiveOnlyEvolves | internal/store/mongo.go:382-645 | then too a case past the draft stage stays and only moves to later versions |
| MongoCases.WriterAlone | internal/store/mongo.go:393-645 | undisturbed, find, compute and replace are the atomic update and its answer |
| MongoCases.CreatorAlone | internal/store/mongo.go:306-344 | undisturbed, a creation leaves a new draft under the next number |
| MongoCases.OnlyOwnDraftsAreDeleted | internal/store/mongo.go:424-435 | only a draft of the caller is deleted, and nothing else changes |

## Left out

- HTTP, JSON, cookies, CORS, event streams, CSV, static files, e-mail, S3, the Stripe call and the user interface.
- JWT signatures, bcrypt, TOTP and HMAC: whether a signature, password or code was accepted is an input.
- Parsing of addresses, prefixes, dates and payment bodies: parsed values are inputs, targets are taken as the server normalizes them, and note time stamps are rendered by an abstract function.
- Event uuids, event texts that are constant per kind, document metadata beyond name and upload time, priorities and prices.
- The order of listed results: `List` returns its entries in any order, the final sort is not modelled.
- Sharing of Go slices between a returned case and the stored one: cases are values here, so `DeleteDocumento` moving elements inside a shared array is not seen.
- Refund amounts, `UpdatePaymentCheckout` and the audit log: a refund always concerns the whole payment.
- A link between a completed payment and the state of its case: the code allows either without the other.
- The webhook's signature check and its early answers for other event types, which touch no store.
- `CreatePratica` is modelled as the handlers call it, with no operator and no notes preset.
- Concurrent refreshes of one token in the chains of `SessionChains.dfy`: there login, refresh, logout and revocation are single steps. `SessionRaces.dfy` takes refreshes apart, but follows live sessions only, not chains. The account handlers are single steps too.
- Milliseconds are modelled for tokens in MongoDB only: a case read back from MongoDB is taken to carry the times it was written with.
- The loop of `ListRefreshSessionsByUser`: only its purge is modelled, as a function.
- Users only ever grow, e-mail addresses are taken as already normalized, and passwords are only blank or not.
- Failures of the database connection, and the MongoDB versions of payments, sessions, IP lists and webhook marks, whose changes are single guarded updates, insertions or deletions.
- `scripts/`, which write documents behind the store's back.
