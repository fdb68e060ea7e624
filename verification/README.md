# Verified models of the resilience platform's stateful protocols

A Dafny 4.11 project that models the protocols the API server and the daemon are built on and proves what
they keep over whole runs. `dafny verify dfyconfig.toml` checks everything.

| component | modules |
|---|---|
| subscriptions, payments, entitlements and devices (SQL tables and route handlers) | `Subscriptions`, `SubscriptionRuns`, `SubscriptionGuarantees`, `SubscriptionLaws`, `EntitlementInsert`, `SubscriptionRoutes`, `StrandedSubscriptions`, `RenewalExample`, `RebuyExample` |
| the DNS write-ahead restore journal, with a crash possible at every primitive action | `ResolverText`, `DnsJournal` |
| the intent store: request fingerprints, optimistic concurrency, ownership scopes, idempotent creation | `CanonicalJson`, `Intents`, `IntentStore`, `IntentRoutes`, `IntentScopes`, `IntentExamples` |
| the incident centre in memory mode | `Incidents` |
| remote clients: enrollment, tokens, refresh rotation, revocation | `RemoteClients`, `RemoteClientLaws`, `RemoteClientRoutes` |
| the daemon's device sessions and path hysteresis | `DeviceSessions`, `ResolutionCycles`, `PathHysteresis` |
| host authorization, from environment and `/proc` text to adapters | `HostAuthorization`, `AdapterAuthorization` |
| shared definitions | `Prelude`, `Characters`, `Sorting` |

Objects the program mutates are classes (`SubscriptionApi`, `DnsRestoreJournal`, `InMemoryIntentStore`,
`NotificationIncidentCenter`, `RemoteClientApi`, `DeviceDaemon`). Each of their methods is proved to change its
object exactly as a step function says; the invariants and the results over runs are lemmas about those steps.
What each step answers and writes is stated a second time in terms of the records alone, by the lemmas named
`…Exactly`: these fix the outcome of every request independently of the step function.
A run is a sequence of steps of any length. Interleaving is modelled where the code allows it: commands on
intents are a read step and a later compare-and-set step, a subscription handler may stop after any of its
writes, and the daemon may crash inside a file write or a `resolvectl` call.

## Findings

Where the code does not do what its documentation says, the model follows the code.

- A paid renewal does not extend the right to connect. The guard at `apps/api/src/subscription-api.ts:167` rules
  out the status that line 203 tests, so the renewal branch is dead (`ActivationStartsNow`): the new period starts
  at verification, and because an active entitlement is never rewritten, the `connect` entitlement keeps the expiry
  of the first activation (`GrantNeverChanges`, `RenewalNeverExtendsConnect`, for every customer and every run).
  `PaidYetRefused` is a concrete run: a subscription paid up to day 50 is refused on day 30.
- The authorization check of connect takes the first row of an unordered join over all connect entitlements of the
  customer, whichever subscription they belong to (`apps/api/src/subscription-api.ts:494-508`). `ConnectExactly` states,
  for every customer, exactly when connect is accepted whatever row is answered and exactly when it is refused
  whatever row is answered; in between, the answer decides. `AnswerDecides` is a run at that point: after cancelling
  and buying again, a device on the active and unexpired second subscription is refused or accepted with the answer.
- A purchase or a renewal writes the subscription first and its payment second
  (`apps/api/src/subscription-api.ts:121-131`, `299-308`), not in one transaction. If it stops in between, the
  subscription waits for a payment that is not on file and no later request can change it, even if it was active and
  paid for (`StrandedForGood`); `StrandsExactly` states that this is the only way it happens.
- A revoked device does not stay revoked. A disconnect of its name and a cancellation of its subscription overwrite
  the status whatever it was (`apps/api/src/subscription-api.ts:345`, `566`). `RevivedExactly` states that these are
  the only two requests that do so, `RevokedUntilRevived` that over every run the device is gone until then, and
  `DisconnectUndoesRevocation` that afterwards a connect is accepted in just the cases in which it was before.
- The capture before a DNS change keeps only the servers its pattern accepts (`apps/daemon/src/dns-restore.ts:25`), so a
  server with a port, such as `[2606:4700::1111]:853`, is lost by the restore (`BracketedServerIsLost`,
  `PortedServerIsLost`). It also returns early for a record of any link (line 62), so a second link changed before a
  restore is lost (`SecondLinkIsLost`), and without a state directory nothing is restored (`NoPathNoRestore`).
  `ApplyExact` states exactly when a change can be undone, and `RecoveryRestores` that with one link changed between
  restores no crash or fault loses more than those rejected servers.
- A command drops the idempotency key of its row (`apps/api/src/intent-api.ts:635`), so a create request is replayed
  exactly until the first committed command (`ReplayUntilFirstCommand`; `ReplayEndsWithTheFirstCommand` is a run).
- Scopes are isolated for reads, but a create request reveals that an id is taken by another scope;
  `CreateInterference` states exactly when, and `OtherScopeShows` is a run.
- Disconnecting a device removes the first session on the source it settles on, which need not be its own session;
  `OwnSessionDroppedExactly` states exactly when it is, for every source list and every session map.
  `OtherSessionDropped` is a run in which another device's session goes, and `GoneSourceKeepsSession` one in which the
  source has left the list and the session stays.
- Resolution of a device name settles exactly when following it enters no cycle of sessions among names that match no
  source (`SettlesExactly`, `AllSettleExactly`, for every source list and every session map). With a fixed list no
  cycle arises (`FixedListSettles`); if the list changes between requests one can, as in the run `CycleNeverSettles`.

## Model

| member | source | states |
|---|---|---|
| `SubscriptionRuns.StepKeeps` | apps/api/src/subscription-api.ts:97-605 | any request, stopped after any of its writes, keeps the tables consistent: references and owners agree, every recorded period is paid for by a successful payment, at most one pending payment and only while payable, one entitlement per subscription and feature for an enabled feature and not outliving the subscription |
| `SubscriptionRuns.RunKeeps` | apps/api/src/subscription-api.ts:97-605 | the same for every run of requests, complete or stopped |
| `SubscriptionRuns.ActivateKeeps` | apps/api/src/subscription-api.ts:212-237 | marking a subscription active and its payment successful in one transaction keeps the invariant |
| `SubscriptionRuns.GrantKeeps` | apps/api/src/subscription-api.ts:239-258 | inserting entitlements for the missing features keeps the invariant |
| `SubscriptionRuns.ExpiryGrows` | apps/api/src/subscription-api.ts:198-210 | a new activation never records an earlier expiry than the one before |
| `SubscriptionRuns.MissingRowsFacts` | apps/api/src/subscription-api.ts:241-252 | the rows to insert are one for each enabled feature without an entitlement, all different, and none else |
| `SubscriptionGuarantees.ConnectIsPaid` | apps/api/src/subscription-api.ts:490-508 | in every reachable state a connect that passes authorization at t has a device of that user whose own subscription has a successful payment with paidAt <= t < paidAt + duration |
| `SubscriptionGuarantees.RunGrows` | apps/api/src/subscription-api.ts:198-258 | over every run expiry never moves backwards, entitlement rows never change and successful payments stay |
| `SubscriptionGuarantees.EverActive` | apps/api/src/subscription-api.ts:212-237 | also with stopped requests, a subscription that was ever active keeps a successful payment and has at most one pending |
| `SubscriptionGuarantees.PendingExactly` | apps/api/src/subscription-api.ts:97-347 | over complete requests a subscription has exactly one pending payment while registered or payment-pending and none otherwise |
| `SubscriptionGuarantees.TransactionCounts` | apps/api/src/subscription-api.ts:97-308 | over complete requests the payments of a subscription number one plus its renewals, the successful ones its activations |
| `SubscriptionGuarantees.OneEntitlementPerFeature` | apps/api/src/subscription-api.ts:239-258 | over complete requests a subscription has exactly one active entitlement per enabled feature once activated and none before, none expiring after the subscription |
| `SubscriptionGuarantees.ActivationStartsNow` | apps/api/src/subscription-api.ts:166-210 | in every reachable state a successful verification starts the period at the time of the call and never sets renewedAt |
| `SubscriptionGuarantees.ConnectExactly` | apps/api/src/subscription-api.ts:490-508 | for every customer: connect is accepted whatever row the join answers if and only if the device is on an active unexpired subscription and the customer has connect entitlements, all unexpired; it is refused whatever the answer if and only if the device is not or no connect entitlement is unexpired |
| `SubscriptionGuarantees.GrantNeverChanges` | apps/api/src/subscription-api.ts:239-258 | over every run an entitlement row stays unchanged and stays its subscription's only one for the feature |
| `SubscriptionGuarantees.AcceptedExactly` | apps/api/src/subscription-api.ts:157-180 | in every consistent state a verification is accepted if and only if the payment is the customer's own, pending, of the test provider and no payment carries its reference (the one given, or else the generated one), whatever the subscription's status; not found exactly for others' payments, a conflict exactly for decided ones |
| `SubscriptionGuarantees.VerifiedOnce` | apps/api/src/subscription-api.ts:166-237 | once a verification wrote anything, no later verification of that payment succeeds in any run |
| `SubscriptionGuarantees.RenewalNeverExtendsConnect` | apps/api/src/subscription-api.ts:239-258 | for every customer and every run: from the expiry of a connect entitlement on, whatever is paid or bought meanwhile, it is still its subscription's only one, the join may answer it, and that answer refuses the connect |
| `SubscriptionGuarantees.EnrollWithinLimit` | apps/api/src/subscription-api.ts:392-424 | an accepted enrollment adds exactly one device under a new name, within the plan's limit and for a live entitlement |
| `SubscriptionLaws.RevivedExactly` | apps/api/src/subscription-api.ts:329-347 | of all requests, wherever they stop, a revoked device loses that status if and only if its owner disconnects the name or a completed cancellation ends its subscription |
| `SubscriptionLaws.RevokedUntilRevived` | apps/api/src/subscription-api.ts:438-503 | over every run, complete or stopped, a revoked device stays as it is until such a request, and no connect or revocation of it is accepted, whatever is bought meanwhile |
| `SubscriptionLaws.DisconnectUndoesRevocation` | apps/api/src/subscription-api.ts:560-567 | after a revocation and a disconnect a connect is accepted in just the cases in which it was before |
| `SubscriptionLaws.RevokeExactly` | apps/api/src/subscription-api.ts:438-447 | a revocation is refused if and only if the customer has no unrevoked device of the name; it leaves every device of that customer and name revoked and changes nothing else |
| `SubscriptionLaws.RevokedIsGone` | apps/api/src/subscription-api.ts:438-503 | after it, a connect of that name and a second revocation find nothing |
| `SubscriptionLaws.ConnectAnswersExactly` | apps/api/src/subscription-api.ts:490-508 | not found exactly without an unrevoked device of the name; accepted exactly when that device is on an active unexpired subscription and the answered entitlement is the customer's, active and unexpired |
| `SubscriptionLaws.ConnectWritesExactly` | apps/api/src/subscription-api.ts:539-546 | an accepted connect marks every device of the name in use, whoever owns it, and changes nothing else |
| `SubscriptionLaws.DisconnectExactly` | apps/api/src/subscription-api.ts:560-567 | refused exactly without a device of that customer and name; makes all of them enrolled, revoked ones too |
| `SubscriptionLaws.PurchaseExactly` | apps/api/src/subscription-api.ts:97-131 | refused exactly for a plan not on offer or, as a conflict, when the newest open subscription is active; otherwise adds a registered subscription and its pending payment |
| `SubscriptionLaws.PurchaseWhileActive` | apps/api/src/subscription-api.ts:109-119 | an offered plan can be bought without an active subscription, and cannot with one and no other open one |
| `SubscriptionLaws.RenewExactly` | apps/api/src/subscription-api.ts:279-308 | refused exactly without an active subscription; otherwise the newest one waits for one new payment |
| `SubscriptionLaws.CancelExactly` | apps/api/src/subscription-api.ts:329-347 | refused exactly without an active subscription; cancels the newest one and suspends exactly the customer's devices on it |
| `SubscriptionLaws.VerifyWritesExactly` | apps/api/src/subscription-api.ts:182-237 | the payment is successful now under the reference given or one of its own, the subscription active from now for the days of its plan |
| `SubscriptionLaws.VerifyGrantsExactly` | apps/api/src/subscription-api.ts:239-258 | every new entitlement is for an enabled feature that had none, from now until the subscription ends |
| `SubscriptionLaws.EnrollExactly` | apps/api/src/subscription-api.ts:392-424 | forbidden exactly without a live entitlement to connect; otherwise accepted exactly below the limit and under a name nobody has; the two conflicts and the violated constraint told apart |
| `SubscriptionLaws.LimitExactly` | apps/api/src/subscription-api.ts:400-408 | the limit is that of the plan of an active subscription of the customer, and one without any |
| `StrandedSubscriptions.StrandedForGood` | apps/api/src/subscription-api.ts:152-347 | over every run, complete or stopped, a subscription that waits for a payment not on file never changes again and no device on it is ever authorized |
| `StrandedSubscriptions.StrandsExactly` | apps/api/src/subscription-api.ts:121-131 | a request leaves a subscription so if and only if it is its purchase or renewal and stops after its first write |
| `StrandedSubscriptions.StoppedRenewalStrands` | apps/api/src/subscription-api.ts:299-308 | a renewal stopped after its first write strands an active subscription |
| `RenewalExample.PaidYetRefused` | apps/api/src/subscription-api.ts:279-308 | a run in which a renewal is paid, the subscription is active and unexpired, and the device is refused |
| `RebuyExample.AnswerDecides` | apps/api/src/subscription-api.ts:490-508 | a run in which a customer cancels, buys and pays again, and connecting is refused or accepted with the row the join answers |
| `EntitlementInsert.BuildInsert` | apps/api/src/subscription-api.ts:243-252 | entIdx = 1 + number of values = 1 + 9 * number of rows, and every placeholder binds the value of its own row and column |
| `EntitlementInsert.ExecutedInserts` | apps/api/src/subscription-api.ts:253-258 | executing the built statement adds exactly the missing rows |
| `SubscriptionRoutes.SubscriptionApi.LatestSubscription` | apps/api/src/subscription-api.ts:109-112 | answers a matching subscription with the greatest creation time, or none when none matches |
| `SubscriptionRoutes.SubscriptionApi.Purchase` | apps/api/src/subscription-api.ts:97-131 | the tables become those of the purchase step, with its refusals |
| `SubscriptionRoutes.SubscriptionApi.ActivatePaid` | apps/api/src/subscription-api.ts:198-258 | activation and entitlements together are the writes of the verification step |
| `SubscriptionRoutes.SubscriptionApi.IssueEntitlements` | apps/api/src/subscription-api.ts:239-258 | builds and executes the insert for the missing features, or writes nothing |
| `SubscriptionRoutes.SubscriptionApi.VerifyPayment` | apps/api/src/subscription-api.ts:152-258 | the tables become those of the verification step |
| `SubscriptionRoutes.SubscriptionApi.Renew` | apps/api/src/subscription-api.ts:279-308 | the tables become those of the renewal step |
| `SubscriptionRoutes.SubscriptionApi.Cancel` | apps/api/src/subscription-api.ts:329-347 | the tables become those of the cancellation step |
| `SubscriptionRoutes.SubscriptionApi.Enroll` | apps/api/src/subscription-api.ts:392-424 | the tables become those of the enrollment step, with entitlement, limit and uniqueness refusals |
| `SubscriptionRoutes.SubscriptionApi.RevokeDevice` | apps/api/src/subscription-api.ts:438-447 | accepted if and only if the customer has an unrevoked device of the name; then every device of that customer and name is revoked and no other device changes |
| `SubscriptionRoutes.SubscriptionApi.Connect` | apps/api/src/subscription-api.ts:490-546 | the tables become those of the connect step, which is refused unless the device is authorized |
| `SubscriptionRoutes.SubscriptionApi.Disconnect` | apps/api/src/subscription-api.ts:560-567 | the tables become those of the disconnect step |
| `SubscriptionRoutes.SubscriptionApi.ServeRoute` | apps/api/src/subscription-api.ts:97-605 | any route on consistent tables takes the step for legal query answers, keeps the tables consistent, and an accepted connect is paid for |
| `ResolverText.IsResolverExact` | apps/daemon/src/dns-restore.ts:25 | the scan accepts exactly the tokens the pattern describes, zone and name suffixes included |
| `ResolverText.ParsePrint` | apps/daemon/src/dns-restore.ts:20-26 | parsing a printed link line returns the accepted tokens, hence the list itself exactly when the pattern accepts every token |
| `DnsJournal.CaptureIsExact` | apps/daemon/src/dns-restore.ts:61-65 | with no record on file, what is captured of a link is exactly what the pattern accepts of its original list, and the list itself when it accepts all of it |
| `DnsJournal.StepSafe` | apps/daemon/src/index.ts:581-599 | every primitive action, failure or crash keeps the host recoverable: a restore would leave links never to be changed as they were, and the others with their original list or its accepted part |
| `DnsJournal.RunSafe` | apps/daemon/src/index.ts:950-978 | the same for every run in which one link is changed per episode; `RecoveryRestores` and `ShutdownRestores` draw the consequences |
| `DnsJournal.ChangedLinkIsJournaled` | apps/daemon/src/dns-restore.ts:46-65 | in every reachable state a link that differs from its original was to be changed and has a complete journal holding exactly the accepted part of the original, or is back at that part; if the pattern accepts the original, the journal holds exactly it, whatever other links hold |
| `DnsJournal.RecoveryRestores` | apps/daemon/src/index.ts:673-688 | from every reachable stopped state a restart that runs through leaves no record, untouched links as they were and changed ones with their original list or its accepted part; exactly the originals when the pattern accepts the lists of the links that were to be changed |
| `DnsJournal.ShutdownRestores` | apps/daemon/src/index.ts:950-978 | from every reachable idle state a shutdown that runs through ends the daemon with no record, untouched links as they were and changed ones with their original list or its accepted part; exactly the originals under the same condition |
| `DnsJournal.RestoreEnds` | apps/daemon/src/index.ts:950-964 | whatever fails in it, the restore of a start leaves the daemon running and that of a shutdown leaves it down; the record is gone or as it was, and only its link may have changed, to what it holds |
| `DnsJournal.ApplyRuns` | apps/daemon/src/index.ts:590-597 | a change that runs through leaves the daemon idle with exactly that link changed, and a record on file, the one from before if there was one |
| `DnsJournal.BeginsAndFailsExactly` | apps/daemon/src/index.ts:581-599 | a change is taken up only while idle and for some servers, a shutdown only while idle, a start only while down; where a failure leads |
| `DnsJournal.FaultsExactly` | apps/daemon/src/dns-restore.ts:46-58 | which hosts a failure or a crash can leave at each primitive action |
| `DnsJournal.UnknownLinkKeepsRecord` | apps/daemon/src/dns-restore.ts:73-80 | a restore of a link the host no longer has changes nothing and keeps the record |
| `DnsJournal.CompletedRestore` | apps/daemon/src/dns-restore.ts:73-80 | any restore that reaches its end leaves what is kept of the original lists and no journal |
| `DnsJournal.ApplyExact` | apps/daemon/src/dns-restore.ts:61-65 | a change can still be undone completely if and only if: without a path, it changes nothing; with a record on file, the record is of that link or nothing changes; with no record, the pattern accepts every server of the link |
| `DnsJournal.CapturedAndRestored` | apps/daemon/src/dns-restore.ts:61-80 | a change and its restore leave exactly the accepted part of the list, which is the list if and only if the pattern accepts all of it |
| `DnsJournal.BracketedServerIsLost` | apps/daemon/src/dns-restore.ts:25 | a server written in brackets is not in the list after a change and its restore, and no record is left |
| `DnsJournal.PortedServerIsLost` | apps/daemon/src/dns-restore.ts:25 | the same at a concrete host, for an IPv6 server with a port |
| `DnsJournal.SecondLinkIsLost` | apps/daemon/src/dns-restore.ts:62 | a second link changed in one episode is never put back |
| `DnsJournal.NoPathNoRestore` | apps/daemon/src/dns-restore.ts:35-47 | without a journal path a change is never undone |
| `DnsJournal.DnsRestoreJournal.Read` | apps/daemon/src/dns-restore.ts:34-44 | returns the record exactly when the journal holds a complete one |
| `DnsJournal.DnsRestoreJournal.WriteRecord` | apps/daemon/src/dns-restore.ts:46-58 | without a path writes nothing; otherwise leaves the record in the journal and no temporary file, through the three primitive actions of the state machine |
| `DnsJournal.DnsRestoreJournal.CaptureBeforeChange` | apps/daemon/src/dns-restore.ts:61-65 | is a run of the state machine and keeps a record that is already there |
| `DnsJournal.DnsRestoreJournal.ApplyDnsProvider` | apps/daemon/src/index.ts:590-597 | is a run of the state machine that changes its own link only |
| `DnsJournal.DnsRestoreJournal.Restore` | apps/daemon/src/dns-restore.ts:73-80 | for a start and for a shutdown, is a run of the state machine to its end; a failure keeps the journal, a success clears it |
| `CanonicalJson.ReorderMeaning` | apps/api/src/intent-api.ts:147-158 | rewriting an object in sorted or in own-key order keeps its unordered meaning at every depth |
| `CanonicalJson.MeaningFixesCanonical` | apps/api/src/intent-api.ts:147-158 | values of one unordered meaning have one canonical form |
| `CanonicalJson.CanonicalizeIdempotent` | apps/api/src/intent-api.ts:147-158 | canonicalizing twice is canonicalizing once |
| `CanonicalJson.CanonicalKeysSorted` | apps/api/src/intent-api.ts:147-158 | the names of a canonical object are those of the object, in code-unit order |
| `CanonicalJson.EscapeReadable` | apps/api/src/intent-api.ts:160-163 | escaped string bodies that continue alike up to the quote are equal, lone surrogates included |
| `CanonicalJson.ShowReadable` | apps/api/src/intent-api.ts:160-163 | a printed value can be read back from any text it starts: equal texts have equal values and equal rests |
| `CanonicalJson.FingerprintCharacterization` | apps/api/src/intent-api.ts:147-163 | two requests have equal fingerprint texts if and only if they are equal up to member order at every depth |
| `Intents.TransitionExactly` | packages/core/src/intent.ts:71-129 | a transition yields an intent if and only if the written-out table of statuses and commands does: one version more, the new time, the status of the command, `supersedes` set exactly by a supersede whose id is not blank, everything else kept |
| `Intents.CreateExactly` | packages/core/src/intent.ts:71-104 | refused exactly for a blank id or an empty period; otherwise a draft at version 1 with the fields asked for |
| `Intents.TransitionFacts` | packages/core/src/intent.ts:71-129 | in short: a transition keeps the id, adds one to the version, never leads to draft and activates drafts only; the whole table is `TransitionExactly` |
| `IntentStore.NewestAnswers` | apps/api/src/intent-api.ts:216-227 | the list is newest first, and a row is left out only for rows at least as new |
| `IntentStore.ListExactly` | apps/api/src/intent-api.ts:216-227 | at most `limit` intents, each once, last changed first, all of the scope and status asked for; one of those is missing only if the list is full and everything listed changed at least as late |
| `IntentStore.PutExactly` | apps/api/src/intent-api.ts:229-248 | which of the three conflicts answers a put, in terms of the row that holds the id |
| `IntentStore.PutShape` | apps/api/src/intent-api.ts:229-257 | a successful put appends a row, or replaces the row of the same id and scope at the expected version |
| `IntentStore.InMemoryIntentStore.PutIntent` | apps/api/src/intent-api.ts:229-257 | the rows become those of the put, or stay with the matching error |
| `IntentStore.InMemoryIntentStore.FindByIdempotency` | apps/api/src/intent-api.ts:259-267 | finds the first row of the scope with the key |
| `IntentRoutes.ServeCreate` | apps/api/src/intent-api.ts:546-609 | answers and stores as the create step says |
| `IntentRoutes.ServeWrite` | apps/api/src/intent-api.ts:626-644 | commits as the compare-and-set step says; what it commits is what the table makes of the intent read under the command, and the row stored holds it |
| `IntentRoutes.CommandExactly` | apps/api/src/intent-api.ts:626-644 | a command the table allows on an intent that is still the stored one replaces its row by exactly what the table says, without key and fingerprint |
| `IntentRoutes.CommandRefused` | apps/api/src/intent-api.ts:626-644 | any other command changes nothing |
| `IntentRoutes.LifeOfAnIntent` | apps/api/src/intent-api.ts:626-644 | in every interleaving an intent is a draft, then perhaps active, then perhaps in one final status, and nothing after; at most two commands are committed on it |
| `IntentRoutes.CreateAnswersExactly` | apps/api/src/intent-api.ts:546-609 | replay, reuse of the key, a blank id or an empty period, conflict or creation, decided from the rows; a creation appends the draft asked for and nothing else changes a row |
| `IntentRoutes.GetExactly` | apps/api/src/intent-api.ts:210-214 | a read answers exactly the intent of the id in the scope |
| `IntentRoutes.FindByKeyExactly` | apps/api/src/intent-api.ts:259-267 | in every reachable state the key lookup answers exactly the one row of the scope with the key |
| `IntentRoutes.RunKeepsInvariant` | apps/api/src/intent-api.ts:546-644 | in every interleaving of create requests, reads and writes each intent's states form one transition chain, rows hold the last state, and keys stay unique per scope |
| `IntentRoutes.VersionsCount` | apps/api/src/intent-api.ts:626-644 | the n-th stored state of an intent has version n |
| `IntentRoutes.VersionsIncrease` | apps/api/src/intent-api.ts:626-644 | later writes of an intent have greater versions |
| `IntentRoutes.AtMostOneCommitPerVersionRead` | apps/api/src/intent-api.ts:626-644 | of all handlers that read one version, at most one commits |
| `IntentRoutes.ActivatedAtMostOnce` | apps/api/src/intent-api.ts:634-636 | an intent is activated at most once in a run |
| `IntentRoutes.RunKeyInjective` | apps/api/src/index.ts:957-962 | equal run keys have equal id and version, whatever the id contains |
| `IntentRoutes.RunKeysNeverReused` | apps/api/src/index.ts:957-962 | no two activation callbacks of a run present the same key |
| `IntentScopes.ScopeKeyInjective` | apps/api/src/intent-api.ts:142-145 | equal scope keys are the same organization or the same unaffiliated principal |
| `IntentScopes.ReadsSeeOnlyTheView` | apps/api/src/intent-api.ts:210-227 | get, list (order included) and the key lookup depend on the rows of the scope only |
| `IntentScopes.NonInterference` | apps/api/src/intent-api.ts:210-267 | runs of other scopes change nothing a scope can read |
| `IntentScopes.ScopeNeverChanges` | apps/api/src/intent-api.ts:238-256 | a row never changes its id or scope |
| `IntentScopes.CreateInterference` | apps/api/src/intent-api.ts:238-248 | a create request is answered as if the scope were alone if and only if it is a replay, is invalid, or no other scope holds the id |
| `IntentExamples.OtherScopeShows` | apps/api/src/intent-api.ts:238-242 | a run after which a scope with no rows is refused an id another scope holds |
| `IntentScopes.VersionOneExactly` | apps/api/src/intent-api.ts:626-644 | a stored intent has version 1 if and only if no command was committed on it |
| `IntentScopes.ReplayUntilFirstCommand` | apps/api/src/intent-api.ts:552-565 | in every run a repeated create request is answered with the stored intent if and only if no command was committed on it, and then changes nothing; another fingerprint is then refused, also without change |
| `IntentExamples.ReplayEndsWithTheFirstCommand` | apps/api/src/intent-api.ts:552-565 | a run in which the repeated request is replayed before an activation and a conflict after it |
| `Incidents.FingerprintCharacterization` | apps/api/src/notifications.ts:70-79 | two reports share an incident if and only if classification, cause and bag of components agree |
| `Incidents.JoinIsMonotone` | apps/api/src/notifications.ts:142-153 | joining severities is the severity of the greater confidence |
| `Incidents.NotificationIncidentCenter.OpenIncident` | apps/api/src/notifications.ts:131-192 | the tables become those of the open step and stay faithful to all calls made; the returned incident is unresolved, agrees with everything reported for it and has the severity of `SeverityMatches` |
| `Incidents.NotificationIncidentCenter.Acknowledge` | apps/api/src/notifications.ts:194-207 | the tables become those of the acknowledge step and stay faithful to all calls made |
| `Incidents.NotificationIncidentCenter.Resolve` | apps/api/src/notifications.ts:209-222 | the tables become those of the resolve step and stay faithful to all calls made |
| `Incidents.NotificationIncidentCenter.Emit` | apps/api/src/notifications.ts:335-350 | appends one notification with the incident's severity |
| `Incidents.NotificationIncidentCenter.MarkRead` | apps/api/src/notifications.ts:295-302 | keeps the incidents, the order and all other contents; at most the read time of a notification with this id changes, only from unread; answers a read notification of this id, or none exactly when there is none |
| `Incidents.RunKeepsInvariant` | apps/api/src/notifications.ts:131-222 | every sequence of calls keeps fingerprints unique and every incident faithful to the reports made |
| `Incidents.ReachableIncidents` | apps/api/src/notifications.ts:62-192 | severity is critical exactly for security failures and policy violations, and for information exactly for other unnamed kinds never reported with confidence 0.9; confidence is the greatest reported, occurrences count the reports, contents are the latest report's, times agree with status, opened and resolved notifications alternate and differ by one unless resolved |
| `Incidents.OpenExactly` | apps/api/src/notifications.ts:131-192 | a report of a known failure reopens its incident exactly if it was resolved, and a report of an unknown one opens one incident; in either case one notice, and no other incident changes |
| `Incidents.AcknowledgeExactly` | apps/api/src/notifications.ts:194-207 | changes exactly an unresolved incident with the id, and announces it |
| `Incidents.ResolveExactly` | apps/api/src/notifications.ts:209-222 | changes exactly an unresolved incident with the id, and announces its recovery |
| `Incidents.LatestExactly` | apps/api/src/notifications.ts:142-153 | the report an incident shows is the one after which none of its failure came |
| `Incidents.EarliestExactly` | apps/api/src/notifications.ts:155-175 | the time an incident was first seen is that of the report before which none of its failure came |
| `RemoteClients.StepKeeps` | apps/api/src/remote-client-api.ts:186-462 | every call keeps devices and credentials paired, approvals injective, refresh tokens of revoked devices revoked and tokens within scope and time |
| `RemoteClients.RunKeeps` | apps/api/src/remote-client-api.ts:186-462 | the same for every run |
| `RemoteClients.DecidedOnce` | apps/api/src/remote-client-api.ts:262-333 | a request is decided at most once and its decision and credential never change |
| `RemoteClients.ApprovalsDistinct` | apps/api/src/remote-client-api.ts:267-290 | approved requests hold credentials of enrolled devices, distinct for distinct requests |
| `RemoteClients.DeviceCount` | apps/api/src/remote-client-api.ts:186-312 | devices number the accepted enrollments plus the approvals |
| `RemoteClients.RevocationIsFinal` | apps/api/src/remote-client-api.ts:340-462 | after a known credential is revoked no continuation issues it a token, and those it has expire within 900 s |
| `RemoteClients.RefreshUsedOnce` | packages/auth/src/client-security.ts:208-234 | a refresh token is exchanged at most once |
| `RemoteClients.TokensBounded` | apps/api/src/remote-client-api.ts:176-184 | every access token expires 900 s after issue and carries only scopes its device was enrolled with |
| `RemoteClientLaws.LoginByHistory` | apps/api/src/remote-client-api.ts:340-384 | over every run a secret logs in if and only if the enrollment or approval that created the credential handed it out, the lifetime granted then has not run out, and no administrator revoked the credential since |
| `RemoteClientLaws.CredentialHistory` | packages/auth/src/client-security.ts:89-140 | a credential is on file exactly when a call of the run created it, with the secret, the expiry and the revocation its history gives it |
| `RemoteClientLaws.LoginExactly` | apps/api/src/remote-client-api.ts:340-384 | accepted exactly for a known, unrevoked, unexpired credential, its own secret and a known, unrevoked device; the two tokens issued and nothing else changed |
| `RemoteClientLaws.RefreshExactly` | apps/api/src/remote-client-api.ts:386-428 | accepted exactly for a known, unused, unrevoked, unexpired token of a live device; what the exchange stores, also for a device that is gone |
| `RemoteClientLaws.LogoutExactly` | apps/api/src/remote-client-api.ts:430-442 | accepted exactly for an unspent token, which is used up and its replacement revoked |
| `RemoteClientLaws.DeniedDoesNothing` | apps/api/src/remote-client-api.ts:186-462 | a route behind the bearer check does nothing when it fails |
| `RemoteClientLaws.EnrollExactly` | apps/api/src/remote-client-api.ts:186-224 | which inputs are accepted, and the credential, secret, lifetime and scopes they give |
| `RemoteClientLaws.DeviceNameExactly` | packages/auth/src/client-security.ts:89-96 | the device is called as given without surrounding white space, or gets a fresh name exactly if that is blank |
| `RemoteClientLaws.RequestExactly` | apps/api/src/remote-client-api.ts:232-252 | stores a pending request under a fresh id exactly if allowed |
| `RemoteClientLaws.ApproveExactly` | apps/api/src/remote-client-api.ts:262-312 | accepted exactly for a pending request; adds a credential for 90 days with all five scopes and records it in the request |
| `RemoteClientLaws.RejectExactly` | apps/api/src/remote-client-api.ts:314-333 | accepted exactly for a pending request, which it decides and nothing else |
| `RemoteClientLaws.RevokeExactly` | apps/api/src/remote-client-api.ts:444-462 | the credential, the device and every refresh token of the credential are revoked, earlier revocation times of credential and tokens are kept, nothing else changes |
| `RemoteClientRoutes.RemoteClientApi.IssueCredential` | packages/auth/src/client-security.ts:89-114 | stores a fresh credential and its device record, under the trimmed given device name or a fresh one |
| `RemoteClientRoutes.RemoteClientApi.EnrollDevice` | apps/api/src/remote-client-api.ts:186-224 | the state becomes that of the enroll step |
| `RemoteClientRoutes.RemoteClientApi.RequestDevice` | apps/api/src/remote-client-api.ts:232-252 | the state becomes that of the request step |
| `RemoteClientRoutes.RemoteClientApi.ApproveRequest` | apps/api/src/remote-client-api.ts:262-312 | the state becomes that of the approve step |
| `RemoteClientRoutes.RemoteClientApi.RejectRequest` | apps/api/src/remote-client-api.ts:314-333 | the state becomes that of the reject step |
| `RemoteClientRoutes.RemoteClientApi.TokenForSecret` | apps/api/src/remote-client-api.ts:340-384 | returns a token if and only if the secret is that of a known, unrevoked, unexpired credential of a live device; the token carries the device's scopes for 900 s |
| `RemoteClientRoutes.RemoteClientApi.Rotate` | packages/auth/src/client-security.ts:208-234 | uses up a live token and stores its replacement, or changes nothing |
| `RemoteClientRoutes.RemoteClientApi.RefreshAccess` | apps/api/src/remote-client-api.ts:386-428 | returns a token if and only if the refresh token is unspent and its device live; the token carries the scopes of the refresh token for 900 s |
| `RemoteClientRoutes.RemoteClientApi.LogoutSession` | apps/api/src/remote-client-api.ts:430-442 | logs out if and only if the refresh token is unspent |
| `RemoteClientRoutes.RemoteClientApi.RevokeSubject` | packages/auth/src/client-security.ts:243-252 | revokes exactly the subject's unrevoked refresh tokens and counts them |
| `RemoteClientRoutes.RemoteClientApi.RevokeDevice` | apps/api/src/remote-client-api.ts:444-462 | the state becomes that of the revoke step, and the answer says whether there was anything to revoke |
| `RemoteClientRoutes.RemoteClientApi.Serve` | apps/api/src/remote-client-api.ts:186-462 | any route keeps the state consistent, issues at most one token, in order and to a live device, and leaves a revoked device revoked |
| `DeviceSessions.Hop` | apps/daemon/src/index.ts:607-616 | following a name leads to a listed source that is earlier in the list or a fixpoint, with the same target |
| `DeviceSessions.ResolveExactly` | apps/daemon/src/index.ts:607-616 | a name leads to the first source it is the id or source id of, and otherwise to the source of its own first session |
| `DeviceSessions.ConnectMaps` | apps/daemon/src/index.ts:756-764 | connecting an unknown device maps it to the first source; a known device and every other device keep their sessions |
| `DeviceSessions.FollowSettles` | apps/daemon/src/index.ts:752-776 | following a known name reaches its target within a bounded number of hops |
| `DeviceSessions.RunValid` | apps/daemon/src/index.ts:752-858 | over every run with a fixed source list, sessions lead to listed sources and every known name has a target |
| `DeviceSessions.DisconnectCounts` | apps/daemon/src/index.ts:854-858 | a disconnect lowers the sessions of its source by exactly one when positive and no other source's |
| `DeviceSessions.OtherSessionDropped` | apps/daemon/src/index.ts:854-858 | a run in which disconnecting the second device removes the first one's session |
| `ResolutionCycles.SettlesExactly` | apps/daemon/src/index.ts:607-616 | for every source list and every session map a name settles if and only if following it enters no cycle of two or more names that match no source, each with a session leading to the next |
| `ResolutionCycles.AllSettleExactly` | apps/daemon/src/index.ts:607-616 | all names settle if and only if the sessions hold no such cycle |
| `ResolutionCycles.FixedListSettles` | apps/daemon/src/index.ts:607-616 | after every run of requests with a fixed source list all names settle |
| `ResolutionCycles.CycleNeverSettles` | apps/daemon/src/index.ts:752-770 | a run with a changing source list whose sessions form such a cycle, so that resolution never settles |
| `ResolutionCycles.DisconnectAgrees` | apps/daemon/src/index.ts:827-858 | for sessions made under the present list, following names to a fixpoint and the daemon's disconnect remove the same session |
| `ResolutionCycles.OwnSessionDroppedExactly` | apps/daemon/src/index.ts:827-858 | for every source list and session map a disconnect removes the device's own session if and only if the device settles on that session's source and no earlier session shares it |
| `ResolutionCycles.GoneSourceKeepsSession` | apps/daemon/src/index.ts:832-833 | a run after which the source has left the list and a disconnect keeps the session |
| `DeviceSessions.DeviceDaemon.ConnectDevice` | apps/daemon/src/index.ts:752-824 | terminates, maps an unknown device to the first source, and activates only the listed source the device settles on, undoing it when verification fails |
| `DeviceSessions.DeviceDaemon.DisconnectDevice` | apps/daemon/src/index.ts:827-871 | terminates, deactivates only that source and removes its first session |
| `PathHysteresis.SwitchGains` | apps/daemon/src/index.ts:546-548 | a recommended switch gains at least the hysteresis |
| `PathHysteresis.RecommendExactly` | apps/daemon/src/index.ts:511-548 | a switch is recommended if and only if the selected path is not the current one and scores at least the hysteresis more than it, a current path without a score counting as zero |
| `PathHysteresis.EngineExactly` | packages/routing/src/index.ts:660-691 | an eligible current path is selected if and only if no other is ahead by the hysteresis, or routes flap and it has not failed; any other selection has the greatest score |
| `PathHysteresis.SwitchesBounded` | apps/daemon/src/index.ts:511-548 | followed switches never revisit a path and number at most 100 / hysteresis, whatever is selected and whether or not the first path is scored |
| `Characters.TrimCharacterization` | apps/daemon/src/daemon-config.ts:33 | trimming yields a text if and only if the text has no white space at its ends and the input is that text padded with white space |
| `HostAuthorization.LiveNeedsBothOptIns` | apps/daemon/src/daemon-config.ts:32-41 | live mode is resolved if and only if both opt-ins are set |
| `HostAuthorization.ModeExactly` | apps/daemon/src/daemon-config.ts:32-41 | safe exactly by name or by default, simulation exactly by name, in any case and padding; which of the two errors answers anything else |
| `HostAuthorization.CapAtCharacterization` | apps/daemon/src/host-authorization.ts:49-52 | the scan finds the digits of a line the pattern matches, and only those |
| `HostAuthorization.CapFromFirst` | apps/daemon/src/host-authorization.ts:49-52 | the first matching line is taken, and none only when no line matches |
| `HostAuthorization.NetAdminDigit` | apps/daemon/src/host-authorization.ts:90-91 | for hexadecimal text of any length, bit 12 is set if and only if the fourth digit from the right is odd |
| `AdapterAuthorization.AuthorizeHost` | apps/daemon/src/host-authorization.ts:88-139 | the granted capabilities, allowed actions and blockers, and live only with route.write |
| `AdapterAuthorization.Authorize` | apps/daemon/src/host-authorization.ts:158-177 | the pipeline from environment to adapters agrees with its specification for every adapter |
| `AdapterAuthorization.LiveExactlyWhen` | apps/daemon/src/host-authorization.ts:88-177 | an adapter that declares live support is live-authorized if and only if both opt-ins are set, the platform is Linux, the capability digit is odd, `ip` exists and every privileged capability is granted |
| `AdapterAuthorization.ClassifiedExactly` | apps/daemon/src/host-authorization.ts:158-177 | safe-only exactly without declared live support, host-blocked exactly when live support is declared but the adapter is not live |
| `AdapterAuthorization.ActionsExactly` | apps/daemon/src/host-authorization.ts:86-121 | the allowed actions and granted capabilities, from the mode and the host text alone |
| `AdapterAuthorization.BlockersExactly` | apps/daemon/src/host-authorization.ts:106-127 | each blocker of a live request, from the host text alone |
| `AdapterAuthorization.GrantsAreMonotone` | apps/daemon/src/host-authorization.ts:103-127 | better host facts never take away a capability or a live authorization |
| `AdapterAuthorization.NoBlockersExactlyWhen` | apps/daemon/src/host-authorization.ts:103-127 | a live request has no blockers if and only if dns.write is granted, and has one whenever routing is refused |
| `PathHysteresis.OneSwitchSettles` | packages/routing/src/index.ts:660-691 | a remark: with the engine's own selection, whatever candidates are eligible and whether or not routes flap, a switch goes to a best eligible candidate and the evaluation after it remains |

## Left out

- Subscriptions: races between handlers (the code has no locks), the audit and `ConnectionState` tables, the daemon call
  inside connect, amounts, labels and metadata. All time stamps of one request are one instant; plans do not change
  and time does not run backwards. The handler writes an `updatedAt` column that the payment table's migration lacks;
  the model follows the handler. A provider other than the test provider cannot be verified, as in the code.
- Subscriptions: the listing routes and the administrator views, which read the tables without changing them.
- DNS journal: a loss of power that undoes completed file operations, and a shutdown whose drain times out while an
  apply is still running; restore and apply do not overlap in the model.
- DNS journal: link names hold no colon or line break, as the kernel ensures, and the words of a printed list no white
  space; `resolvectl` prints one line for a link.
- DNS journal: how the record is encoded as JSON text; a file is complete or unreadable.
- Intents: the database store and its conflict buffer, arbitration endpoints, validation of the fields other than id
  and period, and races between two create requests, which are served one at a time. Numbers in fingerprinted requests
  are their printed decimal texts.
- Intents: `list` orders by time stamps, taken as integers; the code compares their ISO texts.
- Incidents: the SQL branch, list functions with limits and the message text of notifications; confidence is a real.
- Hashes and digests are taken as injective, identifiers and secrets as fresh; a secret is identified with the record
  it was issued for, so the digest search of `rotate` is a lookup.
- Remote clients: platform, label and audit fields, and what the bearer-token check itself decides.
- Device sessions: the provider lookup and the effects of activation are outcomes passed in; an empty source id cannot
  occur because source ids carry a provider prefix.
- Path hysteresis: scores are reals and candidate ids are distinct; how flapping is detected and the explanatory fields
  (failure domains, confidence, risk) are not modelled.
- Host authorization: lower-casing outside ASCII, which cannot produce any of the three mode names; evidence fields
  and the wording of blockers.
- Plugins, probes, dashboards, clients, the command line and the HTTP layer: shallow or without state of their own.
