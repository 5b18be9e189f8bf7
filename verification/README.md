# Rosmon: a verified model of its state machines, jobs and codecs

Rosmon manages MikroTik routers for an internet provider. This Dafny project models the parts of
it that carry real logic and proves what they promise. `dafny verify dfyconfig.toml` checks the
whole project.

Code that updates state in place is modelled as a class with the same fields and the same
branches, and each method is proved against a function of the old state. The properties of the
system are lemmas about those functions: over every run, every interleaving, every failure of a
command, every input.

## What is modelled

**Inactive stream** (`InactiveView.dfy`, `InactiveStream.dfy`). Two event streams, configured
accounts and live sessions, update id and name maps and reference counts; each step diffs a new
"enabled and offline" view against the old one. The PPP and hotspot machines of the source are
copies of each other that differ in the account record and in whether an address is tracked, so
one generic machine covers both; the class is instantiated by what an event displays. For every
well-formed feed the view equals the one computed from scratch out of the router's tables, and a
listener that replays its events knows exactly that view, each name with the address in the latest
session row that carried one. That replay rebuilds the view, and that each name's events form
(added changed\* removed)\*, needs no assumption on the feed. Rows without an id, which the
handlers accept, have lemmas of their own.

A feed is well formed when every row carries its id; a live account never takes the name of
another one; and a dead row names nobody, or what is recorded for its id, or (for an id never
seen) a name nobody uses. Live rows without a name are allowed and ignored, as in the code.

**Rate limiter** (`RateLimit.dfy`). Token buckets per key with idle eviction, on an exact token
bucket over `real` and a nanosecond clock. Eviction can never be observed if and only if the
refill over ttl + 1 ns is at least the burst. The one nanosecond is there because `evict` uses a
strict comparison. The server's wiring satisfies the condition for every RPM.

**Billing enforcement** (`Calendar.dfy`, `Subscriptions.dfy`, `Invoices.dfy`, `Routers.dfy`,
`Suspension.dfy`, `Payments.dfy`, `Outbox.dfy`, `Enforcement.dfy`, `BillingCron.dfy`). The
suspension check, the settling of payments, the outbox with its retries and batches of 20, the
router accounts it changes, the billing job and the aging report. Each router command may succeed,
be refused, or be obeyed with the reply lost, and each attempt may find other devices connected,
other profiles and another isolir setting than the one before it. The outbox drains within n/4 + 5
ticks whatever happens; a row whose device stays connected is given up after its retries or ends
with its account as the queued change wants it; a late invoice reaches the router that way and
nothing else is touched; a payment brings the account back to the profile of its plan. Check runs
compose over time, each with the limits it reads. Billing hits one invoice per calendar month, each
at the price and with the billing day its run found; profiles, prices, the default billing day and
the row itself may be edited between runs.

**Server-sent events** (`Broker.dfy`, `Hub.dfy`). The broker's starts and stops, snapshots, sends
and receives and the hub's reservations, as interleaved steps of any number of publishers,
clients, requests, and the keep-alive subscribers that `service/netstream/netstream.go` attaches
to a broker of the hub without a reservation.

**Codecs** (`Framing.dfy`, `Duration.dfy` with `MixedRadix.dfy` and `Decimal.dfy`,
`ScriptEscape.dfy`, `Rupiah.dfy` with `Int64.dfy`). RouterOS length-prefixed framing, RouterOS
durations, script escaping, grouping of thousands.

**Voucher sales** (`HookLogin.dfy`). The login webhook and its deduplication window, which reads
the validity with the duration parser above.

`Arithmetic.dfy`, `Sequences.dfy` and `Wrappers.dfy` are small shared libraries.

## Where code and documentation differ

The model follows the code. Each point below is a lemma.

- The code comment at `job/outbox.go:120` says that a row whose device is offline is retried on the
  next tick, and the repository's `README.md:45` promises consistency with the router. `applySync`
  returns nil there, so `Run` books the row as synced and takes it out of the queue
  (`OfflineChangeIsLost`), and the outbox never tries it again, even when the device comes back
  (`OfflineChangeStaysLost`). This holds for every queued operation, re-enabling after a payment
  included: an attempt booked as synced made its change exactly when the device was connected and
  the service known (`SyncedMeansSettled`).
- The billing job compares dates for equality, so a day on which it did not run is never made up
  for (`MissedDayStopsBilling`). A first date on day 29 to 31 skips a month exactly when the next
  month lacks that day (`MonthSkippedIffDayMissing`). An invoice that already exists for the period
  leaves the date where it is for good (`ExistingInvoiceStopsBilling`), and so does a price that
  cannot be found on the due day, even if later runs find it (`FailedLookupStopsBilling`).
  `BillsIffNew` says exactly when billing gets past a date.
- The comment at `job/outbox.go:25` calls a tick idempotent and safe to run again. A create is not:
  one whose account exists already ends in error (`CreateOfExistingEndsInError`), so a create that
  the router obeyed but whose reply was lost is booked as error although its account is as wanted
  (`LostCreateReplyEndsInError`).
- One column holds the queued change, so a later change overwrites an earlier one. A suspended
  customer who pays and is throttled for another invoice before the next tick, and then pays that
  one too, ends active and synced with the account still disabled (`OverwrittenEnableStaysLocked`).
  `PaymentReachesRouter` says exactly what a payment does to the lock: it is lifted where the row was
  suspended and stays as it was where the row was throttled.
- Settling a payment restores the customer whatever else is owed; the next check takes it back
  exactly when another invoice is late enough (`CheckAfterPayment`).
- The caps of the hub bound reservations. A keep-alive subscriber needs none
  (`KeeperNeedsNoReservation`), so a topic may have that many more subscribers than reservations.
- `DecodeSentence` documents `ErrEndOfSentence` for an empty sentence and `io.EOF` for a connection
  closed in the middle. It returns no words and no error for the first (`EmptySentence`), and
  `io.ErrUnexpectedEOF` for most cuts of the second; `SentenceCut` says which error each cut gives.
- `EncodeWord` writes lengths modulo 2^32 and an empty word ends a sentence, so words and sentences
  round-trip exactly under the conditions of `WordRoundTrip` and `StreamRoundTrip`.
- `FormatDuration` writes negative durations in a form `ParseDuration` rejects (`FormattedIsParsed`),
  so `NormalizeDuration` is idempotent exactly on values of zero or more (`NormalizeTwice`). Only a
  bare number with a minus sign has a negative value (`NegativeIsSigned`), "-5" for one
  (`MinusFive`). On the smallest int64 the negation makes no progress (`NegationStuckAtMinimum`).
- The handler's `rupiah` counts the minus sign as a digit: -100 becomes `Rp -.100`
  (`MinusOneHundred`). `HandlerAgrees`
  gives the exact condition under which it agrees with `formatRupiah`, and `FormatRoundTrip` singles
  out the smallest int64, which `formatRupiah` writes with two minus signs.
- With two publishers, each working in turn, the broker can deliver events out of order
  (`TwoPublishersReorder`), though never the events of one publisher (`EachPublisherInOrder`). All
  interleavings keep publish order if and only if there is at most one publisher
  (`OrderNeedsOnePublisher`).

## Model

| member | source | states |
|---|---|---|
| InactiveStream.InactiveState.constructor | workflows/inactive_stream.go:93-103 | a fresh state has handled nothing, delivered nothing and shows an empty view |
| InactiveStream.InactiveState.OnAccount | workflows/inactive_stream.go:105-135 | one account row is absorbed as the specification step says, everything delivered before stays delivered, and all events delivered so far are those of the rows handled so far |
| InactiveStream.InactiveState.OnActive | workflows/inactive_stream.go:137-155 | the same for one session row |
| InactiveStream.InactiveState.SetActiveLocked | workflows/inactive_stream.go:157-173 | the user of a session id is set, moving the reference from the previous user of that id, once per id |
| InactiveStream.InactiveState.RemoveActiveLocked | workflows/inactive_stream.go:175-182 | a session id is forgotten and one reference to its user given back |
| InactiveStream.InactiveState.DecrementActiveLocked | workflows/inactive_stream.go:184-190 | a reference count drops by one and a count of one disappears |
| InactiveStream.InactiveState.Reconcile | workflows/inactive_stream.go:192-230 | the view becomes the enabled names with no live session, and the batch returned holds one event per name that differs and no other |
| InactiveStream.InactiveState.Emit | workflows/inactive_stream.go:232-241 | a listener gets the events of the batch in order; without one nothing is delivered |
| InactiveStream.Diff | workflows/inactive_stream.go:197-216 | the events of a step name every added, changed or removed account exactly once, departures and changes before arrivals |
| InactiveView.DecrementCounts | workflows/inactive_stream.go:184-190 | giving back the reference of a session keeps every count equal to the number of its live sessions |
| InactiveView.SetActiveTracks | workflows/inactive_stream.go:157-173 | recording a session, new, repeated or changing user, keeps ids and counts equal to the router's session table |
| InactiveView.RemoveActiveTracks | workflows/inactive_stream.go:175-182 | dropping a session keeps ids and counts equal to the router's session table, also for an id never seen |
| InactiveView.LiveAccountTracks | workflows/inactive_stream.go:118-131 | a live account row, new, renamed, disabled or enabled, keeps `configured` exactly the enabled rows of the table |
| InactiveView.DeadAccountTracks | workflows/inactive_stream.go:107-117 | a dead row, with or without its name, keeps `configured` exactly the enabled rows of the table |
| InactiveView.AnonymousSession | workflows/inactive_stream.go:137-190 | a session row without an id takes its user off the view, a repeated one changes nothing more, one dead row puts the user back, and no other count moves |
| InactiveView.AnonymousBesideSession | workflows/inactive_stream.go:157-163 | a session row without an id, for a user who has a session, changes no count |
| InactiveView.AnonymousAccount | workflows/inactive_stream.go:105-131 | an account row without an id is stored or dropped under its name and moves no recorded id and no other account |
| InactiveView.StepTracks | workflows/inactive_stream.go:105-217 | every handler call keeps all maps in step with the two tables of the router |
| InactiveView.InactiveIsRecomputed | workflows/inactive_stream.go:105-217 | after every well-formed feed the incremental view equals the enabled accounts minus every name with a live session, computed from scratch |
| InactiveView.ReplayRebuildsView | workflows/inactive_stream.go:192-241 | replaying all emitted events from an empty view gives the current view, for any inputs and any map iteration order |
| InactiveView.EveryNameAlternates | workflows/inactive_stream.go:192-217 | the events of each name form (added changed* removed)*, open exactly while the name is in the view |
| InactiveView.AddressesMoveOnlyForActiveNames | workflows/inactive_stream.go:137-155 | a step that changes the last address of a name leaves that name out of the view |
| InactiveView.AddressIsLast | workflows/inactive_stream.go:137-155 | on any feed the recorded address of a name is the one in the latest live session row of that name with an address, "" if there was none |
| InactiveView.ReplayShowsCurrentAddresses | workflows/inactive_stream.go:192-230 | replaying the delivered events gives exactly the enabled accounts without a session, each shown with the address of the latest live session row of its name that carried one, "" if none did |
| InactiveStream.PPPListenerKnowsTheRouter | workflows/inactive_stream.go:105-230 | a PPP listener ends up with exactly the enabled, offline secrets of the router, each with its own profile, caller ids, last logout and disconnect reason and the address of its latest session row that carried one |
| InactiveStream.HotspotListenerKnowsTheRouter | workflows/inactive_stream.go:265-374 | a hotspot listener ends up with exactly the enabled, offline users of the router, row for row |
| RateLimit.Sanitize | internal/ratelimit/limiter.go:48-67 | New replaces unusable rates, bursts and ttls so that every limiter has positive ones |
| RateLimit.UsableIsKept | internal/ratelimit/limiter.go:48-67 | usable rates, bursts and ttls are kept, each for itself, and unusable ones become 1 per second, 1 and ten minutes |
| RateLimit.KeyedLimiter.Allow | internal/ratelimit/limiter.go:72-93 | one call creates or touches the entry of its key, spends a token if there is one, and otherwise refuses at no cost with the wait until the next |
| RateLimit.KeyedLimiter.Evict | internal/ratelimit/limiter.go:131-140 | exactly the entries last seen more than the ttl ago are deleted |
| RateLimit.BurstAllowed | internal/ratelimit/limiter.go:72-93 | n calls at one instant are all allowed if and only if n does not exceed the tokens present |
| RateLimit.TokensGrow | internal/ratelimit/limiter.go:72-93 | for any two times, a clock that ran backwards included, a bucket holds no less at the later one and no more than refilled in between |
| RateLimit.IdleIsFull | internal/ratelimit/limiter.go:131-140 | when the ttl refills a burst, an entry old enough to evict is a full bucket |
| RateLimit.AgreeStep | internal/ratelimit/limiter.go:72-140 | an evicting and a never-evicting limiter that agree give the same answer to the next step and still agree after it |
| RateLimit.WitnessTellsApart | internal/ratelimit/limiter.go:131-140 | when the ttl refills less than a burst, a concrete run gets different answers from the two |
| RateLimit.EvictionUnobservable | internal/ratelimit/limiter.go:72-140 | all runs with a monotone clock get the answers of a limiter that never evicts if and only if the refill over ttl + 1 ns is at least the burst |
| RateLimit.ServerWiringIsSafe | cmd/server/main.go:293-295 | burst = RPM, rate = RPM/60 and ten minutes of ttl satisfy that condition for every positive RPM |
| RateLimit.WindowBound | internal/ratelimit/limiter.go:72-140 | in every window of every run, evictions included, a key is allowed at most burst + rate times the length of the window |
| RateLimit.RetryAfterIsExact | internal/ratelimit/limiter.go:82-92 | a refused key left alone is allowed again from the announced wait on and not before |
| Subscriptions.SubscriptionStore.UpdateStatus | store/subscription_store.go:185-208 | one row gets the status, activation sets a missing next invoice date to today, an unknown id changes nothing |
| Subscriptions.SubscriptionStore.UpdateSyncStatus | store/subscription_store.go:210-228 | one row gets the sync status and `synced` clears its retry count |
| Subscriptions.SubscriptionStore.IncrSyncRetry | store/subscription_store.go:230-248 | the retry count of one row grows by one and is returned |
| Subscriptions.SubscriptionStore.UpdateNextInvoiceDate | store/subscription_store.go:273-285 | the next invoice date of one row is replaced and nothing else |
| Subscriptions.SubscriptionStore.ListPendingSync | store/subscription_store.go:257-271 | distinct queued rows, as many as exist up to the limit, in any order |
| Subscriptions.SubscriptionStore.ListActive | store/subscription_store.go:89-108 | every active row once and no other |
| Outbox.OutboxJob.Run | job/outbox.go:61-88 | one tick takes a batch of at most 20 queued rows and books each by its own attempt in what that attempt finds |
| Outbox.OutboxJob.SyncRow | job/outbox.go:72-86 | success books synced with no retries, failure adds one, the fifth failure books error |
| Outbox.GivenUpAtFifth | job/outbox.go:72-86 | a row that never succeeds stays queued through four failures and is booked error by the fifth |
| Outbox.OutboxJob.ApplySyncTo | job/outbox.go:114-139 | an offline device and an unknown service count as success without a command, else the queued operation is carried out |
| Outbox.OutboxJob.DoCreate | job/outbox.go:168-186 | an existing account is left alone, a missing one is added with the normal profile, commands failing as they may |
| Outbox.OutboxJob.DoProfileChange | job/outbox.go:188-217 | the account gets the isolir profile if its row is isolir and the normal one otherwise |
| Outbox.OutboxJob.DoDisable | job/outbox.go:219-241 | only the disabled flag of an existing account changes; a missing account counts as success |
| Outbox.OutboxJob.DoEnable | job/outbox.go:243-249 | the account is given its profile and then enabled; a failed profile change stops there |
| Outbox.OutboxJob.DoRemove | job/outbox.go:251-273 | the account is removed; a missing one counts as success |
| Outbox.TickLightens | job/outbox.go:61-88 | a tick lowers the level count of the work left by at least the size of its batch, whatever fails |
| Outbox.TotalIsWorkLeft | job/outbox.go:61-88 | the level count is the sum of max(1, 5 - retries) over the queued rows |
| Outbox.EveryTickProgresses | job/outbox.go:61-88 | every tick on a non-empty queue picks 20 rows, or all if there are fewer, and the sum of max(1, 5 - retries) over queued rows drops by at least the number of rows picked |
| Outbox.OutboxDrains | job/outbox.go:61-88 | n queued rows are all synced or error after n/4 + 5 ticks, whichever rows each tick picks, whichever commands fail, and whichever devices, profiles and settings each attempt finds |
| Invoices.InvoiceStore.Create | store/invoice_store.go:69-82 | an invoice is added as issued unless the subscription already has one for the period |
| Invoices.InvoiceStore.UpdateStatus | store/invoice_store.go:123-143 | the invoice with that id gets the status and all others stay |
| Invoices.InvoiceStore.GetByID | store/invoice_store.go:84-91 | an invoice of the table with that id, or none exactly when there is none |
| Invoices.InvoiceStore.ListOverdue | store/invoice_store.go:153-159 | the rows found are those of the table at strictly increasing positions, each unpaid and due before the cutoff, and no such position is missing |
| Invoices.InvoiceStore.AgingBuckets | store/invoice_store.go:193-242 | one bucket per non-empty range with its count and amount, in order |
| Invoices.InvoiceStore.CountOverdue | store/invoice_store.go:244-257 | the number of positions of the table with an unpaid invoice due before now, and the sum of their amounts |
| Invoices.OverdueCounted | store/invoice_store.go:193-257 | the counting over rows that the aging report uses equals the number of overdue positions and the sum of their amounts |
| Invoices.RangesPartition | store/invoice_store.go:199-217 | an invoice is unpaid and past due if and only if it lies in one of the four ranges, and never in two |
| Invoices.LabelsMeanAges | store/invoice_store.go:199-217 | which ages each label covers, bounds included |
| Invoices.ReportSays | store/invoice_store.go:193-242 | the report is, label by label, the number of unpaid invoices due for more than 0, 7, 14, 30 days and no more than the next bound, and the sum of their amounts, labels without invoices left out |
| Invoices.AgingAddsUp | store/invoice_store.go:193-257 | for every table the counts and amounts of the buckets shown sum to CountOverdue at the same instant |
| Suspension.SuspensionCheckJob.Run | job/suspension_check.go:57-148 | the whole check moves each row by the maximum of its days past due and turns exactly the issued invoices that are past due into overdue ones |
| Suspension.SuspensionCheckJob.MarkOverdue | job/suspension_check.go:75-96 | the loop over overdue invoices files a subscription by whether any of its invoices reaches a limit |
| Suspension.SuspensionCheckJob.IsolateCandidates | job/suspension_check.go:98-118 | only active candidates not up for suspension become isolir and are queued for a profile change |
| Suspension.SuspensionCheckJob.SuspendCandidates | job/suspension_check.go:120-140 | only active or isolir candidates become suspended and are queued for disabling |
| Suspension.WorstIsMaximum | job/suspension_check.go:75-96 | the number a row is judged by is the largest days past due over its overdue invoices |
| Suspension.WorstReaches | job/suspension_check.go:75-96 | the candidate sets are the rows whose maximum reaches the limit |
| Suspension.DaysAreElapsed | job/suspension_check.go:75-96 | days past due reach a number exactly when that many times 24 hours have gone by since the due date |
| Suspension.EnforcedByAge | job/suspension_check.go:66-140 | an active or throttled row is suspended exactly when an unpaid invoice is at least as many full days past due as the hard limit, an active one throttled exactly when only the lower limit is reached, each queued for its router, and every other row stays |
| Suspension.RunsCompose | job/suspension_check.go:57-148 | a check at t1 followed by one at t2 >= t1, each with the limits it reads and the second ones not larger, leaves what the second check alone leaves, in invoices, statuses and sync statuses |
| Suspension.RunIsIdempotent | job/suspension_check.go:57-148 | repeating the check at the same instant changes nothing |
| Payments.PaymentService.ApplySettlement | service/payment/service.go:389-418 | the invoice is paid, its subscription restored if throttled or suspended, and nothing else changes; an unknown invoice changes nothing |
| Payments.RestoredIs | service/payment/service.go:402-414 | a settled payment makes a throttled or suspended row active and dated, queues the profile change or the enabling that undoes its state, and changes nothing else |
| Payments.CheckAfterPayment | service/payment/service.go:389-418 | after a payment the next check suspends, throttles or leaves the restored row exactly as the other unpaid invoices are late |
| Enforcement.ApplySyncIsLocal | job/outbox.go:114-139 | an attempt touches no account but its own, whatever fails |
| Enforcement.ApplySyncSettles | job/outbox.go:114-273 | an attempt whose commands succeed leaves the account as the queued operation asks |
| Enforcement.AttemptGives | job/outbox.go:114-273 | a successful attempt on a connected device: a new account has the row's password and the profile of its plan ("default" without one) and is enabled; a throttled row gets the isolir setting ("isolir" without one), any other the profile named by its own service's plan or keeps what it has; only enable and disable move the lock; delete removes; an absent account stays absent |
| Enforcement.AttemptSucceedsIff | job/outbox.go:114-273 | on a connected device an attempt succeeds exactly when every command it needs is done: one for a create, a lookup and for an account that is there a change, twice for an enable; an empty user name fails |
| Enforcement.UnknownCountsAsDone | job/outbox.go:126-139 | an unknown service or an unknown queued operation counts as done and changes no account |
| Enforcement.SyncedMeansEnforced | job/outbox.go:114-139 | for a queued isolir or suspension not yet in force, an attempt booked as synced enforced it if and only if the device was connected, the service known and the account there |
| Enforcement.SyncedMeansSettled | job/outbox.go:84-139 | for every queued operation with something to change, an attempt booked as synced left the account as the operation wants it if and only if the device was connected and the service known |
| Enforcement.OfflineChangeIsLost | job/outbox.go:118-121 | any change behind an offline device is booked synced, changes no account and leaves the queue |
| Enforcement.OfflineChangeStaysLost | job/outbox.go:61-121 | a change first tried while its device is offline leaves row and account so for the rest of any run, whatever devices come back |
| Enforcement.AttemptKeepsGoal | job/outbox.go:114-273 | on a connected device no failure or lost reply makes the queued change harder to reach, and success means it is reached |
| Enforcement.RunFrame | job/outbox.go:61-88 | over any run with changing devices and settings, accounts of rows that were not queued, and of no row at all, stay as they were |
| Enforcement.RunSettles | job/outbox.go:61-88 | once the queue has drained, a queued row whose commands succeeded, and which could be carried out at every tick (device connected, account addressable, nothing to create there already), is booked and its account settled |
| Enforcement.RunConcludes | job/outbox.go:61-139 | with any commands refused or replies lost and other devices coming and going, a queued row whose own device stays connected with its profile data ends error, or synced with retry 0 and its account as the operation wants it; even in error what was done leads towards that goal |
| Enforcement.CreateOfExistingEndsInError | job/outbox.go:168-186 | on a connected device a queued create whose account exists already ends error once the queue has drained, the account as it was |
| Enforcement.LostCreateReplyEndsInError | job/outbox.go:168-186 | a create that the router obeys with its reply lost ends error once the queue has drained, its account as wanted |
| Enforcement.LateInvoiceReachesRouter | job/suspension_check.go:98-140 | from a late invoice through the check and n/4 + 5 ticks with any failures: a newly isolir row ends error or synced with the isolir profile, a newly suspended one error or synced and disabled, retry 0 when synced, nothing else about the account changed; rows not queued keep booking and account |
| Enforcement.LateInvoiceIsNotGivenUp | job/suspension_check.go:98-140 | the same row is synced with retry 0 when none of its commands fails |
| Enforcement.PaymentReachesRouter | service/payment/service.go:389-418 | from a payment through n/4 + 5 ticks with any failures: a throttled or suspended row ends error, or active and synced with the account on the profile of its plan and, if it was suspended, enabled; it is synced when none of its commands fails |
| Enforcement.OverwrittenEnableStaysLocked | service/payment/service.go:402-414 | a queued enable overwritten by a throttling before it was tried leaves the account disabled after the next payment, with the row active and synced |
| BillingCron.BillingCronJob.Run | job/billing_cron.go:46-101 | one run bills exactly the active rows due today that find a price at their turn, appends one invoice for each at the price of the row's plan and due the given days later, and leaves every other row alone |
| BillingCron.BillingCronJob.BillOne | job/billing_cron.go:59-100 | one row is billed at the price and moved on by the billing day found at its turn, or left alone when it is not due, has no price or the invoice is refused |
| BillingCron.BillGives | job/billing_cron.go:68-92 | a run that bills invoices the day at the price of the profile named by the row's own service, and the next date is on the row's billing day, or the default, moved into 1..28, one month on or two |
| BillingCron.NextDateLater | job/billing_cron.go:85-92 | the next date is a real, later date on a day in 1..28 |
| BillingCron.MonthSkippedIffDayMissing | job/billing_cron.go:85-92 | the next date falls in the following month if and only if that month has the due day |
| BillingCron.BillsWhatItHits | job/billing_cron.go:46-101 | on whatever days the job runs, with profiles, settings, billing day and the row's own profile changing from run to run, it bills consecutive due dates, each at the price and with the next date its run finds, and stops for good at the first that no run with a price hits |
| BillingCron.OneInvoicePerMonth | job/billing_cron.go:46-101 | run every day, once or more, with a price at every run and prices, settings and billing day changing from run to run, an active subscription gets exactly one invoice per calendar month, none skipped or doubled across year ends, save the month after a first date the next month lacks; each is at the price found by the run that bills it, and each next date is on the billing day that run found |
| BillingCron.MissedDayStopsBilling | job/billing_cron.go:68-74 | once all runs are later than the next date nothing is billed again, whatever those runs find |
| BillingCron.BillsIffNew | job/billing_cron.go:64-101 | over any runs, whatever each finds, and for any row, billing gets past the next date if and only if the row is active, a run on that date finds its price and the period has no invoice; otherwise date and invoices never change |
| BillingCron.ExistingInvoiceStopsBilling | job/billing_cron.go:75-79 | an invoice that exists for the next date keeps every later run from billing, whatever it finds |
| BillingCron.FailedLookupStopsBilling | job/billing_cron.go:68-71 | a price that no run finds on the due day keeps every later run from billing, even runs that find it |
| Calendar.NextDayIsNextNumber | job/billing_cron.go:88 | the calendar counts every day once across month and year ends, leap years included |
| Calendar.AddMonthLands | job/billing_cron.go:88 | AddDate(0, 1, 0) lands in the next month if and only if that month has the day, and one month later otherwise |
| Calendar.AddMonthCountsOn | job/billing_cron.go:88 | AddDate(0, 1, 0) is the first day of the next month plus as many days as the date is into its own, counted in days |
| Broker.Broker.SubscribeClient | api/sse/broker.go:55-77 | the first subscriber starts the backend, a failed start leaves everything as it was, and the client gets a fresh empty channel |
| Broker.Broker.UnsubscribeClient | api/sse/broker.go:81-97 | exactly this client is forgotten and the last one to leave stops the backend |
| Broker.Broker.TakeSnapshot | api/sse/broker.go:101-107 | a publish begins with a list of the channels subscribed at that moment |
| Broker.Broker.SendNext | api/sse/broker.go:108-115 | one send puts the event in a buffer with room or counts a drop |
| Broker.Broker.PublishEvent | api/sse/broker.go:101-116 | an uninterrupted publish appends the event to every subscribed channel with fewer than 32 waiting events and counts one drop for each of the others, is recorded as finished, changes nothing else and keeps the invariant |
| Broker.Broker.ReceiveNext | api/sse/writer.go:70-89 | a client takes the oldest event of its channel |
| Broker.SafeStep | api/sse/broker.go:55-116 | every step keeps the backend running exactly while somebody is subscribed, starts and stops alternating and buffers within 32 |
| Broker.AlwaysSafe | api/sse/broker.go:55-116 | the same in every reachable state of every interleaving, with every offer accounted for |
| Broker.NothingLost | api/sse/broker.go:101-116 | when all publishes are done, the snapshot sizes sum to events put in channels plus drops |
| Broker.OrderedStep | api/sse/broker.go:101-116 | when each publisher works one publish at a time, every step keeps what a channel holds of each publisher a subsequence of what that one published since the client subscribed |
| Broker.EachPublisherInOrder | api/sse/broker.go:101-116 | with any number of publishers, each client receives of each publisher a subsequence, in order, of what that one published since the client subscribed |
| Broker.ReceivedInOrder | api/sse/broker.go:101-116 | with one publisher each client receives, in order, a subsequence of what was published since it subscribed |
| Broker.TwoPublishersReorder | api/sse/broker.go:101-116 | a concrete interleaving of two publishers, each working in turn, delivers the later event first |
| Broker.OrderNeedsOnePublisher | api/sse/broker.go:101-116 | for every n, all interleavings of at most n publishers, each working in turn, keep what every channel holds a subsequence of what was published since it subscribed if and only if n is at most one |
| Hub.Hub.WithCaps | api/sse/hub.go:38-52 | a new hub holds no reservation, and a negative cap means no cap |
| Hub.Hub.Reserve | api/sse/hub.go:62-99 | a reservation within the caps is counted, a refused one changes nothing and says which cap |
| Hub.Hub.Release | api/sse/hub.go:83-98 | a release gives its counts back, the first time only |
| Hub.ReserveKeeps | api/sse/hub.go:62-99 | reserving keeps the counters exact, without zero entries, and within the caps |
| Hub.ReleaseKeeps | api/sse/hub.go:83-98 | releasing keeps them so |
| Hub.ReleaseIsIdempotent | api/sse/hub.go:83-98 | releasing twice is releasing once |
| Hub.ReserveThenRelease | api/sse/hub.go:62-99 | giving a reservation back restores every counter |
| Hub.GoodStep | api/sse/writer.go:44-59 | every step of a request (reserve, subscribe, unsubscribe, release) and of a keep-alive subscriber (attach, detach) keeps each subscription owned by a request with an unreleased reservation or by an attached keeper |
| Hub.SubscribersFitReservations | api/sse/writer.go:44-59 | a topic never has more subscribers than unreleased reservations and attached keepers, shared client ids included |
| Hub.CapsHold | api/handler/stream.go:434-450 | in every interleaving of requests and keepers the counters per topic and per device equal the unreleased reservations and are never zero, the caps hold for reservations, and subscribers fit reservations and keepers |
| Hub.ClosedIsReleased | api/handler/stream.go:434-450 | a request that is closed has given its reservation back for the rest of the run |
| Hub.GrantedBelowCaps | api/sse/hub.go:62-99 | in every interleaving a request gets its slot if and only if the unreleased reservations of its topic, and of the device it names, are below the caps, a cap of zero or less being none |
| Hub.StreamingIsSubscribed | api/sse/writer.go:44-59 | in every interleaving a streaming request is subscribed, unless another request or a detached keeper used its client id on its topic |
| Hub.NoLeaks | api/handler/stream.go:434-450 | when every request has been closed no counter is left, the subscribers are among the keepers, and exactly the keepers unless a request came under a keeper's client id, and the backend of a topic without keepers is stopped |
| Hub.KeeperNeedsNoReservation | service/netstream/netstream.go:138-158 | one attached keeper gives a topic a subscriber and no reservation |
| Framing.PrefixFor | internal/tcpmock/sentence.go:19-32 | the switch writes the marker of the right size class and the length modulo 2^32 big-endian |
| Framing.PrefixTable | internal/tcpmock/sentence.go:19-32 | the prefix of every length below 2^32, byte by byte: one byte below 0x80, then two, three and four bytes marked 0x80, 0xC0 and 0xE0, and 0xF0 with four more |
| Framing.Writer.EncodeWord | internal/tcpmock/sentence.go:18-42 | the prefix and the bytes of the word are appended to what was written |
| Framing.Writer.EncodeSentence | internal/tcpmock/sentence.go:45-52 | the words in order and an empty word are appended |
| Framing.Announced | internal/tcpmock/sentence.go:61-90 | the masks and shifts read the big-endian number behind the marker |
| Framing.Reader.DecodeWord | internal/tcpmock/sentence.go:56-100 | the word or error read off the front of the stream, and how much of the stream is left |
| Framing.Reader.DecodeSentence | internal/tcpmock/sentence.go:109-124 | the words up to the empty one, or the words so far and the error, and how much is left |
| Framing.MasksAreRanges | internal/tcpmock/sentence.go:23-86 | the bit tests and masks of encoder and decoder, on eight bits, are ranges, remainders and sums of the byte |
| Framing.Class | internal/tcpmock/sentence.go:61-90 | the bit tests sort a first byte into the five sizes of prefix, and 0xF1 to 0xFF into none |
| Framing.PrefixRoundTrip | internal/tcpmock/sentence.go:18-90 | a prefix is read back as the length it was written for, modulo 2^32, with the rest untouched |
| Framing.PrefixIsShortest | internal/tcpmock/sentence.go:18-90 | no shorter prefix is read as the same length, none announces 2^32 or more, and none starts above 0xF0 |
| Framing.WordRoundTrip | internal/tcpmock/sentence.go:18-100 | a word followed by any bytes is read back and leaves those bytes if and only if it is shorter than 2^32 bytes |
| Framing.WordCut | internal/tcpmock/sentence.go:56-100 | a word cut before its end is an error, io.EOF at exactly the cuts named and io.ErrUnexpectedEOF at all others |
| Framing.SentenceRoundTrip | internal/tcpmock/sentence.go:45-124 | a sentence followed by any bytes is read back if all words are non-empty and shorter than 2^32, and otherwise reads as different words |
| Framing.StreamRoundTrip | internal/tcpmock/sentence.go:45-124 | any list of sentences is read back with what follows it if and only if all their words are so |
| Framing.SentenceCut | internal/tcpmock/sentence.go:106-124 | every strict prefix of a sentence reads as an error, which one depending on the cut, with exactly the words it holds completely |
| Framing.EmptySentence | internal/tcpmock/sentence.go:102-124 | an empty sentence reads as no words and no error |
| Duration.ParseDuration | internal/rosfmt/duration.go:14-50 | a bare number is seconds, otherwise the fields are summed, and the first unreadable field decides the error |
| Duration.FormatDuration | internal/rosfmt/duration.go:85-119 | the loop over units writes the split of the duration, "0s" when there is nothing to write, and a minus before a negative one |
| Duration.NormalizeDuration | internal/rosfmt/duration.go:124-130 | parsing followed by formatting, errors passed on |
| Duration.FormattedIsParsed | internal/rosfmt/duration.go:14-119 | what is written for d >= 0 reads as d rounded down to a millisecond, and what is written for d < 0 does not read at all |
| Duration.RoundTrip | internal/rosfmt/duration.go:14-119 | a duration survives writing and reading if and only if it is a non-negative whole number of milliseconds |
| Duration.JoinIsParsed | internal/rosfmt/duration.go:26-49 | any non-empty list of fields in the eight units, in any order and size, is read as its sum |
| Duration.BareNumberIsSeconds | internal/rosfmt/duration.go:12-22 | a number with or without a fraction, a sign and surrounding spaces is that many seconds, rounded towards zero to a nanosecond |
| Duration.DigitsAreSeconds | internal/rosfmt/duration.go:12-22 | the numeral of n is n seconds, with "-" minus n seconds |
| Duration.PiecesAreParsed | internal/rosfmt/duration.go:26-49 | any non-empty list of fields, fractions included, in the eight units and in any order is the sum of what the fields are worth |
| Duration.WorthRoundsDown | internal/rosfmt/duration.go:31-47 | a field is worth its number times its unit, rounded down to a nanosecond |
| Duration.EightUnits | internal/rosfmt/duration.go:52-72 | the eight units and what each is worth in nanoseconds |
| Duration.NoFieldHere | internal/rosfmt/duration.go:28-34 | after any fields, a character that starts no number makes the text a bad duration |
| Duration.NoNumberHere | internal/rosfmt/duration.go:28-38 | after any fields, a run of digits and dots that is no number is named as the bad number, whatever follows it |
| Duration.NoUnitHere | internal/rosfmt/duration.go:35-46 | after any fields, a number with letters that are no unit, or with none, names the unknown unit, whatever follows it |
| Duration.BlankIsEmpty | internal/rosfmt/duration.go:15-18 | spaces alone are an empty duration |
| Duration.FormattedIsCanonical | internal/rosfmt/duration.go:92-118 | except for "0s" the output has strictly descending units, non-zero amounts below their radix, and no other such list has the same total |
| Duration.NormalizeTwice | internal/rosfmt/duration.go:124-130 | normalizing is idempotent for values of zero or more and an error the second time for negative ones |
| Duration.NegativeIsSigned | internal/rosfmt/duration.go:19-22 | a text with a negative value is, once trimmed, a bare number behind a minus sign |
| Duration.MinusFive | internal/rosfmt/duration.go:124-130 | "-5" is minus five seconds, is normalized to "-5s", and normalizing that is an error |
| Duration.NegationStuckAtMinimum | internal/rosfmt/duration.go:89-91 | negating a negative duration leaves it negative if and only if it is the smallest int64 |
| MixedRadix.SplitTotal | internal/rosfmt/duration.go:103-115 | splitting by descending units loses only what is below the last unit |
| MixedRadix.CanonicalIsUnique | internal/rosfmt/duration.go:103-115 | there is one canonical list of amounts for each total and splitting finds it |
| ScriptEscape.EscapeRoundTrip | internal/rosfmt/escape.go:17-26 | a single-pass unescape undoes the escaping of every string |
| ScriptEscape.EscapeInjective | internal/rosfmt/escape.go:17-26 | different strings are escaped differently |
| ScriptEscape.EscapedTexts | internal/rosfmt/escape.go:17-26 | a readable text is the escape of what it reads as if and only if no special character stands bare in it |
| ScriptEscape.EscapeHasNoBreaks | internal/rosfmt/escape.go:17-26 | an escaped string has no raw newline or carriage return |
| ScriptEscape.QuoteCloses | internal/rosfmt/escape.go:35-37 | scanning a quoted string from after its first quote, with anything behind it, stops exactly at its last character, and what lies between reads as the string |
| Decimal.ValueIsNumeral | api/handler/hook_login.go:87-93 | a string is read as a number exactly when it is the decimal numeral of that number, leading zeros allowed |
| Rupiah.Group | job/notify_helpers.go:62-68 | the loop from the left yields groups of three from the right |
| Rupiah.FormatRupiah | job/notify_helpers.go:56-73 | the grouped digits of the magnitude after a minus for negative amounts, with int64 negation |
| Rupiah.HandlerRupiah | api/handler/payments.go:300-314 | the signed numeral itself is grouped |
| Rupiah.FormatRoundTrip | job/notify_helpers.go:56-73 | taking the dots out gives the decimal numeral of the amount if and only if it is not the smallest int64 |
| Rupiah.FormatIsGrouped | job/notify_helpers.go:56-73 | except for the smallest int64 the text is an optional minus, one to three digits and groups of exactly three, and the only such text with these digits |
| Rupiah.HandlerAgrees | api/handler/payments.go:300-314 | the handler's text is "Rp " and the message's text if and only if the amount is not negative, or is above the minimum with a digit count three does not divide |
| Rupiah.MinusOneHundred | api/handler/payments.go:300-314 | the handler writes -100 with a dot right after the minus |
| HookLogin.HookLogin.Login | api/handler/hook_login.go:78-212 | the answer of the first failing check in order, else the deduplication, and a row with the truncated fields inserted exactly when recorded |
| HookLogin.CheckedHasDevice | domain/mode.go:34-50 | a call that passes every check has a device id, a user name, and a profile in mode remc or ntfc |
| HookLogin.CheckPassesIff | api/handler/hook_login.go:79-166 | a call gets as far as the deduplication if and only if it shows the secret asked for, names a known device and a user, and the device has a profile of the name it carries in mode remc or ntfc |
| HookLogin.RefusalsInOrder | api/handler/hook_login.go:79-166 | a refused call is told the first thing wrong with it: secret, device id, user, unknown device, profile name, profile, mode |
| HookLogin.RowsAreSales | api/handler/hook_login.go:178-212 | every row of the table with the comment of a login is the sale of an earlier call, whatever other sales are inserted between calls |
| HookLogin.SaleRecords | api/handler/hook_login.go:184-206 | a recorded sale appends one row with the device, user, profile name, address and MAC of the call cut to their lengths, the prices and the validity of the profile, the login comment and the time of the call |
| HookLogin.WindowOfFields | internal/rosfmt/duration.go:26-49 | a validity written in fields, with a positive sum, has that sum as its window |
| HookLogin.WindowOfOneField | internal/rosfmt/duration.go:26-49 | a validity of n of one unit has a window of n of that unit |
| HookLogin.AnsweredByEarlierSales | api/handler/hook_login.go:157-176 | over any run of calls, a login that passes the checks is recorded if and only if no earlier recorded sale to the same device and user lies within its window: the duration of its validity, 24 hours when that is unreadable or zero |
| HookLogin.SalesAreSpaced | api/handler/hook_login.go:157-212 | a recorded sale lies at least the duration of its validity, 24 hours when that is unreadable or zero, after every earlier recorded sale of the same device and user |
| HookLogin.UnrecordedIsCovered | store/transaction_store.go:133-144 | with non-decreasing times, an unrecorded login that passed the checks lies strictly within the duration of its validity, 24 hours when that is unreadable or zero, after a recorded one |

## Left out

- Network, HTTP handlers beyond the branches modelled, JSON, SQL text, password encryption, notifications, audit records, reminders, sync notes and timestamps of the last update.
- Failing store writes, context cancellation, and writers that run between an outbox read and its final status write or between a webhook's check and its insert: each is one atomic step here.
- InactiveStream.InactiveState.OnAccount: one handler call with its delivery is one step. The source releases `mu` before it takes `emitMu`, so the order of batches of concurrent handlers is not promised.
- Feeds that are not well formed: the handlers are modelled for every row, but agreement with the router's tables is claimed for well-formed feeds only.
- RateLimit.KeyedLimiter.Allow: the internals of `golang.org/x/time/rate` are replaced by an exact token bucket, so float rounding is not modelled, and a call is one step although the source releases its lock before `Reserve`. `Close` and `Size` are left out.
- Routers.Router.SetProfile: the per-service switch of the source is one table of accounts keyed by device, service and user name; PPP and hotspot commands differ only in names.
- Invoices.InvoiceStore.AgingBuckets: the source tests bounds with `IsZero`, so an instant equal to Go's zero time would count as no bound; the model has real bounds, and its days are 24 hours long. Invoice numbers, payment codes and items are left out.
- BillingCron.BillingCronJob.Run: dates are calendar dates in one time zone; daylight saving and the time of day of a run are left out, and generation is an invoice keyed by subscription and period start.
- The hourly `job/reconciler.go`, which compares rows booked as synced with their routers and queues profile changes for those that differ: results about lost changes speak of the outbox alone.
- Payments.PaymentService.ApplySettlement: which payments are created, confirmed or rejected, and by whom, is left out; a settlement is one atomic step.
- Voucher generation, cascade deletes, paging, revenue reports and the plain reading and writing of records, which none of the modelled behaviour depends on.
- Broker and hub statistics, the keep-alive comments of the writer's ticker and writing of events, and the effect of a second request with the same client id on the first one's stream.
- Framing.Writer.EncodeWord: a failing writer is not modelled.
- Duration.ParseDuration: a bare number may carry a sign, but exponents, hexadecimal, infinities, NaN and underscores between digits, which ParseFloat also accepts for a bare number, are left out. Texts are ASCII. Arithmetic is exact and truncates once per field, so float rounding of fractional amounts and int64 overflow are left out.
- Duration.NormalizeDuration: a total that is the smallest int64 or outside int64 is not a possible input; the source's float conversion has no fixed result there.
- Duration.FormatDuration: the smallest int64 is not a possible argument, because the source recurses on it without end.
- `POST /reports/sales` (`api/handler/report.go:299`) appears only as rows with another comment that are inserted between login calls.
- HookLogin.HookLogin.Login: store errors (status 500) are left out; the instants of the check, the insert and `created_at` are one instant; strings are sequences of single-byte characters.
