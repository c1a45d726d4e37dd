# Verification of the inn's booking, payment and background logic

A Dafny model of the parts of the server where a mistake sells a room twice,
takes money twice, sends it back twice, or loses work on a restart, with proofs
of what those parts promise. `dafny verify dfyconfig.toml` checks all of it.

## How it is laid out

Code that updates tables or buffers in place is a class or a loop here and is
proved equal, statement by statement, to a step function on values; what the
source promises is then proved about those steps, over every run.

- **Inn.dfy** states each transaction once: create, pay, open, cancel, sweep (two
  steps), refund, block, warn, flag. **Store.dfy** is the same transactions as
  they are written, updating tables. **Protocol.dfy** and **ProtocolSteps.dfy**
  hold the invariant and show that every step keeps it; **ProtocolRuns.dfy** draws
  the consequences for whole runs.
- **Terms.dfy** says what each of those transactions comes to without reference to
  how it is written: from the row, the day and the request, the sums asked and
  returned, what the guest is told, and everything left as it was.
- **Ledger.dfy** is the payments table and the division of a refund.
  **RefundRuns.dfy** is the refund job as a transition system: any number of runs,
  a processor that answers a repeated key with the refund it made, deaths between
  any two steps, and the rest of the inn going on around them. **RefundJob.dfy**
  is the job's own loop, proved to be such a run.
- **BalanceRuns.dfy** and **BalanceJob.dfy** do the same for the balance taken a
  week before arrival, webhook included, and **WarnRuns.dfy** is the warning sent
  the day before, by any number of batches at once.
- **LatePayments.dfy** follows a stay that is cancelled, refunded and then paid.
- **Calendar.dfy** sets the picker's runs of nights against the search.
  **RateLimit.dfy** is the token bucket and its sweeper. **Jobs.dfy** is one job
  runner and **JobRuns.dfy** many of them. **Enrollment.dfy** is the single-use
  invitation. **Media.dfy** is the photo ladder. **Pricing.dfy**, **Decimal.dfy**
  and **Printers.dfy** are amounts, rates and how they are written.

Dates are day numbers and stays half-open. Amounts are whole cents and rates
hundred-thousandths. Division truncates as Go's does. The clock, the processor's
answers, the disk and the outcome of a handler are parameters or steps. Automatic
induction is off in every lemma, so an inductive proof shows the call it rests on.

## What turned out not to hold as written

Each of these is modelled as the code has it, with the exact condition proved.

- The retry after a colliding booking code (internal/booking/booking.go:419-420)
  never helps: inside a Postgres transaction the collision aborts every later
  statement (`Store.Tables.InsertBooking`).
- The jitter on a failed job's delay (internal/jobs/jobs.go:282-284) is under a
  second and the delay is stored in whole seconds, so it is always lost.
- A job lease (internal/jobs/jobs.go:11-15) is exclusive as long as nobody puts a
  job back before another runner's lease on it is up, which a late failure can do;
  as soon as one does, two runners can be at work on it.
- A periodic job's attempts are never reset (internal/db/queries/jobs.sql:43-48), so
  one that has run eleven times waits an hour after its first failure.
- A periodic job repeating in under a second would keep a drain going for ever.
- Matching recorded refunds by amount is exact only when each is a slice of the
  division now being made. When a stay is cancelled for a share and then paid once
  more, the last slice of that share is asked for twice, unless it is the amount of
  the payment it came out of or of a later one.
- A refund job for everything is absorbed by one with a smaller amount that is
  still waiting, after the guest has been told the larger figure.
- RecordCharge accepts the kind "refund", and then gross and ledger part.
- A crashed balance charge is completed by the next scan only while the request
  under its key is unchanged: the card on the booking, and the amount owed.
- A guest is warned of their balance charge more than once exactly when a batch reads their
  name while another still holds it and both get to warn them.
- A date the picker lets a guest arrive on lets them leave on no date at all when
  the minimum stay there is over the longest stay on sale.
- The limiter's bound needs burst times interval to fit in the idle TTL. It does
  for all five limiters.
- Money cannot write the least int64, Percent cannot write a negative fraction,
  split accepts numbers nothing here writes, and Name lets a lone slash through.

## Model

| member | source | states |
|---|---|---|
| `Ledger.Allocate` | internal/payments/refund.go:149-185 | the loops that total the payments, fill them and skip what was sent compute the division minus the recorded slices, for every ledger and target |
| `Ledger.IndexOf` | internal/payments/refund.go:187-194 | the first place an amount stands at, -1 exactly when it does not occur |
| `Ledger.AllocateResumesExactly` | internal/payments/refund.go:166-184 | when the recorded refunds are the amounts of the first n slices, in any order and equal amounts included, what is allocated is the rest of the division in order |
| `Ledger.DivisionTotal` | internal/payments/refund.go:136-164 | the slices come to the target, or to everything collected when that is less or the target is zero |
| `Ledger.DivisionExtends` | internal/payments/refund.go:22-24 | payments that land later only extend the division: nothing changes under a positive target already covered, and exactly the new ones are added when the target is everything |
| `Ledger.FillShape` | internal/payments/refund.go:136-164 | slice i comes out of payment i and is never more than that payment took |
| `Ledger.RefundsAddUpExactlyWhenEveryOneIsASlice` | internal/payments/refund.go:171-184 | what is recorded and what is allocated come to what is owed if and only if every recorded refund is a slice of this division; otherwise they exceed it |
| `Ledger.EverythingAfterAShare` | internal/payments/refund.go:136-184 | a share is sent back, any payments land after it, and everything is to go back: what is asked for comes with the share to exactly what was collected if the share's last slice is the amount of its own payment or of a later one, and otherwise to that slice more |
| `Ledger.PartialRefundIsNotRecognisedLater` | internal/payments/refund.go:171-184 | the reading that shows it: 485 returned of a 500 deposit, then everything is to go back |
| `LatePayments.LastSliceIsAskedForTwiceExactlyWhenItIsNoPayment` | internal/payments/refund.go:87-119 | for every confirmed stay cancelled for a share, the share sent and recorded slice by slice, its job ended, and paid once more: a job for everything is left, and what it asks for comes with the share to more than was collected, by the last slice, if and only if that slice is the amount neither of its own payment nor of a later one |
| `LatePayments.ShareAndEverythingAreBothReturned` | internal/payments/payments.go:649-704 | the run that shows it, from empty tables: a deposit of 500 confirms, the guest cancels in time and 485 goes back, the balance of 500 lands, and both payments are asked for whole |
| `Ledger.ChargesAreDistinctIntents` | internal/payments/payments.go:10-16 | the unique key on (stripe_id, status) makes every collected payment its own intent |
| `Pricing.Compute` | internal/pricing/pricing.go:124-148 | tax is the exact product to the nearest cent, half up; deposit and balance lose no cent and the odd one goes to the deposit |
| `Pricing.TaxOnceAgainstTaxPerNight` | internal/pricing/pricing.go:132-139 | for n nights, taxing the base once is within (n + 1) / 2 cents of rounding every night apart |
| `Pricing.FeeIsCeiling` | internal/pricing/pricing.go:183-195 | the processing fee is the least whole cent covering the exact cut, and never more than was paid |
| `Pricing.RefundArithmetic` | internal/pricing/pricing.go:169-217 | refund in [0, paid]; late never beats on time; refund and retained add to paid exactly when retained fits; one cent more paid returns 0 or 1 more; a late cancel of a deposit-only stay returns nothing |
| `Store.Tables.NoteEvent` | internal/payments/payments.go:236-257 | an event id is seen once and blank ids are never noted |
| `Store.Tables.RecordPayment` | internal/db/gen/payments.sql.go:410-458 | inserted unless the key (stripe_id, status) is there already |
| `Store.Tables.SecureRoom` | internal/payments/payments.go:590-647 | promotion, the already-held case, or a re-claim room by room that stops at the first room gone and keeps the rooms before it |
| `Store.Tables.RecordCharge` | internal/payments/payments.go:265-397 | the transaction, statement by statement, is the step ChargeStep on the tables and in its answer |
| `Store.Tables.Settle` | internal/payments/payments.go:353-395 | what becomes of the stay once the money is on the row: confirmed with its messages, or closed out and refunded |
| `Store.Tables.RecordFailure` | internal/payments/payments.go:409-471 | the status is not touched; a failed balance flags the stay and tells the guest once |
| `Store.Tables.RecordRefund` | internal/payments/payments.go:481-545 | the row, then release and cancel; nothing at all when the row is there |
| `Store.Tables.InsertBooking` | internal/booking/booking.go:410-454 | the retry loop as Postgres runs it, against the comment there: a colliding code aborts the transaction, so the booking stands if and only if the first code was free, and no later code is ever inserted |
| `Store.Tables.CreateBooking` | internal/booking/booking.go:228-342 | guest and phone bookings, each refusal leaving the tables as they were |
| `Store.Tables.Cancel` | internal/payments/cancel.go:63-143 | a confirmed stay not yet begun gives back its rooms, is cancelled, and has its share queued and announced |
| `Store.Tables.OpenPayment` | internal/payments/open.go:81-170 | which states can be paid for, the amount and kind from the booking's own row, and the intent written down only after the processor answered |
| `Store.Tables.Sweep` | internal/booking/sweeper.go:20-41 | expired holds go first, then the pending bookings nothing holds for any more |
| `Store.Tables.ListDue` | internal/db/gen/payments.sql.go:150-171 | the two scans of the balance jobs: every booking the condition lets through, each once, the earliest charge date first, and no other |
| `Terms.MadeExactlyWhen` | internal/booking/booking.go:228-342 | a stay is made if and only if its dates are in order and not past, the room was offered at the price the guest saw, the row's money adds up, its first code is new, nobody has the room on any of its nights, and a payment link would have something to ask for |
| `Terms.TermsAreTheQuotes` | internal/booking/booking.go:228-342 | its money is the quote's and nothing is paid; a balance charge is scheduled if and only if the website books it eight days ahead or more, and then a week before arrival, which is after today; no other booking changes |
| `Terms.NewStayTakesOneRoom` | internal/booking/booking.go:299-342 | exactly its own room is taken, held to the end of the hold's time or booked outright, and a stay by phone gets its confirmation and its payment link for the whole price |
| `Terms.OpensForExactlyWhatIsMissing` | internal/payments/open.go:81-170 | a payment opens if and only if the stay is pending, or confirmed with nothing scheduled, and has paid less than the deposit (a charge scheduled) or the total (none); paid and the amount asked then come to exactly that; a stay that has paid it gets NothingToPay |
| `Terms.FullCaptureSettles` | internal/payments/open.go:107-121 | captured in full after any run in which no other money landed on the stay, it leaves paid exactly what was due, and nothing more is asked |
| `Terms.StartOnTheRow` | internal/payments/payments.go:562-573 | opening a payment writes its id and the minute on that row, and nothing else anywhere |
| `Terms.RefusedExactlyWhen` | internal/payments/payments.go:265-287 | what the three reports are refused for, and that a refusal changes nothing |
| `Terms.BlankExactlyWhenOnlySpaces` | internal/payments/payments.go:731-740 | an id counts as missing if and only if nothing but spaces is in it, as strings.TrimSpace reads spaces |
| `Terms.SeenBeforeIsOnlyNoted` | internal/payments/payments.go:236-257 | an event seen before changes nothing at all; a row already there notes its event and changes nothing else |
| `Terms.AnswerToACharge` | internal/payments/payments.go:337-373 | Underpaid, by exactly what is missing, if and only if the gross stays under what is due; RefundDue of the whole gross if and only if it does not and the stay is cancelled or can no longer have all its rooms; confirmed otherwise |
| `Terms.ChargeOnTheRow` | internal/payments/payments.go:288-335 | one ledger row, the gross up by the amount, the card saved if and only if both halves of it are given; nothing else of the row but the status, and no other row |
| `Terms.ShortPaymentWaits` | internal/payments/payments.go:337-351 | a short payment moves no status, no room, no job and no message |
| `Terms.WhatTheGuestIsTold` | internal/payments/payments.go:375-395 | a first confirmation names what was paid now and what is left of the total; of a stay confirmed before there is a receipt if and only if it was the balance |
| `Terms.OnlyAFailedBalanceTouchesTheStay` | internal/payments/payments.go:409-471 | any other failure leaves bookings, rooms, jobs and outbox as they were and the ledger one row longer; a failed balance flags the stay and names what is owing |
| `Terms.FlaggedExactlyWhenSomethingFlaggedIt` | internal/payments/payments.go:456-465 | over every run a stay is flagged if and only if it was at the start or some step recorded a failed balance charge of it or found it without a card |
| `Terms.RefundOnTheRow` | internal/payments/payments.go:481-545 | a recorded refund adds its row, cancels the stay and gives back every room of it, and touches nothing else |
| `Terms.CancelledExactlyWhen` | internal/payments/cancel.go:63-99 | a confirmed stay before its day of arrival, and nothing else, can be cancelled; every refusal changes nothing |
| `Terms.CancellationByTheDay` | internal/payments/cancel.go:100-143 | late if and only if arrival is less than seven days off; what is kept is the exact processing cut to the next whole cent, or the deposit if late and that is more; the rest of what was paid goes back, and the job (when none waits) and the message carry exactly that |
| `Terms.CancellationOnTheRow` | internal/payments/cancel.go:63-143 | the stay is cancelled and its rooms given back; no other booking, row or ledger entry changes |
| `Terms.ConsoleRefundIsCovered` | internal/console/bookings.go:424-446 | an amount typed in is queued if and only if it is positive, was paid, and no job waits |
| `Terms.WaitingRefundsAreCovered` | internal/payments/refund.go:36-51 | in every reachable state no waiting refund job asks for more than its stay has paid |
| `Terms.SweepTakesOnlyLapsedHolds` | internal/db/gen/occupancy.sql.go:183-194 | a sweep takes back a row if and only if it is a hold whose time is up |
| `Terms.HoldLastsItsTime` | internal/booking/sweeper.go:20-41 | a room taken on the website is still held after a sweep if and only if less than the hold's time has gone by |
| `Terms.OpenedPaymentIsNotExpired` | internal/db/gen/bookings.sql.go:113-126 | over every run short of the grace, settings unchanged, a stay with an opened payment is not expired, however often the sweeper runs |
| `Terms.ScanListsExactly` | internal/db/gen/payments.sql.go:165-171 | a booking is listed for a charge if and only if it is confirmed, scheduled for today or before, unflagged and owing; for a warning, scheduled for tomorrow or before and not yet told as well |
| `Terms.ScanGoesByDate` | internal/db/gen/payments.sql.go:165-171 | either scan works from the earliest charge date on and lists nobody twice |
| `Terms.ChargedAreWarnedTheDayBefore` | internal/payments/payments.go:873-895 | whoever a day's charge scan lists was on the warning list of the day before or told already, on the same rows |
| `Terms.BlocksOnTheCalendar` | internal/console/calendar.go:156-209 | a block goes in if and only if nobody has the room on any of its nights, and only a block comes out |
| `Protocol.SecureRoomKeeps` | internal/payments/payments.go:575-647 | securing a room ends with every room of the stay held as a booking or with a refusal, never touches another booking's rows, and always succeeds for a confirmed stay |
| `Protocol.ReclaimKeeps` | internal/payments/payments.go:615-647 | re-claiming keeps the exclusion constraint and everybody else's rows at every room on the way |
| `Protocol.OneBookingStep` | internal/payments/payments.go:265-397 | a step that touches one booking keeps the invariant for all of them |
| `ProtocolSteps.ChargeKeeps` | internal/payments/payments.go:265-397 | every charge, whatever it is answered, keeps the invariant and confirms to the guest exactly when it confirms |
| `ProtocolSteps.CreateKeeps` | internal/booking/booking.go:228-342 | a new booking, by guest or by phone, keeps it |
| `ProtocolSteps.SweepKeeps` | internal/db/gen/occupancy.sql.go:183-194 | taking back expired holds keeps it, other statements between the two halves of a sweep included |
| `ProtocolSteps.ExpireKeeps` | internal/db/gen/bookings.sql.go:113-126 | so does expiring what was abandoned |
| `ProtocolSteps.CancelKeeps` | internal/payments/cancel.go:63-143 | and cancelling |
| `ProtocolSteps.RefundKeeps` | internal/payments/payments.go:481-545 | and recording a refund |
| `ProtocolSteps.EveryStep` | internal/payments/payments.go:1-26 | every action keeps: status and occupancy agree, rooms are exclusive, gross is the ledger, one confirmation per confirmed stay, a website stay confirmed by its money; and each booking only moves forward |
| `ProtocolRuns.EveryRun` | internal/payments/payments.go:1-26 | the same over every run, and nothing a run did is undone |
| `ProtocolRuns.NoRoomNightIsSoldTwice` | internal/payments/payments.go:575-704 | in every reachable state no two confirmed stays share a room-night and no block covers one |
| `ProtocolRuns.ReclaimSucceedsWhenFree` | internal/payments/payments.go:615-647 | the re-claim succeeds if and only if every room is free and the rooms do not overlap each other |
| `ProtocolRuns.LatePaymentConfirmsExactlyWhenRoomsAreFree` | internal/payments/payments.go:575-589 | money after the hold was swept confirms the stay if and only if all its rooms are still free, and is otherwise all due back |
| `ProtocolRuns.ConfirmedAtMostOnce` | internal/payments/payments.go:375-395 | over every run a booking becomes confirmed at most once and the guest gets exactly that many confirmations |
| `ProtocolRuns.CancelledIsTerminal` | internal/payments/payments.go:353-373 | a cancelled stay stays cancelled and holds no room whatever is delivered to it later |
| `ProtocolRuns.CreateTakesTheRoomOrNothing` | internal/booking/booking.go:299-342 | a booking made holds its room, by an expiring hold exactly when it is pending; one refused changes nothing |
| `ProtocolRuns.SweepExpiresExactlyTheAbandoned` | internal/db/gen/bookings.sql.go:113-126 | a booking is expired if and only if it is pending with no live hold and no payment opened within the grace; nothing else about it changes |
| `ProtocolRuns.SweepIsIdempotent` | internal/booking/sweeper.go:20-41 | a second sweep at the same instant changes nothing |
| `ProtocolRuns.GrossFollowsTheLedgerExactlyForCharges` | internal/payments/payments.go:288-335 | after a charge the gross equals the sum of the succeeded charges if and only if the charge is not labelled a refund, a label validate lets through |
| `ProtocolRuns.GrossIsTheLedger` | internal/payments/payments.go:313-335 | in every reachable state gross is the sum of the succeeded non-refund rows, and never decreases |
| `ProtocolRuns.RedeliveryIsInert` | internal/payments/payments.go:288-322 | the same charge, failure or refund delivered again at any later point changes nothing but the event log |
| `ProtocolRuns.FailureAndSuccessBothKept` | internal/payments/payments.go:430-454 | a failure and a success on one intent are both recorded, and the money counted once, in either order |
| `ProtocolRuns.ConfirmedMeansPaid` | internal/payments/payments.go:337-351 | every confirmed stay not taken by phone has collected at least what was due at booking |
| `ProtocolRuns.OpenedPaymentIsNeverShort` | internal/payments/open.go:107-121 | a payment opened here and captured in full is never answered Underpaid, whatever lands in between |
| `ProtocolRuns.ConfirmedStayNeverLosesItsRoom` | internal/payments/payments.go:590-613 | a confirmed stay's payment is never answered RefundDue |
| `ProtocolRuns.RefundDueClosesOut` | internal/payments/payments.go:649-704 | RefundDue cancels, gives back every room and leaves a job in one step; the job is for everything if and only if no job with its own amount was waiting |
| `ProtocolRuns.LateChargeAfterCancelIsAbsorbed` | internal/payments/refund.go:36-51 | the other side: after a guest's cancellation the guest is told the whole gross is coming back and the waiting job still carries the smaller share |
| `RefundRuns.EveryStepKeeps` | internal/payments/refund.go:87-119 | beginning, asking, recording, dying and everything else the inn does keep all runs on one plan, the records at most one slice behind the money |
| `RefundRuns.MadeFinds` | internal/gateway/stripe.go:176-195 | a key names its own transfer: asking again for a slice gets the refund already made for it |
| `RefundRuns.PaymentLands` | internal/payments/refund.go:22-24 | a payment landing while a refund is under way only extends the plan |
| `RefundRuns.NeverMovesTooMuch` | internal/payments/refund.go:76-86 | however runs overlap and die, the processor never moves more than the target, than was collected, or out of any intent than it took, and nothing is recorded that was not moved |
| `RefundRuns.FinishedRunRecordsWhatIsOwed` | internal/payments/refund.go:87-119 | a run that reaches its end leaves the recorded refunds at no less than what was owed on what it read: at exactly the target when the payments it read cover it, whatever landed later, and at exactly what is owed when nothing has landed since |
| `RefundRuns.RefundDueComesBackWhole` | internal/payments/payments.go:649-704 | a finished refund of everything has recorded exactly the booking's gross |
| `RefundJob.Refund` | internal/payments/refund.go:87-119 | the loop is a run of that system, errors and outages included; it gives up only when the processor does, with every slice before that recorded; when it ends without an error on a refund on plan, recorded refunds equal what was owed equal what moved |
| `RefundJob.SendSlice` | internal/payments/refund.go:93-113 | one turn is a Send and a RecordSlice, and a refused record leaves the asking done |
| `RefundJob.Processor.Refund` | internal/gateway/stripe.go:168-195 | the same booking, intent and amount get the refund already made |
| `BalanceRuns.EveryStepKeeps` | internal/payments/balance.go:132-226 | scans, calls, records, crashes and webhooks, redeliveries of any recorded charge included, keep the one balance charge in step with the ledger and the gross |
| `BalanceRuns.BalanceTakenOnce` | internal/payments/balance.go:106-131 | over every interleaving in which no other payment lands on the stay, redeliveries of what has landed included, the card is charged nothing or the whole balance once, the charge stands on the ledger once, and paid is what it was or the total, the latter if and only if the charge stands there |
| `BalanceRuns.EveryProperStepStands` | internal/payments/balance.go:124-128 | whatever else is paid in between: what is asked under a key is no less than what is still owed, a charge on the ledger leaves its stay covered, and no kept answer or ledger row is ever undone |
| `BalanceRuns.RecordedChargeIsTheLast` | internal/payments/balance.go:124-128 | with nothing assumed of other payments: once an attempt has recorded its charge the stay is covered, on no later scan, never charged again, and the charge stands on the ledger once |
| `BalanceRuns.RecordedBalanceIsNeverDueAgain` | internal/payments/payments.go:834-871 | once an attempt has recorded its charge the stay is paid in full and no scan on any later day lists it |
| `BalanceRuns.RetryCompletesWithoutChargingAgain` | internal/gateway/stripe.go:162-166 | charged but not recorded: the next scan settles it without a second charge if and only if the card on the booking is still the one charged |
| `BalanceRuns.RetrySettlesExactlyWhenTheRequestIsTheKeptOne` | internal/gateway/stripe.go:162-166 | the same whatever else was paid in between: the next scan settles it, without a second charge, if and only if the whole request is the kept one, card and amount owed; otherwise nothing changes |
| `BalanceRuns.DeclineFlagsOnce` | internal/payments/balance.go:191-212 | a decline leaves the stay confirmed, flags it and tells the guest the first time it is recorded, and takes it out of every later scan |
| `BalanceRuns.CountedOnce` | internal/payments/payments.go:10-16 | unique keys put a succeeded charge on the ledger at most once |
| `BalanceJob.ChargeOne` | internal/payments/balance.go:165-226 | no card, decline, outage and success, each ending as the matching steps |
| `BalanceJob.ChargeBalances` | internal/payments/balance.go:132-157 | reads the list itself, works it in order, and ends as the batch of steps does, with its count and its failures. On its day it lists exactly the confirmed, unflagged stays whose date has come and who still owe; every other booking keeps its row, its ledger rows and its kept answer. On books that stand each listed stay is paid in full if its own card is charged and otherwise owes what it did |
| `BalanceJob.EveryGuestStandsAlone` | internal/payments/balance.go:124-131 | a guest is reported collected if and only if they have a card, their line is up and the answer under their own key is a charge, whatever the other lines are; they are then paid in full and on no later scan, and otherwise their money is where it was |
| `BalanceJob.AskedForExactlyWhatIsOwed` | internal/payments/balance.go:165-190 | a listed guest is asked for exactly what is left of the total, of the card on their booking; with either half of the card missing nothing is asked, and the stay is flagged and told what it owes |
| `BalanceJob.DeclinedGuestIsFlagged` | internal/payments/balance.go:188-212 | a decline, named by the processor or not, flags the stay and tells the guest what is owing |
| `BalanceJob.Terminal.ChargeOffSession` | internal/gateway/stripe.go:142-174 | one kept answer per booking code, and an error when the request under the key has changed |
| `WarnRuns.WarnBalances` | internal/payments/balance.go:46-62 | reads the list itself: exactly the confirmed, unflagged stays owing money whose charge is tomorrow or was due before, and who were not told; then one transaction a guest, in order, each message naming what is left of the total, and every guest sent to or among the failures; nothing else changes |
| `WarnRuns.BatchWarnsEachOnce` | internal/payments/balance.go:28-45 | each listed guest whose transaction commits is warned once and off the list; each other one is told nothing and still on it, whoever failed around them |
| `WarnRuns.BatchIsARun` | internal/payments/balance.go:46-62 | a batch nobody interrupts is a reading of the list and its warnings in the system of many batches |
| `WarnRuns.WarnedAtMostOnceExactlyWithoutOverlap` | internal/payments/payments.go:873-879 | over every run of batches, crashes, failed transactions and everything else a guest is warned at most once if and only if no batch reads their name while another still holds it and both get to warn them |
| `WarnRuns.ReadingLeadsToTwoWarningsExactlyWhenAnotherHolds` | internal/payments/payments.go:873-879 | from any sound state a batch that reads a guest's name can, with no further reading, lead to that guest being warned twice if and only if another batch holds the name already |
| `WarnRuns.WarnedAtMostOnceWhenReadsWait` | internal/payments/balance.go:36-42 | from empty tables: once at most for every guest whose name is only read when no other batch still has it |
| `WarnRuns.TwoReadersWarnTwice` | internal/db/gen/payments.sql.go:372-388 | the input that fails, for all tables with anybody on the list: two servers read it in turn and the first on it is warned twice, because the mark is set without looking |
| `Calendar.Group` | internal/availability/calendar.go:108-138 | the one pass over the rows builds Grouped |
| `Calendar.GroupingLosesNothing` | internal/availability/calendar.go:104-107 | the runs read off in order are exactly the input rows |
| `Calendar.RunsAreMaximal` | internal/availability/calendar.go:104-107 | for any rows at all, no run could be longer: neighbours in a room leave a night between them, neighbouring rooms are different rooms |
| `Calendar.CalendarIsOrderedAndMaximal` | internal/db/gen/availability.sql.go:92-108 | drawn from the ordered listing, each run of a room ends, with a night unsold, before the next begins, and none could be longer |
| `Calendar.CountMeansEveryNight` | internal/db/gen/availability.sql.go:178-184 | counting the priced nights is asking that every night be priced |
| `Calendar.OverlapMeansASharedNight` | internal/db/gen/availability.sql.go:172-176 | the range overlap of the search and the night containment of the calendar are one condition |
| `Calendar.OfferedNightByNight` | internal/db/gen/availability.sql.go:159-184 | the search offers a room if and only if every night of the stay is sellable and its length meets the minimum at arrival |
| `Calendar.SoldToPartiesThatFit` | internal/db/gen/availability.sql.go:159-184 | a room is sold to every party it sleeps, to the last bed, and to no larger one |
| `Calendar.ListingGoesByRoomAndNight` | internal/db/gen/availability.sql.go:92-108 | the listing goes by the rooms' own order, and within a room by night |
| `Calendar.CalendarAgreesWithSearch` | internal/availability/calendar.go:46-56 | for every window, party, room and stay inside the window the search offers the room if and only if some run contains the stay and its length meets the minimum stored at the arrival night |
| `Calendar.Departures` | web/src/lib/spans.ts:55-70 | the set of checkouts is exactly those some run allows from that arrival |
| `Calendar.Arrivals` | web/src/lib/spans.ts:43-53 | the dates from which some run houses the whole minimum stay, whatever the longest stay |
| `Calendar.PickerAgreesWithSearch` | web/src/lib/spans.ts:3-13 | the picker covers a stay if and only if the search, with the same longest stay, finds a room for it |
| `Calendar.ArrivalsAgreeWithUncappedSearch` | web/src/lib/spans.ts:18-20 | the arrivals are exactly the dates the search would find some stay from if there were no longest stay |
| `Calendar.ArrivalHasNoDepartureExactlyWhenEveryMinimumIsOverTheLongestStay` | web/src/lib/spans.ts:43-70 | an arrival that lets the guest leave on no date: if and only if in every run that makes it an arrival the minimum is over the longest stay |
| `Calendar.Clamp` | internal/availability/calendar.go:140-159 | never before today, never inverted, within the horizon if and only if the window starts before it, left alone when it is inside already, a year from today when nothing is asked for, and otherwise moved only as far as it must be |
| `RateLimit.BucketMap.AllowCall` | internal/httpx/ratelimit.go:98-129 | refill, charge and sweep in place are one Allow |
| `RateLimit.BucketMap.SweepIdle` | internal/httpx/ratelimit.go:132-142 | at most once per TTL, drops exactly the buckets idle longer than it |
| `RateLimit.SweepsOnceAnHour` | internal/httpx/ratelimit.go:131-142 | buckets are looked through at most once an hour, and dropped then if and only if unused for over an hour; no other changes |
| `RateLimit.AllowLevel` | internal/httpx/ratelimit.go:98-129 | a call spends no more than its key had and has earned since, a dropped and recreated bucket included |
| `RateLimit.GrantsAreBounded` | internal/httpx/ratelimit.go:98-142 | in any window [s, e] a key is granted at most burst + ceil((e - s) / interval), sweeps and recreation included |
| `RateLimit.RefusedMeansTheWindowIsSpent` | internal/httpx/ratelimit.go:98-129 | the other side of it: when a call of a new limiter is refused there is a time since when its key has been granted at least the burst and one token for every whole interval since |
| `RateLimit.ClockGoingBackIsForgiven` | internal/httpx/ratelimit.go:119-121 | after any call its bucket was last seen no later than the call, so a clock set back keeps nobody waiting and costs nobody a token |
| `RateLimit.BoundHoldsExactlyWhenIdleBucketsAreFull` | internal/httpx/ratelimit.go:63-66 | a new limiter keeps that bound over every run if and only if burst * interval is at most the idle TTL and one nanosecond |
| `RateLimit.EveryLimiterIsBounded` | internal/httpx/ratelimit.go:21-60 | the five limiters the server runs all keep it |
| `RateLimit.PatientCallerIsNeverRefused` | internal/httpx/ratelimit.go:113-125 | a caller whose calls are an interval apart is never refused |
| `Jobs.Runner.EnqueueJob` | internal/db/queries/jobs.sql:3-30 | added unless the key is taken; no key never conflicts, no instant means now |
| `Jobs.Runner.EnsurePeriodic` | internal/jobs/jobs.go:210-224 | every periodic kind with a name has its row afterwards, rows already there are untouched, and only missing ones are added, due now |
| `Jobs.Runner.ClaimNext` | internal/db/queries/jobs.sql:32-55 | leases the due row that fell due first, or finds that none is due |
| `Jobs.Runner.Once` | internal/jobs/jobs.go:138-179 | claims and settles one job: success deletes or reschedules, failure and unknown kinds back off |
| `Jobs.Runner.Drain` | internal/jobs/jobs.go:114-132 | ends, with nothing due, every job that was due run once in the order they fell due, and every other row as it was |
| `Jobs.JitterIsLost` | internal/jobs/jobs.go:282-298 | against the comment there: the jitter never reaches the row, because whole seconds are stored; a failed job waits between 2 seconds and an hour |
| `Jobs.DelayDoublesToAnHour` | internal/jobs/jobs.go:282-298 | two seconds after the first failure, then twice the delay before, and an hour once that is less |
| `Jobs.RunLeavesTheRow` | internal/jobs/jobs.go:138-179 | a row that was run is gone if and only if it was one-shot and worked; otherwise it waits its interval with a clean record, its delay with the reason, or an hour when nobody knows its kind, with one more attempt counted and kind and key as they were |
| `Jobs.LeaseLastsFiveMinutes` | internal/db/queries/jobs.sql:32-55 | a claimed row is due again if and only if five minutes have gone by |
| `Jobs.QueuedWorkIsANewRow` | internal/db/queries/jobs.sql:3-30 | queued if and only if its key is empty or not there: one new row, due at its instant or now, with no attempts |
| `Jobs.OldPeriodicWorkWaitsAnHour` | internal/db/queries/jobs.sql:43-48 | attempts count every claim and are never reset, so a failure waits an hour if and only if the row had been claimed eleven times before, however often it had worked |
| `Jobs.DueAgainAtOnceExactlyWhenRepeatIsUnderASecond` | internal/jobs/jobs.go:161-172 | a job just run is due again at the same instant if and only if it is periodic, worked, and repeats in under a second |
| `JobRuns.JobGoesOnlyWhenItsHandlerSucceeded` | internal/jobs/jobs.go:11-15 | over many runners and crashes a row disappears only after its handler returned success, and only if it is one-shot |
| `JobRuns.PeriodicKindHasOneRowForEver` | internal/jobs/jobs.go:83-90 | after ensurePeriodic a periodic kind has exactly one row in every later state, the same one |
| `JobRuns.OnceIsARun` | internal/jobs/jobs.go:134-179 | an uninterrupted Once is the claim, the handler and the write of the many-runner system |
| `JobRuns.LeasesKeptExactlyUnlessCutShort` | internal/jobs/jobs.go:11-15 | a step keeps leased rows hidden and leases exclusive if and only if it does not put a job back before another runner's live lease on it is up |
| `JobRuns.JobIsSharedNextExactlyWhenALeaseIsCutShort` | internal/jobs/jobs.go:11-15 | from any state with leases in order a step can lead, after a wait and a claim, to two runners on one job if and only if it puts a job back before another runner's live lease on it is up |
| `JobRuns.LeasesAreExclusiveUnlessCutShort` | internal/jobs/jobs.go:11-15 | over every run with no such step no two runners hold one job inside a live lease |
| `JobRuns.LeasesAreExclusiveWhenNobodyOverruns` | internal/jobs/jobs.go:46-50 | as long as every runner writes within its lease, no two ever hold one job |
| `JobRuns.OverrunSharesAJob` | internal/jobs/jobs.go:11-15 | the run that shows it fails otherwise: a late failure puts the job back while another runner is at work on it |
| `Enrollment.EveryStepKeeps` | internal/admin/enroll.go:84-94 | the right to enrol is in one place at most and only ever passed on: open invitation, a begin, a challenge, a finish, a passkey |
| `Enrollment.InvitationMakesAtMostOnePasskey` | internal/admin/enroll.go:84-94 | over every interleaving of begins, finishes, failures, releases, crashes and expiries an invitation makes at most one passkey, and once it has nobody else is on the way to one |
| `Enrollment.FailureHandsTheInvitationBack` | internal/admin/enroll.go:92-94 | after a release the invitation can be claimed again if and only if it has not expired |
| `Enrollment.ClaimedExactlyWhileOpen` | internal/db/gen/admin.sql.go:13-29 | a request gets the invitation if and only if it is unused and not yet expired, and nothing else changes |
| `Enrollment.InvitationLastsFifteenMinutes` | internal/admin/admin.go:112-117 | over every run after it was issued an invitation is claimable only within fifteen minutes, and while unused and there it is claimable all that time |
| `Enrollment.ChallengeIsTakenOnce` | internal/db/gen/admin.sql.go:45-57 | a challenge is taken if and only if it is there and not expired, and goes further if and only if it is one to register on an invitation still there |
| `Enrollment.EnrolmentMakesThePasskeyWithinFiveMinutes` | internal/admin/enroll.go:184-259 | an enrolment nothing goes wrong with makes its passkey if and only if the phone answers within five minutes, and spends the invitation either way |
| `Enrollment.PasskeysStay` | internal/admin/enroll.go:84-94 | over every run a passkey stays and stays with the invitation that made it |
| `Enrollment.SweepDropsOnlyTheExpired` | internal/db/gen/admin.sql.go:659-674 | a sweep drops a challenge if and only if its time is past, and an invitation if and only if its time is past and nobody used it |
| `Enrollment.Console.BeginEnrollment` | internal/admin/enroll.go:95-149 | claims first and releases on every way out but a stored challenge |
| `Enrollment.Console.FinishEnrollment` | internal/admin/enroll.go:184-259 | takes the challenge first; only a refused registration hands the invitation back |
| `Enrollment.Console.ClaimEnrollment` | internal/db/gen/admin.sql.go:13-29 | check and claim in one statement: exactly the unused, unexpired invitation is claimed |
| `Enrollment.Console.ReleaseEnrollment` | internal/db/gen/admin.sql.go:587-597 | the invitation is unused again |
| `Enrollment.Console.StoreCeremony` | internal/admin/login.go:139-160 | a challenge is on file for five minutes unless its id was taken |
| `Enrollment.Console.ConsumeCeremony` | internal/db/gen/admin.sql.go:45-57 | a challenge is taken once, and not after it expired |
| `Enrollment.Console.SweepExpiredAuth` | internal/db/gen/admin.sql.go:659-674 | drops expired challenges and expired unused invitations, never a used one |
| `Printers.Money` | internal/email/data.go:195-212 | the left-to-right loop writes the amount MoneyText describes |
| `Printers.LoopWritesThousands` | internal/email/data.go:203-209 | counting from the left as the loop does writes the same text as taking threes off the right |
| `Printers.CommasStandBeforeEveryThird` | internal/email/data.go:203-209 | commas stand before every third character from the end and nowhere else |
| `Printers.MoneyReadsBackExactlyUnlessLeast` | internal/email/data.go:187-212 | read without sign, dollar mark and commas an amount is itself again, for every int64 if and only if it is not the least |
| `Printers.PercentReadsBack` | internal/pricing/pricing.go:36-55 | a non-negative rate read as a decimal is itself, has a point exactly when it is not a whole percent, and never a trailing zero |
| `Printers.NegativePercentReadsBackExactlyWhenWhole` | internal/pricing/pricing.go:44-55 | a negative rate reads back if and only if it is a whole percent |
| `Media.Widths` | internal/media/media.go:284-292 | the loop over the ladder computes WidthsOf |
| `Media.WidthsClimbToTheCanonical` | internal/media/media.go:278-283 | strictly rising, never above the canonical width, ending at it, each rung below a standard one more than a tenth narrower |
| `Media.SplitInvertsRung` | internal/media/media.go:454-469 | a name taken apart gives back the stem and width it was made of, for every non-empty stem |
| `Media.RungInvertsSplitExactlyWhenTheNumberIsPlain` | internal/media/media.go:454-469 | a name that splits is a rung if and only if its number has no sign and no leading zero |
| `Media.ZeroPaddedNameIsTakenForARung` | internal/media/media.go:454-469 | a name with that shape's look and not its spelling, which splits all the same |
| `Media.NameIsOneElement` | internal/media/media.go:471-484 | a name that comes out is what followed the prefix, starts with no dot, and holds a slash if and only if it is the lone slash |
| `Media.EveryPlainElementIsAName` | internal/media/media.go:471-484 | the other way round: every element with no slash and no dot in front comes out as it is |
| `Media.FitIsNeverLarger` | internal/media/media.go:332-351 | only ever down to 2400 on the longest edge, both sides in proportion to within a pixel, and a side vanishes if and only if the other is over 2400 times it |
| `Media.Store.Save` | internal/media/media.go:193-270 | a path comes back only when every rung under it is on disk in both formats, and nothing on disk is taken away |
| `Media.Store.Write` | internal/media/media.go:299-330 | a name that is there is left alone |
| `Media.SourcesNamesOnlyWhatWasWritten` | internal/media/media.go:408-441 | every file in the ladder derived from a returned path was written by the save that returned it, each width beside its own file, in both formats unless there is only one |

## Left out

- Guest details: validation of names, addresses and party size, normalising a code to upper case, and the read-back of a booking (view, Get).
- HTTP, routing, templates, mail senders, push delivery, pages: messages are entries in the outbox with the figures they carry.
- Stripe, WebAuthn, image codecs, SHA and HMAC: the processor is what it keeps under an idempotency key, assumed not to age out within a retry window; a registration is accepted, refused or broken.
- Postgres isolation: a transaction is one step. Row locking and the translation of deadlock codes are not modelled.
- occupancy.Create: a claim is keyed by its room and span instead of a row id, which the exclusion constraint makes the same thing.
- int64 overflow in prices and sums; only the printers treat the width of an int64, because it shows there.
- A database statement that took effect though its answer was lost, other than at the processor.
- Rooms, rates and seasons as data an owner edits; how a season becomes a row of the rate calendar.
- Refund targets: one target per booking in the refund runs. Several are what the absorption and slice lemmas in ProtocolRuns and Ledger are about.
- Global bound on paid: a guest's intent and one keyed in by the owner can both be captured, so paid equal to the total is claimed when the balance is the only new payment, and paid at least the total whatever else lands.
- Order of a scan: by charge date; the source breaks ties by booking id, which a booking here does not have.
- console.Refund: its comment says it does not cancel; recording the refund does, and the model follows the code.
- Deleting a passkey, sessions, and the account a passkey joins: an invitation's passkeys are counted as made.
- Srcset text: a ladder is its list of files and widths, without the commas between them.
- Calendar.Clamp: month arithmetic is a parameter, because what a month after the 31st is belongs to the civil package.
- fit and resize on heights: only the side lengths are modelled, not the pixels.
