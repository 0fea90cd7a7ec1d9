# Bifrost hub: a verified model

Bifrost is a swap hub between the Fiber and the Lightning networks. A client asks for a signed quote, redeems it
for an order, and pays a hold invoice on one network; the hub pays the client's invoice on the other network
against the same payment hash, and collects the held payment with the preimage that this reveals. This project
models the hub in Dafny and proves what its protocol promises. Where the code does not keep a promise, a lemma
shows a run or an input on which it fails, and another says exactly when it holds.

`dafny verify dfyconfig.toml` checks everything.

## What is modelled

**One order.** `OrderMachine` is one order as a state machine that stops at every persisted record and at every call
on a node, so that events, duplicates, wrong preimages, cancellations, sweeps, throwing calls, crashes and restarts
can fall between any two stops. `MachineSteps` describes its steps flatly. `MachineSafety`, `MachineHistory` and
`MachineRecovery` prove properties of all its runs; `MachineTerms` holds every call and record against the request that
created the order, and `MachineOutcomes` follows each stimulus from an order at rest to the end of its task; `Ports`
adds what Fiber and Lightning nodes can answer. In this machine a crash loses no record: what is proved of it holds in
every run whose log forgets nothing.

**The log.** `OrderLog` and `OrderStore` are the append-only file: replaying it, crashes in the middle of an append,
and what a restart finds. `OrderDisk` proves what the text of the file amounts to, and `OrderLife` is one order over
it: processes die anywhere in an append, and the next one knows only what it reads. There each result above either
survives what is forgotten or comes with the exact condition on which it fails; `LifeDepartures` holds the failing
lives.

**The hub.** `Hub` is all orders over one table, one hash index, one file and many processes. `HubSafety` proves what
holds over all of them at once, `HashSafety` what holds of all that is ever seen under one payment hash, and exactly
which deaths take it away, `Isolation` that the orders run apart, and `HubDepartures` that the failing lives are runs
of the hub. `OrderEngine` is the engine as a class over the store, and each of its methods moves exactly one order, by
exactly the step of the machine; `EngineRuns` ties runs of the class, its store and its files, through deaths and
restarts, to runs of the hub.

**Quotes.** `Rational` and `QuoteMath` are the exact integer arithmetic with its floors, ceilings and the search
loop. `QuoteService` issues quotes and holds them against the client's independent check; `Pricing` composes the
strategies behind them. `QuoteCache` remembers a quote until it is redeemed, once, or expires.

**Timelocks.** `Timelock` plans both legs, and follows the safety delta from the plan through the guard and the
ports to the blocks that really arrive.

**Texts.** `JsonText`, `Canonical` and `Signing` are canonical JSON down to UTF-16 code units and UTF-8 bytes, and
the bytes a signature covers. `Lines` and `LineStream` reassemble newline-delimited messages from chunks.

sha256, the fee schedule, the JSON parser and the pricing strategy are function parameters: nothing is assumed of
the hash, and of the order log's JSON only the laws of `OrderLog.Json`. The nodes' answers, the clock and the ids are
inputs of the steps. The class `OrderEngine` reads the clock once for a step; times are integers. `Basics` holds a few
shared types and facts.

## Where the code departs from its protocol

- A cancellation is accepted or refused when it is requested, but runs when its turn in the queue comes. If a
  dispatch overtakes it, a paid order can be failed and its claim on the incoming leg cancelled
  (`OvertakenCancelHappens`; `CancellationGivesAwayExactly` and `ExclusiveUnlessOvertaken` say when), and an order can
  be abandoned while its payment is under way (`AbandonedInFlightHappens`; `AbandonedExactly` says when).
- Section 6 of the protocol asks for the expiry inequality before every dispatch. The second dispatch, after the
  node said it has no payment, does not check it (`LateRedispatchHappens`, `WindowKeptExactly`).
- A crash in the middle of an append leaves a fragment; the next record is written right behind it and lost with it,
  although it was synced to disk before its side effect (`DurableRecordIsForgotten`, `RecordIsKeptExactly`). So an
  order can be paid after its hold was cancelled (`PaidAfterCancelHappens`), be FAILED and PENDING again
  (`FailureIsForgottenHappens`), be paid with no INCOMING_HELD on record (`PaidWithoutHoldHappens`), and, if a process
  dies just before the newline of a dispatch, be paid twice (`PaidTwiceHappens`). It can also be forgotten altogether,
  and its hash with it: the store then takes a new order under the same hash, and pays it although the first one was
  paid (`HubPaysForgottenAgain`) or its hold cancelled (`HubPaysForgottenCancel`). `DeathPaysTwiceExactly` and
  `DeathMovesAfterCancelExactly` say which deaths let money move so, `OutcomeStaysExactly` and `OutcomeIsFinalExactly`
  which outcomes are there for good, `PaidWithoutHoldExactly` when a hold is missing, and `SurvivesForgetting` and
  `OnePaymentPerHash` what remains.
- The engine takes edges the protocol's diagram lacks: a lost hold fails an order in any state
  (`LostHoldFailsTheOrder`), and a cancellation takes INCOMING_HELD straight to FAILED. `MachineSafety.Edge` lists
  all edges.
- Recovery does not resume an order that crashed in INCOMING_HELD, nor one whose payment a Fiber node reports as
  successful (`RecoveryConvergesExactly`, `FiberRecoveryEndsExactly`).
- A request to pay an invoice may fix the give side; the quote then passes the client's check only if the fees
  happen to come to the right sum (`PayInvoiceWithGiveSide`).
- From Lightning to Fiber the planner exchanges the two amounts of the quote (`AmountsAreQuotedExactly`).
- If a quote id is reused while a quote is live under it, the first quote is lost and the cache's counters no
  longer add up (`AccountsBalanceExactly`).
- The sweep refunds an order in flight without asking the node about its payment. Nothing can settle after this
  decision unless its record is forgotten (`NothingSettlesAfterCancelPerHash`); that the hub then never
  loses a payment is not claimed.

## Model

| member | source | states |
|---|---|---|
| MachineSafety.StepSafe | bifrostd/src/orders/engine.ts:211-483 | one stretch of any task, or a crash, keeps the safety invariant and the agreed terms of the order |
| MachineSafety.StartsSafe | bifrostd/src/orders/engine.ts:87-157 | the invariant holds when a process starts over any record whatever, and right after an order is created |
| MachineSafety.SettleOnlyVerified | bifrostd/src/orders/engine.ts:338-358 | rule R1 and the hash rule: in every run, over any log, the hold is settled only with a preimage of its hash and only while OUTGOING_SETTLED is persisted |
| MachineSafety.WriteAheadOfCalls | bifrostd/src/orders/engine.ts:302-392 | rule R5, for the record as the process knows it: a pay sees OUTGOING_IN_FLIGHT persisted, a cancel REFUNDING or FAILED, and each call is about this order's own hash, network and amounts |
| MachineSafety.NothingSettlesAfterCancel | bifrostd/src/orders/engine.ts:360-392 | after a cancel was issued, no pay and no settle follows, in any run whose log forgets nothing |
| MachineSafety.PaysAreSeparated | bifrostd/src/orders/engine.ts:435-471 | rule R4 across crashes that forget nothing: between any two pays the node answered that it has no payment |
| MachineSafety.AtMostOneAccepted | bifrostd/src/orders/engine.ts:303-336 | a node whose "none" is truthful accepts at most one payment of an order whose log forgets nothing |
| MachineSteps.StepEdits | bifrostd/src/orders/engine.ts:217-392 | each step writes at most one record, by one of the engine's edits, and shows the outside just these calls and answers; the flat description that the invariants rest on |
| MachineTerms.CallsAreAsAgreed | bifrostd/src/orders/engine.ts:120-157 | in every run of an order its record keeps the terms of its request, and every call on a node carries them: the hold is for the incoming amount, the payment is of the outgoing invoice with the fee ceiling of the outgoing amount, and each goes to its own network |
| MachineTerms.InvoiceIsTheNodes | bifrostd/src/orders/engine.ts:147-157 | whatever happens meanwhile, the record names exactly the hold invoice that the node answered with |
| MachineOutcomes.SweepCancelsExactly | bifrostd/src/orders/engine.ts:189-208 | rule R3's timer in numbers: a pass gives the hold of an order that is not paid up if and only if its reading plus the safety delta reaches the incoming expiry, and with which record and reason |
| MachineOutcomes.SweepSparesTheRest | bifrostd/src/orders/engine.ts:189-208 | orders that are paid, refunding or at their end are left alone |
| MachineOutcomes.HoldIsDispatchedExactly | bifrostd/src/orders/engine.ts:220-336 | an arriving hold leads to the payment, with its limit and its record, if and only if its expiry is more than the safety delta away; else to the cancel of the hold |
| MachineOutcomes.SuccessIsCollectedExactly | bifrostd/src/orders/engine.ts:229-358 | a success in flight leads to the settle, with its preimage, if and only if that is a preimage of the order's hash; else nothing changes |
| MachineOutcomes.CollectionIsRetried | bifrostd/src/orders/engine.ts:229-358 | the next report of a success settles again what a throwing settle left |
| MachineOutcomes.FailureRefundsExactly | bifrostd/src/orders/engine.ts:262-376 | a reported failure gives the hold up if and only if the order is held or in flight; the code says whether the node's reason names a missing route, in any case of letters |
| MachineOutcomes.MentionsExactly | bifrostd/src/orders/engine.ts:263 | the expression for that: "no" and "route", with at most one character between them that ends no line |
| MachineOutcomes.StuckRefundIsEnded | bifrostd/src/orders/engine.ts:360-376 | after a cancel that throws, the order stays refunding with its task over, and the report of the cancelled hold queued behind it fails it for its own reason |
| MachineOutcomes.LostHoldFails | bifrostd/src/orders/engine.ts:273-285 | a lost hold fails every order that has not ended, for the reason it has if it has one, and asks the nodes nothing |
| MachineOutcomes.CancellationFailsExactly | bifrostd/src/orders/engine.ts:166-179 | a cancellation is taken if and only if the order is PENDING or INCOMING_HELD, fails it, and cancels its hold |
| MachineOutcomes.RecoveryBegins | bifrostd/src/orders/engine.ts:396-406 | what recovery does first, by whether the invoice was recorded |
| MachineOutcomes.ThrowsAreCaughtExactly | bifrostd/src/orders/engine.ts:324-483 | a node call that throws touches no record; which calls return to the rest of recovery, which end the whole task, and that a refused payment is looked up |
| MachineOutcomes.RecordsAreStamped | bifrostd/src/orders/store.ts:66-78 | each new record is stamped with its step's reading, and its one row tells the time, the state left and entered, and the transition |
| MachineOutcomes.RecoveryOfFlightAsks | bifrostd/src/orders/engine.ts:396-471 | all that recovery of an order in flight asks of the nodes, to the last call, by the answer about its payment |
| MachineOutcomes.FoundFailureIsNamed | bifrostd/src/orders/engine.ts:446-452 | a failure found by the lookup refunds the order for the reason the node gave |
| MachineOutcomes.RecoveryRepaysExactly | bifrostd/src/orders/engine.ts:453-462 | rule R4 at recovery: it is paid again if and only if its node says that it has no payment |
| MachineHistory.RecordsStayConsistent | bifrostd/src/orders/engine.ts:120-300 | in every run the state fixes the leg statuses; success is one verified preimage on both legs, failure a cancelled hold; the reason is set exactly in REFUNDING and FAILED |
| MachineHistory.OutcomesAreFinal | bifrostd/src/orders/engine.ts:360-392 | terminal states, reasons once given, and trails are never taken back, in runs whose log forgets nothing |
| MachineHistory.TrailsClimb | bifrostd/src/orders/store.ts:66-78 | in runs whose log forgets nothing, every trail climbs along the edges, REFUNDING is entered only from INCOMING_HELD or OUTGOING_IN_FLIGHT, and an order writes at most six records |
| MachineHistory.NoPayBeforeHeld | bifrostd/src/orders/engine.ts:220-228 | rule R2: whenever a pay is issued, INCOMING_HELD is on record, in runs whose log forgets nothing |
| MachineHistory.TasksRunInOrder | bifrostd/src/orders/engine.ts:211-215 | tasks of an order start one at a time in the order enqueued, rejected or not; none is lost or run twice while the process lives |
| MachineHistory.NoTimelockWindow | bifrostd/src/orders/engine.ts:189-207 | on a clock that never runs backwards, with passes of the sweep that carry one older reading along, a sweep refunds a dispatched order only at or after its outgoing expiry, and every pay's limit ends at that expiry |
| MachineHistory.FirstDispatchInWindow | bifrostd/src/orders/engine.ts:307-316 | the first dispatch, from any record, is made while the incoming expiry is more than the safety delta away |
| MachineHistory.WindowKeptExactly | bifrostd/src/orders/engine.ts:453-462 | all pays of a run meet section 6 if and only if no answer "none" comes within the safety delta of the incoming expiry |
| MachineHistory.ExclusiveUnlessOvertaken | bifrostd/src/orders/engine.ts:166-179 | unless a cancellation is overtaken by the payment, an order that reached OUTGOING_SETTLED never has a cancel issued |
| MachineHistory.CancellationGivesAwayExactly | bifrostd/src/orders/engine.ts:176-178 | a queued cancellation that comes up gives a paid order's claim away if and only if the order is then in OUTGOING_SETTLED |
| MachineHistory.HoldGivenUpExactly | bifrostd/src/orders/engine.ts:159-207 | the hold of a dispatched order is given up if and only if its payment is reported as failed or a sweep starts while it is in flight, or a cancellation starts that would no longer be accepted |
| MachineHistory.AbandonedExactly | bifrostd/src/orders/engine.ts:159-179 | on a monotone clock, a run gives up a dispatched order's hold before its outgoing expiry, with no failed payment reported, if and only if a cancellation starts in OUTGOING_IN_FLIGHT or OUTGOING_SETTLED before then |
| MachineHistory.CreatedAbandonedExactly | bifrostd/src/orders/engine.ts:159-179 | the same for every run since creation |
| MachineDepartures.LateRedispatchHappens | bifrostd/src/orders/engine.ts:453-462 | every order that passes the guard, created more than the safety delta before its incoming expiry, has, for each instant within that delta of the expiry or after it, a run on a monotone clock that pays it then |
| MachineDepartures.OvertakenCancelHappens | bifrostd/src/orders/engine.ts:166-179 | every order created more than the safety delta before its incoming expiry, and whose hash has a preimage, has a run that pays it out and then cancels its incoming hold |
| MachineDepartures.AbandonedInFlightHappens | bifrostd/src/orders/engine.ts:159-179 | every order created more than the safety delta before its incoming expiry has a run, in one instant, that fails it and cancels its hold after the node said that its payment is in flight |
| MachineRecovery.BudgetShrinks | bifrostd/src/orders/engine.ts:396-483 | with nodes that carry out their calls, each stop of recovery brings it nearer its end |
| MachineRecovery.TasksEnd | bifrostd/src/orders/engine.ts:302-483 | no task gets stuck or goes on for ever: whatever the nodes answer and whichever calls throw, a task ends within seventeen stops |
| MachineRecovery.RecoveryOutcome | bifrostd/src/orders/engine.ts:396-483 | where recovery takes an order, for every consistent record and all answers of the nodes |
| MachineRecovery.RecoveryConvergesExactly | bifrostd/src/orders/engine.ts:87-92 | recovery ends an order if and only if the record and the answers allow it; an order in OUTGOING_SETTLED whose payment succeeded and whose hold stands succeeds |
| MachineRecovery.SettledHoldIsNotSettledAgain | bifrostd/src/orders/engine.ts:417-424 | an invoice the node reports as settled is not settled again: one query, and the order succeeds |
| MachineRecovery.RecoveredLawful | bifrostd/src/orders/engine.ts:87-92 | recovery is an ordinary run: it keeps every invariant and leaves nothing running |
| Ports.FiberRecoveryEndsExactly | bifrostd/src/orders/ports.ts:84-97 | with a Fiber node, recovery ends an order in flight if and only if the payment failed: success comes without a preimage |
| Ports.LightningRecoveryEndsExactly | bifrostd/src/orders/ports.ts:130-142 | with a Lightning node, the first update decides: failure fails the order, success with the right preimage completes it, all else leaves it in flight |
| Ports.FiberPaymentsAreTold | bifrostd/src/orders/ports.ts:84-97 | absence, flight, success and failure are each told from the Fiber node's answer if and only if it says so |
| Ports.LightningPaymentsAreTold | bifrostd/src/orders/ports.ts:130-142 | the same of the Lightning node's first update, or of there being none |
| Ports.FiberRepaysExactly | bifrostd/src/orders/ports.ts:84-97 | rule R4 at a Fiber node: recovery pays an order in flight again if and only if the node does not find the payment |
| Ports.LightningRepaysExactly | bifrostd/src/orders/ports.ts:130-142 | rule R4 at a Lightning node: if and only if it does not find the payment or has no update of it |
| Ports.ReceivedHoldIsPaidExactly | bifrostd/src/orders/ports.ts:70-78 | rule R2 at recovery: an order still PENDING, in time, is paid if and only if the node of its hold has received, or accepted, the payer's HTLC |
| Ports.BrokenLookupsDecideNothing | bifrostd/src/orders/ports.ts:93-96 | a lookup that breaks is no absence: the order stays as it is, and nothing is paid |
| Ports.LostHoldFailsTheOrder | bifrostd/src/orders/ports.ts:70-78 | a hold reported as cancelled or expired fails an order in any state at recovery, even a paid one |
| OrderDisk.FileIsDisk | bifrostd/src/orders/store.ts:130-156 | the file is its readable records and how it ends: after every append, whole or cut short after any number of characters |
| OrderDisk.LoadsMine | bifrostd/src/orders/store.ts:137-149 | loading finds of an order its own last record and its own rows, whatever stands between them |
| OrderLife.SurvivesForgetting | bifrostd/src/orders/engine.ts:302-392 | in any life, whatever is torn and forgotten: rule R1 and the hash rule, each call in its own persisted state and about its own order, a pay in the window or after "none", and records that agree with themselves and only climb |
| OrderLife.RecordIsKeptExactly | bifrostd/src/orders/store.ts:153-156 | a record is forgotten if and only if it was written behind something cut short |
| OrderLife.OtherRecordSparesExactly | bifrostd/src/orders/store.ts:153-156 | another order's record takes this order's last one with it if and only if that one lacked its newline |
| OrderLife.UnforgottenLivesAreRuns | bifrostd/src/orders/store.ts:112-156 | a life in which nothing of the order is forgotten is a run of the machine, so all that is proved of those holds |
| OrderLife.CleanOpeningsForgetNothing | bifrostd/src/orders/store.ts:117-156 | nothing is forgotten while every process opens its file where a record ends |
| OrderLife.ResurrectedMovesMoneyExactly | bifrostd/src/orders/engine.ts:396-483 | from what the next process finds, something can be paid or settled if and only if the order is found PENDING, OUTGOING_IN_FLIGHT or OUTGOING_SETTLED |
| OrderLife.SingleFlightSurvives | bifrostd/src/orders/engine.ts:435-471 | rule R4 survives every torn append except a dispatch that lacked only its newline |
| OrderLife.PaidWithoutHoldExactly | bifrostd/src/orders/engine.ts:220-228 | rule R2 fails for what the next process finds if and only if it finds the order in flight with no INCOMING_HELD on its trail |
| OrderLife.OutcomeStaysExactly | bifrostd/src/orders/store.ts:117-151 | an order in a terminal state is found in it by every process in every continuation, if and only if a record in that state got its newline |
| OrderLife.OutcomeIsFinalExactly | bifrostd/src/orders/store.ts:153-156 | the step that ends an order does so for every continuation, if and only if its record is written on a record boundary, newline included |
| LifeDepartures.PaidAfterCancelHappens | bifrostd/src/orders/store.ts:130-156 | every order created more than the safety delta before its incoming expiry has a life in which it is paid after its hold was cancelled |
| LifeDepartures.FailureIsForgottenHappens | bifrostd/src/orders/store.ts:130-156 | every order has a life in which it is FAILED and then PENDING again |
| LifeDepartures.PaidWithoutHoldHappens | bifrostd/src/orders/store.ts:130-156 | every such order has a life that pays it with no INCOMING_HELD on its record |
| LifeDepartures.PaidTwiceHappens | bifrostd/src/orders/store.ts:130-156 | every such order has a life that pays it twice with no denial in between |
| LifeDepartures.PaidAndForgottenHappens | bifrostd/src/orders/store.ts:130-156 | every such order has a life that pays it, not denied, and leaves no readable record of it |
| LifeDepartures.CancelledAndForgottenHappens | bifrostd/src/orders/store.ts:130-156 | every order has a life that cancels its hold and leaves no readable record of it |
| Hub.EachOrderLives | bifrostd/src/orders/engine.ts:182-215 | whatever the orders of a hub do to each other through one file, each lives a life of its own steps, the records of others, and the deaths |
| HubSafety.HubStaysOk | bifrostd/src/orders/store.ts:54-93 | in every run of the hub, whatever dies and is forgotten, no two orders share a hash, the index is exact, and every order keeps what survives forgetting |
| HubSafety.OnePaymentPerHash | bifrostd/src/orders/engine.ts:303-336 | rule R4 over all orders and all processes since the file was empty: a node truthful about a payment hash accepts at most one payment for it, unless a process died just before the newline of a dispatch |
| HashSafety.SingleFlightPerHash | bifrostd/src/orders/engine.ts:435-471 | rule R4 over all orders ever created under a hash and all processes: any two pays under it are separated by a denial, unless at some death a pay stood undenied and the next process found its order PENDING, or no order under the hash |
| HashSafety.PaidTwiceExactly | bifrostd/src/orders/engine.ts:303-336 | a process just started can pay a second time under a hash, with no denial in between, if and only if a pay stands undenied and it finds the order PENDING or no order under the hash |
| HashSafety.DeathPaysTwiceExactly | bifrostd/src/orders/store.ts:54-58 | in any run from an empty file in which no death forgot a pay before, the last death lets the next process pay a second time if and only if it forgets one so |
| HashSafety.NothingSettlesAfterCancelPerHash | bifrostd/src/orders/engine.ts:360-392 | over all orders ever created under a hash and all processes: nothing is paid or settled under it after a cancel, unless at some death after a cancel the next process found its order with more to do, or no order under the hash |
| HashSafety.MovedAfterCancelExactly | bifrostd/src/orders/engine.ts:396-483 | a process just started can pay or settle under a hash after a cancel if and only if one was seen and it finds the order PENDING, OUTGOING_IN_FLIGHT or OUTGOING_SETTLED, or no order under the hash |
| HashSafety.DeathMovesAfterCancelExactly | bifrostd/src/orders/store.ts:54-58 | in any run from an empty file in which no death forgot a cancel before, the last death lets the next process move money after a cancel if and only if it forgets one so |
| Isolation.OrdersRunApart | bifrostd/src/orders/engine.ts:182-215 | over one table, one index and one file, through any deaths between appends, each order ends as if it had run alone: record, trail, calls, and what is on disk of it |
| Isolation.InterleavingDoesNotMatter | bifrostd/src/orders/engine.ts:211-215 | two interleavings of the same per-order steps leave the same orders, in memory and for the next process |
| HubDepartures.HubPaysAfterCancel | bifrostd/src/orders/store.ts:130-156 | the hub has such a run from an empty file, for every order it accepts |
| HubDepartures.HubPaysTwice | bifrostd/src/orders/store.ts:130-156 | so it has one that pays twice |
| HubDepartures.HubPaysForgottenAgain | bifrostd/src/orders/store.ts:54-58 | every such order can be paid, not denied, and forgotten so completely that the hub is as on its first day; an order with its hash is then paid again |
| HubDepartures.HubPaysForgottenCancel | bifrostd/src/orders/store.ts:54-58 | every order the hub accepts can have its hold cancelled and be forgotten so; an order with its hash is then paid |
| OrderEngine.OrderEngine.CreateOrder | bifrostd/src/orders/engine.ts:94-145 | an order is created if and only if the engine has started, the hash is 0x and 64 lower-case hexadecimal digits, the incoming expiry is at least the outgoing one and the delta, and id and hash are new; refusals come in this order and store nothing; the record says what the request said, leg by leg, and all other orders are untouched |
| OrderEngine.OrderEngine.AskForInvoice | bifrostd/src/orders/engine.ts:147-152 | the hold invoice is asked for after the record is persisted, as the machine's step says |
| OrderEngine.OrderEngine.RecordInvoice | bifrostd/src/orders/engine.ts:153-157 | the invoice is recorded whatever has become of the order meanwhile |
| OrderEngine.OrderEngine.CancelOrder | bifrostd/src/orders/engine.ts:166-179 | refused unless PENDING or INCOMING_HELD when requested; else only queued |
| OrderEngine.OrderEngine.OnLegEvent | bifrostd/src/orders/engine.ts:182-186 | an event is queued for the order filed under its hash, and ignored if there is none |
| OrderEngine.OrderEngine.SweepExpiries | bifrostd/src/orders/engine.ts:189-193 | a pass of the sweep lists exactly the orders that are neither succeeded nor failed and whose incoming expiry its one reading plus the delta reaches |
| OrderEngine.OrderEngine.SweepNext | bifrostd/src/orders/engine.ts:192-206 | when the pass comes to an order its sweep is queued if and only if that reading plus the delta reaches its incoming expiry, on this order alone |
| OrderEngine.OrderEngine.Perform | bifrostd/src/orders/engine.ts:87-215 | whatever happens to an order while the process lives is a step of its machine, and moves no other order |
| EngineRuns.Act | bifrostd/src/orders/engine.ts:217-483 | each step of the class, memory and file together, is a deed of the hub, and the file grows by exactly the record the step writes |
| EngineRuns.Ask | bifrostd/src/orders/engine.ts:94-157 | so is each request for an order, accepted or not |
| EngineRuns.PerformAll | bifrostd/src/orders/engine.ts:211-215 | after any interleaving of any orders' actions on the class, every order stands where its own actions take its machine |
| EngineRuns.Live | bifrostd/src/orders/engine.ts:87-215 | every run of the class through deaths anywhere in an append, each followed by a process over what is left of the file, is a run of the hub |
| EngineRuns.LiveApart | bifrostd/src/orders/engine.ts:182-215 | with deaths between appends only, every order of the class ends as if it had run alone |
| EngineRuns.RunsKeep | bifrostd/src/orders/engine.ts:302-483 | every run of the hub from an empty file keeps the index exact and every order sound; and under every hash, over all its orders and processes, no money moves after a cancel unless a death forgot the cancel, pays are separated by denials unless a death forgot a pay, and a truthful node accepts one payment unless a dispatch lost its newline |
| EngineRuns.LiveFromScratch | bifrostd/src/orders/engine.ts:302-483 | the class, its store and its processes keep, in every run from an empty file, all that the hub keeps, per order and per hash, on the conditions above |
| OrderEngine.OrderEngine.Handle | bifrostd/src/orders/engine.ts:217-300 | one order moves by the machine's reaction to the event; every other order, and the hash index, stay as they are |
| OrderEngine.OrderEngine.DispatchOutgoing | bifrostd/src/orders/engine.ts:303-322 | dispatch, refund or nothing, with the dispatch persisted before the pay is issued |
| OrderEngine.OrderEngine.SettleIncoming | bifrostd/src/orders/engine.ts:339-350 | the only place a settle is issued, as the machine's step says |
| OrderEngine.OrderEngine.Refund | bifrostd/src/orders/engine.ts:360-376 | the refund is persisted before the cancel; nothing happens to an order already refunding or terminal |
| OrderEngine.OrderEngine.Fail | bifrostd/src/orders/engine.ts:378-392 | the failure is persisted, its first reason kept, before a cancel if one is asked for |
| OrderEngine.OrderEngine.Reconcile | bifrostd/src/orders/engine.ts:396-405 | an order that crashed before its invoice fails; any other is looked up at its node |
| OrderEngine.OrderEngine.ReconcilePayment | bifrostd/src/orders/engine.ts:435-471 | the answer to the payment query is acted on as the machine's step says, the second dispatch included |
| OrderEngine.OrderEngine.RefundRetry | bifrostd/src/orders/engine.ts:473-483 | a refund is taken up again by asking about the invoice first |
| OrderEngine.OrderEngine.Advance | bifrostd/src/orders/engine.ts:211-215 | running the next stretch of an order's task is the machine's step, on this order alone |
| OrderEngine.OrderEngine.Resume | bifrostd/src/orders/engine.ts:324-335 | returning from a node call, or its throwing, is the machine's step, on this order alone |
| OrderEngine.OrderEngine.Start | bifrostd/src/orders/engine.ts:87-92 | every non-terminal order is recovered, one after the other, before any work is accepted; afterwards exactly those are terminal that the answers allowed to be |
| OrderStore.FileOrderStore.constructor | bifrostd/src/orders/store.ts:117-151 | opening a file loads exactly its replay: orders, hash index and trails |
| OrderStore.FileOrderStore.ReplayFile | bifrostd/src/orders/store.ts:123-151 | the loop over the lines rebuilds what the readable records say, blank and unreadable lines skipped |
| OrderStore.FileOrderStore.Create | bifrostd/src/orders/store.ts:54-64 | duplicates of id or hash are refused with nothing changed; else the record is appended and the order filed with a one-row trail |
| OrderStore.FileOrderStore.Transition | bifrostd/src/orders/store.ts:66-78 | an unknown order is refused; else the edited order is appended and filed, with one more row on its trail |
| OrderStore.FileOrderStore.GetByHash | bifrostd/src/orders/store.ts:90-93 | finds the order filed last under a hash, except under the empty id |
| OrderStore.FileOrderStore.RestartReadsBackMemoryExactly | bifrostd/src/orders/store.ts:117-156 | a restart finds exactly what is in memory if and only if the file was opened on a record boundary, or nothing was written since |
| OrderLog.CrashDuringAppend | bifrostd/src/orders/store.ts:130-156 | a crash inside an append is read as the state before it, or as the state after it once the record is complete |
| OrderLog.AppendedRecordsReadBackExactly | bifrostd/src/orders/store.ts:130-156 | records appended to a file are read back with all before them if and only if the file ended on a record boundary |
| OrderLog.DurableRecordIsForgotten | bifrostd/src/orders/store.ts:135-156 | after a torn append the next durable record is not read by the following restart |
| OrderLog.FilesAreTidy | bifrostd/src/orders/store.ts:153-156 | every file the store can leave behind ends on a boundary or with a fragment that a record began |
| Rational.GcdLoop | bifrostd/src/rfq/rational.ts:17-20 | the loop computes the greatest common divisor |
| Rational.GcdIsGreatest | bifrostd/src/rfq/rational.ts:17-20 | every common divisor divides it |
| Rational.NormalizedSpec | bifrostd/src/rfq/rational.ts:22-26 | normalising keeps the value and leaves lowest terms |
| Rational.FloorMeans | bifrostd/src/rfq/rational.ts:28-31 | the floor is the largest quotient that fits |
| Rational.CeilMeans | bifrostd/src/rfq/rational.ts:33-37 | the ceiling is the smallest quotient that covers |
| QuoteMath.SearchGross | bifrostd/src/rfq/quote-service.ts:102-107 | the search ends at floor((target-1)*10^6/(10^6-ppm))+1; its first loop never runs, its second at most ceil(10^6/(10^6-ppm)) times, whatever the amount |
| QuoteMath.CoversExactly | bifrostd/src/rfq/quote-service.ts:105-107 | a gross amount covers a target if and only if it is at least that closed form |
| QuoteMath.LeastIsExact | bifrostd/src/rfq/quote-service.ts:105-107 | the least covering gross nets the target exactly |
| QuoteMath.QuotesAreMonotone | bifrostd/src/rfq/quote-service.ts:90-108 | giving more never gets less, getting more never costs less |
| QuoteMath.QuotedGiveIsMinimal | bifrostd/src/rfq/quote-service.ts:99-108 | one unit less than the quoted give cannot cover the requested get |
| QuoteMath.GiveGetGive | bifrostd/src/rfq/quote-service.ts:90-108 | asking for what a give yields never costs more than that give |
| QuoteMath.GetGiveGet | bifrostd/src/rfq/quote-service.ts:90-108 | paying what a get costs yields at most one unit less than it |
| QuoteService.QuoteService.Quote | bifrostd/src/rfq/quote-service.ts:67-142 | every request is refused with its code, or quoted at the closed-form amounts and rate |
| QuoteService.ComplaintsExactly | bifrostd/src/rfq/quote-service.ts:145-176 | each complaint about a request is made if and only if its own item fails and none before it does |
| QuoteService.IssuedExactly | bifrostd/src/rfq/quote-service.ts:67-116 | a quote is issued if and only if the request is in order, the strategy accepts at a rate above zero, something is left after the fees, and the hub holds what it pays out beside what is under way |
| QuoteService.IssuedQuoteSays | bifrostd/src/rfq/quote-service.ts:118-142 | an issued quote says the pair, the fixed amount, each fee in its place, a rate in lowest terms, and when it expires |
| QuoteService.RefusedFor | bifrostd/src/rfq/quote-service.ts:74-116 | why a request that is in order is refused |
| QuoteService.VerifiedExactly | sdk/src/verify.ts:30-85 | the client accepts a quote if and only if every item of its checklist holds, and the first that fails names the refusal |
| QuoteService.DifferenceOfTerms | sdk/src/verify.ts:53-74 | the client's recomputation differs by 0 for side=get and by 0 or 1 for side=give |
| QuoteService.IssuedQuotesVerify | sdk/src/verify.ts:30-85 | until it expires an issued quote passes the client's check, if and only if the invoice amount, where one is given, is its get amount |
| QuoteService.PublishedRateIsNotBetter | bifrostd/src/rfq/quote-service.ts:108-111 | the published rate is never better for the client than the strategy's |
| QuoteService.PayInvoiceWithGiveSide | bifrostd/src/rfq/quote-service.ts:164-176 | with the give side fixed, a quote for an invoice verifies if and only if the strategy's rate and the fees turn the amount into itself |
| QuoteService.PayInvoiceWithGiveSideFails | bifrostd/src/rfq/quote-service.ts:169-175 | at par and with any network fee it does not |
| Pricing.SkewIsBoundedAndFair | bifrostd/src/rfq/pricing.ts:113-128 | for all inventories with a positive total, the skew has the sign of the imbalance, is odd under exchanging the sides, and is within its bound if and only if the imbalance exceeds the total by less than total / bound, as it never does with none negative |
| Pricing.ChainsStayUsable | bifrostd/src/rfq/pricing.ts:56-130 | every strategy, and every chain of wrappers, decides on a usable rate and sane fees, rejects, or throws, and throws if and only if the adjustment leaves nothing of the rate; rejections pass through unchanged |
| Pricing.SpreadFavoursTheHub | bifrostd/src/rfq/pricing.ts:50-66 | a spread never improves the client's rate |
| Pricing.StrategiesDecide | bifrostd/src/rfq/pricing.ts:56-130 | the rate of each strategy's decision is exactly its base, feed or wrapped rate moved by the spread or the skew, with the fees it was given; a stale feed and an empty inventory are refused |
| Pricing.SkewIsExact | bifrostd/src/rfq/pricing.ts:122-125 | the skew is the imbalance's share of the total, of the greatest skew, rounded toward zero |
| QuoteCache.HoldsWhatIsLive | bifrostd/src/api/quotes.ts:39-68 | the cache holds a quote exactly while no operation since its issue replaced it, asked for it, or swept it |
| QuoteCache.RedeemsExactly | bifrostd/src/api/quotes.ts:50-58 | a redemption gives a quote back if and only if it is live and not expired; never twice, on any clock |
| QuoteCache.AccountsBalanceExactly | bifrostd/src/api/quotes.ts:40-74 | issued = accepted + expired + live if and only if no live id was issued again; the hit rate never exceeds 10000 |
| QuoteCache.CountersTell | bifrostd/src/api/quotes.ts:40-68 | each counter is the number of the operations it counts |
| QuoteCache.HitRateMeans | bifrostd/src/api/quotes.ts:70-74 | the hit rate is the share of redeemed quotes in basis points, rounded down |
| QuoteCache.EveryIssueEndsOnce | bifrostd/src/api/quotes.ts:40-68 | each issue of an id ends in one redemption, one expiry report or one replacement, or is live |
| QuoteCache.RedeemedOrExpiredOnce | bifrostd/src/api/quotes.ts:50-68 | an id issued once is redeemed or reported expired at most once, and never both |
| QuoteCache.QuoteCache.IssueQuote | bifrostd/src/api/quotes.ts:40-43 | one more quote issued, under its id; nothing is reported |
| QuoteCache.QuoteCache.RejectRequest | bifrostd/src/api/quotes.ts:46-48 | only the count of refusals moves |
| QuoteCache.QuoteCache.SweepExpired | bifrostd/src/api/quotes.ts:60-68 | deleting while walking removes exactly the expired quotes, counts them, and reports each id once |
| QuoteCache.QuoteCache.ConsumeQuote | bifrostd/src/api/quotes.ts:51-58 | sweeps first, then redeems |
| QuoteCache.QuoteCache.TakeSnapshot | bifrostd/src/api/quotes.ts:70-74 | the counters after a sweep, with a hit rate of at most 10000 |
| Timelock.GuardIsExact | sdk/src/expiry.ts:30-53 | for every pair of legs with non-negative block counts, the guard says yes if and only if the incoming leg outlives the outgoing one by the delta for all block times between 300 and 600 seconds, each block its own |
| Timelock.EngineAsksTheGuard | bifrostd/src/orders/engine.ts:103-110 | the engine's creation guard is that guard on wall-clock legs |
| Timelock.RoundingsAreTight | bifrostd/src/orders/ports.ts:105-129 | the ports ask for the fewest blocks that surely cover the hold and the most that surely fit the limit; whole blocks convert back exactly |
| Timelock.PlansHaveSlack | bifrostd/src/api/legs.ts:44-67 | for every CLTV and delta, negative ones too, a plan passes the guard with two hours to spare, and from Lightning with less than one block more |
| Timelock.PlansExist | bifrostd/src/api/legs.ts:36-68 | a plan exists if and only if the invoice reads, its network is the get side's, it has a hash, the pair is mixed, and a Lightning invoice decodes |
| Timelock.PlansInNumbers | bifrostd/src/api/legs.ts:44-67 | both expiries of a plan in milliseconds, its direction and its hash |
| Timelock.PlansRefuse | bifrostd/src/api/legs.ts:36-68 | each refusal if and only if its own reason holds and none before it |
| Timelock.AmountsAreQuotedExactly | bifrostd/src/api/legs.ts:49-66 | the hub takes the give amount and pays the get amount if and only if the swap goes from Fiber or the two are equal |
| Timelock.NoWindowAtTheNodes | bifrostd/src/orders/ports.ts:105-129 | in every run, for all block times, the incoming HTLC is held past the time-out of every payment by the distance of the two expiries, less the time between reading the clock and reaching the node |
| Timelock.PlannedSwapsHaveNoWindow | bifrostd/src/api/legs.ts:44-67 | end to end, a planned swap passes the engine's guard and has the safety delta and two hours at the nodes |
| JsonText.StringReadsBack | sdk/src/canonical.ts:17 | every string, lone surrogates included, reads back from its escaped form |
| JsonText.EscapedLikeStringify | sdk/src/canonical.ts:17 | which code units are escaped, and in which form, with lower-case digits |
| JsonText.EscapedExactly | sdk/src/canonical.ts:17 | a string is left as it is if and only if nothing in it needs an escape; surrogate pairs do not |
| JsonText.IntegerReadsBack | sdk/src/canonical.ts:18-26 | every integer reads back from its decimal form |
| JsonText.IntegerIsShort | sdk/src/canonical.ts:18-26 | decimal forms have no leading zeros, and zero has no sign |
| Canonical.LessExactly | sdk/src/canonical.ts:33-35 | keys are ordered by the first code unit in which they differ, a prefix first, as section 3.2.3 of RFC 8785 asks |
| Canonical.SortSorts | sdk/src/canonical.ts:33-35 | sorting permutes the members and leaves each key before all that follow it in that order |
| Canonical.CanonicalKeysClimb | sdk/src/canonical.ts:31-40 | in what a canonical text reads as, the keys of every object, at any depth, stand in that order |
| Canonical.PrintsItsNorm | sdk/src/canonical.ts:13-43 | the one-pass printer is filtering and sorting at all levels followed by plain printing, errors included |
| Canonical.CanonicalReadsBack | sdk/src/canonical.ts:13-43 | a canonical text reads back as the value's normal form, whatever follows it |
| Canonical.PrintsAlikeExactly | sdk/src/canonical.ts:13-43 | two values print alike if and only if they are equal up to member order and undefined members |
| Canonical.InsertionOrderNeverMatters | sdk/src/canonical.ts:31-40 | objects with the same defined members print the same, or fail the same |
| Canonical.RefusedExactly | sdk/src/canonical.ts:18-42 | a text exists if and only if all numbers are safe integers and nothing is undefined or unsupported but for undefined members |
| Canonical.ArraysFailInOrder | sdk/src/canonical.ts:28-30 | an array fails as the first of its items that fails |
| Canonical.ObjectsFailInOrder | sdk/src/canonical.ts:31-40 | an object fails as the first of its members that fails, in the order of their keys |
| Canonical.CanonicalIsWellFormed | sdk/src/canonical.ts:13-43 | the text never holds a lone surrogate |
| Signing.Utf8IsInjective | sdk/src/canonical.ts:46-49 | well-formed texts with the same UTF-8 bytes are the same |
| Signing.CharactersAreSpelt | sdk/src/canonical.ts:46-49 | each character takes as few bytes as can hold it, and they spell its code point as section 3 of RFC 3629 says |
| Signing.Set | sdk/src/canonical.ts:58-60 | writes a run of bytes into the buffer and leaves the rest |
| Signing.SigningDigest | sdk/src/canonical.ts:52-62 | hashes the tag followed by the canonical bytes and nothing else, or fails as canonicalisation does |
| Signing.InputsBegin | sdk/src/canonical.ts:52-62 | what is hashed begins with the version and the kind in ASCII, and ends with the canonical bytes |
| Signing.SignatureIsNotSigned | sdk/src/canonical.ts:46-49 | the bytes do not depend on the signature's value, place or presence |
| Signing.TagsSeparate | sdk/src/canonical.ts:52-62 | the bytes hashed for a quote and for an advertisement never coincide |
| Signing.SigningInputIsExact | sdk/src/canonical.ts:46-62 | the same bytes are hashed if and only if the kinds agree and the objects say the same but for their signatures |
| Lines.SplitAppend | bifrostd/src/orders/store.ts:130 | splitting a concatenation joins the pieces at the cut |
| Lines.TrimsExactly | bifrostd/src/adapters/transport.ts:215 | trimming takes off all white space at both ends and nothing else |
| LineStream.Stream | bifrostd/src/adapters/transport.ts:203-222 | however a text is cut into chunks, the loops yield the parsed, trimmed, non-blank lines of the whole text in order, the unterminated last one included, up to the first that does not parse |
| LineStream.TakeLines | bifrostd/src/adapters/transport.ts:212-217 | the inner loop takes every complete line off the buffer and leaves no newline in it |
| LineStream.RecordsAreLines | bifrostd/src/adapters/transport.ts:203-222 | whatever is received, what reaches the parser are lines without newlines or outer blanks, and written one by one they are read the same again |
| LineStream.WrittenLinesAreRead | bifrostd/src/adapters/transport.ts:212-221 | lines written one by one are read back unchanged, whether or not the last was terminated |

## Left out

- HTTP and WebSocket servers, the API router, the stream hub, configuration, adapters' RPC encodings, the registry, dashboard and demo: input and output around the parts modelled here.
- The coordinator's pumps and polling: events arrive in any order and number instead.
- `verifyAdvertisement`: a version, an age and a signature.
- sha256, Schnorr signatures, bech32 and BOLT11: the hash is an arbitrary function, a signature check a given answer, a decoded invoice an input.
- JSON parsing in the order log: any reader and writer that satisfy the laws of `OrderLog.Json`; the log's own number and string syntax is not modelled.
- The order log as bytes: an append is cut between characters. The source writes UTF-8, so a cut can fall inside a multi-byte character, which is then read back as U+FFFD.
- UTF-8 decoding of the stream: chunks are already text; bytes of a character left incomplete at the end of a stream are dropped by the source and do not appear.
- Log lines, hints and the wording of messages; error messages are a datatype.
- `list()`, `events()`, `close()`, `MemoryOrderStore`, order and quote id generation: short members that nothing here depends on.
- Failing disk writes: an append is whole, or cut short by a crash.
- The order in which maps are walked: passes over several orders take them in any order.
- Several readings of the clock within one synchronous stretch of the engine: the model takes one.
- Numbers as doubles: times, counters and block counts are integers, and -0 is 0.
- Amounts as decimal strings: a request's amount is an integer or unreadable.
- QuoteService.QuoteService.Quote: strategies that decide on a fee of 100 percent or more, or on negative fees: the quote service would loop or divide by zero.
- Sparse arrays and objects with a `toJSON` method, in canonical JSON.
- Blocks already under way when a hold or payment starts: a chain is counted from its next block, each wait within the bounds the conversions assume.
- What Fiber and Lightning nodes do with the expiries they are given: they are taken to keep them.
- Delivery of events: nothing is proved about an event that never comes.
- OrderEngine.OrderEngine.Start: the nodes answer every call and nothing else is queued until it ends; in the source an error of a node call rejects `start()` itself, and events may arrive earlier. Runs in which they do are covered by `EngineRuns.Live`.
- OrderEngine.OrderEngine.SweepNext: in the source a pass awaits each sweep before it queues the next; here the next may come at any time.
- OrderStore.FileOrderStore.Transition: the edit keeps an order's id and hash for the index to stay exact, as all edits of the engine do.
- Ports.LightningRecoveryEndsExactly: supposes, as does the Fiber one, that the hold is not cancelled; `LostHoldFailsTheOrder` is that case.
