/** Runs in which the engine does what its protocol rules out. The exact conditions are proved in
    MachineHistory; the runs here show that they do arise after an ordinary `createOrder`. */
module MachineDepartures {
  import opened Basics
  import opened Orders
  import opened OrderMachine
  import opened MachineSteps
  import opened MachineSafety
  import opened MachineHistory

  lemma Cons(cfg: Config, m: Machine, clock: int, a: Action, rest: seq<Action>)
    ensures Steps(cfg, m, [a] + rest) == Steps(cfg, Step(cfg, m, a), rest)
    ensures Monotone(clock, [a] + rest) <==> clock <= Reading(a, clock) && Monotone(Reading(a, clock), rest)
  {
    StepsCons(cfg, m, a, rest);
    assert ([a] + rest)[1..] == rest;
  }

  function HeldEvent(m: Machine): LegEvent {
    OwnEvent(m, EvIncomingHeld)
  }

  /** An order that was dispatched, and whose process died before it heard anything. */
  function DispatchedThenDied(cfg: Config, p: CreateOrderParams, t0: int): Machine {
    var m1 := Step(cfg, Created(p, t0), Deliver(HeldEvent(Created(p, t0))));
    Step(cfg, Step(cfg, Step(cfg, m1, Advance(t0)), Advance(t0)), Crash)
  }

  lemma DispatchedIsInFlight(cfg: Config, p: CreateOrderParams, t0: int)
    requires t0 + cfg.minSafetyDeltaMs < p.incoming.tlcExpiryAt
    ensures var m := DispatchedThenDied(cfg, p, t0);
            m.proc == IDLE && m.order.state == OutgoingInFlight && SameTerms(NewOrder(p, t0), m.order) && Safe(cfg, m)
  {
    var m0 := Created(p, t0);
    CreatedLawful(cfg, p, t0);
    var m1 := Step(cfg, m0, Deliver(HeldEvent(m0)));
    StepLawful(cfg, m0, Deliver(HeldEvent(m0)));
    var m2 := Step(cfg, m1, Advance(t0));
    StepLawful(cfg, m1, Advance(t0));
    assert m2.proc.pc == AtDispatch && m2.order == HoldArrived(m0.order, t0);
    var m3 := Step(cfg, m2, Advance(t0));
    StepLawful(cfg, m2, Advance(t0));
    StepLawful(cfg, m3, Crash);
  }

  lemma DispatchThenDie(cfg: Config, p: CreateOrderParams, t0: int, rest: seq<Action>) returns (actions: seq<Action>)
    ensures Steps(cfg, Created(p, t0), actions) == Steps(cfg, DispatchedThenDied(cfg, p, t0), rest)
    ensures Monotone(t0, rest) ==> Monotone(t0, actions)
  {
    var m0 := Created(p, t0);
    var m1 := Step(cfg, m0, Deliver(HeldEvent(m0)));
    var m2 := Step(cfg, m1, Advance(t0));
    var m3 := Step(cfg, m2, Advance(t0));
    Cons(cfg, m3, t0, Crash, rest);
    var r3 := [Advance(t0)] + ([Crash] + rest);
    Cons(cfg, m2, t0, Advance(t0), [Crash] + rest);
    var r2 := [Advance(t0)] + r3;
    Cons(cfg, m1, t0, Advance(t0), r3);
    actions := [Deliver(HeldEvent(m0))] + r2;
    Cons(cfg, m0, t0, Deliver(HeldEvent(m0)), r2);
  }

  /** The last thing the nodes saw is a payment computed from the clock reading `at`. */
  predicate PaidAt(m: Machine, at: int) {
    m.trace != [] && IsPay(m.trace[|m.trace| - 1]) && m.trace[|m.trace| - 1].call.readAt == at
  }

  lemma NoneIsPaidAgain(cfg: Config, m: Machine, now: int)
    requires m.proc.pc == WaitPaymentState && m.order.state == OutgoingInFlight
    ensures PaidAt(Step(cfg, m, Resolve(PaymentIs(PaymentResult(NoPayment, None, None)), now)), now)
  {
  }

  lemma AsksAgain(cfg: Config, m: Machine, clock: int, late: int, rest: seq<Action>)
      returns (actions: seq<Action>, t: Machine)
    requires m.proc == IDLE && m.order.state == OutgoingInFlight && Safe(cfg, m) && clock <= late
    ensures Safe(cfg, t) && t.proc.pc == WaitPaymentState && t.order == m.order
    ensures Steps(cfg, m, actions) == Steps(cfg, t, rest) && (Monotone(late, rest) ==> Monotone(clock, actions))
  {
    var m1 := Step(cfg, m, Recover);
    StepSafe(cfg, m, Recover);
    var m2 := Step(cfg, m1, Advance(late));
    StepSafe(cfg, m1, Advance(late));
    assert m2.proc.pc == WaitInvoiceState(OutgoingInFlight) && m2.order == m.order && !m2.proc.tail;
    var held := Resolve(InvoiceIs(HoldHeld), late);
    var m3 := Step(cfg, m2, held);
    StepSafe(cfg, m2, held);
    assert m3.proc.pc == AtTail && m3.order == m.order;
    t := Step(cfg, m3, Advance(late));
    StepSafe(cfg, m3, Advance(late));
    Cons(cfg, m3, late, Advance(late), rest);
    var r3 := [Advance(late)] + rest;
    Cons(cfg, m2, late, held, r3);
    var r2 := [held] + r3;
    Cons(cfg, m1, clock, Advance(late), r2);
    actions := [Recover] + ([Advance(late)] + r2);
    Cons(cfg, m, clock, Recover, [Advance(late)] + r2);
  }

  /** Recovery of such an order when the node has no payment: it is paid again, however late it is. */
  lemma PayAgain(cfg: Config, m: Machine, clock: int, late: int) returns (actions: seq<Action>)
    requires m.proc == IDLE && m.order.state == OutgoingInFlight && Safe(cfg, m) && clock <= late
    requires late + cfg.minSafetyDeltaMs >= m.order.incoming.tlcExpiryAt
    ensures PaidAt(Steps(cfg, m, actions), late) && !PaysInWindow(cfg, Steps(cfg, m, actions)) && Monotone(clock, actions)
  {
    var none := Resolve(PaymentIs(PaymentResult(NoPayment, None, None)), late);
    var t;
    actions, t := AsksAgain(cfg, m, clock, late, [none] + []);
    StepPays(cfg, t, none);
    NoneIsPaidAgain(cfg, t, late);
    Cons(cfg, t, late, none, []);
  }

  /** Section 6 is broken for every order: it can be dispatched at any instant within the safety delta of its
      incoming expiry, and at any later one, by a process that restarts then. */
  lemma LateRedispatchHappens(cfg: Config, p: CreateOrderParams, t0: int, late: int)
    requires ExpiryGuard(cfg, p) && t0 + cfg.minSafetyDeltaMs < p.incoming.tlcExpiryAt
    requires t0 <= late && late + cfg.minSafetyDeltaMs >= p.incoming.tlcExpiryAt
    ensures exists actions ::
              && Monotone(t0, actions) && PaidAt(Steps(cfg, Created(p, t0), actions), late)
              && !PaysInWindow(cfg, Steps(cfg, Created(p, t0), actions))
  {
    var m := DispatchedThenDied(cfg, p, t0);
    DispatchedIsInFlight(cfg, p, t0);
    var rest := PayAgain(cfg, m, t0, late);
    var actions := DispatchThenDie(cfg, p, t0, rest);
  }

  // ----- The overtaken cancellation -----

  /** A machine with a cancellation waiting behind the running task. */
  predicate Racing(m: Machine, p: CreateOrderParams, s: OrderState, pc: Pc, tail: bool) {
    && m.proc == Process([CancelTask], pc, tail, NotCreating) && m.order.state == s
    && m.order.paymentHash == p.paymentHash && m.order.incoming.tlcExpiryAt == p.incoming.tlcExpiryAt
  }

  lemma InvoiceIsOut(cfg: Config, p: CreateOrderParams, t0: int, invoice: string) returns (m: Machine)
    ensures Reaches(cfg, Created(p, t0), m, t0)
    ensures m.proc == IDLE && m.order == InvoiceIssued(NewOrder(p, t0), invoice, t0)
  {
    var m0 := Created(p, t0);
    assert AllAt([], t0) && Steps(cfg, m0, []) == m0;
    var m1 := Step(cfg, m0, AdvanceCreate);
    ReachesOn(cfg, m0, m0, t0, AdvanceCreate);
    m := Step(cfg, m1, ResolveCreate(Some(invoice), t0));
    ReachesOn(cfg, m0, m1, t0, ResolveCreate(Some(invoice), t0));
  }

  /** The invoice is out, the process starts up and waits for the state of that invoice, and a client cancels:
      the request is accepted, and queued behind the reconciliation. */
  lemma CancelIsQueued(cfg: Config, p: CreateOrderParams, t0: int, invoice: string) returns (m: Machine)
    requires invoice != ""
    ensures Reaches(cfg, Created(p, t0), m, t0) && Racing(m, p, Pending, WaitInvoiceState(Pending), false)
    ensures m.order.outgoing.status == Waiting
  {
    var m0 := Created(p, t0);
    var m2 := InvoiceIsOut(cfg, p, t0, invoice);
    var m3 := Step(cfg, m2, Recover);
    ReachesOn(cfg, m0, m2, t0, Recover);
    assert m3.proc.queue == [ReconcileTask];
    var m4 := Step(cfg, m3, Advance(t0));
    ReachesOn(cfg, m0, m3, t0, Advance(t0));
    assert m4.proc.pc == WaitInvoiceState(Pending) && m4.order == m2.order;
    m := Step(cfg, m4, RequestCancel);
    ReachesOn(cfg, m0, m4, t0, RequestCancel);
  }

  /** The reconciliation finds the hold and dispatches. */
  lemma HoldIsFound(cfg: Config, p: CreateOrderParams, t0: int, m0: Machine, m: Machine) returns (t: Machine)
    requires t0 + cfg.minSafetyDeltaMs < p.incoming.tlcExpiryAt
    requires Reaches(cfg, m0, m, t0) && Racing(m, p, Pending, WaitInvoiceState(Pending), false)
    requires m.order.outgoing.status == Waiting
    ensures Reaches(cfg, m0, t, t0) && Racing(t, p, OutgoingInFlight, WaitPay, true)
  {
    var m1 := Step(cfg, m, Resolve(InvoiceIs(HoldHeld), t0));
    ReachesOn(cfg, m0, m, t0, Resolve(InvoiceIs(HoldHeld), t0));
    assert Racing(m1, p, IncomingHeld, AtDispatch, true);
    var m2 := Step(cfg, m1, Advance(t0));
    ReachesOn(cfg, m0, m1, t0, Advance(t0));
    t := Step(cfg, m2, Advance(t0));
    ReachesOn(cfg, m0, m2, t0, Advance(t0));
  }

  /** It goes on to ask for the payment. */
  lemma PaymentIsAskedFor(cfg: Config, p: CreateOrderParams, t0: int, m0: Machine, m: Machine) returns (t: Machine)
    requires Reaches(cfg, m0, m, t0) && Racing(m, p, OutgoingInFlight, WaitPay, true)
    ensures Reaches(cfg, m0, t, t0) && Racing(t, p, OutgoingInFlight, WaitPaymentState, false)
  {
    var m1 := Step(cfg, m, Resolve(Done, t0));
    ReachesOn(cfg, m0, m, t0, Resolve(Done, t0));
    t := Step(cfg, m1, Advance(t0));
    ReachesOn(cfg, m0, m1, t0, Advance(t0));
  }

  /** It is told that the payment succeeded, and its call to collect is refused. */
  lemma CollectionIsRefused(cfg: Config, p: CreateOrderParams, t0: int, m0: Machine, m: Machine, preimage: Hash)
    returns (t: Machine)
    requires preimage != "" && Matches(cfg, preimage, p.paymentHash)
    requires Reaches(cfg, m0, m, t0) && Racing(m, p, OutgoingInFlight, WaitPaymentState, false)
    ensures Reaches(cfg, m0, t, t0) && Racing(t, p, OutgoingSettled, Idle, false)
    ensures ReachedSettled(t.trail)
  {
    var paid := Resolve(PaymentIs(PaymentResult(PaySucceeded, Some(preimage), None)), t0);
    var m1 := Step(cfg, m, paid);
    ReachesOn(cfg, m0, m, t0, paid);
    assert Racing(m1, p, OutgoingSettled, AtSettle, false) && m1.trail[|m.trail|].toState == OutgoingSettled;
    var m2 := Step(cfg, m1, Advance(t0));
    ReachesOn(cfg, m0, m1, t0, Advance(t0));
    assert m2.trail == m1.trail;
    t := Step(cfg, m2, Resolve(Threw, t0));
    ReachesOn(cfg, m0, m2, t0, Resolve(Threw, t0));
  }

  /** Every order can be lost this way: paid out, its claim cancelled by a request that was accepted while the
      order was still PENDING. */
  lemma OvertakenCancelHappens(cfg: Config, p: CreateOrderParams, t0: int, invoice: string, preimage: Hash)
    requires t0 + cfg.minSafetyDeltaMs < p.incoming.tlcExpiryAt && invoice != ""
    requires preimage != "" && Matches(cfg, preimage, p.paymentHash)
    ensures exists actions :: AllAt(actions, t0) && GaveAway(Steps(cfg, Created(p, t0), actions))
  {
    var m0 := Created(p, t0);
    var queued := CancelIsQueued(cfg, p, t0, invoice);
    var dispatched := HoldIsFound(cfg, p, t0, m0, queued);
    var asked := PaymentIsAskedFor(cfg, p, t0, m0, dispatched);
    var m := CollectionIsRefused(cfg, p, t0, m0, asked, preimage);
    var t := Step(cfg, m, Advance(t0));
    ReachesOn(cfg, m0, m, t0, Advance(t0));
    var u := Step(cfg, t, Advance(t0));
    ReachesOn(cfg, m0, t, t0, Advance(t0));
    assert u.trace[|m.trace|].call.Cancel?;
    assert m.trail <= u.trail;
    var i :| 0 <= i < |m.trail| && m.trail[i].toState == OutgoingSettled;
    assert u.trail[i] == m.trail[i];
    assert GaveAway(u);
  }

  /** The node's last word on the payment. */
  ghost predicate LastSaid(trace: seq<Obs>, status: PaymentStatus) {
    exists k :: 0 <= k < |trace| && trace[k] == PaymentAnswered(status) &&
                forall j :: k < j < |trace| ==> trace[j].Issued?
  }

  /** It is told that the payment is in flight, and the task ends. */
  lemma PaymentIsUnderWay(cfg: Config, p: CreateOrderParams, t0: int, m0: Machine, m: Machine) returns (t: Machine)
    requires Reaches(cfg, m0, m, t0) && Racing(m, p, OutgoingInFlight, WaitPaymentState, false)
    ensures Reaches(cfg, m0, t, t0) && Racing(t, p, OutgoingInFlight, Idle, false)
    ensures t.trace != [] && t.trace[|t.trace| - 1] == PaymentAnswered(PayInFlight)
  {
    var underWay := Resolve(PaymentIs(PaymentResult(PayInFlight, None, None)), t0);
    t := Step(cfg, m, underWay);
    ReachesOn(cfg, m0, m, t0, underWay);
  }

  /** Every order can also be abandoned in flight this way, at any time and however far its outgoing expiry is: failed,
      and its hold cancelled, with the node saying that the payment is under way. What comes of the payment is then
      ignored. */
  lemma AbandonedInFlightHappens(cfg: Config, p: CreateOrderParams, t0: int, invoice: string)
    requires t0 + cfg.minSafetyDeltaMs < p.incoming.tlcExpiryAt && invoice != ""
    ensures exists actions :: AllAt(actions, t0) &&
              var m := Steps(cfg, Created(p, t0), actions);
              m.order.state == Failed && HasCancel(m.trace) && LastSaid(m.trace, PayInFlight)
  {
    var m0 := Created(p, t0);
    var queued := CancelIsQueued(cfg, p, t0, invoice);
    var dispatched := HoldIsFound(cfg, p, t0, m0, queued);
    var asked := PaymentIsAskedFor(cfg, p, t0, m0, dispatched);
    var m := PaymentIsUnderWay(cfg, p, t0, m0, asked);
    var t := Step(cfg, m, Advance(t0));
    ReachesOn(cfg, m0, m, t0, Advance(t0));
    var u := Step(cfg, t, Advance(t0));
    ReachesOn(cfg, m0, t, t0, Advance(t0));
    assert u.trace[|m.trace|].call.Cancel?;
    assert u.trace[|m.trace| - 1] == PaymentAnswered(PayInFlight);
    assert LastSaid(u.trace, PayInFlight);
  }
}
