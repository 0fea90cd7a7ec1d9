/** One order of the engine as a state machine that stops at every persisted record and at every
    call on a node, so that a crash can fall between any two of them.

    Each function below is one synchronous stretch of the engine method of the same name: from a
    resumption to the next `await`, to the next persisted record, or to the end of the task. */
module OrderMachine {
  import opened Basics
  import opened Orders

  /** What the engine is configured with. The hash is left uninterpreted. */
  datatype Config = Config(sha256: Hash -> Hash, minSafetyDeltaMs: int, maxFeeFor: int -> int)

  // ----- Events, tasks and node calls -----

  datatype EventKind =
    | EvIncomingHeld | EvIncomingSettled | EvIncomingCancelled
    | EvOutgoingInFlight | EvOutgoingSettled | EvOutgoingFailed

  datatype LegEvent = LegEvent(paymentHash: Hash, kind: EventKind,
                               preimage: Option<Hash>, failureReason: Option<string>)

  datatype Task =
    | HandleTask(event: LegEvent)
    | SweepTask(sweepNow: int)
    | CancelTask
    | ReconcileTask

  datatype HoldInvoiceState = Open | HoldHeld | HoldSettled | HoldCancelled | Unknown

  datatype PaymentStatus = NoPayment | PayInFlight | PaySucceeded | PayFailed

  datatype PaymentResult = PaymentResult(status: PaymentStatus, preimage: Option<Hash>, failureReason: Option<string>)

  datatype Call =
    | CreateHoldInvoice(network: Network, hash: Hash, amount: int, tlcExpiryDeltaMs: int)
    // `readAt` is the clock reading the limit was computed from
    | Pay(network: Network, invoice: string, maxFee: int, tlcExpiryLimitMs: int, readAt: int)
    | Settle(network: Network, hash: Hash, preimage: Hash)
    | Cancel(network: Network, hash: Hash)
    | InvoiceState(network: Network, hash: Hash)
    | PaymentState(network: Network, hash: Hash)

  datatype Answer =
    | Threw
    | Done
    | InvoiceIs(invoice: HoldInvoiceState)
    | PaymentIs(payment: PaymentResult)

  /** The trace of one order at the ports: calls with the state persisted when they were issued,
      and the answers to payment queries. */
  datatype Obs =
    | Issued(call: Call, persisted: OrderState)
    | PaymentAnswered(status: PaymentStatus)

  // ----- The machine -----

  /** Where the running task stands. `At…` runs next, `Wait…` awaits a node; values that the source
      reads before an await and uses after it travel in the constructor. */
  datatype Pc =
    | Idle
    | AtDispatch
    | AtPay(limit: int, readAt: int)
    | WaitPay
    | WaitPaymentState
    | WaitRepay
    | AtSettle
    | WaitSettle(preimage: Hash)
    | AtRefundCancel(why: ProtocolError)
    | WaitRefundCancel(why: ProtocolError)
    | AtFailCancel
    | WaitFailCancel
    | WaitInvoiceState(seen: OrderState)
    | AtTail
    | WaitRetryState(why: ProtocolError)
    | WaitRetryCancel(why: ProtocolError)

  /** `createOrder` between its persisted record and its return; it does not run in the order's queue. */
  datatype Creation = NotCreating | AtCreate(tlcExpiryDeltaMs: int) | WaitCreate

  /** The volatile part: the serial queue, the running task, whether the rest of `reconcile` is still
      below it on the stack, and a pending `createOrder`. */
  datatype Process = Process(queue: seq<Task>, pc: Pc, tail: bool, creation: Creation)

  const IDLE := Process([], Idle, false, NotCreating)

  /** `order` and `trail` survive a crash here: this machine's log forgets nothing. What the file makes of that is
      told in OrderLife. `trace` is what the outside world has seen. */
  datatype Machine = Machine(order: Order, trail: seq<OrderEvent>, proc: Process, trace: seq<Obs>)

  datatype Action =
    | Deliver(event: LegEvent)
    | Sweep(sweepNow: int)
    | RequestCancel
    | Recover
    | Advance(now: int)
    | Resolve(answer: Answer, now: int)
    | AdvanceCreate
    | ResolveCreate(invoice: Option<string>, now: int)
    | Crash

  // ----- Small pieces -----

  predicate Matches(cfg: Config, preimage: Hash, hash: Hash) {
    cfg.sha256(preimage) == hash
  }

  function Goto(m: Machine, pc: Pc): Machine {
    m.(proc := m.proc.(pc := pc))
  }

  /** The running function returns: to the rest of `reconcile` if that is below it, else the task ends. */
  function Finish(m: Machine): Machine {
    m.(proc := m.proc.(pc := if m.proc.tail then AtTail else Idle, tail := false))
  }

  /** The running function throws: nothing above catches, so the task ends rejected. */
  function Reject(m: Machine): Machine {
    m.(proc := m.proc.(pc := Idle, tail := false))
  }

  function Issue(m: Machine, call: Call, pc: Pc): Machine {
    Goto(m, pc).(trace := m.trace + [Issued(call, m.order.state)])
  }

  function Event(from: OrderState, next: Order, detail: Detail): OrderEvent {
    OrderEvent(next.orderId, next.updatedAt, Some(from), next.state, Some(detail))
  }

  /** Persist `next` with its label; the state recorded as left is the stored one. */
  function Transition(m: Machine, next: Order, detail: Detail): Machine {
    m.(order := next, trail := m.trail + [Event(m.order.state, next, detail)])
  }

  // ----- The engine's functions -----

  function Fail(m: Machine, why: ProtocolError, cancelIncoming: bool, now: int): Machine {
    if Terminal(m.order.state) then Finish(m) else
    var t := Transition(m, FailedBecause(m.order, why, now), FailedFor(why.code));
    if cancelIncoming then Goto(t, AtFailCancel) else Finish(t)
  }

  function Refund(m: Machine, why: ProtocolError, now: int): Machine {
    if m.order.state == Refunding || Terminal(m.order.state) then Finish(m) else
    Goto(Transition(m, Refunded(m.order, why, now), RefundingFor(why.code)), AtRefundCancel(why))
  }

  const SAFETY_WINDOW := ProtocolError(ExpiryInvariantViolation, SafetyWindow, false)
  const TOO_CLOSE := ProtocolError(ExpiryInvariantViolation, TooCloseAtDispatch, false)
  const NEVER_ARRIVED := ProtocolError(QuoteExpired, NeverArrived, false)
  const CANCELLED := ProtocolError(Internal, CancelledByRequest, false)
  const HOLD_VANISHED := ProtocolError(OutgoingFailed, HoldVanished, false)
  const CRASHED_EARLY := ProtocolError(Internal, CrashedBeforeInvoice, true)
  const RECOVERED_REFUND := ProtocolError(OutgoingFailed, RefundCompletedOnRecovery, false)

  function PaymentFailure(reason: Option<string>): ProtocolError {
    match reason
    case None => ProtocolError(OutgoingFailed, OutgoingPaymentFailed, true)
    case Some(text) => ProtocolError(if MentionsNoRoute(text) then NoRoute else OutgoingFailed, NodeReason(text), true)
  }

  function Handle(cfg: Config, m: Machine, event: LegEvent, now: int): Machine {
    var o := m.order;
    match event.kind
    case EvIncomingHeld =>
      if o.state != Pending then Finish(m) else
      Goto(Transition(m, HoldArrived(o, now), IncomingHtlcHeld), AtDispatch)
    case EvOutgoingSettled =>
      if o.state == OutgoingSettled then Goto(m, AtSettle)
      else if o.state != OutgoingInFlight || Given(event.preimage).None? then Finish(m)
      else if !Matches(cfg, event.preimage.value, o.paymentHash) then Finish(m)
      else Goto(Transition(m, OutgoingPaid(o, event.preimage.value, now), OutgoingSettledVerified), AtSettle)
    case EvOutgoingFailed =>
      if o.state != OutgoingInFlight && o.state != IncomingHeld then Finish(m)
      else Refund(m, PaymentFailure(event.failureReason), now)
    case EvIncomingCancelled =>
      if Terminal(o.state) then Finish(m) else Fail(m, Or(o.failure, HOLD_VANISHED), false, now)
    case EvIncomingSettled =>
      if o.state == OutgoingSettled
      then Finish(Transition(m, CollectedByNode(o, now), IncomingSettledByNode)) else Finish(m)
    case EvOutgoingInFlight => Finish(m)
  }

  function DispatchOutgoing(cfg: Config, m: Machine, now: int): Machine {
    var o := m.order;
    if o.state != IncomingHeld || o.outgoing.status != Waiting then Finish(m)
    else if now + cfg.minSafetyDeltaMs >= o.incoming.tlcExpiryAt then Refund(m, TOO_CLOSE, now)
    else Goto(Transition(m, Dispatched(o, now), DispatchingOutgoing), AtPay(o.outgoing.tlcExpiryAt - now, now))
  }

  function PayCall(cfg: Config, o: Order, limit: int, readAt: int): Call {
    Pay(o.outgoing.network, o.outgoing.invoice, cfg.maxFeeFor(o.outgoing.amount), limit, readAt)
  }

  function SettleIncoming(cfg: Config, m: Machine): Machine {
    var o := m.order;
    if o.state != OutgoingSettled || Given(o.outgoing.preimage).None? then Finish(m)
    else if !Matches(cfg, o.outgoing.preimage.value, o.paymentHash) then Finish(m)
    else Issue(m, Settle(o.incoming.network, o.paymentHash, o.outgoing.preimage.value),
               WaitSettle(o.outgoing.preimage.value))
  }

  function CancelIncoming(m: Machine, pc: Pc): Machine {
    Issue(m, Cancel(m.order.incoming.network, m.order.paymentHash), pc)
  }

  function Reconcile(m: Machine, now: int): Machine {
    var o := m.order;
    if o.state == Pending && o.incoming.invoice == "" then Fail(m, CRASHED_EARLY, true, now)
    else Issue(m, InvoiceState(o.incoming.network, o.paymentHash), WaitInvoiceState(o.state))
  }

  function OwnEvent(m: Machine, kind: EventKind): LegEvent {
    LegEvent(m.order.paymentHash, kind, None, None)
  }

  function ReconcileInvoice(cfg: Config, m: Machine, seen: OrderState, invoice: HoldInvoiceState, now: int): Machine {
    if invoice == HoldHeld && seen == Pending then
      Handle(cfg, m.(proc := m.proc.(tail := true)), OwnEvent(m, EvIncomingHeld), now)
    else if invoice == HoldCancelled then Handle(cfg, m, OwnEvent(m, EvIncomingCancelled), now)
    else if invoice == HoldSettled && seen == OutgoingSettled then Handle(cfg, m, OwnEvent(m, EvIncomingSettled), now)
    else Goto(m, AtTail)
  }

  function ReconcileTail(m: Machine): Machine {
    if m.order.state == OutgoingInFlight || m.order.state == OutgoingSettled then ReconcileOutgoing(m)
    else if m.order.state == Refunding then RefundRetry(m)
    else Finish(m)
  }

  function ReconcileOutgoing(m: Machine): Machine {
    Issue(m, PaymentState(m.order.outgoing.network, m.order.paymentHash), WaitPaymentState)
  }

  function ReconcilePayment(cfg: Config, m: Machine, payment: PaymentResult, now: int): Machine {
    ActOnPayment(cfg, m.(trace := m.trace + [PaymentAnswered(payment.status)]), payment, now)
  }

  function ActOnPayment(cfg: Config, m: Machine, payment: PaymentResult, now: int): Machine {
    match payment.status
    case PaySucceeded =>
      Handle(cfg, m, LegEvent(m.order.paymentHash, EvOutgoingSettled, Given(payment.preimage), None), now)
    case PayFailed =>
      Handle(cfg, m, LegEvent(m.order.paymentHash, EvOutgoingFailed, None, Given(payment.failureReason)), now)
    case NoPayment =>
      if m.order.state != OutgoingInFlight then Finish(m)
      else Issue(m, PayCall(cfg, m.order, m.order.outgoing.tlcExpiryAt - now, now), WaitRepay)
    case PayInFlight => Finish(m)
  }

  function RefundRetry(m: Machine): Machine {
    Issue(m, InvoiceState(m.order.incoming.network, m.order.paymentHash),
          WaitRetryState(Or(m.order.failure, RECOVERED_REFUND)))
  }

  function SweepBody(m: Machine, now: int): Machine {
    if m.order.state == Pending then Fail(m, NEVER_ARRIVED, true, now)
    else if m.order.state == IncomingHeld || m.order.state == OutgoingInFlight then Refund(m, SAFETY_WINDOW, now)
    else Finish(m)
  }

  // ----- Steps -----

  function Start(cfg: Config, m: Machine, task: Task, now: int): Machine {
    match task
    case HandleTask(event) => Handle(cfg, m, event, now)
    case SweepTask(_) => SweepBody(m, now)
    case CancelTask => Fail(m, CANCELLED, true, now)
    case ReconcileTask => Reconcile(m, now)
  }

  /** The event loop runs the next synchronous stretch of this order's task. */
  function Run(cfg: Config, m: Machine, now: int): Machine {
    if m.proc.pc != Idle then GoOn(cfg, m, now)
    else if m.proc.queue == [] then m
    else Start(cfg, m.(proc := m.proc.(queue := m.proc.queue[1..])), m.proc.queue[0], now)
  }

  /** A task that has started goes on from where it stands. */
  function GoOn(cfg: Config, m: Machine, now: int): Machine {
    match m.proc.pc
    case AtDispatch => DispatchOutgoing(cfg, m, now)
    case AtPay(limit, readAt) => Issue(m, PayCall(cfg, m.order, limit, readAt), WaitPay)
    case AtSettle => SettleIncoming(cfg, m)
    case AtRefundCancel(why) => CancelIncoming(m, WaitRefundCancel(why))
    case AtFailCancel => CancelIncoming(m, WaitFailCancel)
    case AtTail => ReconcileTail(m)
    case _ => m
  }

  /** The awaited call returns `answer`, or throws. An answer of the wrong kind is not an answer. */
  function Resume(cfg: Config, m: Machine, answer: Answer, now: int): Machine {
    match m.proc.pc
    case WaitPay =>
      if answer == Done then Finish(m) else if answer == Threw then ReconcileOutgoing(m) else m
    case WaitRepay =>
      if answer == Done || answer == Threw then Finish(m) else m
    case WaitPaymentState =>
      if answer.PaymentIs? then ReconcilePayment(cfg, m, answer.payment, now)
      else if answer == Threw then Reject(m) else m
    case WaitSettle(preimage) =>
      if answer == Done then Finish(Transition(m, Collected(m.order, preimage, now), SwapComplete))
      else if answer == Threw then Reject(m) else m
    case WaitRefundCancel(why) =>
      if answer == Done then Fail(m, why, false, now) else if answer == Threw then Finish(m) else m
    case WaitFailCancel =>
      if answer == Done || answer == Threw then Finish(m) else m
    case WaitInvoiceState(seen) =>
      if answer.InvoiceIs? then ReconcileInvoice(cfg, m, seen, answer.invoice, now)
      else if answer == Threw then Reject(m) else m
    case WaitRetryState(why) =>
      if answer.InvoiceIs? then
        if answer.invoice == HoldCancelled || answer.invoice == Unknown then Fail(m, why, false, now)
        else CancelIncoming(m, WaitRetryCancel(why))
      else if answer == Threw then Reject(m) else m
    case WaitRetryCancel(why) =>
      if answer == Done then Fail(m, why, false, now) else if answer == Threw then Finish(m) else m
    case _ => m
  }

  function Enqueue(m: Machine, task: Task): Machine {
    m.(proc := m.proc.(queue := m.proc.queue + [task]))
  }

  predicate Cancellable(s: OrderState) {
    s == Pending || s == IncomingHeld
  }

  predicate Due(cfg: Config, o: Order, now: int) {
    now + cfg.minSafetyDeltaMs >= o.incoming.tlcExpiryAt
  }

  function Step(cfg: Config, m: Machine, a: Action): Machine {
    match a
    case Deliver(event) => Enqueue(m, HandleTask(event))
    case Sweep(now) => if Due(cfg, m.order, now) then Enqueue(m, SweepTask(now)) else m
    case RequestCancel => if Cancellable(m.order.state) then Enqueue(m, CancelTask) else m
    case Recover => if Terminal(m.order.state) then m else Enqueue(m, ReconcileTask)
    case Advance(now) => Run(cfg, m, now)
    case Resolve(answer, now) => Resume(cfg, m, answer, now)
    case AdvanceCreate =>
      if m.proc.creation.AtCreate? then
        m.(proc := m.proc.(creation := WaitCreate),
           trace := m.trace + [Issued(CreateHoldInvoice(m.order.incoming.network, m.order.paymentHash,
                                                        m.order.incoming.amount, m.proc.creation.tlcExpiryDeltaMs),
                                      m.order.state)])
      else m
    case ResolveCreate(invoice, now) =>
      if m.proc.creation != WaitCreate then m else
      var t := m.(proc := m.proc.(creation := NotCreating));
      if invoice.None? then t else Transition(t, InvoiceIssued(m.order, invoice.value, now), HoldInvoiceIssued)
    case Crash => m.(proc := IDLE)
  }

  function Steps(cfg: Config, m: Machine, actions: seq<Action>): Machine
    decreases |actions|
  {
    if actions == [] then m else Steps(cfg, Step(cfg, m, actions[0]), actions[1..])
  }

  /** What a process finds when it starts over a log: any record, nothing running. */
  function Restarted(o: Order, trail: seq<OrderEvent>): Machine {
    Machine(o, trail, IDLE, [])
  }

  // ----- Creation -----

  datatype LegParams = LegParams(network: Network, invoice: string, amount: int, tlcExpiryAt: int)

  datatype CreateOrderParams = CreateOrderParams(orderId: OrderId, quoteId: string, direction: Direction,
                                                 paymentHash: Hash, incoming: LegParams, outgoing: LegParams)

  predicate IsHash256(v: string) {
    |v| == 66 && v[0] == '0' && v[1] == 'x' &&
    forall i :: 2 <= i < 66 ==> '0' <= v[i] <= '9' || 'a' <= v[i] <= 'f'
  }

  /** The expiry guard of section 6 of the protocol, on legs already normalised to milliseconds. */
  predicate ExpiryGuard(cfg: Config, p: CreateOrderParams) {
    p.incoming.tlcExpiryAt >= p.outgoing.tlcExpiryAt + cfg.minSafetyDeltaMs
  }

  function NewOrder(p: CreateOrderParams, now: int): Order {
    Order(p.orderId, p.quoteId, p.direction, p.paymentHash, Pending,
          Leg(p.incoming.network, "", p.incoming.amount, p.incoming.tlcExpiryAt, Waiting, None),
          Leg(p.outgoing.network, p.outgoing.invoice, p.outgoing.amount, p.outgoing.tlcExpiryAt, Waiting, None),
          None, now, now)
  }

  function Created(p: CreateOrderParams, now: int): Machine {
    Machine(NewOrder(p, now), [OrderEvent(p.orderId, now, None, Pending, None)],
            IDLE.(creation := AtCreate(p.incoming.tlcExpiryAt - now)), [])
  }
}
