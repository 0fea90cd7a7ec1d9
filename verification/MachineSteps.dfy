/** A flat description of the machine's steps: which edit of the record a step makes, and what it shows to the
    outside. Each is proved of `Step` once; the invariants of the other modules are derived from it. */
module MachineSteps {
  import opened Basics
  import opened Orders
  import opened OrderMachine

  // ----- Every step edits the record in one of nine ways -----

  datatype Edit =
    | NoEdit
    | IssueInvoice(invoice: string, now: int)
    | ArriveHold(now: int)
    | Dispatch(now: int)
    | PayOut(preimage: Hash, now: int)
    | Collect(preimage: Hash, now: int)
    | CollectByNode(now: int)
    // The next thing the task does is to cancel the hold; after a failure, only if it says so.
    | RefundAs(why: ProtocolError, now: int)
    | FailAs(why: ProtocolError, cancels: bool, now: int)

  function Apply(o: Order, e: Edit): Order {
    match e
    case NoEdit => o
    case IssueInvoice(invoice, now) => InvoiceIssued(o, invoice, now)
    case ArriveHold(now) => HoldArrived(o, now)
    case Dispatch(now) => Dispatched(o, now)
    case PayOut(preimage, now) => OutgoingPaid(o, preimage, now)
    case Collect(preimage, now) => Collected(o, preimage, now)
    case CollectByNode(now) => CollectedByNode(o, now)
    case RefundAs(why, now) => Refunded(o, why, now)
    case FailAs(why, _, now) => FailedBecause(o, why, now)
  }

  function Label(e: Edit): Detail
    requires e != NoEdit
  {
    match e
    case IssueInvoice(_, _) => HoldInvoiceIssued
    case ArriveHold(_) => IncomingHtlcHeld
    case Dispatch(_) => DispatchingOutgoing
    case PayOut(_, _) => OutgoingSettledVerified
    case Collect(_, _) => SwapComplete
    case CollectByNode(_) => IncomingSettledByNode
    case RefundAs(why, _) => RefundingFor(why.code)
    case FailAs(why, _, _) => FailedFor(why.code)
  }

  function Recorded(o: Order, trail: seq<OrderEvent>, e: Edit): seq<OrderEvent> {
    if e == NoEdit then trail else trail + [Event(o.state, Apply(o, e), Label(e))]
  }

  // ----- Which edit -----

  function EventEdit(cfg: Config, o: Order, event: LegEvent, now: int): Edit {
    match event.kind
    case EvIncomingHeld => if o.state == Pending then ArriveHold(now) else NoEdit
    case EvOutgoingSettled =>
      if o.state == OutgoingInFlight && Given(event.preimage).Some? && Matches(cfg, event.preimage.value, o.paymentHash)
      then PayOut(event.preimage.value, now) else NoEdit
    case EvOutgoingFailed =>
      if o.state == OutgoingInFlight || o.state == IncomingHeld
      then RefundAs(PaymentFailure(event.failureReason), now) else NoEdit
    case EvIncomingCancelled => if Terminal(o.state) then NoEdit else FailAs(Or(o.failure, HOLD_VANISHED), false, now)
    case EvIncomingSettled => if o.state == OutgoingSettled then CollectByNode(now) else NoEdit
    case EvOutgoingInFlight => NoEdit
  }

  function TaskEdit(cfg: Config, o: Order, task: Task, now: int): Edit {
    match task
    case HandleTask(event) => EventEdit(cfg, o, event, now)
    case SweepTask(_) =>
      if o.state == Pending then FailAs(NEVER_ARRIVED, true, now)
      else if o.state == IncomingHeld || o.state == OutgoingInFlight then RefundAs(SAFETY_WINDOW, now)
      else NoEdit
    case CancelTask => if Terminal(o.state) then NoEdit else FailAs(CANCELLED, true, now)
    case ReconcileTask =>
      if o.state == Pending && o.incoming.invoice == "" then FailAs(CRASHED_EARLY, true, now) else NoEdit
  }

  function RunEdit(cfg: Config, m: Machine, now: int): Edit {
    match m.proc.pc
    case Idle => if m.proc.queue == [] then NoEdit else TaskEdit(cfg, m.order, m.proc.queue[0], now)
    case AtDispatch =>
      if m.order.state != IncomingHeld || m.order.outgoing.status != Waiting then NoEdit
      else if now + cfg.minSafetyDeltaMs >= m.order.incoming.tlcExpiryAt then RefundAs(TOO_CLOSE, now)
      else Dispatch(now)
    case _ => NoEdit
  }

  function PaymentEvent(o: Order, payment: PaymentResult): Option<LegEvent> {
    match payment.status
    case PaySucceeded => Some(LegEvent(o.paymentHash, EvOutgoingSettled, Given(payment.preimage), None))
    case PayFailed => Some(LegEvent(o.paymentHash, EvOutgoingFailed, None, Given(payment.failureReason)))
    case _ => None
  }

  function InvoiceEvent(o: Order, seen: OrderState, invoice: HoldInvoiceState): Option<LegEvent> {
    if invoice == HoldHeld && seen == Pending then Some(LegEvent(o.paymentHash, EvIncomingHeld, None, None))
    else if invoice == HoldCancelled then Some(LegEvent(o.paymentHash, EvIncomingCancelled, None, None))
    else if invoice == HoldSettled && seen == OutgoingSettled
    then Some(LegEvent(o.paymentHash, EvIncomingSettled, None, None))
    else None
  }

  function MaybeEdit(cfg: Config, o: Order, event: Option<LegEvent>, now: int): Edit {
    if event.None? then NoEdit else EventEdit(cfg, o, event.value, now)
  }

  function FailEdit(o: Order, why: ProtocolError, now: int): Edit {
    if Terminal(o.state) then NoEdit else FailAs(why, false, now)
  }

  function ResumeEdit(cfg: Config, m: Machine, answer: Answer, now: int): Edit {
    match m.proc.pc
    case WaitPaymentState =>
      if answer.PaymentIs? then MaybeEdit(cfg, m.order, PaymentEvent(m.order, answer.payment), now) else NoEdit
    case WaitSettle(preimage) => if answer == Done then Collect(preimage, now) else NoEdit
    case WaitRefundCancel(why) => if answer == Done then FailEdit(m.order, why, now) else NoEdit
    case WaitInvoiceState(seen) =>
      if answer.InvoiceIs? then MaybeEdit(cfg, m.order, InvoiceEvent(m.order, seen, answer.invoice), now) else NoEdit
    case WaitRetryState(why) =>
      if answer == InvoiceIs(HoldCancelled) || answer == InvoiceIs(Unknown) then FailEdit(m.order, why, now) else NoEdit
    case WaitRetryCancel(why) => if answer == Done then FailEdit(m.order, why, now) else NoEdit
    case _ => NoEdit
  }

  function EditOf(cfg: Config, m: Machine, a: Action): Edit {
    match a
    case Advance(now) => RunEdit(cfg, m, now)
    case Resolve(answer, now) => ResumeEdit(cfg, m, answer, now)
    case ResolveCreate(invoice, now) =>
      if m.proc.creation == WaitCreate && invoice.Some? then IssueInvoice(invoice.value, now) else NoEdit
    case _ => NoEdit
  }

  // ----- What the outside sees -----

  function Asks(m: Machine, call: Call): seq<Obs> {
    [Issued(call, m.order.state)]
  }

  function RunCalls(cfg: Config, m: Machine, now: int): seq<Obs> {
    var o := m.order;
    match m.proc.pc
    case Idle =>
      if m.proc.queue != [] && m.proc.queue[0] == ReconcileTask && !(o.state == Pending && o.incoming.invoice == "")
      then Asks(m, InvoiceState(o.incoming.network, o.paymentHash)) else []
    case AtPay(limit, readAt) => Asks(m, PayCall(cfg, o, limit, readAt))
    case AtSettle =>
      if o.state == OutgoingSettled && Given(o.outgoing.preimage).Some? && Matches(cfg, o.outgoing.preimage.value, o.paymentHash)
      then Asks(m, Settle(o.incoming.network, o.paymentHash, o.outgoing.preimage.value)) else []
    case AtRefundCancel(_) => Asks(m, Cancel(o.incoming.network, o.paymentHash))
    case AtFailCancel => Asks(m, Cancel(o.incoming.network, o.paymentHash))
    case AtTail =>
      if o.state == OutgoingInFlight || o.state == OutgoingSettled
      then Asks(m, PaymentState(o.outgoing.network, o.paymentHash))
      else if o.state == Refunding then Asks(m, InvoiceState(o.incoming.network, o.paymentHash))
      else []
    case _ => []
  }

  function ResumeCalls(cfg: Config, m: Machine, answer: Answer, now: int): seq<Obs> {
    var o := m.order;
    match m.proc.pc
    case WaitPay => if answer == Threw then Asks(m, PaymentState(o.outgoing.network, o.paymentHash)) else []
    case WaitPaymentState =>
      if !answer.PaymentIs? then [] else
      [PaymentAnswered(answer.payment.status)] +
      if answer.payment.status == NoPayment && o.state == OutgoingInFlight
      then Asks(m, PayCall(cfg, o, o.outgoing.tlcExpiryAt - now, now)) else []
    case WaitRetryState(_) =>
      if answer.InvoiceIs? && answer.invoice != HoldCancelled && answer.invoice != Unknown
      then Asks(m, Cancel(o.incoming.network, o.paymentHash)) else []
    case _ => []
  }

  /** Calls issued, with the state they see persisted, and answers to payment queries. */
  function Emits(cfg: Config, m: Machine, a: Action): seq<Obs> {
    match a
    case Advance(now) => RunCalls(cfg, m, now)
    case Resolve(answer, now) => ResumeCalls(cfg, m, answer, now)
    case AdvanceCreate =>
      if !m.proc.creation.AtCreate? then [] else
      Asks(m, CreateHoldInvoice(m.order.incoming.network, m.order.paymentHash, m.order.incoming.amount,
                                m.proc.creation.tlcExpiryDeltaMs))
    case _ => []
  }

  // ----- The description is right -----

  predicate Edited(m: Machine, e: Edit, t: Machine) {
    t.order == Apply(m.order, e) && t.trail == Recorded(m.order, m.trail, e)
  }

  lemma HandleEdits(cfg: Config, m: Machine, event: LegEvent, now: int)
    ensures Edited(m, EventEdit(cfg, m.order, event, now), Handle(cfg, m, event, now))
    ensures Handle(cfg, m, event, now).trace == m.trace
    ensures Handle(cfg, m, event, now).proc.creation == m.proc.creation
  {
  }

  lemma StartEdits(cfg: Config, m: Machine, task: Task, now: int)
    ensures Edited(m, TaskEdit(cfg, m.order, task, now), Start(cfg, m, task, now))
    ensures Start(cfg, m, task, now).trace == m.trace +
              if task == ReconcileTask && !(m.order.state == Pending && m.order.incoming.invoice == "")
              then Asks(m, InvoiceState(m.order.incoming.network, m.order.paymentHash)) else []
    ensures Start(cfg, m, task, now).proc.creation == m.proc.creation
  {
    if task.HandleTask? { HandleEdits(cfg, m, task.event, now); }
  }

  lemma RunEdits(cfg: Config, m: Machine, now: int)
    ensures Edited(m, RunEdit(cfg, m, now), Run(cfg, m, now))
    ensures Run(cfg, m, now).trace == m.trace + RunCalls(cfg, m, now)
    ensures Run(cfg, m, now).proc.creation == m.proc.creation
  {
    if m.proc.pc == Idle && m.proc.queue != [] {
      StartEdits(cfg, m.(proc := m.proc.(queue := m.proc.queue[1..])), m.proc.queue[0], now);
    }
  }

  lemma PaymentEdits(cfg: Config, m: Machine, payment: PaymentResult, now: int)
    ensures Edited(m, MaybeEdit(cfg, m.order, PaymentEvent(m.order, payment), now), ReconcilePayment(cfg, m, payment, now))
    ensures ReconcilePayment(cfg, m, payment, now).trace == m.trace + ([PaymentAnswered(payment.status)] +
              if payment.status == NoPayment && m.order.state == OutgoingInFlight
              then Asks(m, PayCall(cfg, m.order, m.order.outgoing.tlcExpiryAt - now, now)) else [])
    ensures ReconcilePayment(cfg, m, payment, now).proc.creation == m.proc.creation
  {
    var t := m.(trace := m.trace + [PaymentAnswered(payment.status)]);
    if PaymentEvent(m.order, payment).Some? {
      HandleEdits(cfg, t, PaymentEvent(m.order, payment).value, now);
    }
  }

  lemma InvoiceEdits(cfg: Config, m: Machine, seen: OrderState, invoice: HoldInvoiceState, now: int)
    ensures Edited(m, MaybeEdit(cfg, m.order, InvoiceEvent(m.order, seen, invoice), now),
                   ReconcileInvoice(cfg, m, seen, invoice, now))
    ensures ReconcileInvoice(cfg, m, seen, invoice, now).trace == m.trace
    ensures ReconcileInvoice(cfg, m, seen, invoice, now).proc.creation == m.proc.creation
  {
    if InvoiceEvent(m.order, seen, invoice).Some? {
      var event := InvoiceEvent(m.order, seen, invoice).value;
      HandleEdits(cfg, m, event, now);
      HandleEdits(cfg, m.(proc := m.proc.(tail := true)), event, now);
    }
  }

  lemma ResumeEdits(cfg: Config, m: Machine, answer: Answer, now: int)
    ensures Edited(m, ResumeEdit(cfg, m, answer, now), Resume(cfg, m, answer, now))
    ensures Resume(cfg, m, answer, now).trace == m.trace + ResumeCalls(cfg, m, answer, now)
    ensures Resume(cfg, m, answer, now).proc.creation == m.proc.creation
  {
    if m.proc.pc == WaitPaymentState && answer.PaymentIs? {
      PaymentEdits(cfg, m, answer.payment, now);
    } else if m.proc.pc.WaitInvoiceState? && answer.InvoiceIs? {
      InvoiceEdits(cfg, m, m.proc.pc.seen, answer.invoice, now);
    }
  }

  /** A step changes the record, the trail and the trace as described, and a pending creation only by its own. */
  lemma StepEdits(cfg: Config, m: Machine, a: Action)
    ensures Edited(m, EditOf(cfg, m, a), Step(cfg, m, a))
    ensures Step(cfg, m, a).trace == m.trace + Emits(cfg, m, a)
    ensures a.AdvanceCreate? || a.ResolveCreate? || a == Crash || Step(cfg, m, a).proc.creation == m.proc.creation
    ensures EditOf(cfg, m, a).IssueInvoice? || m.proc.creation == NotCreating || a == Crash
            ==> Step(cfg, m, a).proc.creation == NotCreating
  {
    match a
    case Advance(now) => RunEdits(cfg, m, now);
    case Resolve(answer, now) => ResumeEdits(cfg, m, answer, now);
    case _ =>
  }

  // ----- Where the task stands afterwards -----

  /** The stops that a persisted record announces are reached with that record, and no other way. */
  predicate PcFollows(m: Machine, e: Edit, t: Machine) {
    var p, q := m.proc.pc, t.proc.pc;
    && (e.ArriveHold? ==> q == AtDispatch)
    && (e.Dispatch? ==> q == AtPay(m.order.outgoing.tlcExpiryAt - e.now, e.now))
    && (e.RefundAs? ==> q == AtRefundCancel(e.why))
    && (e.FailAs? && e.cancels ==> q == AtFailCancel)
    && (q == AtDispatch ==> e.ArriveHold? || p == q)
    && (q.AtPay? ==> e.Dispatch? || p == q)
    && (q.AtRefundCancel? ==> e.RefundAs? || p == q)
    && (q == AtFailCancel ==> (e.FailAs? && e.cancels) || p == q)
  }

  lemma HandlePc(cfg: Config, m: Machine, event: LegEvent, now: int)
    requires m.proc.pc == Idle || m.proc.pc == WaitPaymentState || m.proc.pc.WaitInvoiceState?
    ensures PcFollows(m, EventEdit(cfg, m.order, event, now), Handle(cfg, m, event, now))
  {
  }

  lemma StartPc(cfg: Config, m: Machine, task: Task, now: int)
    requires m.proc.pc == Idle
    ensures PcFollows(m, TaskEdit(cfg, m.order, task, now), Start(cfg, m, task, now))
  {
    if task.HandleTask? { HandlePc(cfg, m, task.event, now); }
  }

  lemma RunPc(cfg: Config, m: Machine, now: int)
    ensures PcFollows(m, RunEdit(cfg, m, now), Run(cfg, m, now))
  {
    if m.proc.pc == Idle && m.proc.queue != [] {
      StartPc(cfg, m.(proc := m.proc.(queue := m.proc.queue[1..])), m.proc.queue[0], now);
    }
  }

  lemma ResumePc(cfg: Config, m: Machine, answer: Answer, now: int)
    ensures PcFollows(m, ResumeEdit(cfg, m, answer, now), Resume(cfg, m, answer, now))
  {
    if m.proc.pc == WaitPaymentState && answer.PaymentIs? {
      var t := m.(trace := m.trace + [PaymentAnswered(answer.payment.status)]);
      if PaymentEvent(m.order, answer.payment).Some? {
        HandlePc(cfg, t, PaymentEvent(m.order, answer.payment).value, now);
      }
    } else if m.proc.pc.WaitInvoiceState? && answer.InvoiceIs? {
      var event := InvoiceEvent(m.order, m.proc.pc.seen, answer.invoice);
      if event.Some? {
        HandlePc(cfg, m, event.value, now);
        HandlePc(cfg, m.(proc := m.proc.(tail := true)), event.value, now);
      }
    }
  }

  lemma StepPc(cfg: Config, m: Machine, a: Action)
    ensures PcFollows(m, EditOf(cfg, m, a), Step(cfg, m, a))
  {
    match a
    case Advance(now) => RunPc(cfg, m, now);
    case Resolve(answer, now) => ResumePc(cfg, m, answer, now);
    case _ =>
  }

  // ----- The serial queue -----

  function Accepted(cfg: Config, m: Machine, a: Action): seq<Task> {
    match a
    case Deliver(event) => [HandleTask(event)]
    case Sweep(now) => if Due(cfg, m.order, now) then [SweepTask(now)] else []
    case RequestCancel => if Cancellable(m.order.state) then [CancelTask] else []
    case Recover => if Terminal(m.order.state) then [] else [ReconcileTask]
    case _ => []
  }

  /** A task starts only when none is running. */
  function Started(m: Machine, a: Action): seq<Task> {
    if a.Advance? && m.proc.pc == Idle && m.proc.queue != [] then [m.proc.queue[0]] else []
  }

  lemma RunQueue(cfg: Config, m: Machine, now: int)
    ensures Run(cfg, m, now).proc.queue == if m.proc.pc == Idle && m.proc.queue != [] then m.proc.queue[1..] else m.proc.queue
  {
  }

  lemma ResumeQueue(cfg: Config, m: Machine, answer: Answer, now: int)
    ensures Resume(cfg, m, answer, now).proc.queue == m.proc.queue
  {
  }

  lemma StepQueue(cfg: Config, m: Machine, a: Action)
    requires a != Crash
    ensures m.proc.queue + Accepted(cfg, m, a) == Started(m, a) + Step(cfg, m, a).proc.queue
  {
    match a
    case Advance(now) => RunQueue(cfg, m, now);
    case Resolve(answer, now) => ResumeQueue(cfg, m, answer, now);
    case _ =>
  }

  // ----- Runs -----

  lemma StepsCons(cfg: Config, m: Machine, a: Action, rest: seq<Action>)
    ensures Steps(cfg, m, [a] + rest) == Steps(cfg, Step(cfg, m, a), rest)
  {
    assert ([a] + rest)[1..] == rest;
  }

  lemma {:induction false} StepsAppend(cfg: Config, m: Machine, actions: seq<Action>, more: seq<Action>)
    ensures Steps(cfg, m, actions + more) == Steps(cfg, Steps(cfg, m, actions), more)
    decreases |actions|
  {
    if actions == [] {
      assert actions + more == more;
    } else {
      StepsAppend(cfg, Step(cfg, m, actions[0]), actions[1..], more);
      assert actions + more == [actions[0]] + (actions[1..] + more);
      StepsCons(cfg, m, actions[0], actions[1..] + more);
    }
  }

  lemma StepsLast(cfg: Config, m: Machine, actions: seq<Action>, a: Action)
    ensures Steps(cfg, m, actions + [a]) == Step(cfg, Steps(cfg, m, actions), a)
  {
    StepsAppend(cfg, m, actions, [a]);
    StepsCons(cfg, Steps(cfg, m, actions), a, []);
  }
}
