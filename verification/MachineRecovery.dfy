/** Start-up reconciliation run to its end against a node that answers every call: which orders it
    brings to a terminal state, and which ones it leaves where they are. */
module MachineRecovery {
  import opened Basics
  import opened Orders
  import opened OrderMachine
  import opened MachineSteps
  import opened MachineSafety
  import opened MachineHistory

  /** What the nodes say while one order is reconciled: the incoming invoice when asked first and when a
      refund is retried, and the outgoing payment. */
  datatype Truth = Truth(invoice: HoldInvoiceState, invoiceLater: HoldInvoiceState, payment: PaymentResult)

  predicate Waits(pc: Pc) {
    pc == WaitPay || pc == WaitPaymentState || pc == WaitRepay || pc.WaitSettle? || pc.WaitRefundCancel? ||
    pc == WaitFailCancel || pc.WaitInvoiceState? || pc.WaitRetryState? || pc.WaitRetryCancel?
  }

  /** The answer to the call a task waits on; calls that change something succeed. */
  function Reply(truth: Truth, pc: Pc): Answer {
    match pc
    case WaitInvoiceState(_) => InvoiceIs(truth.invoice)
    case WaitRetryState(_) => InvoiceIs(truth.invoiceLater)
    case WaitPaymentState => PaymentIs(truth.payment)
    case _ => Done
  }

  /** No task goes on for ever: at most this many stops are left. */
  function Budget(p: Process): nat {
    (match p.pc
     case Idle => 0
     case WaitFailCancel => 1
     case WaitRefundCancel(_) => 1
     case WaitSettle(_) => 1
     case WaitRepay => 1
     case WaitRetryCancel(_) => 1
     case AtFailCancel => 2
     case AtRefundCancel(_) => 2
     case AtSettle => 2
     case WaitRetryState(_) => 2
     case WaitPaymentState => 3
     case AtTail => 4
     case WaitPay => 4
     case AtPay(_, _) => 5
     case AtDispatch => 6
     case WaitInvoiceState(_) => 12) + if p.tail && p.pc != Idle then 5 else 0
  }

  function Next(cfg: Config, m: Machine, truth: Truth, now: int): Machine {
    Step(cfg, m, if Waits(m.proc.pc) then Resolve(Reply(truth, m.proc.pc), now) else Advance(now))
  }

  lemma BudgetRuns(cfg: Config, m: Machine, now: int)
    requires m.proc.pc != Idle && !Waits(m.proc.pc)
    ensures Budget(Run(cfg, m, now).proc) < Budget(m.proc)
  {
  }

  lemma BudgetAtPayment(cfg: Config, m: Machine, payment: PaymentResult, now: int)
    requires m.proc.pc == WaitPaymentState
    ensures Budget(ReconcilePayment(cfg, m, payment, now).proc) < Budget(m.proc)
  {
  }

  lemma BudgetAtInvoice(cfg: Config, m: Machine, invoice: HoldInvoiceState, now: int)
    requires m.proc.pc.WaitInvoiceState?
    ensures Budget(ReconcileInvoice(cfg, m, m.proc.pc.seen, invoice, now).proc) < Budget(m.proc)
  {
  }

  /** What the call that a task waits on can come back with: its kind of answer, or an error. */
  predicate Answers(pc: Pc, answer: Answer) {
    answer == Threw ||
    if pc.WaitInvoiceState? || pc.WaitRetryState? then answer.InvoiceIs?
    else if pc == WaitPaymentState then answer.PaymentIs? else answer == Done
  }

  /** Every answer, and every error, moves a waiting task on. */
  lemma AnswersMoveOn(cfg: Config, m: Machine, answer: Answer, now: int)
    requires Waits(m.proc.pc) && Answers(m.proc.pc, answer)
    ensures Budget(Step(cfg, m, Resolve(answer, now)).proc) < Budget(m.proc)
  {
    if m.proc.pc == WaitPaymentState && answer.PaymentIs? {
      BudgetAtPayment(cfg, m, answer.payment, now);
    } else if m.proc.pc.WaitInvoiceState? && answer.InvoiceIs? {
      BudgetAtInvoice(cfg, m, answer.invoice, now);
    }
  }

  /** A running task is driven: it runs where it can run, and is answered, or gets an error, where it waits. */
  ghost predicate Driven(cfg: Config, m: Machine, actions: seq<Action>)
    decreases |actions|
  {
    actions == [] ||
    (m.proc.pc != Idle
     && (if Waits(m.proc.pc) then actions[0].Resolve? && Answers(m.proc.pc, actions[0].answer) else actions[0].Advance?)
     && Driven(cfg, Step(cfg, m, actions[0]), actions[1..]))
  }

  /** No task goes on for ever, and none gets stuck, whatever the nodes answer and whichever calls throw: a driven task
      ends within its budget, seventeen stops at most. */
  lemma {:induction false} TasksEnd(cfg: Config, m: Machine, actions: seq<Action>)
    requires Driven(cfg, m, actions)
    ensures |actions| <= Budget(m.proc) <= 17
    decreases |actions|
  {
    if actions != [] {
      if Waits(m.proc.pc) {
        AnswersMoveOn(cfg, m, actions[0].answer, actions[0].now);
      } else {
        BudgetRuns(cfg, m, actions[0].now);
      }
      TasksEnd(cfg, Step(cfg, m, actions[0]), actions[1..]);
    }
  }

  lemma BudgetShrinks(cfg: Config, m: Machine, truth: Truth, now: int)
    requires m.proc.pc != Idle
    ensures Budget(Next(cfg, m, truth, now).proc) < Budget(m.proc)
  {
    if Waits(m.proc.pc) { AnswersMoveOn(cfg, m, Reply(truth, m.proc.pc), now); } else { BudgetRuns(cfg, m, now); }
  }

  /** Let the running task of `m` run to its end. */
  function Drive(cfg: Config, m: Machine, truth: Truth, now: int): Machine
    decreases Budget(m.proc)
  {
    if m.proc.pc == Idle then m else
    BudgetShrinks(cfg, m, truth, now);
    Drive(cfg, Next(cfg, m, truth, now), truth, now)
  }

  /** `start()` for one order of a fresh process. */
  function Recovered(cfg: Config, m: Machine, truth: Truth, now: int): Machine
    requires m.proc == IDLE
  {
    Drive(cfg, Step(cfg, Step(cfg, m, Recover), Advance(now)), truth, now)
  }

  // ----- How each task ends -----

  lemma DriveOnce(cfg: Config, m: Machine, truth: Truth, now: int)
    requires m.proc.pc != Idle
    ensures Drive(cfg, m, truth, now) == Drive(cfg, Next(cfg, m, truth, now), truth, now)
  {
  }

  predicate Definitive(cfg: Config, o: Order, payment: PaymentResult) {
    payment.status == PayFailed ||
    (payment.status == PaySucceeded && Given(payment.preimage).Some? && Matches(cfg, payment.preimage.value, o.paymentHash))
  }

  ghost predicate SettlesNothingNew(m: Machine, t: Machine) {
    forall i :: |m.trace| <= i < |t.trace| && t.trace[i].Issued? ==> !t.trace[i].call.Settle?
  }

  lemma DriveRefund(cfg: Config, m: Machine, truth: Truth, now: int)
    requires m.proc.pc.AtRefundCancel? && !m.proc.tail && m.order.state == Refunding
    ensures Drive(cfg, m, truth, now).order.state == Failed && Drive(cfg, m, truth, now).proc.pc == Idle
    ensures m.trace <= Drive(cfg, m, truth, now).trace && SettlesNothingNew(m, Drive(cfg, m, truth, now))
  {
    DriveOnce(cfg, m, truth, now);
    CancelEnds(cfg, Next(cfg, m, truth, now), truth, now);
  }

  /** The hold is cancelled, and the order fails. */
  lemma CancelEnds(cfg: Config, m: Machine, truth: Truth, now: int)
    requires m.proc.pc.WaitRefundCancel? || m.proc.pc.WaitRetryCancel?
    requires !m.proc.tail && m.order.state == Refunding
    ensures var t := Drive(cfg, m, truth, now); t.proc.pc == Idle && t.order.state == Failed && t.trace == m.trace
  {
    DriveOnce(cfg, m, truth, now);
    assert Next(cfg, m, truth, now).proc.pc == Idle;
  }

  lemma DriveSettle(cfg: Config, m: Machine, truth: Truth, now: int)
    requires m.proc.pc == AtSettle && !m.proc.tail && m.order.state == OutgoingSettled
    requires LegsAgree(cfg, m.order)
    ensures Drive(cfg, m, truth, now).order.state == Succeeded && Drive(cfg, m, truth, now).proc.pc == Idle
  {
    DriveOnce(cfg, m, truth, now);
    var m1 := Next(cfg, m, truth, now);
    DriveOnce(cfg, m1, truth, now);
    assert Next(cfg, m1, truth, now).proc.pc == Idle;
  }

  /** The task goes on only to collect, to refund, or to pay once more. */
  lemma PaymentDecides(cfg: Config, m: Machine, truth: Truth, now: int)
    requires m.proc.pc == WaitPaymentState && !m.proc.tail && LegsAgree(cfg, m.order)
    requires m.order.state == OutgoingInFlight || m.order.state == OutgoingSettled
    ensures var t := Next(cfg, m, truth, now);
            && !t.proc.tail && LegsAgree(cfg, t.order)
            && (m.order.state == OutgoingInFlight ==>
                  if !Definitive(cfg, m.order, truth.payment)
                  then t.order == m.order && (t.proc.pc == Idle || t.proc.pc == WaitRepay)
                  else if truth.payment.status == PayFailed then t.proc.pc.AtRefundCancel? && t.order.state == Refunding
                  else t.proc.pc == AtSettle && t.order.state == OutgoingSettled)
            && (m.order.state == OutgoingSettled ==>
                  t.order == m.order && t.proc.pc == if truth.payment.status == PaySucceeded then AtSettle else Idle)
  {
    var a := Resolve(PaymentIs(truth.payment), now);
    StepEdits(cfg, m, a);
    EditKeepsLegs(cfg, m.order, EditOf(cfg, m, a));
  }

  /** From the question about the outgoing payment. */
  lemma DrivePayment(cfg: Config, m: Machine, truth: Truth, now: int)
    requires m.proc.pc == WaitPaymentState && !m.proc.tail && LegsAgree(cfg, m.order)
    requires m.order.state == OutgoingInFlight || m.order.state == OutgoingSettled
    ensures var t := Drive(cfg, m, truth, now);
            && t.proc.pc == Idle
            && (m.order.state == OutgoingInFlight ==>
                  t.order.state == if !Definitive(cfg, m.order, truth.payment) then OutgoingInFlight
                                   else if truth.payment.status == PayFailed then Failed else Succeeded)
            && (m.order.state == OutgoingSettled ==>
                  t.order.state == if truth.payment.status == PaySucceeded then Succeeded else OutgoingSettled)
  {
    DriveOnce(cfg, m, truth, now);
    PaymentDecides(cfg, m, truth, now);
    var m1 := Next(cfg, m, truth, now);
    if m1.proc.pc == AtSettle {
      DriveSettle(cfg, m1, truth, now);
    } else if m1.proc.pc.AtRefundCancel? {
      DriveRefund(cfg, m1, truth, now);
    } else if m1.proc.pc == WaitRepay {
      RepayEnds(cfg, m1, truth, now);
    }
  }

  lemma RepayEnds(cfg: Config, m: Machine, truth: Truth, now: int)
    requires m.proc.pc == WaitRepay && !m.proc.tail
    ensures Drive(cfg, m, truth, now).proc.pc == Idle && Drive(cfg, m, truth, now).order == m.order
  {
    DriveOnce(cfg, m, truth, now);
    assert Next(cfg, m, truth, now).proc.pc == Idle;
  }

  /** The invoice is gone, or is cancelled first. */
  lemma RetryGoesOn(cfg: Config, m: Machine, truth: Truth, now: int)
    requires m.proc.pc.WaitRetryState? && !m.proc.tail && m.order.state == Refunding
    ensures var t := Next(cfg, m, truth, now);
            && m.trace <= t.trace && SettlesNothingNew(m, t)
            && ((t.proc.pc == Idle && t.order.state == Failed) ||
                (t.proc.pc.WaitRetryCancel? && !t.proc.tail && t.order == m.order))
  {
  }

  lemma DriveRetry(cfg: Config, m: Machine, truth: Truth, now: int)
    requires m.proc.pc.WaitRetryState? && !m.proc.tail && m.order.state == Refunding
    ensures Drive(cfg, m, truth, now).order.state == Failed && Drive(cfg, m, truth, now).proc.pc == Idle
    ensures m.trace <= Drive(cfg, m, truth, now).trace && SettlesNothingNew(m, Drive(cfg, m, truth, now))
  {
    DriveOnce(cfg, m, truth, now);
    RetryGoesOn(cfg, m, truth, now);
    var m1 := Next(cfg, m, truth, now);
    if m1.proc.pc != Idle { CancelEnds(cfg, m1, truth, now); }
  }

  /** The outcome after the last part of `reconcile`, by the state it finds. */
  function TailOutcome(cfg: Config, o: Order, truth: Truth): OrderState {
    match o.state
    case OutgoingInFlight =>
      if !Definitive(cfg, o, truth.payment) then OutgoingInFlight
      else if truth.payment.status == PayFailed then Failed else Succeeded
    case OutgoingSettled => if truth.payment.status == PaySucceeded then Succeeded else OutgoingSettled
    case Refunding => Failed
    case s => s
  }

  lemma DriveTail(cfg: Config, m: Machine, truth: Truth, now: int)
    requires m.proc.pc == AtTail && !m.proc.tail && LegsAgree(cfg, m.order)
    ensures Drive(cfg, m, truth, now).proc.pc == Idle
    ensures Drive(cfg, m, truth, now).order.state == TailOutcome(cfg, m.order, truth)
  {
    DriveOnce(cfg, m, truth, now);
    var m1 := Next(cfg, m, truth, now);
    if m1.proc.pc == WaitPaymentState {
      DrivePayment(cfg, m1, truth, now);
    } else if m1.proc.pc.WaitRetryState? {
      DriveRetry(cfg, m1, truth, now);
    }
  }

  lemma DrivePay(cfg: Config, m: Machine, truth: Truth, now: int)
    requires m.proc.pc.AtPay? && m.proc.tail && m.order.state == OutgoingInFlight && LegsAgree(cfg, m.order)
    ensures Drive(cfg, m, truth, now).proc.pc == Idle
    ensures Drive(cfg, m, truth, now).order.state == TailOutcome(cfg, m.order, truth)
  {
    DriveOnce(cfg, m, truth, now);
    var m1 := Next(cfg, m, truth, now);
    DriveOnce(cfg, m1, truth, now);
    DriveTail(cfg, Next(cfg, m1, truth, now), truth, now);
  }

  lemma DriveRefundThenTail(cfg: Config, m: Machine, truth: Truth, now: int)
    requires m.proc.pc.AtRefundCancel? && m.proc.tail && m.order.state == Refunding && LegsAgree(cfg, m.order)
    ensures Drive(cfg, m, truth, now).proc.pc == Idle && Drive(cfg, m, truth, now).order.state == Failed
  {
    DriveOnce(cfg, m, truth, now);
    DriveCancelThenTail(cfg, Next(cfg, m, truth, now), truth, now);
  }

  lemma DriveCancelThenTail(cfg: Config, m: Machine, truth: Truth, now: int)
    requires m.proc.pc.WaitRefundCancel? && m.proc.tail && m.order.state == Refunding && LegsAgree(cfg, m.order)
    ensures Drive(cfg, m, truth, now).proc.pc == Idle && Drive(cfg, m, truth, now).order.state == Failed
  {
    DriveOnce(cfg, m, truth, now);
    DriveTail(cfg, Next(cfg, m, truth, now), truth, now);
  }

  /** A hold found at start-up on an order still PENDING: the one path that dispatches during recovery. */
  lemma DriveDispatch(cfg: Config, m: Machine, truth: Truth, now: int)
    requires m.proc.pc == AtDispatch && m.proc.tail && m.order.state == IncomingHeld && LegsAgree(cfg, m.order)
    ensures Drive(cfg, m, truth, now).proc.pc == Idle
    ensures Drive(cfg, m, truth, now).order.state ==
            if InWindow(cfg, m.order, now) then TailOutcome(cfg, Dispatched(m.order, now), truth) else Failed
  {
    DriveOnce(cfg, m, truth, now);
    var m1 := Next(cfg, m, truth, now);
    if InWindow(cfg, m.order, now) {
      DrivePay(cfg, m1, truth, now);
    } else {
      DriveRefundThenTail(cfg, m1, truth, now);
    }
  }

  // ----- Main result -----

  /** Where recovery takes an order. */
  function Outcome(cfg: Config, o: Order, truth: Truth, now: int): OrderState {
    if Terminal(o.state) then o.state
    else if o.state == Pending && o.incoming.invoice == "" then Failed
    else if truth.invoice == HoldHeld && o.state == Pending then
      if InWindow(cfg, o, now) then TailOutcome(cfg, Dispatched(HoldArrived(o, now), now), truth) else Failed
    else if truth.invoice == HoldCancelled then Failed
    else if truth.invoice == HoldSettled && o.state == OutgoingSettled then Succeeded
    else TailOutcome(cfg, o, truth)
  }

  lemma DriveInvoice(cfg: Config, m: Machine, truth: Truth, now: int)
    requires m.proc.pc == WaitInvoiceState(m.order.state) && !m.proc.tail && LegsAgree(cfg, m.order)
    requires !Terminal(m.order.state) && (m.order.state == Pending ==> m.order.incoming.invoice != "")
    ensures Drive(cfg, m, truth, now).proc.pc == Idle
    ensures Drive(cfg, m, truth, now).order.state == Outcome(cfg, m.order, truth, now)
  {
    DriveOnce(cfg, m, truth, now);
    var m1 := Next(cfg, m, truth, now);
    if truth.invoice == HoldHeld && m.order.state == Pending {
      DriveDispatch(cfg, m1, truth, now);
    } else if m1.proc.pc == AtTail {
      DriveTail(cfg, m1, truth, now);
    }
  }

  lemma DriveFail(cfg: Config, m: Machine, truth: Truth, now: int)
    requires m.proc.pc == AtFailCancel && !m.proc.tail && m.order.state == Failed
    ensures Drive(cfg, m, truth, now).proc.pc == Idle && Drive(cfg, m, truth, now).order.state == Failed
  {
    DriveOnce(cfg, m, truth, now);
    var m1 := Next(cfg, m, truth, now);
    DriveOnce(cfg, m1, truth, now);
    assert Next(cfg, m1, truth, now).proc.pc == Idle;
  }

  /** The first stop of `reconcile`, in a process with nothing else to do. */
  lemma RecoveryStarts(cfg: Config, m: Machine, now: int)
    requires m.proc == IDLE && !Terminal(m.order.state)
    ensures var t := Step(cfg, Step(cfg, m, Recover), Advance(now));
            if m.order.state == Pending && m.order.incoming.invoice == ""
            then t.proc.pc == AtFailCancel && !t.proc.tail && t.order.state == Failed
            else t.proc.pc == WaitInvoiceState(m.order.state) && !t.proc.tail && t.order == m.order
  {
    assert Step(cfg, m, Recover).proc.queue[1..] == [];
  }

  /** For every record the engine can have left behind, and every answer of the nodes, recovery ends where
      `Outcome` says. */
  lemma RecoveryOutcome(cfg: Config, m: Machine, truth: Truth, now: int)
    requires m.proc == IDLE && LegsAgree(cfg, m.order)
    ensures Recovered(cfg, m, truth, now).proc.pc == Idle
    ensures Recovered(cfg, m, truth, now).order.state == Outcome(cfg, m.order, truth, now)
  {
    if !Terminal(m.order.state) {
      RecoveryStarts(cfg, m, now);
      var t := Step(cfg, Step(cfg, m, Recover), Advance(now));
      if t.proc.pc == AtFailCancel {
        DriveFail(cfg, t, truth, now);
      } else {
        DriveInvoice(cfg, t, truth, now);
      }
    }
  }

  /** What the node must have said for the order to end. An order that crashed in INCOMING_HELD is not resumed:
      only a cancelled hold ends it here. */
  predicate Resolvable(cfg: Config, o: Order, truth: Truth, now: int) {
    || Terminal(o.state) || o.state == Refunding
    || (o.state == Pending && (o.incoming.invoice == "" || truth.invoice == HoldCancelled ||
          (truth.invoice == HoldHeld && (!InWindow(cfg, o, now) || Definitive(cfg, o, truth.payment)))))
    || (o.state == IncomingHeld && truth.invoice == HoldCancelled)
    || (o.state == OutgoingInFlight && (truth.invoice == HoldCancelled || Definitive(cfg, o, truth.payment)))
    || (o.state == OutgoingSettled && (truth.invoice == HoldCancelled || truth.invoice == HoldSettled ||
                                       truth.payment.status == PaySucceeded))
  }

  /** Recovery converges for exactly these orders, and pays off for exactly the ones that should pay off. */
  lemma RecoveryConvergesExactly(cfg: Config, m: Machine, truth: Truth, now: int)
    requires m.proc == IDLE && LegsAgree(cfg, m.order)
    ensures Terminal(Recovered(cfg, m, truth, now).order.state) <==> Resolvable(cfg, m.order, truth, now)
    ensures m.order.state == OutgoingSettled && truth.payment.status == PaySucceeded && truth.invoice != HoldCancelled
            ==> Recovered(cfg, m, truth, now).order.state == Succeeded
  {
    RecoveryOutcome(cfg, m, truth, now);
  }

  /** A hold that the node already reports as settled is not settled again: the order succeeds on that answer alone. */
  lemma SettledHoldIsNotSettledAgain(cfg: Config, m: Machine, truth: Truth, now: int)
    requires m.proc == IDLE && m.order.state == OutgoingSettled && truth.invoice == HoldSettled
    ensures var t := Recovered(cfg, m, truth, now);
            t.order.state == Succeeded &&
            t.trace == m.trace + [Issued(InvoiceState(m.order.incoming.network, m.order.paymentHash), OutgoingSettled)]
  {
    assert Step(cfg, m, Recover).proc.queue[1..] == [];
    var t := Step(cfg, Step(cfg, m, Recover), Advance(now));
    DriveOnce(cfg, t, truth, now);
    assert Next(cfg, t, truth, now).proc.pc == Idle;
  }

  predicate Unqueued(p: Process, q: Process) {
    p.queue == q.queue && p.creation == q.creation
  }

  /** A running task leaves the queue alone. */
  lemma NextUnqueued(cfg: Config, m: Machine, truth: Truth, now: int)
    requires m.proc.pc != Idle
    ensures Unqueued(m.proc, Next(cfg, m, truth, now).proc)
  {
    var a := if Waits(m.proc.pc) then Resolve(Reply(truth, m.proc.pc), now) else Advance(now);
    StepQueue(cfg, m, a);
    StepEdits(cfg, m, a);
    assert m.proc.queue + [] == m.proc.queue && [] + Step(cfg, m, a).proc.queue == Step(cfg, m, a).proc.queue;
  }

  lemma NextLawful(cfg: Config, m: Machine, truth: Truth, now: int)
    requires Lawful(cfg, m)
    ensures Lawful(cfg, Next(cfg, m, truth, now))
  {
    StepLawful(cfg, m, if Waits(m.proc.pc) then Resolve(Reply(truth, m.proc.pc), now) else Advance(now));
  }

  lemma {:induction false} DriveLawful(cfg: Config, m: Machine, truth: Truth, now: int)
    requires Lawful(cfg, m)
    ensures Lawful(cfg, Drive(cfg, m, truth, now)) && Unqueued(m.proc, Drive(cfg, m, truth, now).proc)
    ensures Drive(cfg, m, truth, now).proc.pc == Idle
    decreases Budget(m.proc)
  {
    if m.proc.pc != Idle {
      var t := Next(cfg, m, truth, now);
      NextLawful(cfg, m, truth, now);
      NextUnqueued(cfg, m, truth, now);
      BudgetShrinks(cfg, m, truth, now);
      DriveOnce(cfg, m, truth, now);
      assert Lawful(cfg, t) && Unqueued(m.proc, t.proc);
      DriveLawful(cfg, t, truth, now);
    }
  }

  /** Recovery is an ordinary run: it keeps every invariant and leaves nothing running. */
  lemma RecoveredLawful(cfg: Config, m: Machine, truth: Truth, now: int)
    requires m.proc == IDLE && Lawful(cfg, m)
    ensures Lawful(cfg, Recovered(cfg, m, truth, now)) && Recovered(cfg, m, truth, now).proc == IDLE
  {
    StepLawful(cfg, m, Recover);
    StepLawful(cfg, Step(cfg, m, Recover), Advance(now));
    DriveLawful(cfg, Step(cfg, Step(cfg, m, Recover), Advance(now)), truth, now);
  }
}
