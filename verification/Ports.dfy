/** What the two kinds of node answer, in the vocabulary the engine relies on, and what that means for recovery. */
module Ports {
  import opened Basics
  import opened Orders
  import opened OrderMachine
  import opened MachineSteps
  import opened MachineHistory
  import opened MachineRecovery
  import opened MachineOutcomes

  /** A lookup at a node: found, an error that says there is no such thing, or any other error. */
  datatype Lookup<+T> = Found(value: T) | NotFound | Broken

  datatype FiberInvoiceStatus = FiberOpen | FiberReceived | FiberPaid | FiberCancelled | FiberExpired
  datatype LnInvoiceState = LnOpen | LnAccepted | LnSettled | LnCanceled

  datatype FiberPaymentStatus = FiberCreated | FiberInflight | FiberSuccess | FiberFailed
  datatype FiberPayment = FiberPayment(status: FiberPaymentStatus, failedError: Option<string>)

  datatype LnPaymentStatus = LnSucceeded | LnFailed | LnPending
  datatype LnUpdate = LnUpdate(status: LnPaymentStatus, preimage: Option<Hash>, failureReason: Option<string>)

  function FiberInvoiceState(l: Lookup<FiberInvoiceStatus>): Answer {
    match l
    case Found(s) => InvoiceIs(if s == FiberOpen then Open else if s == FiberReceived then HoldHeld
                               else if s == FiberPaid then HoldSettled else HoldCancelled)
    case NotFound => InvoiceIs(Unknown)
    case Broken => Threw
  }

  function LightningInvoiceState(l: Lookup<LnInvoiceState>): Answer {
    match l
    case Found(s) => InvoiceIs(if s == LnOpen then Open else if s == LnAccepted then HoldHeld
                               else if s == LnSettled then HoldSettled else HoldCancelled)
    case NotFound => InvoiceIs(Unknown)
    case Broken => Threw
  }

  /** A Fiber node never returns the preimage. */
  function FiberPaymentState(l: Lookup<FiberPayment>): Answer {
    match l
    case Found(p) =>
      if p.status == FiberFailed then PaymentIs(PaymentResult(PayFailed, None, p.failedError))
      else PaymentIs(PaymentResult(if p.status == FiberSuccess then PaySucceeded else PayInFlight, None, None))
    case NotFound => PaymentIs(PaymentResult(NoPayment, None, None))
    case Broken => Threw
  }

  /** Only the first update of the tracked payment counts; none at all is absence. */
  function LightningPaymentState(l: Lookup<seq<LnUpdate>>): Answer {
    match l
    case Found(updates) =>
      if updates == [] then PaymentIs(PaymentResult(NoPayment, None, None)) else
      var u := updates[0];
      PaymentIs(if u.status == LnSucceeded then PaymentResult(PaySucceeded, Given(u.preimage), None)
                else if u.status == LnFailed then PaymentResult(PayFailed, None, Given(u.failureReason))
                else PaymentResult(PayInFlight, None, None))
    case NotFound => PaymentIs(PaymentResult(NoPayment, None, None))
    case Broken => Threw
  }

  /** What a Fiber node's answer is read as, status by status. Absence is told by an error alone. */
  lemma FiberPaymentsAreTold(l: Lookup<FiberPayment>)
    ensures FiberPaymentState(l) == Threw <==> l == Broken
    ensures FiberPaymentState(l).PaymentIs? <==> l != Broken
    ensures l != Broken ==>
              var p := FiberPaymentState(l).payment;
              && (p.status == NoPayment <==> l == NotFound)
              && (p.status == PayInFlight <==> l.Found? && (l.value.status == FiberCreated || l.value.status == FiberInflight))
              && (p.status == PaySucceeded <==> l.Found? && l.value.status == FiberSuccess)
              && (p.status == PayFailed <==> l.Found? && l.value.status == FiberFailed)
              && p.preimage == None && (p.status == PayFailed ==> p.failureReason == l.value.failedError)
  {
  }

  /** The same for a Lightning node, which tells absence by an error or by a stream without updates. */
  lemma LightningPaymentsAreTold(l: Lookup<seq<LnUpdate>>)
    ensures LightningPaymentState(l) == Threw <==> l == Broken
    ensures LightningPaymentState(l).PaymentIs? <==> l != Broken
    ensures l != Broken ==>
              var p := LightningPaymentState(l).payment;
              && (p.status == NoPayment <==> l == NotFound || l.value == [])
              && (p.status == PayInFlight <==> l.Found? && l.value != [] && l.value[0].status == LnPending)
              && (p.status == PaySucceeded <==> l.Found? && l.value != [] && l.value[0].status == LnSucceeded)
              && (p.status == PayFailed <==> l.Found? && l.value != [] && l.value[0].status == LnFailed)
              && (p.status == PaySucceeded ==> p.preimage == Given(l.value[0].preimage))
              && (p.status == PayFailed ==> p.failureReason == Given(l.value[0].failureReason))
  {
  }

  /** Only a hold that the node has received, or accepted, counts as held, and so on; expired is cancelled, unknown is not. */
  lemma HoldsAreTold(f: Lookup<FiberInvoiceStatus>, l: Lookup<LnInvoiceState>)
    ensures FiberInvoiceState(f) == Threw <==> f == Broken
    ensures FiberInvoiceState(f) == InvoiceIs(Open) <==> f == Found(FiberOpen)
    ensures FiberInvoiceState(f) == InvoiceIs(HoldHeld) <==> f == Found(FiberReceived)
    ensures FiberInvoiceState(f) == InvoiceIs(HoldSettled) <==> f == Found(FiberPaid)
    ensures FiberInvoiceState(f) == InvoiceIs(HoldCancelled) <==> f == Found(FiberCancelled) || f == Found(FiberExpired)
    ensures FiberInvoiceState(f) == InvoiceIs(Unknown) <==> f == NotFound
    ensures LightningInvoiceState(l) == Threw <==> l == Broken
    ensures LightningInvoiceState(l) == InvoiceIs(Open) <==> l == Found(LnOpen)
    ensures LightningInvoiceState(l) == InvoiceIs(HoldHeld) <==> l == Found(LnAccepted)
    ensures LightningInvoiceState(l) == InvoiceIs(HoldSettled) <==> l == Found(LnSettled)
    ensures LightningInvoiceState(l) == InvoiceIs(HoldCancelled) <==> l == Found(LnCanceled)
    ensures LightningInvoiceState(l) == InvoiceIs(Unknown) <==> l == NotFound
  {
  }

  /** Rule R4 at the Fiber node: recovery pays an order in flight again exactly when the node has no such payment. */
  lemma FiberRepaysExactly(cfg: Config, m: Machine, truth: Truth, now: int, l: Lookup<FiberPayment>)
    requires m.proc == IDLE && LegsAgree(cfg, m.order) && m.order.state == OutgoingInFlight
    requires truth.invoice != HoldCancelled && FiberPaymentState(l) == PaymentIs(truth.payment)
    ensures PaysSince(m, Recovered(cfg, m, truth, now)) <==> l == NotFound
  {
    FiberPaymentsAreTold(l);
    RecoveryRepaysExactly(cfg, m, truth, now);
  }

  /** Rule R4 at the Lightning node. */
  lemma LightningRepaysExactly(cfg: Config, m: Machine, truth: Truth, now: int, l: Lookup<seq<LnUpdate>>)
    requires m.proc == IDLE && LegsAgree(cfg, m.order) && m.order.state == OutgoingInFlight
    requires truth.invoice != HoldCancelled && LightningPaymentState(l) == PaymentIs(truth.payment)
    ensures PaysSince(m, Recovered(cfg, m, truth, now)) <==> l == NotFound || l == Found([])
  {
    LightningPaymentsAreTold(l);
    RecoveryRepaysExactly(cfg, m, truth, now);
  }

  /** Rule R2 at recovery: an order still PENDING is paid exactly when the node of its hold has the payer's HTLC. */
  lemma ReceivedHoldIsPaidExactly(cfg: Config, m: Machine, truth: Truth, now: int,
                                  f: Lookup<FiberInvoiceStatus>, l: Lookup<LnInvoiceState>)
    requires m.proc == IDLE && LegsAgree(cfg, m.order) && m.order.state == Pending && m.order.incoming.invoice != ""
    requires now + cfg.minSafetyDeltaMs < m.order.incoming.tlcExpiryAt
    ensures FiberInvoiceState(f) == InvoiceIs(truth.invoice) ==>
              (PaysSince(m, Recovered(cfg, m, truth, now)) <==> f == Found(FiberReceived))
    ensures LightningInvoiceState(l) == InvoiceIs(truth.invoice) ==>
              (PaysSince(m, Recovered(cfg, m, truth, now)) <==> l == Found(LnAccepted))
  {
    HoldsAreTold(f, l);
    RecoveryPaysFoundHold(cfg, m, truth, now);
  }

  /** A lookup that breaks decides nothing: the order stays as it is, nothing is paid, and its recovery is over. */
  lemma BrokenLookupsDecideNothing(cfg: Config, m: Machine, now: int, f: Lookup<FiberPayment>, l: Lookup<seq<LnUpdate>>)
    requires m.proc.pc == WaitPaymentState && (f == Broken || l == Broken)
    ensures var answer := if f == Broken then FiberPaymentState(f) else LightningPaymentState(l);
            var t := Step(cfg, m, Resolve(answer, now));
            t.order == m.order && t.trace == m.trace && t.proc.pc == Idle
  {
    ThrowsAreCaughtExactly(cfg, m, now);
  }

  /** Recovery of an order in flight to a Fiber node whose hold is still standing: it ends exactly when the node
      says the payment failed. A payment that succeeded stays where it is, because no preimage comes with the
      answer; only the node's own event ends it. */
  lemma FiberRecoveryEndsExactly(cfg: Config, m: Machine, truth: Truth, now: int, l: Lookup<FiberPayment>)
    requires m.proc == IDLE && LegsAgree(cfg, m.order) && m.order.state == OutgoingInFlight
    requires truth.invoice != HoldCancelled && FiberPaymentState(l) == PaymentIs(truth.payment)
    ensures Terminal(Recovered(cfg, m, truth, now).order.state) <==> l.Found? && l.value.status == FiberFailed
    ensures Recovered(cfg, m, truth, now).order.state ==
              if l.Found? && l.value.status == FiberFailed then Failed else OutgoingInFlight
  {
    RecoveryOutcome(cfg, m, truth, now);
  }

  /** The same for a Lightning node: a success ends it too, if its first update carries the preimage of the hash. */
  lemma LightningRecoveryEndsExactly(cfg: Config, m: Machine, truth: Truth, now: int, l: Lookup<seq<LnUpdate>>)
    requires m.proc == IDLE && LegsAgree(cfg, m.order) && m.order.state == OutgoingInFlight
    requires truth.invoice != HoldCancelled && LightningPaymentState(l) == PaymentIs(truth.payment)
    ensures Recovered(cfg, m, truth, now).order.state ==
              if l.NotFound? || l.value == [] then OutgoingInFlight
              else if l.value[0].status == LnFailed then Failed
              else if l.value[0].status == LnSucceeded && Given(l.value[0].preimage).Some? &&
                      Matches(cfg, l.value[0].preimage.value, m.order.paymentHash) then Succeeded
              else OutgoingInFlight
  {
    RecoveryOutcome(cfg, m, truth, now);
  }

  /** A hold that a node reports as cancelled, or as expired, fails the order at recovery,
      whatever state it is in: even one that was paid out and not yet collected. */
  lemma LostHoldFailsTheOrder(cfg: Config, m: Machine, truth: Truth, now: int,
                              fiber: Lookup<FiberInvoiceStatus>, lightning: Lookup<LnInvoiceState>)
    requires m.proc == IDLE && LegsAgree(cfg, m.order) && !Terminal(m.order.state)
    requires || (FiberInvoiceState(fiber) == InvoiceIs(truth.invoice) &&
                 (fiber == Found(FiberCancelled) || fiber == Found(FiberExpired)))
             || (LightningInvoiceState(lightning) == InvoiceIs(truth.invoice) && lightning == Found(LnCanceled))
    ensures Recovered(cfg, m, truth, now).order.state == Failed
  {
    RecoveryOutcome(cfg, m, truth, now);
  }
}
