/** What holds of one order in every run whose log forgets nothing: whatever record it starts from, whatever is
    delivered, answered or thrown, wherever the process crashes. OrderLife tells which of it survives a torn append,
    and exactly when the rest does. */
module MachineSafety {
  import opened Basics
  import opened Orders
  import opened OrderMachine
  import opened MachineSteps

  // ----- Order of states -----

  function Rank(s: OrderState): nat {
    match s
    case Pending => 0
    case IncomingHeld => 1
    case OutgoingInFlight => 2
    case OutgoingSettled => 3
    case Refunding => 3
    case Succeeded => 4
    case Failed => 4
  }

  /** The edges the code takes. The diagram of the protocol has neither IncomingHeld, OutgoingInFlight
      nor OutgoingSettled to Failed. */
  predicate Edge(s: OrderState, t: OrderState) {
    match s
    case Pending => t == IncomingHeld || t == Failed
    case IncomingHeld => t == OutgoingInFlight || t == Refunding || t == Failed
    case OutgoingInFlight => t == OutgoingSettled || t == Refunding || t == Failed
    case OutgoingSettled => t == Succeeded || t == Failed
    case Refunding => t == Failed
    case Succeeded => false
    case Failed => false
  }

  /** `t` can be reached from `s` in any number of edges. */
  predicate Later(s: OrderState, t: OrderState) {
    s == t || (Rank(s) < Rank(t) && (t == Succeeded ==> s != Refunding))
  }

  lemma EdgesCompose(s: OrderState, t: OrderState, u: OrderState)
    requires Later(s, t)
    ensures Edge(t, u) ==> Later(s, u)
    ensures Later(t, u) ==> Later(s, u)
  {
  }

  // ----- The agreed terms of an order never change -----

  predicate SameTerms(o: Order, p: Order) {
    && o.orderId == p.orderId && o.quoteId == p.quoteId && o.direction == p.direction
    && o.paymentHash == p.paymentHash && o.createdAt == p.createdAt
    && o.incoming.network == p.incoming.network && o.incoming.amount == p.incoming.amount
    && o.incoming.tlcExpiryAt == p.incoming.tlcExpiryAt
    && o.outgoing.network == p.outgoing.network && o.outgoing.amount == p.outgoing.amount
    && o.outgoing.invoice == p.outgoing.invoice && o.outgoing.tlcExpiryAt == p.outgoing.tlcExpiryAt
  }

  // ----- What each call at the ports looks like -----

  predicate CallOk(cfg: Config, o: Order, call: Call, persisted: OrderState) {
    match call
    case CreateHoldInvoice(network, hash, amount, _) =>
      network == o.incoming.network && hash == o.paymentHash && amount == o.incoming.amount
    case Pay(network, invoice, maxFee, limit, readAt) =>
      && persisted == OutgoingInFlight
      && network == o.outgoing.network && invoice == o.outgoing.invoice && maxFee == cfg.maxFeeFor(o.outgoing.amount)
      && readAt + limit == o.outgoing.tlcExpiryAt
    case Settle(network, hash, preimage) =>
      && persisted == OutgoingSettled
      && network == o.incoming.network && hash == o.paymentHash
      && preimage != "" && Matches(cfg, preimage, hash)
    case Cancel(network, hash) =>
      && (persisted == Refunding || persisted == Failed)
      && network == o.incoming.network && hash == o.paymentHash
    case InvoiceState(network, hash) => network == o.incoming.network && hash == o.paymentHash
    case PaymentState(network, hash) => network == o.outgoing.network && hash == o.paymentHash
  }

  ghost predicate CallsOk(cfg: Config, o: Order, trace: seq<Obs>) {
    forall i :: 0 <= i < |trace| && trace[i].Issued? ==> CallOk(cfg, o, trace[i].call, trace[i].persisted)
  }

  /** Calls are issued in states that only move along the edges, up to the present one. */
  ghost predicate Chronological(trace: seq<Obs>, now: OrderState) {
    && (forall i :: 0 <= i < |trace| && trace[i].Issued? ==> Later(trace[i].persisted, now))
    && (forall i, j :: 0 <= i < j < |trace| && trace[i].Issued? && trace[j].Issued? ==>
          Later(trace[i].persisted, trace[j].persisted))
  }

  // ----- Single flight -----

  predicate IsPay(e: Obs) {
    e.Issued? && e.call.Pay?
  }

  ghost predicate NoPay(trace: seq<Obs>) {
    forall i :: 0 <= i < |trace| ==> !IsPay(trace[i])
  }

  /** A payment query was answered "none" at k, and nothing was paid from k on. */
  ghost predicate AbsentSince(trace: seq<Obs>, k: int) {
    0 <= k < |trace| && trace[k] == PaymentAnswered(NoPayment) &&
    forall i :: k <= i < |trace| ==> !IsPay(trace[i])
  }

  ghost predicate MayPay(trace: seq<Obs>) {
    NoPay(trace) || exists k :: AbsentSince(trace, k)
  }

  /** Every pay after the first one follows such an answer, given after the pay before it. */
  ghost predicate SingleFlight(trace: seq<Obs>) {
    forall j :: 0 <= j < |trace| && IsPay(trace[j]) ==> MayPay(trace[..j])
  }

  // ----- Rule R3 at dispatch -----

  /** At this reading the incoming expiry was still further away than the safety delta. */
  predicate InWindow(cfg: Config, o: Order, readAt: int) {
    readAt + cfg.minSafetyDeltaMs < o.incoming.tlcExpiryAt
  }

  predicate JustAbsent(trace: seq<Obs>) {
    trace != [] && trace[|trace| - 1] == PaymentAnswered(NoPayment)
  }

  /** A pay was sent in the window, or right after a query was answered "none". */
  ghost predicate Windowed(cfg: Config, o: Order, trace: seq<Obs>) {
    forall j :: 0 <= j < |trace| && IsPay(trace[j]) ==>
      InWindow(cfg, o, trace[j].call.readAt) || JustAbsent(trace[..j])
  }

  // ----- The invariant -----

  /** The state every resumption point relies on; in particular nothing read before an await is stale after it. */
  predicate PcOk(cfg: Config, m: Machine) {
    var s := m.order.state;
    match m.proc.pc
    case Idle => !m.proc.tail
    case AtDispatch => s == IncomingHeld
    case AtPay(limit, readAt) =>
      s == OutgoingInFlight && readAt + limit == m.order.outgoing.tlcExpiryAt && InWindow(cfg, m.order, readAt)
    case WaitPay => s == OutgoingInFlight
    case WaitRepay => s == OutgoingInFlight
    case WaitPaymentState => s == OutgoingInFlight || s == OutgoingSettled
    case AtSettle => s == OutgoingSettled
    case WaitSettle(preimage) =>
      && s == OutgoingSettled && preimage != "" && Matches(cfg, preimage, m.order.paymentHash)
      && m.order.outgoing.preimage == Some(preimage)
    case AtRefundCancel(why) => s == Refunding && m.order.failure == Some(why)
    case WaitRefundCancel(why) => s == Refunding && m.order.failure == Some(why)
    case AtFailCancel => s == Failed
    case WaitFailCancel => s == Failed
    case WaitInvoiceState(seen) => s == seen && !m.proc.tail
    case AtTail => !m.proc.tail
    case WaitRetryState(why) => s == Refunding && why == Or(m.order.failure, RECOVERED_REFUND)
    case WaitRetryCancel(why) => s == Refunding && why == Or(m.order.failure, RECOVERED_REFUND)
  }

  /** When each edit is made. */
  predicate Allowed(cfg: Config, o: Order, e: Edit) {
    match e
    case NoEdit => true
    case IssueInvoice(_, _) => true
    case ArriveHold(_) => o.state == Pending
    case Dispatch(now) => o.state == IncomingHeld && o.outgoing.status == Waiting && InWindow(cfg, o, now)
    case PayOut(preimage, _) => o.state == OutgoingInFlight && preimage != "" && Matches(cfg, preimage, o.paymentHash)
    case Collect(preimage, _) => o.state == OutgoingSettled && o.outgoing.preimage == Some(preimage)
    case CollectByNode(_) => o.state == OutgoingSettled
    case RefundAs(_, _) => o.state == IncomingHeld || o.state == OutgoingInFlight
    case FailAs(_, _, _) => !Terminal(o.state)
  }

  /** What every call rests on, whatever the record was found to be. */
  ghost predicate Guarded(cfg: Config, m: Machine) {
    CallsOk(cfg, m.order, m.trace) && Windowed(cfg, m.order, m.trace) && PcOk(cfg, m)
  }

  /** At most one payment is under way: this needs a record that was not taken back. */
  ghost predicate Single(m: Machine) {
    SingleOver(m, m.trace)
  }

  /** The first pay is still to come. */
  predicate BeforePay(m: Machine) {
    m.order.state == Pending || m.proc.pc == AtDispatch || m.proc.pc.AtPay?
  }

  /** The same, after all that `seen` holds: more may have been seen under its hash than the order's own trace. */
  ghost predicate SingleOver(m: Machine, seen: seq<Obs>) {
    SingleFlight(seen) && (BeforePay(m) ==> MayPay(seen))
  }

  /** Calls and record move forward together: so does this. */
  ghost predicate Orderly(m: Machine) {
    Chronological(m.trace, m.order.state)
  }

  ghost predicate Safe(cfg: Config, m: Machine) {
    Guarded(cfg, m) && Single(m) && Orderly(m)
  }

  // ----- One step: the record and the position of the task -----

  lemma EditAllowed(cfg: Config, m: Machine, a: Action)
    requires PcOk(cfg, m)
    ensures Allowed(cfg, m.order, EditOf(cfg, m, a))
  {
  }

  lemma EditKeepsTerms(cfg: Config, o: Order, e: Edit)
    requires Allowed(cfg, o, e)
    ensures SameTerms(o, Apply(o, e))
    ensures Apply(o, e).state == o.state || Edge(o.state, Apply(o, e).state)
    ensures Apply(o, e).state == o.state <==> e == NoEdit || e.IssueInvoice?
  {
  }

  lemma StepEditsOrder(cfg: Config, m: Machine, a: Action)
    requires PcOk(cfg, m)
    ensures Step(cfg, m, a).order == Apply(m.order, EditOf(cfg, m, a)) && Allowed(cfg, m.order, EditOf(cfg, m, a))
    ensures SameTerms(m.order, Step(cfg, m, a).order)
    ensures Step(cfg, m, a).order.state == m.order.state || Edge(m.order.state, Step(cfg, m, a).order.state)
  {
    StepEdits(cfg, m, a);
    EditAllowed(cfg, m, a);
    EditKeepsTerms(cfg, m.order, EditOf(cfg, m, a));
  }

  lemma FailPcOk(cfg: Config, m: Machine, why: ProtocolError, cancelIncoming: bool, now: int)
    ensures PcOk(cfg, Fail(m, why, cancelIncoming, now))
  {
  }

  lemma HandlePcOk(cfg: Config, m: Machine, event: LegEvent, now: int)
    ensures PcOk(cfg, Handle(cfg, m, event, now))
  {
  }

  lemma StartPcOk(cfg: Config, m: Machine, task: Task, now: int)
    requires !m.proc.tail
    ensures PcOk(cfg, Start(cfg, m, task, now))
  {
    match task
    case HandleTask(event) => HandlePcOk(cfg, m, event, now);
    case SweepTask(_) => FailPcOk(cfg, m, NEVER_ARRIVED, true, now);
    case CancelTask => FailPcOk(cfg, m, CANCELLED, true, now);
    case ReconcileTask => FailPcOk(cfg, m, CRASHED_EARLY, true, now);
  }

  lemma RunPcOk(cfg: Config, m: Machine, now: int)
    requires PcOk(cfg, m)
    ensures PcOk(cfg, Run(cfg, m, now))
  {
    if m.proc.pc == Idle && m.proc.queue != [] {
      StartPcOk(cfg, m.(proc := m.proc.(queue := m.proc.queue[1..])), m.proc.queue[0], now);
    }
  }

  lemma PaymentPcOk(cfg: Config, m: Machine, payment: PaymentResult, now: int)
    ensures PcOk(cfg, ReconcilePayment(cfg, m, payment, now))
  {
    var t := m.(trace := m.trace + [PaymentAnswered(payment.status)]);
    if PaymentEvent(m.order, payment).Some? {
      HandlePcOk(cfg, t, PaymentEvent(m.order, payment).value, now);
    }
  }

  lemma InvoicePcOk(cfg: Config, m: Machine, seen: OrderState, invoice: HoldInvoiceState, now: int)
    requires !m.proc.tail
    ensures PcOk(cfg, ReconcileInvoice(cfg, m, seen, invoice, now))
  {
    if InvoiceEvent(m.order, seen, invoice).Some? {
      var event := InvoiceEvent(m.order, seen, invoice).value;
      HandlePcOk(cfg, m, event, now);
      HandlePcOk(cfg, m.(proc := m.proc.(tail := true)), event, now);
    }
  }

  lemma ResumePcOk(cfg: Config, m: Machine, answer: Answer, now: int)
    requires PcOk(cfg, m)
    ensures PcOk(cfg, Resume(cfg, m, answer, now))
  {
    match m.proc.pc
    case WaitPaymentState => if answer.PaymentIs? { PaymentPcOk(cfg, m, answer.payment, now); }
    case WaitInvoiceState(seen) => if answer.InvoiceIs? { InvoicePcOk(cfg, m, seen, answer.invoice, now); }
    case WaitRefundCancel(why) => FailPcOk(cfg, m, why, false, now);
    case WaitRetryState(why) => FailPcOk(cfg, m, why, false, now);
    case WaitRetryCancel(why) => FailPcOk(cfg, m, why, false, now);
    case _ =>
  }

  lemma StepPcOk(cfg: Config, m: Machine, a: Action)
    requires PcOk(cfg, m)
    ensures PcOk(cfg, Step(cfg, m, a))
  {
    match a
    case Advance(now) => RunPcOk(cfg, m, now);
    case Resolve(answer, now) => ResumePcOk(cfg, m, answer, now);
    case _ =>
  }

  // ----- One step: the trace -----

  /** A pay stands alone and is sent from the dispatch, or comes right after the answer "none". */
  predicate EmittedOk(cfg: Config, m: Machine, es: seq<Obs>, i: int)
    requires 0 <= i < |es| <= 2
  {
    && (es[i].Issued? ==> CallOk(cfg, m.order, es[i].call, es[i].persisted) && es[i].persisted == m.order.state)
    && (IsPay(es[i]) ==> if i == 0 then m.proc.pc.AtPay? && InWindow(cfg, m.order, es[0].call.readAt)
                         else es[0] == PaymentAnswered(NoPayment))
  }

  lemma EmitsOk(cfg: Config, m: Machine, a: Action)
    requires PcOk(cfg, m)
    ensures |Emits(cfg, m, a)| <= 2
    ensures forall i :: 0 <= i < |Emits(cfg, m, a)| ==> EmittedOk(cfg, m, Emits(cfg, m, a), i)
  {
  }

  lemma OneMoreGuarded(cfg: Config, o: Order, trace: seq<Obs>, e: Obs)
    requires CallsOk(cfg, o, trace) && Windowed(cfg, o, trace)
    requires e.Issued? ==> CallOk(cfg, o, e.call, e.persisted)
    requires IsPay(e) ==> InWindow(cfg, o, e.call.readAt) || JustAbsent(trace)
    ensures CallsOk(cfg, o, trace + [e]) && Windowed(cfg, o, trace + [e])
  {
    var t := trace + [e];
    forall j | 0 <= j < |t| && IsPay(t[j]) ensures InWindow(cfg, o, t[j].call.readAt) || JustAbsent(t[..j]) {
      assert t[..j] == trace[..j];
      assert trace[..|trace|] == trace;
    }
  }

  lemma EmitsGuarded(cfg: Config, m: Machine, es: seq<Obs>)
    requires CallsOk(cfg, m.order, m.trace) && Windowed(cfg, m.order, m.trace)
    requires |es| <= 2 && forall i :: 0 <= i < |es| ==> EmittedOk(cfg, m, es, i)
    ensures CallsOk(cfg, m.order, m.trace + es) && Windowed(cfg, m.order, m.trace + es)
  {
    if |es| == 0 {
      assert m.trace + es == m.trace;
    } else {
      assert EmittedOk(cfg, m, es, 0);
      OneMoreGuarded(cfg, m.order, m.trace, es[0]);
      if |es| == 1 {
        assert m.trace + es == m.trace + [es[0]];
      } else {
        assert EmittedOk(cfg, m, es, 1);
        OneMoreGuarded(cfg, m.order, m.trace + [es[0]], es[1]);
        assert m.trace + es == m.trace + [es[0]] + [es[1]];
      }
    }
  }

  lemma TermsGuarded(cfg: Config, o: Order, p: Order, trace: seq<Obs>)
    requires SameTerms(o, p) && CallsOk(cfg, o, trace) && Windowed(cfg, o, trace)
    ensures CallsOk(cfg, p, trace) && Windowed(cfg, p, trace)
  {
    forall i | 0 <= i < |trace| && trace[i].Issued? ensures CallOk(cfg, p, trace[i].call, trace[i].persisted) {
      assert CallOk(cfg, o, trace[i].call, trace[i].persisted);
    }
    forall j | 0 <= j < |trace| && IsPay(trace[j]) ensures InWindow(cfg, p, trace[j].call.readAt) || JustAbsent(trace[..j]) {
      assert InWindow(cfg, o, trace[j].call.readAt) || JustAbsent(trace[..j]);
    }
  }

  lemma StepGuarded(cfg: Config, m: Machine, a: Action)
    requires Guarded(cfg, m)
    ensures Guarded(cfg, Step(cfg, m, a)) && SameTerms(m.order, Step(cfg, m, a).order)
  {
    StepPcOk(cfg, m, a);
    StepEdits(cfg, m, a);
    StepEditsOrder(cfg, m, a);
    EmitsOk(cfg, m, a);
    EmitsGuarded(cfg, m, Emits(cfg, m, a));
    TermsGuarded(cfg, m.order, Step(cfg, m, a).order, m.trace + Emits(cfg, m, a));
  }

  // ----- One step: single flight -----

  lemma OneMoreSingle(trace: seq<Obs>, e: Obs)
    requires SingleFlight(trace) && (IsPay(e) ==> MayPay(trace))
    ensures SingleFlight(trace + [e])
    ensures MayPay(trace) && !IsPay(e) ==> MayPay(trace + [e])
    ensures e == PaymentAnswered(NoPayment) ==> MayPay(trace + [e])
  {
    var t := trace + [e];
    forall j | 0 <= j < |t| && IsPay(t[j]) ensures MayPay(t[..j]) {
      assert t[..j] == trace[..j];
      assert trace[..|trace|] == trace;
    }
    if e == PaymentAnswered(NoPayment) { assert AbsentSince(t, |trace|); }
    if k :| AbsentSince(trace, k) && !IsPay(e) { assert AbsentSince(t, k); }
  }

  lemma EmitsSingle(cfg: Config, m: Machine, seen: seq<Obs>, es: seq<Obs>)
    requires SingleFlight(seen) && (m.proc.pc.AtPay? ==> MayPay(seen))
    requires |es| <= 2 && forall i :: 0 <= i < |es| ==> EmittedOk(cfg, m, es, i)
    ensures SingleFlight(seen + es)
    ensures MayPay(seen) && (forall i :: 0 <= i < |es| ==> !IsPay(es[i])) ==> MayPay(seen + es)
  {
    if |es| == 0 {
      assert seen + es == seen;
    } else {
      assert EmittedOk(cfg, m, es, 0);
      OneMoreSingle(seen, es[0]);
      if |es| == 1 {
        assert seen + es == seen + [es[0]];
      } else {
        assert EmittedOk(cfg, m, es, 1);
        OneMoreSingle(seen + [es[0]], es[1]);
        assert seen + es == seen + [es[0]] + [es[1]];
      }
    }
  }

  /** Nothing is paid by a step that starts or ends before the dispatch. */
  lemma NoEarlyPay(cfg: Config, m: Machine, a: Action)
    requires PcOk(cfg, m)
    requires m.order.state == Pending || EditOf(cfg, m, a).Dispatch? || m.proc.pc == AtDispatch ||
             (m.proc.pc.AtPay? && Step(cfg, m, a).proc.pc == m.proc.pc)
    ensures forall i :: 0 <= i < |Emits(cfg, m, a)| ==> !IsPay(Emits(cfg, m, a)[i])
  {
    if m.proc.pc.AtPay? && a.Advance? { RunPc(cfg, m, a.now); }
  }

  lemma StepSingleOver(cfg: Config, m: Machine, a: Action, seen: seq<Obs>)
    requires PcOk(cfg, m) && SingleOver(m, seen)
    ensures SingleOver(Step(cfg, m, a), seen + Emits(cfg, m, a))
  {
    var t := Step(cfg, m, a);
    StepEdits(cfg, m, a);
    StepEditsOrder(cfg, m, a);
    StepPc(cfg, m, a);
    EmitsOk(cfg, m, a);
    EmitsSingle(cfg, m, seen, Emits(cfg, m, a));
    if BeforePay(t) {
      assert BeforePay(m);
      NoEarlyPay(cfg, m, a);
    }
  }

  lemma StepSingle(cfg: Config, m: Machine, a: Action)
    requires PcOk(cfg, m) && Single(m)
    ensures Single(Step(cfg, m, a))
  {
    StepSingleOver(cfg, m, a, m.trace);
    StepEdits(cfg, m, a);
  }

  // ----- One step: order of the calls -----

  lemma OneMoreOrderly(trace: seq<Obs>, e: Obs, s: OrderState)
    requires Chronological(trace, s) && (e.Issued? ==> e.persisted == s)
    ensures Chronological(trace + [e], s)
  {
  }

  lemma EmitsOrderly(cfg: Config, m: Machine, es: seq<Obs>)
    requires Orderly(m) && |es| <= 2 && forall i :: 0 <= i < |es| ==> EmittedOk(cfg, m, es, i)
    ensures Chronological(m.trace + es, m.order.state)
  {
    if |es| == 0 {
      assert m.trace + es == m.trace;
    } else {
      assert EmittedOk(cfg, m, es, 0);
      OneMoreOrderly(m.trace, es[0], m.order.state);
      if |es| == 1 {
        assert m.trace + es == m.trace + [es[0]];
      } else {
        assert EmittedOk(cfg, m, es, 1);
        OneMoreOrderly(m.trace + [es[0]], es[1], m.order.state);
        assert m.trace + es == m.trace + [es[0]] + [es[1]];
      }
    }
  }

  lemma ChronologicalOn(trace: seq<Obs>, s: OrderState, t: OrderState)
    requires Chronological(trace, s) && Later(s, t)
    ensures Chronological(trace, t)
  {
    forall i | 0 <= i < |trace| && trace[i].Issued? ensures Later(trace[i].persisted, t) {
      EdgesCompose(trace[i].persisted, s, t);
    }
  }

  lemma StepOrderly(cfg: Config, m: Machine, a: Action)
    requires PcOk(cfg, m) && Orderly(m)
    ensures Orderly(Step(cfg, m, a)) && Later(m.order.state, Step(cfg, m, a).order.state)
  {
    StepEdits(cfg, m, a);
    StepEditsOrder(cfg, m, a);
    EmitsOk(cfg, m, a);
    EmitsOrderly(cfg, m, Emits(cfg, m, a));
    EdgesCompose(m.order.state, m.order.state, Step(cfg, m, a).order.state);
    ChronologicalOn(m.trace + Emits(cfg, m, a), m.order.state, Step(cfg, m, a).order.state);
  }

  /** One step of the engine, a crash that keeps the record included, keeps all of it. */
  lemma StepSafe(cfg: Config, m: Machine, a: Action)
    requires Safe(cfg, m)
    ensures Safe(cfg, Step(cfg, m, a)) && SameTerms(m.order, Step(cfg, m, a).order)
  {
    StepGuarded(cfg, m, a);
    StepSingle(cfg, m, a);
    StepOrderly(cfg, m, a);
  }

  lemma {:induction false} StepsSafe(cfg: Config, m: Machine, actions: seq<Action>)
    requires Safe(cfg, m)
    ensures Safe(cfg, Steps(cfg, m, actions)) && SameTerms(m.order, Steps(cfg, m, actions).order)
    decreases |actions|
  {
    if actions != [] {
      StepSafe(cfg, m, actions[0]);
      StepsSafe(cfg, Step(cfg, m, actions[0]), actions[1..]);
    }
  }

  // ----- Main results -----

  /** A process may start over any record whatever, or right after `createOrder` persisted one. */
  lemma StartsSafe(cfg: Config, o: Order, trail: seq<OrderEvent>, p: CreateOrderParams, now: int)
    ensures Safe(cfg, Restarted(o, trail)) && Safe(cfg, Created(p, now))
  {
  }

  /** Rule R1 and the hash rule: whatever the log said and whatever happens, the hold is settled only
      with a preimage of the payment hash, and only while OUTGOING_SETTLED is what is persisted. */
  lemma SettleOnlyVerified(cfg: Config, o: Order, trail: seq<OrderEvent>, actions: seq<Action>, i: nat)
    requires i < |Steps(cfg, Restarted(o, trail), actions).trace|
    ensures var e := Steps(cfg, Restarted(o, trail), actions).trace[i];
            e.Issued? && e.call.Settle? ==>
              && cfg.sha256(e.call.preimage) == e.call.hash == o.paymentHash
              && e.call.network == o.incoming.network && e.persisted == OutgoingSettled
  {
    StepsSafe(cfg, Restarted(o, trail), actions);
  }

  /** Rule R5: a pay always follows the persisted OUTGOING_IN_FLIGHT, a cancel the persisted REFUNDING or
      FAILED, and every call concerns this order's own hash and networks. */
  lemma WriteAheadOfCalls(cfg: Config, o: Order, trail: seq<OrderEvent>, actions: seq<Action>, i: nat)
    requires i < |Steps(cfg, Restarted(o, trail), actions).trace|
    ensures var e := Steps(cfg, Restarted(o, trail), actions).trace[i];
            e.Issued? ==> CallOk(cfg, o, e.call, e.persisted)
  {
    StepsSafe(cfg, Restarted(o, trail), actions);
  }

  /** Once a cancel has been issued nothing is paid or settled any more, unless its decision is forgotten. */
  lemma NothingSettlesAfterCancel(cfg: Config, o: Order, trail: seq<OrderEvent>, actions: seq<Action>, i: nat, j: nat)
    requires i < j < |Steps(cfg, Restarted(o, trail), actions).trace|
    ensures var trace := Steps(cfg, Restarted(o, trail), actions).trace;
            trace[i].Issued? && trace[i].call.Cancel? && trace[j].Issued? ==>
              !trace[j].call.Pay? && !trace[j].call.Settle?
  {
    StepsSafe(cfg, Restarted(o, trail), actions);
    var m := Steps(cfg, Restarted(o, trail), actions);
    if m.trace[i].Issued? && m.trace[j].Issued? {
      assert Later(m.trace[i].persisted, m.trace[j].persisted);
    }
  }

  /** Rule R4 across crashes: between two pays the node was asked and answered that it has no payment. */
  lemma PaysAreSeparated(cfg: Config, o: Order, trail: seq<OrderEvent>, actions: seq<Action>, i: nat, j: nat)
    requires i < j < |Steps(cfg, Restarted(o, trail), actions).trace|
    requires IsPay(Steps(cfg, Restarted(o, trail), actions).trace[i])
    requires IsPay(Steps(cfg, Restarted(o, trail), actions).trace[j])
    ensures exists k :: i < k < j &&
              Steps(cfg, Restarted(o, trail), actions).trace[k] == PaymentAnswered(NoPayment)
  {
    StepsSafe(cfg, Restarted(o, trail), actions);
    var trace := Steps(cfg, Restarted(o, trail), actions).trace;
    assert trace[..j][i] == trace[i];
    var k :| AbsentSince(trace[..j], k);
    assert trace[k] == PaymentAnswered(NoPayment) && i < k < j;
  }

  /** The node's side: `accepted` holds the positions of the pays it takes on, now or ever. Its answers are
      truthful when "none" means that no pay sent before the answer is among them. */
  ghost predicate Truthful(trace: seq<Obs>, accepted: set<int>) {
    && (forall i :: i in accepted ==> 0 <= i < |trace| && IsPay(trace[i]))
    && (forall k, i :: 0 <= k < |trace| && trace[k] == PaymentAnswered(NoPayment) && i in accepted ==> k < i)
  }

  lemma AtMostOne<T>(s: set<T>)
    requires forall i, j :: i in s && j in s ==> i == j
    ensures |s| <= 1
  {
    if |s| > 0 {
      var i :| i in s;
      assert s <= {i} && {i} <= s;
      assert s == {i};
    }
  }

  /** Single flight means that a truthful node accepts at most one. */
  lemma OneIsAccepted(trace: seq<Obs>, accepted: set<int>)
    requires SingleFlight(trace) && Truthful(trace, accepted)
    ensures |accepted| <= 1
  {
    forall i, j | i in accepted && j in accepted ensures i == j {
      if j < i { SeparatedByDenial(trace, j, i); }
      else if i < j { SeparatedByDenial(trace, i, j); }
    }
    AtMostOne(accepted);
  }

  lemma SeparatedByDenial(trace: seq<Obs>, i: int, j: int)
    requires SingleFlight(trace) && 0 <= i < j < |trace| && IsPay(trace[i]) && IsPay(trace[j])
    ensures exists k :: i < k < j && trace[k] == PaymentAnswered(NoPayment)
  {
    assert MayPay(trace[..j]) && trace[..j][i] == trace[i];
    var k :| AbsentSince(trace[..j], k);
    assert trace[k] == PaymentAnswered(NoPayment) && i < k < j;
  }

  /** At most one payment per order is ever accepted by a truthful node. */
  lemma AtMostOneAccepted(cfg: Config, o: Order, trail: seq<OrderEvent>, actions: seq<Action>, accepted: set<int>)
    requires Truthful(Steps(cfg, Restarted(o, trail), actions).trace, accepted)
    ensures |accepted| <= 1
  {
    StepsSafe(cfg, Restarted(o, trail), actions);
    OneIsAccepted(Steps(cfg, Restarted(o, trail), actions).trace, accepted);
  }
}
