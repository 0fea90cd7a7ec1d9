/** The order engine over its store: one serial queue per order, every transition persisted before the call that
    follows it. Each method is tied to the function of the same name in OrderMachine, for the order it concerns,
    and leaves every other order alone. */
module OrderEngine {
  import opened Basics
  import opened Orders
  import opened OrderMachine
  import opened OrderLog
  import MachineTerms
  import opened OrderStore
  import opened MachineSteps
  import opened MachineSafety
  import opened MachineHistory
  import opened MachineRecovery

  datatype EngineError =
    | NotStarted
    | MalformedHash
    | ExpiryInvariantViolated
    | Duplicate(reason: CreateResult)
    | UnknownOrder
    | NotCancellable(state: OrderState)

  lemma LoadsOneOrder(mem: Memory, line: LogLine)
    ensures var t, id := Load(mem, line), line.order.orderId;
            && t.orders == mem.orders[id := line.order]
            && EventsOf(t, id) == EventsOf(mem, id) + [Row(line)]
            && forall other :: other != id ==> EventsOf(t, other) == EventsOf(mem, other)
  {
  }

  lemma NewLoaded(mem: Memory, p: CreateOrderParams, now: int)
    requires p.orderId !in mem.orders && p.orderId !in mem.log
    ensures var t := Load(mem, CreateLine(NewOrder(p, now), now));
            && t.orders[p.orderId] == NewOrder(p, now)
            && EventsOf(t, p.orderId) == [OrderEvent(p.orderId, now, None, Pending, None)]
            && forall other :: other in mem.orders ==>
                 other in t.orders && t.orders[other] == mem.orders[other] && EventsOf(t, other) == EventsOf(mem, other)
  {
  }

  ghost function ProcIn(procs: map<OrderId, Process>, id: OrderId): Process {
    if id in procs then procs[id] else IDLE
  }

  function Queued(p: Process, task: Task): Process {
    p.(queue := p.queue + [task])
  }

  class OrderEngine {
    const cfg: Config
    const store: FileOrderStore
    // An order without an entry has nothing queued and nothing running.
    var procs: map<OrderId, Process>
    var ready: bool
    // What the outside world has seen of each order.
    ghost var traces: map<OrderId, seq<Obs>>

    ghost function ProcOf(id: OrderId): Process
      reads `procs
    {
      ProcIn(procs, id)
    }

    ghost function TraceOf(id: OrderId): seq<Obs>
      reads `traces
    {
      if id in traces then traces[id] else []
    }

    /** One order of the engine, as the machine of OrderMachine. */
    ghost function MachineOf(id: OrderId): Machine
      requires id in store.orders
      reads `procs, `traces, store
    {
      Machine(store.orders[id], EventsOf(store.Mem(), id), ProcOf(id), TraceOf(id))
    }

    ghost predicate Valid()
      reads `procs, `traces, store
    {
      store.Valid() && procs.Keys <= store.orders.Keys && traces.Keys <= store.orders.Keys
    }

    /** Only order `id` moved, to `m`. */
    twostate predicate Moved(id: OrderId, m: Machine)
      requires id in old(store.orders)
      reads this, store
    {
      && Valid()
      && store.orders.Keys == old(store.orders.Keys)
      && MachineOf(id) == m
      && (forall other :: other in store.orders && other != id ==> MachineOf(other) == old(MachineOf(other)))
      && ready == old(ready)
      && old(store.appended) <= store.appended
      && (old(OnePerHash(store.Mem())) ==> OnePerHash(store.Mem()) && store.byHash == old(store.byHash))
    }

    /** A new process over an existing file: nothing is running, and no work is accepted yet. What the outside has
        seen stays seen. */
    constructor (cfg: Config, store: FileOrderStore, ghost seen: map<OrderId, seq<Obs>>)
      requires store.Valid()
      ensures Valid() && this.cfg == cfg && this.store == store && !ready
      ensures forall id :: id in store.orders ==>
                MachineOf(id) == Machine(store.orders[id], EventsOf(store.Mem(), id), IDLE, if id in seen then seen[id] else [])
    {
      this.cfg, this.store := cfg, store;
      procs, ready := map[], false;
      traces := seen - (seen.Keys - store.orders.Keys);
    }

    // ----- Bookkeeping -----

    method SetProcess(id: OrderId, p: Process)
      requires Valid() && id in store.orders
      modifies this`procs
      ensures Moved(id, old(MachineOf(id)).(proc := p)) && procs == old(procs)[id := p]
    {
      procs := procs[id := p];
    }

    method Goto(id: OrderId, pc: Pc)
      requires Valid() && id in store.orders
      modifies this`procs
      ensures Moved(id, OrderMachine.Goto(old(MachineOf(id)), pc))
    {
      var p := if id in procs then procs[id] else IDLE;
      SetProcess(id, p.(pc := pc));
    }

    method Finish(id: OrderId)
      requires Valid() && id in store.orders
      modifies this`procs
      ensures Moved(id, OrderMachine.Finish(old(MachineOf(id))))
    {
      var p := if id in procs then procs[id] else IDLE;
      SetProcess(id, p.(pc := if p.tail then AtTail else Idle, tail := false));
    }

    method Reject(id: OrderId)
      requires Valid() && id in store.orders
      modifies this`procs
      ensures Moved(id, OrderMachine.Reject(old(MachineOf(id))))
    {
      var p := if id in procs then procs[id] else IDLE;
      SetProcess(id, p.(pc := Idle, tail := false));
    }

    /** Call a node and await its answer. */
    method Issue(id: OrderId, call: Call, pc: Pc)
      requires Valid() && id in store.orders
      modifies this`procs, this`traces
      ensures Moved(id, OrderMachine.Issue(old(MachineOf(id)), call, pc))
    {
      traces := traces[id := TraceOf(id) + [Issued(call, store.orders[id].state)]];
      Goto(id, pc);
    }

    /** Persist a transition of order `id`. */
    method Transition(id: OrderId, mutate: Order -> Order, detail: Detail)
      requires Valid() && id in store.orders
      requires forall o :: mutate(o).orderId == o.orderId && mutate(o).paymentHash == o.paymentHash
      modifies store
      ensures Moved(id, OrderMachine.Transition(old(MachineOf(id)), mutate(old(store.orders[id])), detail))
    {
      store.FiledUnderItsId(id);
      ghost var mem, order := store.Mem(), store.orders[id];
      ghost var next := mutate(order);
      var _ := store.Transition(id, mutate, Some(detail));
      LoadsOneOrder(mem, UpdateLine(next, next.updatedAt, Some(detail), order.state));
      if OnePerHash(mem) {
        LoadKeepsOnePerHash(mem, UpdateLine(next, next.updatedAt, Some(detail), order.state));
      }
    }

    // ----- The engine's internals -----

    method Fail(id: OrderId, why: ProtocolError, cancelIncoming: bool, now: int)
      requires Valid() && id in store.orders
      modifies this`procs, store
      ensures Moved(id, OrderMachine.Fail(old(MachineOf(id)), why, cancelIncoming, now))
    {
      if Terminal(store.orders[id].state) {
        Finish(id);
        return;
      }
      Transition(id, o => FailedBecause(o, why, now), FailedFor(why.code));
      if cancelIncoming {
        Goto(id, AtFailCancel);
      } else {
        Finish(id);
      }
    }

    method Refund(id: OrderId, why: ProtocolError, now: int)
      requires Valid() && id in store.orders
      modifies this`procs, store
      ensures Moved(id, OrderMachine.Refund(old(MachineOf(id)), why, now))
    {
      if store.orders[id].state == Refunding || Terminal(store.orders[id].state) {
        Finish(id);
        return;
      }
      Transition(id, o => Refunded(o, why, now), RefundingFor(why.code));
      Goto(id, AtRefundCancel(why));
    }

    method Handle(id: OrderId, event: LegEvent, now: int)
      requires Valid() && id in store.orders
      modifies this`procs, store
      ensures Moved(id, OrderMachine.Handle(cfg, old(MachineOf(id)), event, now))
    {
      var order := store.orders[id];
      match event.kind {
        case EvIncomingHeld =>
          if order.state != Pending {
            Finish(id);
          } else {
            Transition(id, o => HoldArrived(o, now), IncomingHtlcHeld);
            Goto(id, AtDispatch);
          }
        case EvOutgoingSettled => HandleOutgoingSettled(id, event, now);
        case EvOutgoingFailed =>
          if order.state != OutgoingInFlight && order.state != IncomingHeld {
            Finish(id);
          } else {
            Refund(id, PaymentFailure(event.failureReason), now);
          }
        case EvIncomingCancelled =>
          if Terminal(order.state) {
            Finish(id);
          } else {
            Fail(id, Or(order.failure, HOLD_VANISHED), false, now);
          }
        case EvIncomingSettled =>
          if order.state == OutgoingSettled {
            Transition(id, o => CollectedByNode(o, now), IncomingSettledByNode);
          }
          Finish(id);
        case EvOutgoingInFlight => Finish(id);
      }
    }

    method HandleOutgoingSettled(id: OrderId, event: LegEvent, now: int)
      requires Valid() && id in store.orders && event.kind == EvOutgoingSettled
      modifies this`procs, store
      ensures Moved(id, OrderMachine.Handle(cfg, old(MachineOf(id)), event, now))
    {
      var order := store.orders[id];
      if order.state == OutgoingSettled {
        Goto(id, AtSettle);
        return;
      }
      var preimage := Given(event.preimage);
      if order.state != OutgoingInFlight || preimage.None? {
        Finish(id);
        return;
      }
      if cfg.sha256(preimage.value) != order.paymentHash {
        Finish(id);
        return;
      }
      Transition(id, o => OutgoingPaid(o, preimage.value, now), OutgoingSettledVerified);
      Goto(id, AtSettle);
    }

    method DispatchOutgoing(id: OrderId, now: int)
      requires Valid() && id in store.orders
      modifies this`procs, store
      ensures Moved(id, OrderMachine.DispatchOutgoing(cfg, old(MachineOf(id)), now))
    {
      var order := store.orders[id];
      if order.state != IncomingHeld || order.outgoing.status != Waiting {
        Finish(id);
        return;
      }
      if now + cfg.minSafetyDeltaMs >= order.incoming.tlcExpiryAt {
        Refund(id, TOO_CLOSE, now);
        return;
      }
      Dispatch(id, order.outgoing.tlcExpiryAt - now, now);
    }

    /** Persisted before the node is asked to pay. */
    method Dispatch(id: OrderId, limit: int, now: int)
      requires Valid() && id in store.orders
      modifies this`procs, store
      ensures var m := old(MachineOf(id));
              Moved(id, OrderMachine.Goto(OrderMachine.Transition(m, Dispatched(m.order, now), DispatchingOutgoing),
                                          AtPay(limit, now)))
    {
      Transition(id, o => Dispatched(o, now), DispatchingOutgoing);
      Goto(id, AtPay(limit, now));
    }

    method SettleIncoming(id: OrderId)
      requires Valid() && id in store.orders
      modifies this`procs, this`traces
      ensures Moved(id, OrderMachine.SettleIncoming(cfg, old(MachineOf(id))))
    {
      var order := store.orders[id];
      var preimage := Given(order.outgoing.preimage);
      if order.state != OutgoingSettled || preimage.None? {
        Finish(id);
        return;
      }
      if cfg.sha256(preimage.value) != order.paymentHash {
        Finish(id);
        return;
      }
      Issue(id, Settle(order.incoming.network, order.paymentHash, preimage.value), WaitSettle(preimage.value));
    }

    method CancelIncoming(id: OrderId, pc: Pc)
      requires Valid() && id in store.orders
      modifies this`procs, this`traces
      ensures Moved(id, OrderMachine.CancelIncoming(old(MachineOf(id)), pc))
    {
      var order := store.orders[id];
      Issue(id, Cancel(order.incoming.network, order.paymentHash), pc);
    }

    method Reconcile(id: OrderId, now: int)
      requires Valid() && id in store.orders
      modifies this`procs, this`traces, store
      ensures Moved(id, OrderMachine.Reconcile(old(MachineOf(id)), now))
    {
      var order := store.orders[id];
      if order.state == Pending && order.incoming.invoice == "" {
        Fail(id, CRASHED_EARLY, true, now);
        return;
      }
      Issue(id, InvoiceState(order.incoming.network, order.paymentHash), WaitInvoiceState(order.state));
    }

    method ReconcileInvoice(id: OrderId, seen: OrderState, invoice: HoldInvoiceState, now: int)
      requires Valid() && id in store.orders
      modifies this`procs, store
      ensures Moved(id, OrderMachine.ReconcileInvoice(cfg, old(MachineOf(id)), seen, invoice, now))
    {
      var hash := store.orders[id].paymentHash;
      if invoice == HoldHeld && seen == Pending {
        var p := if id in procs then procs[id] else IDLE;
        SetProcess(id, p.(tail := true));
        Handle(id, LegEvent(hash, EvIncomingHeld, None, None), now);
      } else if invoice == HoldCancelled {
        Handle(id, LegEvent(hash, EvIncomingCancelled, None, None), now);
      } else if invoice == HoldSettled && seen == OutgoingSettled {
        Handle(id, LegEvent(hash, EvIncomingSettled, None, None), now);
      } else {
        Goto(id, AtTail);
      }
    }

    method ReconcileTail(id: OrderId)
      requires Valid() && id in store.orders
      modifies this`procs, this`traces
      ensures Moved(id, OrderMachine.ReconcileTail(old(MachineOf(id))))
    {
      var latest := store.orders[id];
      if latest.state == OutgoingInFlight || latest.state == OutgoingSettled {
        ReconcileOutgoing(id);
      } else if latest.state == Refunding {
        RefundRetry(id);
      } else {
        Finish(id);
      }
    }

    method ReconcileOutgoing(id: OrderId)
      requires Valid() && id in store.orders
      modifies this`procs, this`traces
      ensures Moved(id, OrderMachine.ReconcileOutgoing(old(MachineOf(id))))
    {
      var order := store.orders[id];
      Issue(id, PaymentState(order.outgoing.network, order.paymentHash), WaitPaymentState);
    }

    ghost method MarkAnswered(id: OrderId, status: PaymentStatus)
      requires Valid() && id in store.orders
      modifies this`traces
      ensures Moved(id, var m := old(MachineOf(id)); m.(trace := m.trace + [PaymentAnswered(status)]))
    {
      traces := traces[id := TraceOf(id) + [PaymentAnswered(status)]];
    }

    /** Definitive absence: pay once more, if the order still wants it. */
    method Redispatch(id: OrderId, now: int)
      requires Valid() && id in store.orders
      modifies this`procs, this`traces
      ensures var m := old(MachineOf(id));
              Moved(id, if m.order.state != OutgoingInFlight then OrderMachine.Finish(m)
                        else OrderMachine.Issue(m, PayCall(cfg, m.order, m.order.outgoing.tlcExpiryAt - now, now), WaitRepay))
    {
      var order := store.orders[id];
      if order.state != OutgoingInFlight {
        Finish(id);
      } else {
        Issue(id, Call.Pay(order.outgoing.network, order.outgoing.invoice, cfg.maxFeeFor(order.outgoing.amount),
                           order.outgoing.tlcExpiryAt - now, now), WaitRepay);
      }
    }

    method ReconcilePayment(id: OrderId, payment: PaymentResult, now: int)
      requires Valid() && id in store.orders
      modifies this`procs, this`traces, store
      ensures Moved(id, OrderMachine.ReconcilePayment(cfg, old(MachineOf(id)), payment, now))
    {
      MarkAnswered(id, payment.status);
      ActOnPayment(id, payment, now);
    }

    method ActOnPayment(id: OrderId, payment: PaymentResult, now: int)
      requires Valid() && id in store.orders
      modifies this`procs, this`traces, store
      ensures Moved(id, OrderMachine.ActOnPayment(cfg, old(MachineOf(id)), payment, now))
    {
      var order := store.orders[id];
      match payment.status {
        case PaySucceeded =>
          Handle(id, LegEvent(order.paymentHash, EvOutgoingSettled, Given(payment.preimage), None), now);
        case PayFailed =>
          Handle(id, LegEvent(order.paymentHash, EvOutgoingFailed, None, Given(payment.failureReason)), now);
        case NoPayment => Redispatch(id, now);
        case PayInFlight => Finish(id);
      }
    }

    method RefundRetry(id: OrderId)
      requires Valid() && id in store.orders
      modifies this`procs, this`traces
      ensures Moved(id, OrderMachine.RefundRetry(old(MachineOf(id))))
    {
      var order := store.orders[id];
      Issue(id, InvoiceState(order.incoming.network, order.paymentHash),
            WaitRetryState(Or(order.failure, RECOVERED_REFUND)));
    }

    // ----- The event loop -----

    method StartTask(id: OrderId, task: Task, now: int)
      requires Valid() && id in store.orders
      modifies this`procs, this`traces, store
      ensures Moved(id, OrderMachine.Start(cfg, old(MachineOf(id)), task, now))
    {
      match task {
        case HandleTask(event) => Handle(id, event, now);
        case SweepTask(_) =>
          var o := store.orders[id];
          if o.state == Pending {
            Fail(id, NEVER_ARRIVED, true, now);
          } else if o.state == IncomingHeld || o.state == OutgoingInFlight {
            Refund(id, SAFETY_WINDOW, now);
          } else {
            Finish(id);
          }
        case CancelTask => Fail(id, CANCELLED, true, now);
        case ReconcileTask => Reconcile(id, now);
      }
    }

    /** When no task is running, the first of the queue starts, whether the one before it succeeded or was rejected. */
    method StartNext(id: OrderId, now: int)
      requires Valid() && id in store.orders && ProcOf(id).pc == Idle
      modifies this`procs, this`traces, store
      ensures Moved(id, Run(cfg, old(MachineOf(id)), now))
    {
      var p := if id in procs then procs[id] else IDLE;
      if p.queue != [] {
        SetProcess(id, p.(queue := p.queue[1..]));
        StartTask(id, p.queue[0], now);
      }
    }

    method PayOutgoing(id: OrderId, limit: int, readAt: int)
      requires Valid() && id in store.orders
      modifies this`procs, this`traces
      ensures Moved(id, OrderMachine.Issue(old(MachineOf(id)), PayCall(cfg, old(MachineOf(id)).order, limit, readAt), WaitPay))
    {
      var o := store.orders[id];
      Issue(id, Call.Pay(o.outgoing.network, o.outgoing.invoice, cfg.maxFeeFor(o.outgoing.amount), limit, readAt), WaitPay);
    }

    /** Run what is next for this order. */
    method Advance(id: OrderId, now: int)
      requires Valid() && id in store.orders
      modifies this`procs, this`traces, store
      ensures Moved(id, Run(cfg, old(MachineOf(id)), now))
    {
      var pc := if id in procs then procs[id].pc else Idle;
      if pc == Idle {
        StartNext(id, now);
      } else if pc == AtDispatch || pc == AtTail {
        GoOn(id, pc, now, Run(cfg, MachineOf(id), now));
      } else {
        MakeCall(id, pc, now);
      }
    }

    /** The next part of a task that goes on by itself. */
    method GoOn(id: OrderId, pc: Pc, now: int, ghost next: Machine)
      requires Valid() && id in store.orders
      requires next == if pc == AtDispatch then OrderMachine.DispatchOutgoing(cfg, MachineOf(id), now)
                       else OrderMachine.ReconcileTail(MachineOf(id))
      modifies this`procs, this`traces, store
      ensures Moved(id, next)
    {
      if pc == AtDispatch {
        DispatchOutgoing(id, now);
      } else {
        ReconcileTail(id);
      }
    }

    /** The call that a persisted transition announced. */
    method MakeCall(id: OrderId, pc: Pc, now: int)
      requires Valid() && id in store.orders && ProcOf(id).pc == pc
      requires pc != Idle && pc != AtDispatch && pc != AtTail
      modifies this`procs, this`traces
      ensures Moved(id, OrderMachine.GoOn(cfg, old(MachineOf(id)), now))
    {
      if pc.AtPay? {
        PayOutgoing(id, pc.limit, pc.readAt);
      } else if pc == AtSettle {
        SettleIncoming(id);
      } else {
        CancelNext(id, pc, OrderMachine.GoOn(cfg, MachineOf(id), now));
      }
    }

    method CancelNext(id: OrderId, pc: Pc, ghost next: Machine)
      requires Valid() && id in store.orders
      requires next == if pc.AtRefundCancel? then OrderMachine.CancelIncoming(MachineOf(id), WaitRefundCancel(pc.why))
                       else if pc == AtFailCancel then OrderMachine.CancelIncoming(MachineOf(id), WaitFailCancel)
                       else MachineOf(id)
      modifies this`procs, this`traces
      ensures Moved(id, next)
    {
      if pc.AtRefundCancel? {
        CancelIncoming(id, WaitRefundCancel(pc.why));
      } else if pc == AtFailCancel {
        CancelIncoming(id, WaitFailCancel);
      }
    }

    method AfterSettle(id: OrderId, preimage: Hash, answer: Answer, now: int)
      requires Valid() && id in store.orders && ProcOf(id).pc == WaitSettle(preimage)
      modifies this`procs, store
      ensures Moved(id, OrderMachine.Resume(cfg, old(MachineOf(id)), answer, now))
    {
      if answer == Done {
        Transition(id, o => Collected(o, preimage, now), SwapComplete);
        Finish(id);
      } else if answer == Threw {
        Reject(id);
      }
    }

    method AfterRetryState(id: OrderId, why: ProtocolError, answer: Answer, now: int)
      requires Valid() && id in store.orders && ProcOf(id).pc == WaitRetryState(why)
      modifies this`procs, this`traces, store
      ensures Moved(id, OrderMachine.Resume(cfg, old(MachineOf(id)), answer, now))
    {
      if answer.InvoiceIs? {
        if answer.invoice == HoldCancelled || answer.invoice == Unknown {
          Fail(id, why, false, now);
        } else {
          CancelIncoming(id, WaitRetryCancel(why));
        }
      } else if answer == Threw {
        Reject(id);
      }
    }

    /** The cancel of a refund returned: the order fails, or stays in REFUNDING for a later event or restart. */
    method AfterRefundCancel(id: OrderId, why: ProtocolError, answer: Answer, now: int)
      requires Valid() && id in store.orders
      requires ProcOf(id).pc == WaitRefundCancel(why) || ProcOf(id).pc == WaitRetryCancel(why)
      modifies this`procs, store
      ensures Moved(id, OrderMachine.Resume(cfg, old(MachineOf(id)), answer, now))
    {
      if answer == Done {
        Fail(id, why, false, now);
      } else if answer == Threw {
        Finish(id);
      }
    }

    /** A refused dispatch is no proof of absence: ask the node before deciding. */
    method AfterPay(id: OrderId, answer: Answer, now: int)
      requires Valid() && id in store.orders && ProcOf(id).pc == WaitPay
      modifies this`procs, this`traces
      ensures Moved(id, OrderMachine.Resume(cfg, old(MachineOf(id)), answer, now))
    {
      if answer == Done {
        Finish(id);
      } else if answer == Threw {
        ReconcileOutgoing(id);
      }
    }

    method AfterQuietCall(id: OrderId, answer: Answer, now: int)
      requires Valid() && id in store.orders && (ProcOf(id).pc == WaitRepay || ProcOf(id).pc == WaitFailCancel)
      modifies this`procs
      ensures Moved(id, OrderMachine.Resume(cfg, old(MachineOf(id)), answer, now))
    {
      if answer == Done || answer == Threw {
        Finish(id);
      }
    }

    method AfterPaymentState(id: OrderId, answer: Answer, now: int)
      requires Valid() && id in store.orders && ProcOf(id).pc == WaitPaymentState
      modifies this`procs, this`traces, store
      ensures Moved(id, OrderMachine.Resume(cfg, old(MachineOf(id)), answer, now))
    {
      if answer.PaymentIs? {
        ReconcilePayment(id, answer.payment, now);
      } else if answer == Threw {
        Reject(id);
      }
    }

    method AfterInvoiceState(id: OrderId, seen: OrderState, answer: Answer, now: int)
      requires Valid() && id in store.orders && ProcOf(id).pc == WaitInvoiceState(seen)
      modifies this`procs, store
      ensures Moved(id, OrderMachine.Resume(cfg, old(MachineOf(id)), answer, now))
    {
      if answer.InvoiceIs? {
        ReconcileInvoice(id, seen, answer.invoice, now);
      } else if answer == Threw {
        Reject(id);
      }
    }

    /** The call this order's task awaits returns, or throws. */
    method Resume(id: OrderId, answer: Answer, now: int)
      requires Valid() && id in store.orders
      modifies this`procs, this`traces, store
      ensures Moved(id, OrderMachine.Resume(cfg, old(MachineOf(id)), answer, now))
    {
      var pc := if id in procs then procs[id].pc else Idle;
      match pc {
        case WaitPay => AfterPay(id, answer, now);
        case WaitRepay => AfterQuietCall(id, answer, now);
        case WaitPaymentState => AfterPaymentState(id, answer, now);
        case WaitSettle(preimage) => AfterSettle(id, preimage, answer, now);
        case WaitRefundCancel(why) => AfterRefundCancel(id, why, answer, now);
        case WaitFailCancel => AfterQuietCall(id, answer, now);
        case WaitInvoiceState(seen) => AfterInvoiceState(id, seen, answer, now);
        case WaitRetryState(why) => AfterRetryState(id, why, answer, now);
        case WaitRetryCancel(why) => AfterRefundCancel(id, why, answer, now);
        case _ =>
      }
    }

    // ----- Requests from outside -----

    method Enqueue(id: OrderId, task: Task)
      requires Valid() && id in store.orders
      modifies this`procs
      ensures Moved(id, OrderMachine.Enqueue(old(MachineOf(id)), task))
      ensures procs == old(procs)[id := Queued(old(ProcOf(id)), task)]
    {
      var p := if id in procs then procs[id] else IDLE;
      SetProcess(id, Queued(p, task));
    }

    /** Feed one adapter event to the order of its hash; events for other hashes are not ours. */
    method OnLegEvent(event: LegEvent)
      requires Valid()
      modifies this`procs
      ensures Valid() && ready == old(ready)
      ensures var h := event.paymentHash;
              if h in store.byHash && store.byHash[h] != "" && store.byHash[h] in store.orders
              then Moved(store.byHash[h], Step(cfg, old(MachineOf(store.byHash[h])), Deliver(event)))
              else procs == old(procs)
    {
      var order := store.GetByHash(event.paymentHash);
      if order.Some? {
        store.FiledUnderItsId(store.byHash[event.paymentHash]);
        Enqueue(order.value.orderId, HandleTask(event));
      }
    }

    /** The state is checked here; the cancellation itself only runs when the queue gets to it. */
    method CancelOrder(id: OrderId) returns (r: Result<(), EngineError>)
      requires Valid()
      modifies this`procs
      ensures id !in store.orders ==> r == Err(UnknownOrder) && procs == old(procs)
      ensures id in store.orders ==>
                && Moved(id, Step(cfg, old(MachineOf(id)), RequestCancel))
                && r == (var s := store.orders[id].state;
                         if s == Pending || s == IncomingHeld then Ok(()) else Err(NotCancellable(s)))
    {
      var order := store.Get(id);
      if order.None? {
        return Err(UnknownOrder);
      }
      if order.value.state != Pending && order.value.state != IncomingHeld {
        return Err(NotCancellable(order.value.state));
      }
      Enqueue(id, CancelTask);
      r := Ok(());
    }

    /** A new order is on file and stands at `m`; the others stand where they stood. */
    twostate predicate Added(p: CreateOrderParams, now: int, m: Machine)
      requires old(Valid())
      reads this, store
    {
      && Valid() && ready == old(ready)
      && store.Mem() == Load(old(store.Mem()), CreateLine(NewOrder(p, now), now))
      && store.appended == old(store.appended) + [CreateLine(NewOrder(p, now), now)]
      && Machines() == old(Machines())[p.orderId := m]
    }

    /** Nothing changed, in memory or on file. */
    twostate predicate Untouched()
      requires old(Valid())
      reads this, store
    {
      && Valid() && ready == old(ready)
      && store.Mem() == old(store.Mem()) && store.appended == old(store.appended)
      && Machines() == old(Machines())
    }

    /** What the store refuses a new order for: ids and payment hashes are unique. */
    function Conflict(p: CreateOrderParams): CreateResult
      reads store
    {
      if p.orderId in store.orders then DuplicateOrder
      else if p.paymentHash in store.byHash then DuplicateHash(store.byHash[p.paymentHash])
      else Stored
    }

    lemma NewIsAlone(p: CreateOrderParams)
      requires Valid() && Conflict(p) == Stored
      ensures p.orderId !in procs && p.orderId !in traces && p.orderId !in store.log
    {
      store.ValidIsFiled();
    }

    /** Its creation goes on from there; the other orders stand where they stood. */
    method Put(p: CreateOrderParams, now: int)
      requires Valid() && Conflict(p) == Stored
      modifies this`procs, store
      ensures Valid() && ready == old(ready)
      ensures store.Mem() == Load(old(store.Mem()), CreateLine(NewOrder(p, now), now))
      ensures store.appended == old(store.appended) + [CreateLine(NewOrder(p, now), now)]
      ensures store.orders.Keys == old(store.orders.Keys) + {p.orderId} && MachineOf(p.orderId) == Created(p, now)
      ensures forall other :: other in old(store.orders) ==> other != p.orderId && MachineOf(other) == old(MachineOf(other))
    {
      ghost var mem := store.Mem();
      NewIsAlone(p);
      NewLoaded(mem, p, now);
      procs := procs[p.orderId := Process([], Idle, false, AtCreate(p.incoming.tlcExpiryAt - now))];
      var _ := store.Create(NewOrder(p, now));
      assert Valid();
      assert MachineOf(p.orderId) == Created(p, now);
      forall other | other in mem.orders ensures MachineOf(other) == old(MachineOf(other)) {
        assert ProcOf(other) == old(ProcOf(other));
      }
    }

    /** File the order. */
    method Insert(p: CreateOrderParams, now: int)
      requires Valid() && Conflict(p) == Stored
      modifies this`procs, store
      ensures Added(p, now, Created(p, now))
    {
      ghost var was := Machines();
      Put(p, now);
      OneUpdated(was, Machines(), p.orderId);
    }

    /** Create an order and persist it before its hold invoice is asked for. Refused before anything is stored:
        work before recovery has run, malformed hashes, legs that break the expiry guard, duplicates. */
    method CreateOrder(p: CreateOrderParams, now: int) returns (r: Result<Order, EngineError>)
      requires Valid()
      modifies this`procs, store
      ensures r == if !ready then Err(NotStarted)
                   else if !IsHash256(p.paymentHash) then Err(MalformedHash)
                   else if !ExpiryGuard(cfg, p) then Err(ExpiryInvariantViolated)
                   else if old(Conflict(p)) != Stored then Err(Duplicate(old(Conflict(p))))
                   else Ok(NewOrder(p, now))
      // What that means, in the words of the request.
      ensures r == Err(NotStarted) <==> !ready
      ensures r == Err(MalformedHash) <==> ready && !MachineTerms.HashText(p.paymentHash)
      ensures r == Err(ExpiryInvariantViolated) <==>
                && ready && MachineTerms.HashText(p.paymentHash)
                && p.incoming.tlcExpiryAt < p.outgoing.tlcExpiryAt + cfg.minSafetyDeltaMs
      ensures r.Ok? <==>
                && ready && MachineTerms.HashText(p.paymentHash)
                && p.incoming.tlcExpiryAt >= p.outgoing.tlcExpiryAt + cfg.minSafetyDeltaMs
                && p.orderId !in old(store.orders) && p.paymentHash !in old(store.byHash)
      ensures r.Ok? ==> MachineTerms.Agreed(p, r.value) && MachineTerms.Untouched(r.value, now)
      ensures r.Ok? ==> Added(p, now, Created(p, now))
      ensures !r.Ok? ==> Untouched()
      ensures old(OnePerHash(store.Mem())) ==> OnePerHash(store.Mem())
    {
      MachineTerms.HashesAreHex(p.paymentHash);
      MachineTerms.NewOrderIsAgreed(p, now);
      if !ready {
        return Err(NotStarted);
      }
      if !IsHash256(p.paymentHash) {
        return Err(MalformedHash);
      }
      if p.incoming.tlcExpiryAt < p.outgoing.tlcExpiryAt + cfg.minSafetyDeltaMs {
        return Err(ExpiryInvariantViolated);
      }
      var conflict := Conflict(p);
      if conflict != Stored {
        return Err(Duplicate(conflict));
      }
      if OnePerHash(store.Mem()) {
        LoadKeepsOnePerHash(store.Mem(), CreateLine(NewOrder(p, now), now));
      }
      Insert(p, now);
      r := Ok(NewOrder(p, now));
    }

    /** The rest of `createOrder` runs beside the queue: the node is asked for a hold invoice, ... */
    method AskForInvoice(id: OrderId)
      requires Valid() && id in store.orders
      modifies this`procs, this`traces
      ensures Moved(id, Step(cfg, old(MachineOf(id)), AdvanceCreate))
    {
      var p := if id in procs then procs[id] else IDLE;
      if p.creation.AtCreate? {
        var o := store.orders[id];
        var call := CreateHoldInvoice(o.incoming.network, o.paymentHash, o.incoming.amount, p.creation.tlcExpiryDeltaMs);
        traces := traces[id := TraceOf(id) + [Issued(call, o.state)]];
        SetProcess(id, p.(creation := WaitCreate));
      }
    }

    /** ... and the invoice is recorded whatever has become of the order in the meantime. */
    method RecordInvoice(id: OrderId, invoice: Option<string>, now: int)
      requires Valid() && id in store.orders
      modifies this`procs, store
      ensures Moved(id, Step(cfg, old(MachineOf(id)), ResolveCreate(invoice, now)))
    {
      var p := if id in procs then procs[id] else IDLE;
      if p.creation == WaitCreate {
        SetProcess(id, p.(creation := NotCreating));
        if invoice.Some? {
          Transition(id, o => InvoiceIssued(o, invoice.value, now), HoldInvoiceIssued);
        }
      }
    }

    /** Recovery takes up an order that is not terminal. */
    method QueueRecovery(id: OrderId)
      requires Valid() && id in store.orders
      modifies this`procs
      ensures Moved(id, Step(cfg, old(MachineOf(id)), Recover))
    {
      if !Terminal(store.orders[id].state) {
        Enqueue(id, ReconcileTask);
      }
    }

    /** Whatever happens to an order while the process lives is a step of its machine, and moves no other order. */
    method Perform(id: OrderId, a: Action)
      requires Valid() && id in store.orders && a != Crash
      modifies this`procs, this`traces, store
      ensures Moved(id, Step(cfg, old(MachineOf(id)), a))
    {
      match a {
        case Deliver(event) => Enqueue(id, HandleTask(event));
        case Sweep(now) => SweepNext(id, now);
        case RequestCancel => var _ := CancelOrder(id);
        case Recover => QueueRecovery(id);
        case Advance(now) => Advance(id, now);
        case Resolve(answer, now) => Resume(id, answer, now);
        case AdvanceCreate => AskForInvoice(id);
        case ResolveCreate(invoice, now) => RecordInvoice(id, invoice, now);
      }
    }

    /** The end of `start()`. */
    method Open()
      requires Valid()
      modifies this`ready
      ensures ready && Valid() && Machines() == old(Machines())
    {
      ready := true;
    }

    // ----- Passes over all orders -----

    /** What a pass of the sweep will queue, by one reading of the clock: every order that is not terminal and whose
        incoming expiry is within the safety delta. */
    method SweepExpiries(now: int) returns (due: set<OrderId>)
      requires Valid()
      ensures forall id :: id in due <==>
                && id in store.orders
                && store.orders[id].state != Succeeded && store.orders[id].state != Failed
                && now + cfg.minSafetyDeltaMs >= store.orders[id].incoming.tlcExpiryAt
    {
      var listed := store.ListNonTerminal();
      due := set id | id in listed && now + cfg.minSafetyDeltaMs >= store.orders[id].incoming.tlcExpiryAt;
    }

    /** The pass comes to one of them, by that same reading, whatever has become of the order since. */
    method SweepNext(id: OrderId, now: int)
      requires Valid() && id in store.orders
      modifies this`procs
      ensures Moved(id, Step(cfg, old(MachineOf(id)), Sweep(now)))
      ensures Moved(id, var m := old(MachineOf(id));
                        if now + cfg.minSafetyDeltaMs >= m.order.incoming.tlcExpiryAt
                        then m.(proc := m.proc.(queue := m.proc.queue + [SweepTask(now)])) else m)
    {
      if now + cfg.minSafetyDeltaMs >= store.orders[id].incoming.tlcExpiryAt {
        Enqueue(id, SweepTask(now));
      }
    }

    /** Let the running task of one order run to its end against a node that answers. */
    method RunToEnd(id: OrderId, truth: Truth, now: int)
      requires Valid() && id in store.orders
      modifies this`procs, this`traces, store
      ensures Moved(id, Drive(cfg, old(MachineOf(id)), truth, now))
    {
      ghost var goal := Drive(cfg, MachineOf(id), truth, now);
      var pc := if id in procs then procs[id].pc else Idle;
      while pc != Idle
        invariant id in store.orders && pc == ProcOf(id).pc
        invariant Moved(id, MachineOf(id)) && Drive(cfg, MachineOf(id), truth, now) == goal
        decreases Budget(ProcOf(id))
      {
        BudgetShrinks(cfg, MachineOf(id), truth, now);
        DriveOnce(cfg, MachineOf(id), truth, now);
        Go(id, pc, truth, now);
        pc := if id in procs then procs[id].pc else Idle;
      }
    }

    method Go(id: OrderId, pc: Pc, truth: Truth, now: int)
      requires Valid() && id in store.orders && pc == ProcOf(id).pc
      modifies this`procs, this`traces, store
      ensures Moved(id, Next(cfg, old(MachineOf(id)), truth, now))
    {
      ghost var m := MachineOf(id);
      if Waits(pc) {
        NextIs(cfg, m, truth, now);
        Resume(id, Reply(truth, pc), now);
      } else {
        NextIs(cfg, m, truth, now);
        Advance(id, now);
      }
    }

    method StartReconcile(id: OrderId, now: int)
      requires Valid() && id in store.orders && ProcOf(id) == IDLE && !Terminal(store.orders[id].state)
      modifies this`procs, this`traces, store
      ensures Moved(id, Step(cfg, Step(cfg, old(MachineOf(id)), Recover), Action.Advance(now)))
    {
      Perform(id, Recover);
      Perform(id, Action.Advance(now));
    }

    /** Recover one order: queue its reconciliation, and see it through. */
    method RecoverOne(id: OrderId, truth: Truth, now: int)
      requires Valid() && id in store.orders && ProcOf(id) == IDLE && !Terminal(store.orders[id].state)
      modifies this`procs, this`traces, store
      ensures Moved(id, Recovered(cfg, old(MachineOf(id)), truth, now))
    {
      StartReconcile(id, now);
      RunToEnd(id, truth, now);
    }

    /** As RecoverOne, towards a value named by the caller. */
    method RecoverTo(id: OrderId, truth: Truth, now: int, ghost was: Machine, ghost goal: Machine)
      requires Valid() && id in store.orders && MachineOf(id) == was
      requires IsOutcome(cfg, was, goal, truth, now) && !Terminal(was.order.state)
      modifies this`procs, this`traces, store
      ensures Moved(id, goal)
    {
      RecoverOne(id, truth, now);
    }

    /** Every order stands where `goal` says if it is among `done`, and else where it stood. */
    ghost predicate Stands(was: map<OrderId, Machine>, goal: map<OrderId, Machine>, done: set<OrderId>)
      reads this, store
    {
      && Valid() && was.Keys == goal.Keys == store.orders.Keys
      && forall id :: id in was ==> MachineOf(id) == if id in done then goal[id] else was[id]
    }

    /** Recover one of several orders. */
    method RecoverAnother(id: OrderId, truth: Truth, now: int, ghost was: map<OrderId, Machine>,
                          ghost goal: map<OrderId, Machine>, ghost done: set<OrderId>)
      requires Stands(was, goal, done) && id in was && id !in done
      requires IsOutcome(cfg, was[id], goal[id], truth, now) && !Terminal(was[id].order.state)
      modifies this`procs, this`traces, store
      ensures Stands(was, goal, done + {id})
    {
      RecoverTo(id, truth, now, was[id], goal[id]);
      assert MachineOf(id) == goal[id];
      forall other | other in was && other != id
        ensures MachineOf(other) == if other in done + {id} then goal[other] else was[other]
      {
        assert MachineOf(other) == old(MachineOf(other));
        assert other in done + {id} <==> other in done;
      }
    }

    /** Recover the listed orders one after the other, in any order. */
    method RecoverListed(listed: set<OrderId>, truths: map<OrderId, Truth>, now: int,
                         ghost was: map<OrderId, Machine>, ghost goal: map<OrderId, Machine>)
      requires Stands(was, goal, {}) && listed <= was.Keys <= truths.Keys
      requires forall id :: id in listed ==>
                 IsOutcome(cfg, was[id], goal[id], truths[id], now) && !Terminal(was[id].order.state)
      modifies this`procs, this`traces, store
      ensures Stands(was, goal, listed)
    {
      var todo := listed;
      ghost var done: set<OrderId> := {};
      while |todo| > 0
        invariant todo <= listed <= done + todo && done <= listed && done !! todo
        invariant Stands(was, goal, done)
        decreases |todo|
      {
        var id :| id in todo;
        RecoverAnother(id, truths[id], now, was, goal, done);
        done := done + {id};
        todo := todo - {id};
      }
      SameSet(done, listed);
    }

    /** Recover every order that is not terminal. */
    method RecoverAll(truths: map<OrderId, Truth>, now: int, ghost was: map<OrderId, Machine>, ghost goal: map<OrderId, Machine>)
      requires Stands(was, goal, {}) && was.Keys <= truths.Keys
      requires forall id :: id in was ==> IsOutcome(cfg, was[id], goal[id], truths[id], now)
      modifies this`procs, this`traces, store
      ensures Stands(was, goal, was.Keys)
    {
      var listed := store.ListNonTerminal();
      RecoverListed(listed, truths, now, was, goal);
      forall id | id in was ensures MachineOf(id) == goal[id] {
        assert IsOutcome(cfg, was[id], goal[id], truths[id], now);
      }
    }

    ghost function MachinesAmong(ids: set<OrderId>): (was: map<OrderId, Machine>)
      requires Valid() && ids <= store.orders.Keys
      reads `procs, `traces, store
      ensures was.Keys == ids && forall id :: id in ids ==> was[id] == MachineOf(id)
    {
      if ids == {} then map[] else
      var id :| id in ids;
      MachinesAmong(ids - {id})[id := MachineOf(id)]
    }

    ghost function Machines(): (was: map<OrderId, Machine>)
      requires Valid()
      reads `procs, `traces, store
      ensures was.Keys == store.orders.Keys && forall id :: id in was ==> was[id] == MachineOf(id)
    {
      MachinesAmong(store.orders.Keys)
    }

    /** Reconcile every order that is not terminal, one after the other, and only then accept work. Afterwards
        exactly those orders are terminal that the answers of the nodes allowed to be. */
    method Start(truths: map<OrderId, Truth>, now: int)
      requires Valid() && procs == map[] && store.orders.Keys <= truths.Keys
      modifies this, store
      ensures Valid() && ready && store.orders.Keys == old(store.orders.Keys)
      ensures forall id :: id in store.orders ==>
                IsOutcome(cfg, old(MachineOf(id)), MachineOf(id), truths[id], now)
    {
      ghost var was := Machines();
      ghost var goal := OutcomesExist(cfg, was, truths, now);
      RecoverAll(truths, now, was, goal);
      Open();
    }
  }

  /** `t` is where recovery takes `m`; it is terminal exactly when the nodes' answers allow it. */
  ghost predicate IsOutcome(cfg: Config, m: Machine, t: Machine, truth: Truth, now: int) {
    && m.proc == IDLE
    && t == (if Terminal(m.order.state) then m else Recovered(cfg, m, truth, now))
    && (LegsAgree(cfg, m.order) ==> (Terminal(t.order.state) <==> Resolvable(cfg, m.order, truth, now)))
  }

  lemma OutcomeOf(cfg: Config, m: Machine, truth: Truth, now: int)
    requires m.proc == IDLE
    ensures IsOutcome(cfg, m, if Terminal(m.order.state) then m else Recovered(cfg, m, truth, now), truth, now)
  {
    if LegsAgree(cfg, m.order) {
      RecoveryConvergesExactly(cfg, m, truth, now);
    }
  }

  lemma OutcomesExist(cfg: Config, was: map<OrderId, Machine>, truths: map<OrderId, Truth>, now: int)
    returns (goal: map<OrderId, Machine>)
    requires was.Keys <= truths.Keys && forall id :: id in was ==> was[id].proc == IDLE
    ensures goal.Keys == was.Keys
    ensures forall id :: id in was ==> IsOutcome(cfg, was[id], goal[id], truths[id], now)
  {
    goal := Tabulate(was.Keys, id requires id in was.Keys =>
      if Terminal(was[id].order.state) then was[id] else Recovered(cfg, was[id], truths[id], now));
    forall id | id in was ensures IsOutcome(cfg, was[id], goal[id], truths[id], now) {
      OutcomeOf(cfg, was[id], truths[id], now);
    }
  }

  lemma NextIs(cfg: Config, m: Machine, truth: Truth, now: int)
    ensures Next(cfg, m, truth, now) == if Waits(m.proc.pc) then OrderMachine.Resume(cfg, m, Reply(truth, m.proc.pc), now)
                                        else Run(cfg, m, now)
  {
  }
}