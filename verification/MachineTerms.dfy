/** What was agreed when an order was created, and that the nodes are asked for just that, in every run. */
module MachineTerms {
  import opened Basics
  import opened Orders
  import opened OrderMachine
  import opened MachineSteps
  import opened MachineSafety
  import opened MachineHistory
  import opened Timelock

  // ----- The terms -----

  /** The record says what the request said, leg by leg. */
  predicate Agreed(p: CreateOrderParams, o: Order) {
    && o.orderId == p.orderId && o.quoteId == p.quoteId && o.direction == p.direction && o.paymentHash == p.paymentHash
    && o.incoming.network == p.incoming.network && o.incoming.amount == p.incoming.amount
    && o.incoming.tlcExpiryAt == p.incoming.tlcExpiryAt
    && o.outgoing.network == p.outgoing.network && o.outgoing.amount == p.outgoing.amount
    && o.outgoing.tlcExpiryAt == p.outgoing.tlcExpiryAt && o.outgoing.invoice == p.outgoing.invoice
  }

  /** Nothing has happened to it since `now`. */
  predicate Untouched(o: Order, now: int) {
    && o.state == Pending && o.createdAt == now && o.updatedAt == now && o.failure == None
    && o.incoming.invoice == "" && o.incoming.status == Waiting && o.incoming.preimage == None
    && o.outgoing.status == Waiting && o.outgoing.preimage == None
  }

  lemma NewOrderIsAgreed(p: CreateOrderParams, now: int)
    ensures Agreed(p, NewOrder(p, now)) && Untouched(NewOrder(p, now), now)
    ensures Created(p, now).order == NewOrder(p, now) && Created(p, now).trace == []
    ensures Created(p, now).trail == [OrderEvent(p.orderId, now, None, Pending, None)]
  {
  }

  /** `0x` and 64 lower-case hexadecimal digits. */
  predicate HashText(h: string) {
    |h| == 66 && h[..2] == "0x" && forall i :: 2 <= i < 66 ==> h[i] in "0123456789abcdef"
  }

  lemma HashesAreHex(h: string)
    ensures IsHash256(h) <==> HashText(h)
  {
    forall c: char ensures '0' <= c <= '9' || 'a' <= c <= 'f' <==> c in "0123456789abcdef" {
      HexLetters(c);
    }
    if |h| == 66 { assert h[..2] == [h[0], h[1]]; }
  }

  lemma HexLetters(c: char)
    ensures '0' <= c <= '9' || 'a' <= c <= 'f' <==> c in "0123456789abcdef"
  {
    var digits := "0123456789abcdef";
    if '0' <= c <= '9' {
      assert digits[c as int - '0' as int] == c;
    } else if 'a' <= c <= 'f' {
      assert digits[c as int - 'a' as int + 10] == c;
    }
  }

  // ----- The calls -----

  /** What a call on a node carries, in the words of the request. */
  predicate AsAgreed(cfg: Config, p: CreateOrderParams, t0: int, call: Call) {
    match call
    case CreateHoldInvoice(network, hash, amount, tlcExpiryDeltaMs) =>
      network == p.incoming.network && hash == p.paymentHash && amount == p.incoming.amount
      && t0 + tlcExpiryDeltaMs == p.incoming.tlcExpiryAt
    case Pay(network, invoice, maxFee, tlcExpiryLimitMs, readAt) =>
      network == p.outgoing.network && invoice == p.outgoing.invoice && maxFee == cfg.maxFeeFor(p.outgoing.amount)
      && readAt + tlcExpiryLimitMs == p.outgoing.tlcExpiryAt
    case Settle(network, hash, preimage) =>
      network == p.incoming.network && hash == p.paymentHash && cfg.sha256(preimage) == p.paymentHash
    case Cancel(network, hash) => network == p.incoming.network && hash == p.paymentHash
    case InvoiceState(network, hash) => network == p.incoming.network && hash == p.paymentHash
    case PaymentState(network, hash) => network == p.outgoing.network && hash == p.paymentHash
  }

  /** In every run of an order the record keeps the terms of its request, and every call on a node carries them. */
  lemma CallsAreAsAgreed(cfg: Config, p: CreateOrderParams, t0: int, actions: seq<Action>)
    ensures var t := Steps(cfg, Created(p, t0), actions);
            && Agreed(p, t.order) && t.order.createdAt == t0
            && forall i :: 0 <= i < |t.trace| && t.trace[i].Issued? ==> AsAgreed(cfg, p, t0, t.trace[i].call)
  {
    var m, t := Created(p, t0), Steps(cfg, Created(p, t0), actions);
    NewOrderIsAgreed(p, t0);
    StartsSafe(cfg, m.order, [], p, t0);
    StepsSafe(cfg, m, actions);
    StepsHoldLast(cfg, m, actions, p.incoming.tlcExpiryAt - t0);
    forall i | 0 <= i < |t.trace| && t.trace[i].Issued? ensures AsAgreed(cfg, p, t0, t.trace[i].call) {
      assert CallOk(cfg, t.order, t.trace[i].call, t.trace[i].persisted);
    }
  }

  // ----- The invoice -----

  /** The node answered the request for a hold invoice with this one. */
  predicate AnsweredAt(cfg: Config, m: Machine, actions: seq<Action>, i: nat, invoice: string) {
    i < |actions| && actions[i].ResolveCreate? && actions[i].invoice == Some(invoice)
    && Steps(cfg, m, actions[..i]).proc.creation == WaitCreate
  }

  ghost predicate AnsweredWith(cfg: Config, m: Machine, actions: seq<Action>, invoice: string) {
    exists i: nat :: AnsweredAt(cfg, m, actions, i, invoice)
  }

  predicate Unissued(m: Machine) {
    m.proc.creation != NotCreating ==> m.order.incoming.invoice == ""
  }

  lemma StepInvoice(cfg: Config, m: Machine, a: Action)
    requires Unissued(m)
    ensures Unissued(Step(cfg, m, a))
    ensures Step(cfg, m, a).order.incoming.invoice ==
              if a.ResolveCreate? && m.proc.creation == WaitCreate && a.invoice.Some? then a.invoice.value
              else m.order.incoming.invoice
  {
    StepEdits(cfg, m, a);
  }

  lemma AnsweredOneMore(cfg: Config, m: Machine, init: seq<Action>, a: Action, invoice: string)
    ensures AnsweredWith(cfg, m, init + [a], invoice) <==>
              AnsweredWith(cfg, m, init, invoice) ||
              (a.ResolveCreate? && a.invoice == Some(invoice) && Steps(cfg, m, init).proc.creation == WaitCreate)
  {
    var all := init + [a];
    assert all[..|init|] == init;
    if i: nat :| AnsweredAt(cfg, m, init, i, invoice) {
      assert all[..i] == init[..i];
      assert AnsweredAt(cfg, m, all, i, invoice);
    }
    if i: nat :| AnsweredAt(cfg, m, all, i, invoice) {
      if i < |init| {
        assert all[..i] == init[..i];
        assert AnsweredAt(cfg, m, init, i, invoice);
      }
    }
    if a.ResolveCreate? && a.invoice == Some(invoice) && Steps(cfg, m, init).proc.creation == WaitCreate {
      assert AnsweredAt(cfg, m, all, |init|, invoice);
    }
  }

  lemma {:induction false} InvoiceSoFar(cfg: Config, p: CreateOrderParams, t0: int, actions: seq<Action>, invoice: string)
    requires invoice != ""
    ensures var t := Steps(cfg, Created(p, t0), actions);
            Unissued(t) && (t.order.incoming.invoice == invoice <==> AnsweredWith(cfg, Created(p, t0), actions, invoice))
  {
    var m := Created(p, t0);
    if actions != [] {
      var init, a := actions[..|actions| - 1], actions[|actions| - 1];
      InvoiceSoFar(cfg, p, t0, init, invoice);
      InitAndLast(actions);
      StepsLast(cfg, m, init, a);
      StepInvoice(cfg, Steps(cfg, m, init), a);
      AnsweredOneMore(cfg, m, init, a, invoice);
    }
  }

  /** Whatever happens to an order, its record names the hold invoice that the node answered with, and no other. */
  lemma InvoiceIsTheNodes(cfg: Config, p: CreateOrderParams, t0: int, actions: seq<Action>, invoice: string)
    requires invoice != ""
    ensures Steps(cfg, Created(p, t0), actions).order.incoming.invoice == invoice <==>
              AnsweredWith(cfg, Created(p, t0), actions, invoice)
  {
    InvoiceSoFar(cfg, p, t0, actions, invoice);
  }
}
