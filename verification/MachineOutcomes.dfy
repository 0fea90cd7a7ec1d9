/** What each stimulus comes to: from an order at rest, its task followed to the end, with the record it leaves, the calls
    it makes and what happens when they throw. */
module MachineOutcomes {
  import opened Basics
  import opened Orders
  import opened OrderMachine
  import opened MachineSteps
  import opened MachineSafety
  import opened MachineHistory
  import opened MachineRecovery

  /** Nothing of this order is running or waiting. */
  predicate AtRest(m: Machine) {
    m.proc.pc == Idle && m.proc.queue == [] && !m.proc.tail
  }

  lemma TaskRuns(cfg: Config, m: Machine, task: Task, now: int)
    requires AtRest(m)
    ensures Step(cfg, OrderMachine.Enqueue(m, task), Advance(now)) == Start(cfg, m, task, now)
  {
    assert OrderMachine.Enqueue(m, task).proc.queue == [task];
    assert [task][1..] == m.proc.queue;
  }

  /** An event comes in and is handled. */
  function Heard(cfg: Config, m: Machine, event: LegEvent, now: int): Machine {
    Step(cfg, Step(cfg, m, Deliver(event)), Advance(now))
  }

  lemma HeardIs(cfg: Config, m: Machine, event: LegEvent, now: int)
    requires AtRest(m)
    ensures Heard(cfg, m, event, now) == Handle(cfg, m, event, now)
  {
    TaskRuns(cfg, m, HandleTask(event), now);
  }

  /** The hold is asked to be cancelled, and nothing else is asked. */
  predicate CancelIssued(m: Machine, t: Machine) {
    && |t.trace| == |m.trace| + 1 && t.trace[..|m.trace|] == m.trace
    && t.trace[|m.trace|].Issued?
    && t.trace[|m.trace|].call == Cancel(m.order.incoming.network, m.order.paymentHash)
  }

  // ----- The sweep -----

  /** Rule R3: a pass of the sweep over an order that is not paid, by a reading of the clock, gives its hold up exactly when
      the incoming expiry is within the safety delta of that reading; else it does nothing to it. */
  lemma SweepCancelsExactly(cfg: Config, m: Machine, reading: int, t1: int, t2: int)
    requires AtRest(m)
    requires m.order.state == Pending || m.order.state == IncomingHeld || m.order.state == OutgoingInFlight
    ensures var t := Step(cfg, Step(cfg, Step(cfg, m, Sweep(reading)), Advance(t1)), Advance(t2));
            if reading + cfg.minSafetyDeltaMs >= m.order.incoming.tlcExpiryAt
            then
              && CancelIssued(m, t) && t.order.updatedAt == t1
              && (m.order.state == Pending ==>
                    t.order.state == Failed && t.proc.pc == WaitFailCancel &&
                    (m.order.failure == None ==> t.order.failure == Some(ProtocolError(QuoteExpired, NeverArrived, false))))
              && (m.order.state != Pending ==>
                    && t.order.state == Refunding
                    && t.order.failure == Some(ProtocolError(ExpiryInvariantViolation, SafetyWindow, false)))
            else t == m
  {
    if reading + cfg.minSafetyDeltaMs >= m.order.incoming.tlcExpiryAt { TaskRuns(cfg, m, SweepTask(reading), t1); }
  }

  /** Orders that are paid, refunding or at their end are left alone. */
  lemma SweepSparesTheRest(cfg: Config, m: Machine, reading: int, t1: int)
    requires AtRest(m)
    requires m.order.state != Pending && m.order.state != IncomingHeld && m.order.state != OutgoingInFlight
    ensures Step(cfg, Step(cfg, m, Sweep(reading)), Advance(t1)) == m
  {
    if Due(cfg, m.order, reading) { TaskRuns(cfg, m, SweepTask(reading), t1); }
  }

  // ----- The hold arrives -----

  /** The record of a dispatched order. */
  predicate IsDispatched(o: Order, d: Order, at: int) {
    d == o.(state := OutgoingInFlight, incoming := o.incoming.(status := Held),
            outgoing := o.outgoing.(status := InFlight), updatedAt := at)
  }

  /** A hold that arrives is answered with the payment exactly when its expiry is more than the safety delta away; else it
      is given up. */
  lemma HoldIsDispatchedExactly(cfg: Config, m: Machine, event: LegEvent, t1: int, t2: int, t3: int)
    requires AtRest(m) && m.order.state == Pending && m.order.outgoing.status == Waiting && event.kind == EvIncomingHeld
    ensures var t := Step(cfg, Step(cfg, Heard(cfg, m, event, t1), Advance(t2)), Advance(t3));
            if t2 + cfg.minSafetyDeltaMs < m.order.incoming.tlcExpiryAt
            then
              && IsDispatched(m.order, t.order, t2) && t.proc.pc == WaitPay
              && t.trace == m.trace + [Issued(Pay(m.order.outgoing.network, m.order.outgoing.invoice,
                                                  cfg.maxFeeFor(m.order.outgoing.amount),
                                                  m.order.outgoing.tlcExpiryAt - t2, t2), OutgoingInFlight)]
            else
              && CancelIssued(m, t) && t.order.state == Refunding && t.order.outgoing.status == Waiting
              && t.order.failure == Some(ProtocolError(ExpiryInvariantViolation, TooCloseAtDispatch, false))
  {
    HeardIs(cfg, m, event, t1);
  }

  /** A refusal by the node is no proof of absence: it is asked about the payment. */
  lemma RefusedPayIsLookedUp(cfg: Config, m: Machine, now: int)
    requires m.proc.pc == WaitPay
    ensures var t := Step(cfg, m, Resolve(Threw, now));
            && t.proc.pc == WaitPaymentState && t.order == m.order
            && t.trace == m.trace + [Issued(PaymentState(m.order.outgoing.network, m.order.paymentHash), m.order.state)]
  {
  }

  // ----- The payment succeeds -----

  /** The preimage is one of this order's hash. */
  predicate Opens(cfg: Config, o: Order, preimage: Option<Hash>) {
    preimage.Some? && preimage.value != "" && cfg.sha256(preimage.value) == o.paymentHash
  }

  /** An order in flight is collected exactly when the success comes with a preimage of its hash, and with that preimage;
      any other success changes nothing. */
  lemma SuccessIsCollectedExactly(cfg: Config, m: Machine, event: LegEvent, t1: int, t2: int)
    requires AtRest(m) && m.order.state == OutgoingInFlight && event.kind == EvOutgoingSettled
    ensures var t := Step(cfg, Heard(cfg, m, event, t1), Advance(t2));
            if Opens(cfg, m.order, event.preimage)
            then
              && t.order.state == OutgoingSettled && t.order.outgoing.status == Settled
              && t.order.outgoing.preimage == event.preimage && t.order.incoming == m.order.incoming
              && t.proc.pc == WaitSettle(event.preimage.value)
              && t.trace == m.trace + [Issued(Settle(m.order.incoming.network, m.order.paymentHash, event.preimage.value),
                                              OutgoingSettled)]
            else t == m
  {
    HeardIs(cfg, m, event, t1);
  }

  /** The settle succeeds: both legs carry the preimage. If it throws, the order stays as it is, and the next report of the
      success settles again. */
  lemma CollectionEnds(cfg: Config, m: Machine, preimage: Hash, now: int)
    requires m.proc.pc == WaitSettle(preimage) && m.proc.queue == [] && !m.proc.tail
    requires m.order.state == OutgoingSettled && m.order.outgoing.preimage == Some(preimage)
    ensures var t := Step(cfg, m, Resolve(Done, now));
            && AtRest(t) && t.trace == m.trace && t.order.outgoing == m.order.outgoing
            && t.order.state == Succeeded && t.order.incoming.status == Settled
            && t.order.incoming.preimage == Some(preimage)
    ensures var t := Step(cfg, m, Resolve(Threw, now)); AtRest(t) && t.order == m.order && t.trace == m.trace
  {
  }

  lemma CollectionIsRetried(cfg: Config, m: Machine, event: LegEvent, t1: int, t2: int)
    requires AtRest(m) && m.order.state == OutgoingSettled && event.kind == EvOutgoingSettled
    requires Opens(cfg, m.order, m.order.outgoing.preimage)
    ensures var t := Step(cfg, Heard(cfg, m, event, t1), Advance(t2));
            && t.order == m.order && t.proc.pc == WaitSettle(m.order.outgoing.preimage.value)
            && t.trace == m.trace + [Issued(Settle(m.order.incoming.network, m.order.paymentHash,
                                                   m.order.outgoing.preimage.value), OutgoingSettled)]
  {
    HeardIs(cfg, m, event, t1);
  }

  /** The node's own word that the hold is settled ends a paid order, and no other. */
  lemma NodeSettlesExactly(cfg: Config, m: Machine, event: LegEvent, now: int)
    requires AtRest(m) && event.kind == EvIncomingSettled
    ensures var t := Heard(cfg, m, event, now);
            if m.order.state == OutgoingSettled
            then
              && t.order.state == Succeeded && t.order.incoming.status == Settled && AtRest(t) && t.trace == m.trace
              && t.order.outgoing == m.order.outgoing
              && (Given(m.order.outgoing.preimage).Some? ==> t.order.incoming.preimage == m.order.outgoing.preimage)
              && (m.order.outgoing.preimage == None ==> t.order.incoming.preimage == m.order.incoming.preimage)
            else t == m
  {
    HeardIs(cfg, m, event, now);
  }

  // ----- The payment fails -----

  /** Any case of a lower-case letter. */
  predicate SameLetter(c: char, letter: char) {
    c == letter || ('a' <= letter <= 'z' && c as int + 32 == letter as int)
  }

  predicate Reads(text: string, word: string) {
    |text| == |word| && forall i :: 0 <= i < |word| ==> SameLetter(text[i], word[i])
  }

  /** In any case of letters: "noroute", or "no" and "route" with one character between them that ends no line. */
  ghost predicate SaysNoRoute(text: string) {
    exists i, j :: 0 <= i <= j <= |text| && NoRouteAt(text, i, j)
  }

  predicate NoRouteAt(text: string, i: int, j: int)
    requires 0 <= i <= j <= |text|
  {
    || Reads(text[i..j], "noroute")
    || (j == i + 8 && Reads(text[i..i + 2], "no") && Reads(text[i + 3..j], "route") &&
        text[i + 2] != '\n' && text[i + 2] != '\r' && text[i + 2] != '\U{2028}' && text[i + 2] != '\U{2029}')
  }

  lemma LowerMeans(c: char, letter: char)
    requires 'a' <= letter <= 'z'
    ensures Lower(c) == letter <==> SameLetter(c, letter)
  {
  }

  lemma WordIsRead(text: string, at: nat, word: string)
    requires forall i :: 0 <= i < |word| ==> 'a' <= word[i] <= 'z'
    ensures WordAt(text, at, word) <==> at + |word| <= |text| && Reads(text[at..at + |word|], word)
  {
    if at + |word| <= |text| {
      forall i | 0 <= i < |word| ensures Lower(text[at + i]) == word[i] <==> SameLetter(text[at..at + |word|][i], word[i]) {
        LowerMeans(text[at + i], word[i]);
        assert text[at..at + |word|][i] == text[at + i];
      }
      assert Reads(text[at..at + |word|], word) <==> forall i :: 0 <= i < |word| ==> SameLetter(text[at..at + |word|][i], word[i]);
    }
  }

  lemma MentionsAt(text: string, i: nat)
    requires i < |text|
    ensures WordAt(text, i, "no") && WordAt(text, i + 2, "route") <==> i + 7 <= |text| && Reads(text[i..i + 7], "noroute")
    ensures WordAt(text, i, "no") && i + 2 < |text| && WordAt(text, i + 3, "route") <==>
              i + 8 <= |text| && Reads(text[i..i + 2], "no") && Reads(text[i + 3..i + 8], "route")
  {
    WordIsRead(text, i, "no");
    WordIsRead(text, i + 2, "route");
    WordIsRead(text, i + 3, "route");
    if i + 7 <= |text| {
      var seven := text[i..i + 7];
      assert seven[..2] == text[i..i + 2] && seven[2..] == text[i + 2..i + 7];
      assert "noroute"[..2] == "no" && "noroute"[2..] == "route";
      ReadsInTwo(seven, "noroute", 2);
    }
  }

  lemma ReadsInTwo(text: string, word: string, k: nat)
    requires k <= |word| && |text| == |word|
    ensures Reads(text, word) <==> Reads(text[..k], word[..k]) && Reads(text[k..], word[k..])
  {
    assert forall i :: k <= i < |word| ==> text[i] == text[k..][i - k] && word[i] == word[k..][i - k];
  }

  lemma MentionsExactly(text: string)
    ensures MentionsNoRoute(text) <==> SaysNoRoute(text)
  {
    if MentionsNoRoute(text) {
      var i :| 0 <= i < |text| && WordAt(text, i, "no") &&
        (WordAt(text, i + 2, "route") ||
         (i + 2 < |text| && !LineTerminator(text[i + 2]) && WordAt(text, i + 3, "route")));
      MentionsAt(text, i);
      if WordAt(text, i + 2, "route") {
        assert NoRouteAt(text, i, i + 7);
      } else {
        assert NoRouteAt(text, i, i + 8);
      }
    }
    if i, j :| 0 <= i <= j <= |text| && NoRouteAt(text, i, j) {
      assert j == i + 7 || j == i + 8;
      MentionsAt(text, i);
    }
  }

  /** The error a failed payment leaves on the order: the node's reason, and whether it named a missing route. */
  ghost predicate FailureOf(reason: Option<string>, why: ProtocolError) {
    && why.retryable
    && (reason == None ==> why.code == OutgoingFailed && why.message == OutgoingPaymentFailed)
    && (reason.Some? ==>
          && why.message == NodeReason(reason.value)
          && why.code == (if SaysNoRoute(reason.value) then NoRoute else OutgoingFailed))
  }

  lemma FailuresAreNamed(reason: Option<string>)
    ensures FailureOf(reason, PaymentFailure(reason))
  {
    if reason.Some? { MentionsExactly(reason.value); }
  }

  /** A reported failure gives the hold up exactly in INCOMING_HELD and OUTGOING_IN_FLIGHT, and says why. */
  lemma FailureRefundsExactly(cfg: Config, m: Machine, event: LegEvent, t1: int, t2: int)
    requires AtRest(m) && event.kind == EvOutgoingFailed
    ensures var t := Step(cfg, Heard(cfg, m, event, t1), Advance(t2));
            if m.order.state == IncomingHeld || m.order.state == OutgoingInFlight
            then
              && CancelIssued(m, t) && t.order.state == Refunding && t.order.incoming == m.order.incoming
              && t.order.outgoing == m.order.outgoing.(status := if m.order.outgoing.status == InFlight then LegFailed
                                                                 else m.order.outgoing.status)
              && t.order.failure.Some? && FailureOf(event.failureReason, t.order.failure.value)
              && t.proc.pc == WaitRefundCancel(t.order.failure.value)
            else t == m
  {
    FailuresAreNamed(event.failureReason);
    HeardIs(cfg, m, event, t1);
  }

  // ----- The hold is given up, or lost -----

  /** The order has failed with `why`, unless it had a reason already; its hold counts as cancelled. */
  predicate HasFailed(o: Order, f: Order, why: ProtocolError) {
    && f.state == Failed && f.outgoing == o.outgoing
    && f.failure == (if o.failure.Some? then o.failure else Some(why))
    && f.incoming == o.incoming.(status := if o.incoming.status == Settled then Settled else LegStatus.Cancelled)
  }

  /** When the cancel of a refund goes through, the order fails for the reason it is refunded for. When it throws, the order
      stays REFUNDING, and its task is over. */
  lemma RefundEnds(cfg: Config, m: Machine, now: int)
    requires (m.proc.pc.WaitRefundCancel? || m.proc.pc.WaitRetryCancel?) && m.order.state == Refunding
    ensures var t := Step(cfg, m, Resolve(Done, now));
            HasFailed(m.order, t.order, m.proc.pc.why) && t.trace == m.trace && t.proc.queue == m.proc.queue
            && t.proc.pc == if m.proc.tail then AtTail else Idle
    ensures var t := Step(cfg, m, Resolve(Threw, now));
            t == m.(proc := m.proc.(pc := if m.proc.tail then AtTail else Idle, tail := false))
  {
  }

  /** The task behind it runs then: a hold reported as cancelled ends the order that its refund could not. */
  lemma StuckRefundIsEnded(cfg: Config, m: Machine, event: LegEvent, t1: int, t2: int)
    requires m.proc.pc.WaitRefundCancel? || m.proc.pc.WaitRetryCancel?
    requires m.order.state == Refunding && !m.proc.tail && m.order.failure.Some?
    requires m.proc.queue == [HandleTask(event)] && event.kind == EvIncomingCancelled
    ensures var t := Step(cfg, Step(cfg, m, Resolve(Threw, t1)), Advance(t2));
            HasFailed(m.order, t.order, m.order.failure.value) && AtRest(t) && t.trace == m.trace
  {
    RefundEnds(cfg, m, t1);
    assert m.proc.queue[1..] == [];
  }

  /** A lost hold fails every order that has not ended, and asks the nodes nothing. */
  lemma LostHoldFails(cfg: Config, m: Machine, event: LegEvent, now: int)
    requires AtRest(m) && event.kind == EvIncomingCancelled
    ensures var t := Heard(cfg, m, event, now);
            if m.order.state == Succeeded || m.order.state == Failed then t == m
            else
              && HasFailed(m.order, t.order, ProtocolError(OutgoingFailed, HoldVanished, false))
              && AtRest(t) && t.trace == m.trace
  {
    HeardIs(cfg, m, event, now);
  }

  /** A cancellation is taken exactly in PENDING and INCOMING_HELD; it fails the order, and cancels its hold. */
  lemma CancellationFailsExactly(cfg: Config, m: Machine, t1: int, t2: int)
    requires AtRest(m)
    ensures var asked := Step(cfg, m, RequestCancel);
            if m.order.state == Pending || m.order.state == IncomingHeld
            then
              var t := Step(cfg, Step(cfg, asked, Advance(t1)), Advance(t2));
              HasFailed(m.order, t.order, ProtocolError(Internal, CancelledByRequest, false)) && CancelIssued(m, t)
              && t.proc.pc == WaitFailCancel
            else asked == m
  {
    if m.order.state == Pending || m.order.state == IncomingHeld { TaskRuns(cfg, m, CancelTask, t1); }
  }

  /** Whether or not the cancel behind a failure goes through, the task is over and the order is as it was. */
  lemma FailureEnds(cfg: Config, m: Machine, answer: Answer, now: int)
    requires m.proc.pc == WaitFailCancel && (answer == Done || answer == Threw)
    ensures Step(cfg, m, Resolve(answer, now)) == m.(proc := m.proc.(pc := if m.proc.tail then AtTail else Idle, tail := false))
  {
  }

  /** Events that come too late, or twice, or only tell of progress, change nothing. */
  lemma LateEventsAreIgnored(cfg: Config, m: Machine, event: LegEvent, now: int)
    requires AtRest(m)
    requires || event.kind == EvOutgoingInFlight
             || (event.kind == EvIncomingHeld && m.order.state != Pending)
             || (event.kind == EvOutgoingSettled && m.order.state != OutgoingInFlight && m.order.state != OutgoingSettled)
             || Terminal(m.order.state)
    ensures Heard(cfg, m, event, now) == m
  {
    HeardIs(cfg, m, event, now);
  }

  // ----- Recovery -----

  /** An order whose process died before its invoice was recorded is failed, to be tried again, and its hold cancelled; any
      other that has not ended is looked up at the node of its hold. */
  lemma RecoveryBegins(cfg: Config, m: Machine, t1: int, t2: int)
    requires AtRest(m) && !Terminal(m.order.state)
    ensures var t := Step(cfg, Step(cfg, m, Recover), Advance(t1));
            if m.order.state == Pending && m.order.incoming.invoice == ""
            then
              && HasFailed(m.order, t.order, ProtocolError(Internal, CrashedBeforeInvoice, true))
              && CancelIssued(m, Step(cfg, t, Advance(t2)))
            else
              && t.order == m.order && t.proc.pc == WaitInvoiceState(m.order.state)
              && t.trace == m.trace + [Issued(InvoiceState(m.order.incoming.network, m.order.paymentHash), m.order.state)]
  {
    TaskRuns(cfg, m, ReconcileTask, t1);
  }

  /** A refund is taken up again by asking about the hold: one that is gone fails the order, for its own reason if it has
      one; one that stands is cancelled. */
  lemma RefundIsTakenUp(cfg: Config, m: Machine, invoice: HoldInvoiceState, t1: int, t2: int)
    requires m.proc.pc == AtTail && m.order.state == Refunding && !m.proc.tail
    ensures var asked := Step(cfg, m, Advance(t1));
            var t := Step(cfg, asked, Resolve(InvoiceIs(invoice), t2));
            && asked.order == m.order
            && asked.trace == m.trace + [Issued(InvoiceState(m.order.incoming.network, m.order.paymentHash), Refunding)]
            && if invoice == HoldCancelled || invoice == Unknown
               then
                 && HasFailed(m.order, t.order, ProtocolError(OutgoingFailed, RefundCompletedOnRecovery, false))
                 && t.trace == asked.trace
               else t.order == m.order && CancelIssued(asked, t) && t.proc.pc.WaitRetryCancel?
  {
  }

  // ----- Calls that throw -----

  /** A node call that throws never touches the record. Where the source catches it the running function returns, to what
      is left of recovery if it runs under it; a refused payment is looked up; everywhere else the task is rejected, recovery
      and all. */
  lemma ThrowsAreCaughtExactly(cfg: Config, m: Machine, now: int)
    requires Waits(m.proc.pc)
    ensures var t, pc := Step(cfg, m, Resolve(Threw, now)), m.proc.pc;
            && t.order == m.order && t.trail == m.trail && t.proc.queue == m.proc.queue
            && (pc == WaitPay <==> t.proc.pc == WaitPaymentState)
            && (pc != WaitPay ==> t.trace == m.trace && !t.proc.tail)
            && (pc != WaitPay ==>
                  var caught := pc == WaitRepay || pc == WaitFailCancel || pc.WaitRefundCancel? || pc.WaitRetryCancel?;
                  t.proc.pc == if m.proc.tail && caught then AtTail else Idle)
  {
  }

  // ----- Stamps -----

  /** The label of a row tells the transition from `o` to `t`. */
  predicate Tells(detail: Detail, o: Order, t: Order) {
    match detail
    case HoldInvoiceIssued => t.state == o.state && t.incoming.status == o.incoming.status
    case IncomingHtlcHeld => t.state == IncomingHeld && t.incoming.status == Held
    case DispatchingOutgoing => t.state == OutgoingInFlight && t.outgoing.status == InFlight
    case OutgoingSettledVerified => t.state == OutgoingSettled && t.outgoing.status == Settled
    case SwapComplete => t.state == Succeeded && t.incoming.preimage.Some? && t.incoming.status == Settled
    case IncomingSettledByNode => t.state == Succeeded && t.incoming.status == Settled
    case RefundingFor(code) => t.state == Refunding && t.failure.Some? && t.failure.value.code == code
    case FailedFor(code) => t.state == Failed && t.failure.Some? && (o.failure == None ==> t.failure.value.code == code)
  }

  /** Every new record is stamped with the reading of its step, and every row with that of its record; a row tells the state
      left and the state entered. */
  lemma RecordsAreStamped(cfg: Config, m: Machine, a: Action)
    ensures var t := Step(cfg, m, a);
            if t.trail == m.trail then t.order == m.order
            else
              && (a.Advance? || a.Resolve? || a.ResolveCreate?) && t.order.updatedAt == a.now
              && |t.trail| == |m.trail| + 1 && t.trail[..|m.trail|] == m.trail
              && var row := t.trail[|m.trail|];
                 && row.orderId == m.order.orderId && row.at == a.now
                 && row.fromState == Some(m.order.state) && row.toState == t.order.state
                 && row.detail.Some? && Tells(row.detail.value, m.order, t.order)
  {
    StepEdits(cfg, m, a);
    if EditOf(cfg, m, a) != NoEdit { EditIsStamped(m.order, EditOf(cfg, m, a)); }
    EditReads(cfg, m, a);
  }

  lemma EditReads(cfg: Config, m: Machine, a: Action)
    ensures EditOf(cfg, m, a) != NoEdit ==> (a.Advance? || a.Resolve? || a.ResolveCreate?) && EditOf(cfg, m, a).now == a.now
  {
  }

  lemma EditIsStamped(o: Order, e: Edit)
    requires e != NoEdit
    ensures Apply(o, e).updatedAt == e.now && Apply(o, e).orderId == o.orderId && Tells(Label(e), o, Apply(o, e))
  {
  }

  // ----- What recovery asks the nodes -----

  lemma {:induction false} DriveExtends(cfg: Config, m: Machine, truth: Truth, now: int)
    ensures m.trace <= Drive(cfg, m, truth, now).trace
    decreases Budget(m.proc)
  {
    if m.proc.pc != Idle {
      BudgetShrinks(cfg, m, truth, now);
      StepEdits(cfg, m, if Waits(m.proc.pc) then Resolve(Reply(truth, m.proc.pc), now) else Advance(now));
      DriveExtends(cfg, Next(cfg, m, truth, now), truth, now);
      DriveOnce(cfg, m, truth, now);
    }
  }

  /** What the answer about the payment of an order in flight leads to. */
  function PaymentCalls(cfg: Config, o: Order, payment: PaymentResult, now: int): seq<Obs> {
    match payment.status
    case NoPayment =>
      [Issued(Pay(o.outgoing.network, o.outgoing.invoice, cfg.maxFeeFor(o.outgoing.amount), o.outgoing.tlcExpiryAt - now, now),
              OutgoingInFlight)]
    case PayFailed => [Issued(Cancel(o.incoming.network, o.paymentHash), Refunding)]
    case PaySucceeded =>
      if Opens(cfg, o, payment.preimage)
      then [Issued(Settle(o.incoming.network, o.paymentHash, payment.preimage.value), OutgoingSettled)] else []
    case PayInFlight => []
  }

  /** The answer moves the task on, to a call that it then makes. */
  lemma PaymentMoves(cfg: Config, m: Machine, truth: Truth, now: int)
    requires m.proc.pc == WaitPaymentState && !m.proc.tail && m.order.state == OutgoingInFlight && LegsAgree(cfg, m.order)
    ensures var t := Next(cfg, m, truth, now);
            && t.order.incoming.network == m.order.incoming.network && t.order.paymentHash == m.order.paymentHash
            && (t.proc.pc == Idle || t.proc.pc == WaitRepay ==>
                  t.trace == m.trace + ([PaymentAnswered(truth.payment.status)] + PaymentCalls(cfg, m.order, truth.payment, now)))
            && (t.proc.pc != Idle && t.proc.pc != WaitRepay ==>
                  && t.trace == m.trace + [PaymentAnswered(truth.payment.status)] && !t.proc.tail
                  && (t.proc.pc.AtRefundCancel? ==> truth.payment.status == PayFailed && t.order.state == Refunding)
                  && (t.proc.pc == AtSettle ==>
                        && truth.payment.status == PaySucceeded && t.order.state == OutgoingSettled
                        && Opens(cfg, m.order, truth.payment.preimage)
                        && t.order.outgoing.preimage == truth.payment.preimage)
                  && (t.proc.pc.AtRefundCancel? || t.proc.pc == AtSettle))
  {
    var answered := [PaymentAnswered(truth.payment.status)];
    Associate(m.trace, answered, PaymentCalls(cfg, m.order, truth.payment, now));
  }

  lemma AnswerAddsNothing(cfg: Config, m: Machine, truth: Truth, now: int)
    requires m.proc.pc == WaitRepay || m.proc.pc.WaitRefundCancel? || m.proc.pc.WaitSettle?
    requires !m.proc.tail
    ensures Drive(cfg, m, truth, now).trace == m.trace
  {
    DriveOnce(cfg, m, truth, now);
    assert Next(cfg, m, truth, now).proc.pc == Idle;
  }

  lemma DriveCancelCall(cfg: Config, m: Machine, truth: Truth, now: int)
    requires !m.proc.tail && m.proc.pc.AtRefundCancel? && m.order.state == Refunding
    ensures Drive(cfg, m, truth, now).trace ==
              m.trace + [Issued(Cancel(m.order.incoming.network, m.order.paymentHash), Refunding)]
  {
    DriveOnce(cfg, m, truth, now);
    AnswerAddsNothing(cfg, Next(cfg, m, truth, now), truth, now);
  }

  lemma DriveSettleCall(cfg: Config, m: Machine, truth: Truth, now: int)
    requires !m.proc.tail && m.proc.pc == AtSettle && m.order.state == OutgoingSettled
    requires Opens(cfg, m.order, m.order.outgoing.preimage)
    ensures Drive(cfg, m, truth, now).trace ==
              m.trace + [Issued(Settle(m.order.incoming.network, m.order.paymentHash, m.order.outgoing.preimage.value),
                                OutgoingSettled)]
  {
    DriveOnce(cfg, m, truth, now);
    AnswerAddsNothing(cfg, Next(cfg, m, truth, now), truth, now);
  }

  lemma PaymentLeadsTo(cfg: Config, m: Machine, truth: Truth, now: int)
    requires m.proc.pc == WaitPaymentState && !m.proc.tail && m.order.state == OutgoingInFlight && LegsAgree(cfg, m.order)
    ensures Drive(cfg, m, truth, now).trace ==
              m.trace + ([PaymentAnswered(truth.payment.status)] + PaymentCalls(cfg, m.order, truth.payment, now))
  {
    var t, calls := Next(cfg, m, truth, now), PaymentCalls(cfg, m.order, truth.payment, now);
    DriveOnce(cfg, m, truth, now);
    PaymentMoves(cfg, m, truth, now);
    if t.proc.pc == WaitRepay {
      AnswerAddsNothing(cfg, t, truth, now);
    } else if t.proc.pc != Idle {
      if t.proc.pc == AtSettle { DriveSettleCall(cfg, t, truth, now); } else { DriveCancelCall(cfg, t, truth, now); }
      Associate(m.trace, [PaymentAnswered(truth.payment.status)], calls);
    }
  }

  /** Both nodes are asked first. */
  lemma FlightIsLookedUp(cfg: Config, m: Machine, truth: Truth, now: int) returns (t: Machine)
    requires m.proc == IDLE && m.order.state == OutgoingInFlight && truth.invoice != HoldCancelled
    ensures Recovered(cfg, m, truth, now) == Drive(cfg, t, truth, now)
    ensures t.proc.pc == WaitPaymentState && !t.proc.tail && t.order == m.order
    ensures t.trace == m.trace + [Issued(InvoiceState(m.order.incoming.network, m.order.paymentHash), OutgoingInFlight),
                                  Issued(PaymentState(m.order.outgoing.network, m.order.paymentHash), OutgoingInFlight)]
  {
    TaskRuns(cfg, m, ReconcileTask, now);
    var m1 := Step(cfg, Step(cfg, m, Recover), Advance(now));
    DriveOnce(cfg, m1, truth, now);
    var m2 := Next(cfg, m1, truth, now);
    assert m2.proc.pc == AtTail && m2.order == m.order && m2.trace == m1.trace;
    DriveOnce(cfg, m2, truth, now);
    t := Next(cfg, m2, truth, now);
  }

  /** Recovery of an order in flight, to the last call: whatever its node says of the hold, unless that it is cancelled, the
      other node is asked about the payment, and its answer decides alone. */
  lemma RecoveryOfFlightAsks(cfg: Config, m: Machine, truth: Truth, now: int)
    requires m.proc == IDLE && LegsAgree(cfg, m.order) && m.order.state == OutgoingInFlight && truth.invoice != HoldCancelled
    ensures Recovered(cfg, m, truth, now).trace ==
              m.trace + ([Issued(InvoiceState(m.order.incoming.network, m.order.paymentHash), OutgoingInFlight),
                          Issued(PaymentState(m.order.outgoing.network, m.order.paymentHash), OutgoingInFlight)] +
                         ([PaymentAnswered(truth.payment.status)] + PaymentCalls(cfg, m.order, truth.payment, now)))
  {
    var t := FlightIsLookedUp(cfg, m, truth, now);
    PaymentLeadsTo(cfg, t, truth, now);
    Associate(m.trace, t.trace[|m.trace|..], [PaymentAnswered(truth.payment.status)] + PaymentCalls(cfg, m.order, truth.payment, now));
  }

  /** A failure found by the lookup refunds the order for the node's reason, where it gave one. */
  lemma FoundFailureIsNamed(cfg: Config, m: Machine, payment: PaymentResult, now: int)
    requires m.proc.pc == WaitPaymentState && m.order.state == OutgoingInFlight && payment.status == PayFailed
    ensures var t := Step(cfg, m, Resolve(PaymentIs(payment), now));
            && t.order.state == Refunding && t.order.failure.Some?
            && FailureOf(Given(payment.failureReason), t.order.failure.value)
            && t.proc.pc == AtRefundCancel(t.order.failure.value)
  {
    FailuresAreNamed(Given(payment.failureReason));
  }

  /** Something is paid in what `t` adds to the trace of `m`. */
  ghost predicate PaysSince(m: Machine, t: Machine) {
    exists i :: |m.trace| <= i < |t.trace| && IsPay(t.trace[i])
  }

  /** Rule R4 at recovery: an order in flight is paid again exactly when its node says that it has no payment. */
  lemma RecoveryRepaysExactly(cfg: Config, m: Machine, truth: Truth, now: int)
    requires m.proc == IDLE && LegsAgree(cfg, m.order) && m.order.state == OutgoingInFlight && truth.invoice != HoldCancelled
    ensures PaysSince(m, Recovered(cfg, m, truth, now)) <==> truth.payment.status == NoPayment
  {
    RecoveryOfFlightAsks(cfg, m, truth, now);
    var t := Recovered(cfg, m, truth, now);
    if truth.payment.status == NoPayment { assert IsPay(t.trace[|m.trace| + 3]); }
  }

  /** The hold of an order still PENDING is found when recovery looks it up: exactly then the order is paid, if its expiry is
      far enough away. */
  lemma RecoveryPaysFoundHold(cfg: Config, m: Machine, truth: Truth, now: int)
    requires m.proc == IDLE && LegsAgree(cfg, m.order) && m.order.state == Pending && m.order.incoming.invoice != ""
    requires now + cfg.minSafetyDeltaMs < m.order.incoming.tlcExpiryAt
    ensures PaysSince(m, Recovered(cfg, m, truth, now)) <==> truth.invoice == HoldHeld
    ensures truth.invoice != HoldHeld ==>
              Recovered(cfg, m, truth, now).order.state == if truth.invoice == HoldCancelled then Failed else Pending
  {
    var t := HoldIsLookedUp(cfg, m, now);
    DriveOnce(cfg, t, truth, now);
    if truth.invoice == HoldHeld {
      FoundHoldIsPaid(cfg, Next(cfg, t, truth, now), truth, now);
    } else {
      UnheldIsLeft(cfg, t, truth, now);
    }
  }

  lemma HoldIsLookedUp(cfg: Config, m: Machine, now: int) returns (t: Machine)
    requires m.proc == IDLE && m.order.state == Pending && m.order.incoming.invoice != ""
    ensures t == Step(cfg, Step(cfg, m, Recover), Advance(now))
    ensures t.proc.pc == WaitInvoiceState(Pending) && !t.proc.tail && t.order == m.order
    ensures t.trace == m.trace + [Issued(InvoiceState(m.order.incoming.network, m.order.paymentHash), Pending)]
  {
    TaskRuns(cfg, m, ReconcileTask, now);
    t := Step(cfg, Step(cfg, m, Recover), Advance(now));
  }

  /** Without a hold, recovery of a pending order asks nothing more. */
  lemma UnheldIsLeft(cfg: Config, m: Machine, truth: Truth, now: int)
    requires m.proc.pc == WaitInvoiceState(Pending) && !m.proc.tail && m.order.state == Pending && truth.invoice != HoldHeld
    ensures var t := Drive(cfg, m, truth, now);
            t.trace == m.trace && t.order.state == if truth.invoice == HoldCancelled then Failed else Pending
  {
    DriveOnce(cfg, m, truth, now);
    var t := Next(cfg, m, truth, now);
    if truth.invoice != HoldCancelled {
      DriveOnce(cfg, t, truth, now);
      assert Next(cfg, t, truth, now).proc.pc == Idle && Next(cfg, t, truth, now).trace == m.trace;
    }
  }

  lemma FoundHoldIsPaid(cfg: Config, m: Machine, truth: Truth, now: int)
    requires m.proc.pc == AtDispatch && m.order.state == IncomingHeld && m.order.outgoing.status == Waiting
    requires now + cfg.minSafetyDeltaMs < m.order.incoming.tlcExpiryAt
    ensures |m.trace| < |Drive(cfg, m, truth, now).trace| && IsPay(Drive(cfg, m, truth, now).trace[|m.trace|])
  {
    DriveOnce(cfg, m, truth, now);
    var m1 := Next(cfg, m, truth, now);
    DriveOnce(cfg, m1, truth, now);
    var m2 := Next(cfg, m1, truth, now);
    DriveExtends(cfg, m2, truth, now);
    assert IsPay(m2.trace[|m.trace|]);
  }
}
