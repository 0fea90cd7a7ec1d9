/** What holds of the record and the trail of one order in every run since its creation whose log forgets nothing: the
    legs agree with the state, the trail climbs, the sweep refunds nothing too early, and refunds and collections
    exclude each other unless a cancellation was overtaken. */
module MachineHistory {
  import opened Basics
  import opened Orders
  import opened OrderMachine
  import opened MachineSteps
  import opened MachineSafety

  // ----- The legs agree with the state -----

  predicate LegsAgree(cfg: Config, o: Order) {
    var incoming, outgoing := o.incoming.status, o.outgoing.status;
    && (o.failure.Some? <==> o.state == Refunding || o.state == Failed)
    && (o.incoming.preimage.Some? <==> o.state == Succeeded)
    && (o.outgoing.preimage.Some? <==> outgoing == Settled)
    && (outgoing == Settled ==> o.outgoing.preimage.value != "" && Matches(cfg, o.outgoing.preimage.value, o.paymentHash))
    && match o.state
       case Pending => incoming == Waiting && outgoing == Waiting
       case IncomingHeld => incoming == Held && outgoing == Waiting
       case OutgoingInFlight => incoming == Held && outgoing == InFlight
       case OutgoingSettled => incoming == Held && outgoing == Settled
       case Succeeded => incoming == Settled && outgoing == Settled && o.incoming.preimage == o.outgoing.preimage
       case Refunding => incoming == Held && (outgoing == Waiting || outgoing == LegFailed)
       case Failed => incoming == Cancelled && outgoing != Held && outgoing != Cancelled
  }

  lemma EditKeepsLegs(cfg: Config, o: Order, e: Edit)
    requires LegsAgree(cfg, o) && Allowed(cfg, o, e)
    ensures LegsAgree(cfg, Apply(o, e))
    ensures o.failure.Some? ==> Apply(o, e).failure == o.failure
  {
  }

  // ----- The trail -----

  predicate InvoiceRow(row: OrderEvent) {
    row.detail == Some(HoldInvoiceIssued)
  }

  function InvoiceRows(trail: seq<OrderEvent>): nat {
    if trail == [] then 0
    else InvoiceRows(trail[..|trail| - 1]) + if InvoiceRow(trail[|trail| - 1]) then 1 else 0
  }

  /** Row i follows the row before it: the issued invoice keeps the state, everything else takes an edge. */
  predicate RowFollows(trail: seq<OrderEvent>, i: int)
    requires 0 < i < |trail|
  {
    && trail[i].fromState == Some(trail[i - 1].toState)
    && if InvoiceRow(trail[i]) then trail[i].toState == trail[i - 1].toState
       else Edge(trail[i - 1].toState, trail[i].toState)
  }

  /** A trail of order `id` from its creation up to state `s`. */
  ghost predicate Climbs(trail: seq<OrderEvent>, id: OrderId, s: OrderState) {
    && trail != [] && trail[0].fromState == None && trail[0].toState == Pending && !InvoiceRow(trail[0])
    && trail[|trail| - 1].toState == s
    && (forall i :: 0 <= i < |trail| ==> trail[i].orderId == id)
    && (forall i :: 0 < i < |trail| ==> RowFollows(trail, i))
    && |trail| <= 1 + InvoiceRows(trail) + Rank(s)
  }

  lemma ClimbsOn(trail: seq<OrderEvent>, id: OrderId, s: OrderState, row: OrderEvent)
    requires Climbs(trail, id, s) && row.orderId == id && row.fromState == Some(s)
    requires if InvoiceRow(row) then row.toState == s else Edge(s, row.toState)
    ensures Climbs(trail + [row], id, row.toState)
    ensures InvoiceRows(trail + [row]) == InvoiceRows(trail) + if InvoiceRow(row) then 1 else 0
  {
    var t := trail + [row];
    assert t[..|t| - 1] == trail;
    forall i | 0 < i < |t| ensures RowFollows(t, i) {
      if i < |trail| { assert RowFollows(trail, i); }
    }
  }

  ghost predicate TrailOk(m: Machine) {
    && Climbs(m.trail, m.order.orderId, m.order.state)
    && InvoiceRows(m.trail) <= (if m.proc.creation == NotCreating then 1 else 0)
  }

  lemma EditKeepsTrail(cfg: Config, m: Machine, e: Edit, t: Machine)
    requires TrailOk(m) && Edited(m, e, t) && Allowed(cfg, m.order, e)
    requires e.IssueInvoice? || m.proc.creation == NotCreating ==> t.proc.creation == NotCreating
    requires e.IssueInvoice? ==> m.proc.creation != NotCreating
    ensures TrailOk(t)
  {
    EditKeepsTerms(cfg, m.order, e);
    if e != NoEdit {
      ClimbsOn(m.trail, m.order.orderId, m.order.state, Event(m.order.state, Apply(m.order, e), Label(e)));
    }
  }

  lemma StepKeepsTrail(cfg: Config, m: Machine, a: Action)
    requires TrailOk(m) && PcOk(cfg, m)
    ensures TrailOk(Step(cfg, m, a))
  {
    StepEdits(cfg, m, a);
    EditAllowed(cfg, m, a);
    EditKeepsTrail(cfg, m, EditOf(cfg, m, a), Step(cfg, m, a));
  }

  // ----- Everything that holds since creation -----

  ghost predicate Lawful(cfg: Config, m: Machine) {
    Safe(cfg, m) && LegsAgree(cfg, m.order) && TrailOk(m)
  }

  lemma StepLawful(cfg: Config, m: Machine, a: Action)
    requires Lawful(cfg, m)
    ensures Lawful(cfg, Step(cfg, m, a))
    ensures SameTerms(m.order, Step(cfg, m, a).order)
    ensures m.order.failure.Some? ==> Step(cfg, m, a).order.failure == m.order.failure
    ensures m.trail <= Step(cfg, m, a).trail
    ensures Later(m.order.state, Step(cfg, m, a).order.state)
  {
    StepSafe(cfg, m, a);
    StepOrderly(cfg, m, a);
    StepEdits(cfg, m, a);
    StepEditsOrder(cfg, m, a);
    EditKeepsLegs(cfg, m.order, EditOf(cfg, m, a));
    StepKeepsTrail(cfg, m, a);
  }

  lemma {:induction false} StepsLawful(cfg: Config, m: Machine, actions: seq<Action>)
    requires Lawful(cfg, m)
    ensures Lawful(cfg, Steps(cfg, m, actions))
    ensures SameTerms(m.order, Steps(cfg, m, actions).order)
    ensures m.order.failure.Some? ==> Steps(cfg, m, actions).order.failure == m.order.failure
    ensures m.trail <= Steps(cfg, m, actions).trail
    ensures Later(m.order.state, Steps(cfg, m, actions).order.state)
    decreases |actions|
  {
    if actions != [] {
      var t := Step(cfg, m, actions[0]);
      StepLawful(cfg, m, actions[0]);
      StepsLawful(cfg, t, actions[1..]);
      EdgesCompose(m.order.state, t.order.state, Steps(cfg, m, actions).order.state);
    }
  }

  // ----- Main results on the record and its trail -----

  lemma CreatedLawful(cfg: Config, p: CreateOrderParams, now: int)
    ensures Lawful(cfg, Created(p, now))
  {
    assert Created(p, now).trail[..0] == [];
  }

  /** In every run since creation, the state fixes the leg statuses, success means one verified preimage on
      both legs, failure means a cancelled hold, and the reason is there exactly when it should be. */
  lemma RecordsStayConsistent(cfg: Config, p: CreateOrderParams, now: int, actions: seq<Action>)
    ensures var o := Steps(cfg, Created(p, now), actions).order;
            LegsAgree(cfg, o) && SameTerms(NewOrder(p, now), o)
  {
    CreatedLawful(cfg, p, now);
    StepsLawful(cfg, Created(p, now), actions);
  }

  /** A terminal state is kept for ever, and so is the reason of a failure or refund once given. */
  lemma OutcomesAreFinal(cfg: Config, p: CreateOrderParams, now: int, before: seq<Action>, after: seq<Action>)
    ensures var m := Steps(cfg, Created(p, now), before);
            var t := Steps(cfg, m, after);
            && (Terminal(m.order.state) ==> t.order.state == m.order.state)
            && (m.order.failure.Some? ==> t.order.failure == m.order.failure)
            && m.trail <= t.trail
  {
    CreatedLawful(cfg, p, now);
    StepsLawful(cfg, Created(p, now), before);
    StepsLawful(cfg, Steps(cfg, Created(p, now), before), after);
  }

  lemma {:induction false} ClimbsBetween(trail: seq<OrderEvent>, id: OrderId, s: OrderState, i: nat, j: nat)
    requires Climbs(trail, id, s) && i < j < |trail|
    ensures Later(trail[i].toState, trail[j].toState)
    ensures trail[i].toState == trail[j].toState ==> forall k :: i < k <= j ==> InvoiceRow(trail[k])
    decreases j
  {
    assert RowFollows(trail, j);
    if i < j - 1 {
      ClimbsBetween(trail, id, s, i, j - 1);
      EdgesCompose(trail[i].toState, trail[j - 1].toState, trail[j].toState);
    }
  }

  /** Trails climb: every row takes an edge upwards except the one that records the issued invoice, there is at
      most one of those, and an order never writes more than six records. */
  lemma TrailsClimb(cfg: Config, p: CreateOrderParams, now: int, actions: seq<Action>, i: nat, j: nat)
    requires i < j < |Steps(cfg, Created(p, now), actions).trail|
    ensures var m := Steps(cfg, Created(p, now), actions);
            && |m.trail| <= 6 && InvoiceRows(m.trail) <= 1 && RowFollows(m.trail, j)
            && Later(m.trail[i].toState, m.trail[j].toState)
            && (m.trail[i].toState == m.trail[j].toState ==> forall k :: i < k <= j ==> InvoiceRow(m.trail[k]))
            && (m.trail[j].toState == Refunding && m.trail[j - 1].toState != Refunding ==>
                  m.trail[j - 1].toState == IncomingHeld || m.trail[j - 1].toState == OutgoingInFlight)
  {
    CreatedLawful(cfg, p, now);
    StepsLawful(cfg, Created(p, now), actions);
    var m := Steps(cfg, Created(p, now), actions);
    assert RowFollows(m.trail, j);
    ClimbsBetween(m.trail, m.order.orderId, m.order.state, i, j);
  }

  lemma {:induction false} HeldIsOnRecord(trail: seq<OrderEvent>, id: OrderId, s: OrderState, i: nat)
    requires Climbs(trail, id, s) && i < |trail| && trail[i].toState == OutgoingInFlight
    ensures exists k :: 0 <= k < i && trail[k].toState == IncomingHeld
    decreases i
  {
    assert i > 0;
    assert RowFollows(trail, i);
    if trail[i - 1].toState == OutgoingInFlight {
      HeldIsOnRecord(trail, id, s, i - 1);
    }
  }

  lemma StepPaysInFlight(cfg: Config, m: Machine, a: Action, j: nat)
    requires PcOk(cfg, m)
    requires |m.trace| <= j < |Step(cfg, m, a).trace| && IsPay(Step(cfg, m, a).trace[j])
    ensures m.order.state == OutgoingInFlight
  {
    StepEdits(cfg, m, a);
    EmitsOk(cfg, m, a);
    var i := j - |m.trace|;
    assert Emits(cfg, m, a)[i] == Step(cfg, m, a).trace[j] && EmittedOk(cfg, m, Emits(cfg, m, a), i);
  }

  /** Rule R2: nothing is paid before INCOMING_HELD is on record. */
  lemma NoPayBeforeHeld(cfg: Config, p: CreateOrderParams, now: int, actions: seq<Action>, a: Action, j: nat)
    requires var m := Steps(cfg, Created(p, now), actions);
             |m.trace| <= j < |Step(cfg, m, a).trace| && IsPay(Step(cfg, m, a).trace[j])
    ensures exists k :: 0 <= k < |Steps(cfg, Created(p, now), actions).trail| &&
              Steps(cfg, Created(p, now), actions).trail[k].toState == IncomingHeld
  {
    CreatedLawful(cfg, p, now);
    StepsLawful(cfg, Created(p, now), actions);
    var m := Steps(cfg, Created(p, now), actions);
    StepPaysInFlight(cfg, m, a, j);
    HeldIsOnRecord(m.trail, m.order.orderId, m.order.state, |m.trail| - 1);
  }

  // ----- The serial queue -----

  function AllAccepted(cfg: Config, m: Machine, actions: seq<Action>): seq<Task>
    decreases |actions|
  {
    if actions == [] then []
    else Accepted(cfg, m, actions[0]) + AllAccepted(cfg, Step(cfg, m, actions[0]), actions[1..])
  }

  function AllStarted(cfg: Config, m: Machine, actions: seq<Action>): seq<Task>
    decreases |actions|
  {
    if actions == [] then []
    else Started(m, actions[0]) + AllStarted(cfg, Step(cfg, m, actions[0]), actions[1..])
  }

  lemma Telescope<T>(q0: seq<T>, in0: seq<T>, out0: seq<T>, q1: seq<T>, in1: seq<T>, out1: seq<T>, q2: seq<T>)
    requires q0 + in0 == out0 + q1 && q1 + in1 == out1 + q2
    ensures q0 + (in0 + in1) == (out0 + out1) + q2
  {
    assert q0 + (in0 + in1) == (q0 + in0) + in1;
    assert (out0 + q1) + in1 == out0 + (q1 + in1);
  }

  /** The tasks of an order start one at a time, in the order they were enqueued, whether or not the ones
      before them were rejected; none is lost or run twice while the process lives. */
  lemma {:induction false} TasksRunInOrder(cfg: Config, m: Machine, actions: seq<Action>)
    requires Crash !in actions
    ensures m.proc.queue + AllAccepted(cfg, m, actions)
         == AllStarted(cfg, m, actions) + Steps(cfg, m, actions).proc.queue
    decreases |actions|
  {
    if actions != [] {
      var t := Step(cfg, m, actions[0]);
      StepQueue(cfg, m, actions[0]);
      TasksRunInOrder(cfg, t, actions[1..]);
      Telescope(m.proc.queue, Accepted(cfg, m, actions[0]), Started(m, actions[0]), t.proc.queue,
                AllAccepted(cfg, t, actions[1..]), AllStarted(cfg, t, actions[1..]), Steps(cfg, t, actions[1..]).proc.queue);
    }
  }

  // ----- Timelocks -----

  /** The clock after a step. Steps that read no clock leave it where it was, and so does queueing a sweep with a
      reading taken earlier: a pass over several orders reads the clock once and awaits each sweep in turn. */
  function Reading(a: Action, clock: int): int {
    match a
    case Sweep(now) => if now <= clock then clock else now
    case Advance(now) => now
    case Resolve(_, now) => now
    case ResolveCreate(_, now) => now
    case _ => clock
  }

  predicate Monotone(clock: int, actions: seq<Action>)
    decreases |actions|
  {
    actions == [] || (clock <= Reading(actions[0], clock) && Monotone(Reading(actions[0], clock), actions[1..]))
  }

  /** Everything happens in one process, at one reading of the clock. */
  predicate AllAt(actions: seq<Action>, at: int) {
    forall i :: 0 <= i < |actions| ==> actions[i] != Crash && Reading(actions[i], at) == at
  }

  ghost predicate Reaches(cfg: Config, m: Machine, t: Machine, at: int) {
    exists actions :: AllAt(actions, at) && Steps(cfg, m, actions) == t
  }

  lemma ReachesItself(cfg: Config, m: Machine, at: int)
    ensures Reaches(cfg, m, m, at)
  {
    assert AllAt([], at) && Steps(cfg, m, []) == m;
  }

  lemma ReachesOn(cfg: Config, m: Machine, t: Machine, at: int, a: Action)
    requires Reaches(cfg, m, t, at) && a != Crash && Reading(a, at) == at
    ensures Reaches(cfg, m, Step(cfg, t, a), at)
  {
    var actions :| AllAt(actions, at) && Steps(cfg, m, actions) == t;
    StepsLast(cfg, m, actions, a);
    assert AllAt(actions + [a], at);
  }

  predicate SweepRefund(row: OrderEvent) {
    row.fromState == Some(OutgoingInFlight) && row.detail == Some(RefundingFor(ExpiryInvariantViolation))
  }

  predicate SweepInTime(cfg: Config, o: Order, clock: int, task: Task) {
    task.SweepTask? ==> task.sweepNow <= clock && task.sweepNow + cfg.minSafetyDeltaMs >= o.incoming.tlcExpiryAt
  }

  ghost predicate OnTime(cfg: Config, m: Machine, clock: int) {
    && m.order.incoming.tlcExpiryAt >= m.order.outgoing.tlcExpiryAt + cfg.minSafetyDeltaMs
    && (forall i :: 0 <= i < |m.proc.queue| ==> SweepInTime(cfg, m.order, clock, m.proc.queue[i]))
    && (forall i :: 0 <= i < |m.trail| && SweepRefund(m.trail[i]) ==> m.trail[i].at >= m.order.outgoing.tlcExpiryAt)
  }

  lemma QueueOnTime(cfg: Config, m: Machine, a: Action, clock: int, t: Machine)
    requires OnTime(cfg, m, clock) && clock <= Reading(a, clock) && a != Crash
    requires m.proc.queue + Accepted(cfg, m, a) == Started(m, a) + t.proc.queue && SameTerms(m.order, t.order)
    ensures forall i :: 0 <= i < |t.proc.queue| ==> SweepInTime(cfg, t.order, Reading(a, clock), t.proc.queue[i])
  {
    var q := m.proc.queue + Accepted(cfg, m, a);
    forall i | 0 <= i < |t.proc.queue| ensures SweepInTime(cfg, t.order, Reading(a, clock), t.proc.queue[i]) {
      assert t.proc.queue[i] == q[i + |Started(m, a)|];
    }
  }

  predicate SweepStarts(m: Machine, a: Action) {
    a.Advance? && m.proc.pc == Idle && m.proc.queue != [] && m.proc.queue[0].SweepTask?
  }

  /** Only a sweep refunds a dispatched order for its expiry. */
  lemma OnlySweepsRefund(cfg: Config, m: Machine, a: Action)
    requires PcOk(cfg, m) && m.order.state == OutgoingInFlight
    ensures var e := EditOf(cfg, m, a);
            e.RefundAs? && e.why.code == ExpiryInvariantViolation ==> SweepStarts(m, a) && e.now == a.now
  {
  }

  lemma StepOnTime(cfg: Config, m: Machine, a: Action, clock: int)
    requires Guarded(cfg, m) && OnTime(cfg, m, clock) && clock <= Reading(a, clock)
    ensures OnTime(cfg, Step(cfg, m, a), Reading(a, clock))
  {
    StepEdits(cfg, m, a);
    StepEditsOrder(cfg, m, a);
    if m.order.state == OutgoingInFlight { OnlySweepsRefund(cfg, m, a); }
    if a != Crash {
      StepQueue(cfg, m, a);
      QueueOnTime(cfg, m, a, clock, Step(cfg, m, a));
    }
    if SweepStarts(m, a) { assert SweepInTime(cfg, m.order, clock, m.proc.queue[0]); }
  }

  lemma {:induction false} StepsOnTime(cfg: Config, m: Machine, actions: seq<Action>, clock: int)
    requires Safe(cfg, m) && OnTime(cfg, m, clock) && Monotone(clock, actions)
    ensures exists end :: OnTime(cfg, Steps(cfg, m, actions), end)
    decreases |actions|
  {
    if actions == [] {
      assert OnTime(cfg, Steps(cfg, m, actions), clock);
    } else {
      StepSafe(cfg, m, actions[0]);
      StepOnTime(cfg, m, actions[0], clock);
      StepsOnTime(cfg, Step(cfg, m, actions[0]), actions[1..], Reading(actions[0], clock));
      assert Steps(cfg, m, actions) == Steps(cfg, Step(cfg, m, actions[0]), actions[1..]);
    }
  }

  /** No timelock window: under a clock that never runs backwards, the sweep never refunds a dispatched order
      before its outgoing expiry, and no payment is sent with a limit beyond that expiry. The other ways to lose the
      hold of a dispatched order are told apart in `HoldGivenUpExactly`. */
  lemma NoTimelockWindow(cfg: Config, p: CreateOrderParams, now: int, actions: seq<Action>)
    requires ExpiryGuard(cfg, p) && Monotone(now, actions)
    ensures var m := Steps(cfg, Created(p, now), actions);
            && (forall i :: 0 <= i < |m.trail| && SweepRefund(m.trail[i]) ==> m.trail[i].at >= p.outgoing.tlcExpiryAt)
            && (forall j :: 0 <= j < |m.trace| && IsPay(m.trace[j]) ==>
                  m.trace[j].call.readAt + m.trace[j].call.tlcExpiryLimitMs == p.outgoing.tlcExpiryAt)
  {
    CreatedLawful(cfg, p, now);
    StepsOnTime(cfg, Created(p, now), actions, now);
    StepsSafe(cfg, Created(p, now), actions);
  }

  /** The inequality R3 asks for before a dispatch. A first dispatch always meets it, from any record. */
  lemma FirstDispatchInWindow(cfg: Config, o: Order, trail: seq<OrderEvent>, actions: seq<Action>, j: nat)
    requires j < |Steps(cfg, Restarted(o, trail), actions).trace|
    requires IsPay(Steps(cfg, Restarted(o, trail), actions).trace[j])
    requires forall k :: 0 <= k < j ==> Steps(cfg, Restarted(o, trail), actions).trace[k] != PaymentAnswered(NoPayment)
    ensures InWindow(cfg, o, Steps(cfg, Restarted(o, trail), actions).trace[j].call.readAt)
  {
    StepsSafe(cfg, Restarted(o, trail), actions);
    var trace := Steps(cfg, Restarted(o, trail), actions).trace;
    assert !JustAbsent(trace[..j]);
  }

  ghost predicate PaysInWindow(cfg: Config, m: Machine) {
    forall j :: 0 <= j < |m.trace| && IsPay(m.trace[j]) ==> InWindow(cfg, m.order, m.trace[j].call.readAt)
  }

  /** The second dispatch, right after the answer "none", has no such check; here it comes too late. */
  predicate LateRedispatch(cfg: Config, m: Machine, a: Action) {
    && Redispatch(m, a)
    && a.now + cfg.minSafetyDeltaMs >= m.order.incoming.tlcExpiryAt
  }

  predicate NoLateRedispatch(cfg: Config, m: Machine, actions: seq<Action>)
    decreases |actions|
  {
    actions == [] ||
    (!LateRedispatch(cfg, m, actions[0]) && NoLateRedispatch(cfg, Step(cfg, m, actions[0]), actions[1..]))
  }

  /** What a step adds to the trace: a pay only from a first dispatch or after the answer "none". */
  ghost predicate AddsPays(m: Machine, a: Action, redispatch: bool, trace: seq<Obs>) {
    && m.trace <= trace
    && (forall j :: |m.trace| <= j < |trace| && IsPay(trace[j]) ==>
          (m.proc.pc.AtPay? && trace[j].call.readAt == m.proc.pc.readAt) ||
          (redispatch && a.Resolve? && trace[j].call.readAt == a.now))
    && (redispatch ==> a.Resolve? && exists j :: |m.trace| <= j < |trace| && IsPay(trace[j]))
  }

  predicate Redispatch(m: Machine, a: Action) {
    && a.Resolve? && a.answer.PaymentIs? && a.answer.payment.status == NoPayment
    && m.proc.pc == WaitPaymentState && m.order.state == OutgoingInFlight
  }

  lemma StepAddsPays(cfg: Config, m: Machine, a: Action)
    ensures AddsPays(m, a, Redispatch(m, a), Step(cfg, m, a).trace)
  {
    StepEdits(cfg, m, a);
    var es := Emits(cfg, m, a);
    assert forall j :: |m.trace| <= j < |m.trace + es| ==> (m.trace + es)[j] == es[j - |m.trace|];
    if Redispatch(m, a) {
      assert IsPay((m.trace + es)[|m.trace| + 1]);
    }
  }

  lemma AddedPays(cfg: Config, m: Machine, a: Action, t: Machine)
    requires PcOk(cfg, m) && SameTerms(m.order, t.order) && AddsPays(m, a, Redispatch(m, a), t.trace)
    requires m.proc.pc.AtPay? ==> !Redispatch(m, a)
    ensures PaysInWindow(cfg, t) <==> PaysInWindow(cfg, m) && !LateRedispatch(cfg, m, a)
  {
    assert forall j :: 0 <= j < |m.trace| ==> t.trace[j] == m.trace[j];
  }

  lemma StepPays(cfg: Config, m: Machine, a: Action)
    requires Safe(cfg, m)
    ensures PaysInWindow(cfg, Step(cfg, m, a)) <==> PaysInWindow(cfg, m) && !LateRedispatch(cfg, m, a)
  {
    StepSafe(cfg, m, a);
    StepAddsPays(cfg, m, a);
    AddedPays(cfg, m, a, Step(cfg, m, a));
  }

  /** Section 6 asks for the inequality before every dispatch. A run keeps it exactly when no answer "none"
      arrives after the incoming expiry has come within the safety delta. */
  lemma {:induction false} WindowKeptExactly(cfg: Config, m: Machine, actions: seq<Action>)
    requires Safe(cfg, m)
    ensures PaysInWindow(cfg, Steps(cfg, m, actions)) <==> PaysInWindow(cfg, m) && NoLateRedispatch(cfg, m, actions)
    decreases |actions|
  {
    if actions != [] {
      StepSafe(cfg, m, actions[0]);
      StepPays(cfg, m, actions[0]);
      WindowKeptExactly(cfg, Step(cfg, m, actions[0]), actions[1..]);
    }
  }

  // ----- Refund and collection exclude each other -----

  ghost predicate ReachedSettled(trail: seq<OrderEvent>) {
    exists i :: 0 <= i < |trail| && trail[i].toState == OutgoingSettled
  }

  predicate HasCancel(trace: seq<Obs>) {
    exists i :: 0 <= i < |trace| && trace[i].Issued? && trace[i].call.Cancel?
  }

  /** The hub has paid out and yet gave its claim on the incoming leg away. */
  ghost predicate GaveAway(m: Machine) {
    ReachedSettled(m.trail) && HasCancel(m.trace)
  }

  /** A queued cancellation starts in a state its guard would have refused: the order was dispatched meanwhile. */
  predicate Overtaken(m: Machine, a: Action) {
    CancelStarts(m, a) && IsDispatched(m.order.state)
  }

  /** The outgoing payment may be under way, or has been made. */
  predicate IsDispatched(s: OrderState) {
    s == OutgoingInFlight || s == OutgoingSettled
  }

  predicate CancelStarts(m: Machine, a: Action) {
    a.Advance? && m.proc.pc == Idle && m.proc.queue != [] && m.proc.queue[0] == CancelTask
  }

  /** ... and was even paid. */
  predicate OvertakenByPayment(m: Machine, a: Action) {
    Overtaken(m, a) && m.order.state == OutgoingSettled
  }

  predicate NeverOvertakenByPayment(cfg: Config, m: Machine, actions: seq<Action>)
    decreases |actions|
  {
    actions == [] ||
    (!OvertakenByPayment(m, actions[0]) && NeverOvertakenByPayment(cfg, Step(cfg, m, actions[0]), actions[1..]))
  }

  ghost predicate Exclusive(m: Machine) {
    ReachedSettled(m.trail) ==>
      && !HasCancel(m.trace) && m.proc.pc != AtFailCancel
      && (m.order.state == OutgoingSettled || Terminal(m.order.state))
  }

  lemma EmitsCancel(cfg: Config, m: Machine, a: Action)
    requires PcOk(cfg, m)
    ensures forall i :: 0 <= i < |Emits(cfg, m, a)| && Emits(cfg, m, a)[i].Issued? && Emits(cfg, m, a)[i].call.Cancel? ==>
              m.order.state == Refunding || m.proc.pc == AtFailCancel
  {
  }

  lemma StepCancels(cfg: Config, m: Machine, a: Action)
    requires PcOk(cfg, m)
    ensures HasCancel(Step(cfg, m, a).trace) ==>
              HasCancel(m.trace) || m.order.state == Refunding || m.proc.pc == AtFailCancel
  {
    var t := Step(cfg, m, a);
    StepEdits(cfg, m, a);
    EmitsCancel(cfg, m, a);
    if i :| 0 <= i < |t.trace| && t.trace[i].Issued? && t.trace[i].call.Cancel? {
      if i < |m.trace| {
        assert m.trace[i] == t.trace[i];
      } else {
        assert t.trace[i] == Emits(cfg, m, a)[i - |m.trace|];
      }
    }
  }

  /** A failure with a cancel comes from a cancellation, or before anything was dispatched. */
  lemma CancellingFailure(cfg: Config, m: Machine, a: Action)
    requires PcOk(cfg, m) && EditOf(cfg, m, a).FailAs? && EditOf(cfg, m, a).cancels
    ensures m.order.state == Pending || CancelStarts(m, a)
  {
  }

  lemma CancelledState(cfg: Config, m: Machine)
    requires CallsOk(cfg, m.order, m.trace) && Orderly(m) && HasCancel(m.trace)
    ensures m.order.state == Refunding || m.order.state == Failed
  {
    var i :| 0 <= i < |m.trace| && m.trace[i].Issued? && m.trace[i].call.Cancel?;
    assert CallOk(cfg, m.order, m.trace[i].call, m.trace[i].persisted);
  }

  lemma ExclusiveKept(cfg: Config, m: Machine, e: Edit, t: Machine)
    requires Exclusive(m) && Edited(m, e, t) && Allowed(cfg, m.order, e)
    requires HasCancel(m.trace) ==> m.order.state == Refunding || m.order.state == Failed
    requires m.trail != [] && m.trail[|m.trail| - 1].toState == m.order.state
    requires m.order.state != OutgoingSettled || !(e.FailAs? && e.cancels)
    requires HasCancel(t.trace) ==> HasCancel(m.trace) || m.order.state == Refunding || m.proc.pc == AtFailCancel
    requires m.proc.pc == AtFailCancel ==> m.order.state == Failed
    requires t.proc.pc == AtFailCancel ==> (e.FailAs? && e.cancels) || m.proc.pc == AtFailCancel
    ensures Exclusive(t)
  {
    if i :| 0 <= i < |t.trail| && t.trail[i].toState == OutgoingSettled {
      if i < |m.trail| {
        assert m.trail[i] == t.trail[i] && ReachedSettled(m.trail);
      }
    }
  }

  lemma StepExclusive(cfg: Config, m: Machine, a: Action)
    requires Lawful(cfg, m) && Exclusive(m) && !OvertakenByPayment(m, a)
    ensures Exclusive(Step(cfg, m, a))
  {
    var e := EditOf(cfg, m, a);
    StepEdits(cfg, m, a);
    StepEditsOrder(cfg, m, a);
    StepPc(cfg, m, a);
    StepCancels(cfg, m, a);
    if e.FailAs? && e.cancels { CancellingFailure(cfg, m, a); }
    if HasCancel(m.trace) { CancelledState(cfg, m); }
    ExclusiveKept(cfg, m, e, Step(cfg, m, a));
  }

  /** No order that was paid out has its incoming hold cancelled by the engine, in any run in which no
      cancellation is overtaken by the payment. */
  lemma {:induction false} ExclusiveUnlessOvertaken(cfg: Config, m: Machine, actions: seq<Action>)
    requires Lawful(cfg, m) && Exclusive(m) && NeverOvertakenByPayment(cfg, m, actions)
    ensures Exclusive(Steps(cfg, m, actions)) && !GaveAway(Steps(cfg, m, actions))
    decreases |actions|
  {
    if actions != [] {
      StepLawful(cfg, m, actions[0]);
      StepExclusive(cfg, m, actions[0]);
      ExclusiveUnlessOvertaken(cfg, Step(cfg, m, actions[0]), actions[1..]);
    }
  }

  /** And a queued cancellation that comes up does give the claim away exactly when the payment overtook it. */
  lemma CancellationGivesAwayExactly(cfg: Config, m: Machine, now: int)
    requires Lawful(cfg, m) && Exclusive(m)
    requires m.proc.pc == Idle && m.proc.queue != [] && m.proc.queue[0] == CancelTask
    ensures GaveAway(Step(cfg, Step(cfg, m, Advance(now)), Advance(now))) <==> m.order.state == OutgoingSettled
  {
    var t := Step(cfg, m, Advance(now));
    var u := Step(cfg, t, Advance(now));
    StepEdits(cfg, m, Advance(now));
    StepEdits(cfg, t, Advance(now));
    StepPc(cfg, m, Advance(now));
    if m.order.state == OutgoingSettled {
      assert m.trail[|m.trail| - 1].toState == OutgoingSettled;
      assert u.trail[|m.trail| - 1] == m.trail[|m.trail| - 1];
      assert u.trace[|m.trace|].call.Cancel?;
    } else {
      StepExclusive(cfg, m, Advance(now));
      StepLawful(cfg, m, Advance(now));
      StepExclusive(cfg, t, Advance(now));
    }
  }

  // ----- A dispatched order is never abandoned, but for cancellations -----

  /** The record written by this step makes the cancel of the hold the task's next call. */
  predicate GivesUpHold(cfg: Config, m: Machine, a: Action) {
    var e := EditOf(cfg, m, a);
    e.RefundAs? || (e.FailAs? && e.cancels)
  }

  /** The node, or an event, says that the outgoing payment failed. */
  predicate ReportsFailure(m: Machine, a: Action) {
    || (a.Advance? && m.proc.pc == Idle && m.proc.queue != [] &&
        m.proc.queue[0].HandleTask? && m.proc.queue[0].event.kind == EvOutgoingFailed)
    || (a.Resolve? && m.proc.pc == WaitPaymentState && a.answer.PaymentIs? && a.answer.payment.status == PayFailed)
  }

  /** The hold of a dispatched order is given up for three reasons and no other: the payment is reported as failed
      while in flight, a sweep starts while it is in flight, or a cancellation was overtaken. */
  lemma HoldGivenUpExactly(cfg: Config, m: Machine, a: Action)
    requires PcOk(cfg, m) && IsDispatched(m.order.state)
    ensures GivesUpHold(cfg, m, a) <==>
              || (m.order.state == OutgoingInFlight && (ReportsFailure(m, a) || SweepStarts(m, a)))
              || Overtaken(m, a)
    ensures GivesUpHold(cfg, m, a) ==>
              var t := Step(cfg, m, a);
              (t.proc.pc.AtRefundCancel? || t.proc.pc == AtFailCancel) && (t.order.state == Refunding || t.order.state == Failed)
  {
    StepPc(cfg, m, a);
    StepEdits(cfg, m, a);
  }

  /** A dispatched order is abandoned: its hold is given up before the outgoing expiry, and nobody said that the
      payment failed. */
  predicate Abandons(cfg: Config, m: Machine, a: Action) {
    && IsDispatched(m.order.state) && GivesUpHold(cfg, m, a) && !ReportsFailure(m, a)
    && EditOf(cfg, m, a).now < m.order.outgoing.tlcExpiryAt
  }

  predicate OvertakenEarly(m: Machine, a: Action) {
    Overtaken(m, a) && a.now < m.order.outgoing.tlcExpiryAt
  }

  predicate AbandonedIn(cfg: Config, m: Machine, actions: seq<Action>)
    decreases |actions|
  {
    actions != [] && (Abandons(cfg, m, actions[0]) || AbandonedIn(cfg, Step(cfg, m, actions[0]), actions[1..]))
  }

  predicate OvertakenEarlyIn(cfg: Config, m: Machine, actions: seq<Action>)
    decreases |actions|
  {
    actions != [] && (OvertakenEarly(m, actions[0]) || OvertakenEarlyIn(cfg, Step(cfg, m, actions[0]), actions[1..]))
  }

  lemma StepAbandons(cfg: Config, m: Machine, a: Action, clock: int)
    requires PcOk(cfg, m) && OnTime(cfg, m, clock) && clock <= Reading(a, clock)
    ensures Abandons(cfg, m, a) <==> OvertakenEarly(m, a)
  {
    if IsDispatched(m.order.state) {
      HoldGivenUpExactly(cfg, m, a);
      if SweepStarts(m, a) { assert SweepInTime(cfg, m.order, clock, m.proc.queue[0]); }
    }
  }

  /** On a monotone clock a run abandons the order after its dispatch if and only if one of its cancellations starts,
      before the outgoing expiry, in a state in which it would not have been accepted: dispatched or paid. */
  lemma {:induction false} AbandonedExactly(cfg: Config, m: Machine, actions: seq<Action>, clock: int)
    requires Guarded(cfg, m) && OnTime(cfg, m, clock) && Monotone(clock, actions)
    ensures AbandonedIn(cfg, m, actions) <==> OvertakenEarlyIn(cfg, m, actions)
    decreases |actions|
  {
    if actions != [] {
      StepAbandons(cfg, m, actions[0], clock);
      StepGuarded(cfg, m, actions[0]);
      StepOnTime(cfg, m, actions[0], clock);
      AbandonedExactly(cfg, Step(cfg, m, actions[0]), actions[1..], Reading(actions[0], clock));
    }
  }

  /** The same since creation. */
  lemma CreatedAbandonedExactly(cfg: Config, p: CreateOrderParams, now: int, actions: seq<Action>)
    requires ExpiryGuard(cfg, p) && Monotone(now, actions)
    ensures AbandonedIn(cfg, Created(p, now), actions) <==> OvertakenEarlyIn(cfg, Created(p, now), actions)
  {
    CreatedLawful(cfg, p, now);
    AbandonedExactly(cfg, Created(p, now), actions, now);
  }
}
