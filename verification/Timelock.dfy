/** Planning the two legs of a swap, the expiry guard, and the conversions at the ports between
    milliseconds and Lightning blocks. Amounts and instants are integers; block arrivals are reals. */
module Timelock {
  import opened Basics
  import opened Orders
  import opened OrderMachine
  import opened MachineSteps
  import opened MachineSafety
  import opened MachineHistory

  const OUTGOING_MS_PER_BLOCK := 600_000
  const INCOMING_MS_PER_BLOCK := 300_000
  const HOUR := 3_600_000
  const FIBER_OUTGOING_DELTA_MS := 18 * HOUR
  const ROUTE_BUDGET_BLOCKS := 40

  datatype Side = Incoming | Outgoing

  datatype PlanError = NoLegExpiry | InvoiceUnreadable | DecodingFailed | NetworkMismatch | NoPaymentHash | UnsupportedPair

  // ----- Expiries and the guard -----

  /** Wall-clock milliseconds (Fiber) and blocks from now (Lightning); the former wins if both are given. */
  datatype LegExpiryInput = LegExpiryInput(tlcExpiryAt: Option<int>, blocksFromNow: Option<int>)

  function MsPerBlock(side: Side): int {
    if side == Incoming then INCOMING_MS_PER_BLOCK else OUTGOING_MS_PER_BLOCK
  }

  function NormalizeLegExpiry(leg: LegExpiryInput, side: Side, now: int): Result<int, PlanError> {
    if leg.tlcExpiryAt.Some? then Ok(leg.tlcExpiryAt.value)
    else if leg.blocksFromNow.Some? then Ok(now + leg.blocksFromNow.value * MsPerBlock(side))
    else Err(NoLegExpiry)
  }

  function ExpiryInvariantHolds(incoming: LegExpiryInput, outgoing: LegExpiryInput, delta: int, now: int): Result<bool, PlanError> {
    var inMs := NormalizeLegExpiry(incoming, Incoming, now);
    if inMs.Err? then Err(inMs.error) else
    var outMs := NormalizeLegExpiry(outgoing, Outgoing, now);
    if outMs.Err? then Err(outMs.error) else Ok(inMs.value >= outMs.value + delta)
  }

  // ----- What the expiries mean: blocks that really arrive -----

  /** A chain is the sequence of waits between its coming blocks. */
  type Chain = seq<real>

  predicate Plausible(chain: Chain) {
    forall i :: 0 <= i < |chain| ==> 300000.0 <= chain[i] <= 600000.0
  }

  /** How long the next `n` blocks take. */
  function Elapsed(chain: Chain, n: nat): real
    requires n <= |chain|
  {
    if n == 0 then 0.0 else Elapsed(chain, n - 1) + chain[n - 1]
  }

  lemma {:induction false} ElapsedBounds(chain: Chain, n: nat)
    requires n <= |chain| && Plausible(chain)
    ensures n as real * 300000.0 <= Elapsed(chain, n) <= n as real * 600000.0
  {
    if n > 0 {
      ElapsedBounds(chain, n - 1);
    }
  }

  function Steady(wait: real, n: nat): (chain: Chain)
    ensures |chain| == n && forall i :: 0 <= i < n ==> chain[i] == wait
  {
    seq(n, _ => wait)
  }

  lemma {:induction false} SteadyElapsed(wait: real, k: nat, n: nat)
    requires n <= k
    ensures Elapsed(Steady(wait, k), n) == n as real * wait
  {
    if n > 0 {
      SteadyElapsed(wait, k, n - 1);
      assert n as real * wait == (n - 1) as real * wait + wait;
    }
  }

  /** When a leg really times out: at its wall-clock expiry, or when its last block arrives. */
  predicate Describes(leg: LegExpiryInput, chain: Chain) {
    leg.tlcExpiryAt.Some? ||
    (leg.blocksFromNow.Some? && leg.blocksFromNow.value == |chain| && Plausible(chain))
  }

  function TimesOutAt(leg: LegExpiryInput, now: int, chain: Chain): real
    requires Describes(leg, chain)
  {
    if leg.tlcExpiryAt.Some? then leg.tlcExpiryAt.value as real else now as real + Elapsed(chain, |chain|)
  }

  predicate GapAtLeast(incoming: LegExpiryInput, outgoing: LegExpiryInput, delta: int, now: int, inChain: Chain, outChain: Chain)
    requires Describes(incoming, inChain) && Describes(outgoing, outChain)
  {
    TimesOutAt(incoming, now, inChain) >= TimesOutAt(outgoing, now, outChain) + delta as real
  }

  ghost predicate AlwaysGap(incoming: LegExpiryInput, outgoing: LegExpiryInput, delta: int, now: int) {
    forall inChain: Chain, outChain: Chain :: Describes(incoming, inChain) && Describes(outgoing, outChain) ==>
      GapAtLeast(incoming, outgoing, delta, now, inChain, outChain)
  }

  /** The conversions err to the safe side, and by no more than a chain could really do. */
  lemma NormalizedBounds(leg: LegExpiryInput, now: int, chain: Chain)
    requires Describes(leg, chain)
    ensures NormalizeLegExpiry(leg, Incoming, now).Ok? && NormalizeLegExpiry(leg, Outgoing, now).Ok?
    ensures NormalizeLegExpiry(leg, Incoming, now).value as real <= TimesOutAt(leg, now, chain)
    ensures TimesOutAt(leg, now, chain) <= NormalizeLegExpiry(leg, Outgoing, now).value as real
  {
    if leg.tlcExpiryAt.None? {
      ElapsedBounds(chain, |chain|);
      assert (|chain| * 300000) as real == |chain| as real * 300000.0;
      assert (|chain| * 600000) as real == |chain| as real * 600000.0;
    }
  }

  /** The chain on which the conversion of a side is exact. */
  function Extreme(leg: LegExpiryInput, side: Side): (chain: Chain)
    requires leg.blocksFromNow.Some? ==> leg.blocksFromNow.value >= 0
  {
    Steady(MsPerBlock(side) as real, if leg.blocksFromNow.Some? then leg.blocksFromNow.value else 0)
  }

  lemma ExtremeIsExact(leg: LegExpiryInput, side: Side, now: int)
    requires leg.tlcExpiryAt.Some? || leg.blocksFromNow.Some?
    requires leg.blocksFromNow.Some? ==> leg.blocksFromNow.value >= 0
    ensures Describes(leg, Extreme(leg, side)) && NormalizeLegExpiry(leg, side, now).Ok?
    ensures NormalizeLegExpiry(leg, side, now).value as real == TimesOutAt(leg, now, Extreme(leg, side))
  {
    if leg.tlcExpiryAt.None? {
      var n := leg.blocksFromNow.value;
      SteadyElapsed(MsPerBlock(side) as real, n, n);
      assert (n * MsPerBlock(side)) as real == n as real * MsPerBlock(side) as real;
    }
  }

  /** Section 6: the guard answers yes exactly when the incoming leg outlives the outgoing one by the delta
      whatever the chains do, and it fails with an error exactly when a leg has no expiry at all. */
  lemma GuardIsExact(incoming: LegExpiryInput, outgoing: LegExpiryInput, delta: int, now: int)
    requires incoming.blocksFromNow.Some? ==> incoming.blocksFromNow.value >= 0
    requires outgoing.blocksFromNow.Some? ==> outgoing.blocksFromNow.value >= 0
    ensures ExpiryInvariantHolds(incoming, outgoing, delta, now).Ok? <==>
              (incoming.tlcExpiryAt.Some? || incoming.blocksFromNow.Some?) &&
              (outgoing.tlcExpiryAt.Some? || outgoing.blocksFromNow.Some?)
    ensures ExpiryInvariantHolds(incoming, outgoing, delta, now).Ok? ==>
              (ExpiryInvariantHolds(incoming, outgoing, delta, now).value <==> AlwaysGap(incoming, outgoing, delta, now))
  {
    var guard := ExpiryInvariantHolds(incoming, outgoing, delta, now);
    if guard.Ok? {
      if guard.value {
        forall inChain: Chain, outChain: Chain | Describes(incoming, inChain) && Describes(outgoing, outChain)
          ensures GapAtLeast(incoming, outgoing, delta, now, inChain, outChain)
        {
          NormalizedBounds(incoming, now, inChain);
          NormalizedBounds(outgoing, now, outChain);
        }
      } else {
        ExtremeIsExact(incoming, Incoming, now);
        ExtremeIsExact(outgoing, Outgoing, now);
        assert !GapAtLeast(incoming, outgoing, delta, now, Extreme(incoming, Incoming), Extreme(outgoing, Outgoing));
      }
    }
  }

  /** The engine asks the guard about legs that are already in wall-clock time, whatever the clock says. */
  lemma EngineAsksTheGuard(cfg: Config, p: CreateOrderParams, now: int)
    ensures ExpiryInvariantHolds(LegExpiryInput(Some(p.incoming.tlcExpiryAt), None),
                                 LegExpiryInput(Some(p.outgoing.tlcExpiryAt), None), cfg.minSafetyDeltaMs, now)
            == Ok(ExpiryGuard(cfg, p))
  {
  }

  // ----- The ports: whole blocks -----

  function Floor(a: int, b: int): int
    requires b > 0
  {
    a / b
  }

  function Ceil(a: int, b: int): int
    requires b > 0
  {
    -((-a) / b)
  }

  /** The CLTV delta of a hold invoice. */
  function HoldBlocks(tlcExpiryDeltaMs: int): int {
    Ceil(tlcExpiryDeltaMs, INCOMING_MS_PER_BLOCK)
  }

  /** The CLTV limit of a payment. */
  function PayBlocks(tlcExpiryLimitMs: int): int {
    Floor(tlcExpiryLimitMs, OUTGOING_MS_PER_BLOCK)
  }

  /** The two roundings: the fewest blocks that surely cover a hold, the most that surely fit a limit. */
  lemma RoundingsAreTight(ms: int, blocks: int)
    ensures HoldBlocks(ms) <= blocks <==> ms <= blocks * INCOMING_MS_PER_BLOCK
    ensures blocks <= PayBlocks(ms) <==> blocks * OUTGOING_MS_PER_BLOCK <= ms
    ensures HoldBlocks(blocks * INCOMING_MS_PER_BLOCK) == blocks == PayBlocks(blocks * OUTGOING_MS_PER_BLOCK)
  {
  }

  // ----- Planning -----

  /** What the planner sees of the target invoice and of the Lightning node's decoding of it. */
  datatype InvoiceInfo = InvoiceInfo(network: Network, paymentHash: Option<string>)

  datatype PlanRequest = PlanRequest(give: Network, get: Network, targetInvoice: string, giveAmount: int, getAmount: int,
                                     now: int, minSafetyDeltaMs: int)

  datatype LegPlan = LegPlan(direction: Direction, paymentHash: Hash, incoming: LegParams, outgoing: LegParams)

  function Max(a: int, b: int): int {
    if a >= b then a else b
  }

  /** `info` is what the invoice reads as, or nothing if it does not parse; `cltvExpiry` is what the
      Lightning node decodes, or nothing if that call throws. */
  function PlanLegs(q: PlanRequest, info: Option<InvoiceInfo>, cltvExpiry: Option<int>): Result<LegPlan, PlanError> {
    if info.None? then Err(InvoiceUnreadable)
    else if info.value.network != q.get then Err(NetworkMismatch)
    else if Given(info.value.paymentHash).None? then Err(NoPaymentHash)
    else
      var hash := "0x" + info.value.paymentHash.value;
      if q.give == Fiber && q.get == Lightning then
        if cltvExpiry.None? then Err(DecodingFailed) else
        var outgoingDeltaMs := (cltvExpiry.value + ROUTE_BUDGET_BLOCKS) * OUTGOING_MS_PER_BLOCK;
        var incomingDeltaMs := Max(16 * HOUR + HOUR, outgoingDeltaMs + q.minSafetyDeltaMs + 2 * HOUR);
        Ok(LegPlan(FiberToLn, hash,
                   LegParams(Fiber, "", q.giveAmount, q.now + incomingDeltaMs),
                   LegParams(Lightning, q.targetInvoice, q.getAmount, q.now + outgoingDeltaMs)))
      else if q.give == Lightning && q.get == Fiber then
        var incomingBlocks := Ceil(FIBER_OUTGOING_DELTA_MS + q.minSafetyDeltaMs + 2 * HOUR, 300_000);
        var incomingDeltaMs := incomingBlocks * INCOMING_MS_PER_BLOCK;
        Ok(LegPlan(LnToFiber, hash,
                   LegParams(Lightning, "", q.getAmount, q.now + incomingDeltaMs),
                   LegParams(Fiber, q.targetInvoice, q.giveAmount, q.now + FIBER_OUTGOING_DELTA_MS)))
      else Err(UnsupportedPair)
  }

  /** A plan exists for the two mixed pairs only, each leg lies on its own side's network, and whatever the
      invoice's CLTV and the safety delta are, the guard at creation passes with two hours to spare. */
  lemma PlansHaveSlack(q: PlanRequest, info: Option<InvoiceInfo>, cltvExpiry: Option<int>, plan: LegPlan)
    requires PlanLegs(q, info, cltvExpiry) == Ok(plan)
    ensures plan.incoming.network == q.give && plan.outgoing.network == q.get && q.give != q.get
    ensures plan.outgoing.invoice == q.targetInvoice
    ensures plan.incoming.tlcExpiryAt >= plan.outgoing.tlcExpiryAt + q.minSafetyDeltaMs + 2 * HOUR
    ensures q.give == Lightning ==>
              plan.incoming.tlcExpiryAt < plan.outgoing.tlcExpiryAt + q.minSafetyDeltaMs + 2 * HOUR + INCOMING_MS_PER_BLOCK
    ensures q.give == Fiber ==> plan.incoming.tlcExpiryAt - q.now >= 17 * HOUR
  {
  }

  /** When planning succeeds: every refusal has its own cause. */
  lemma PlansExist(q: PlanRequest, info: Option<InvoiceInfo>, cltvExpiry: Option<int>)
    ensures PlanLegs(q, info, cltvExpiry).Ok? <==>
              && info.Some? && info.value.network == q.get && q.give != q.get
              && info.value.paymentHash.Some? && info.value.paymentHash.value != ""
              && (q.give == Fiber ==> cltvExpiry.Some?)
  {
  }

  /** A plan in numbers: towards Lightning the payment may take the invoice's CLTV and forty blocks of ten minutes each, and
      the hold lasts seventeen hours, or the payment's time with the delta and two hours where that is more; towards Fiber the
      payment may take eighteen hours, and the hold is asked for in whole blocks of five minutes. */
  lemma PlansInNumbers(q: PlanRequest, info: Option<InvoiceInfo>, cltvExpiry: Option<int>, plan: LegPlan)
    requires PlanLegs(q, info, cltvExpiry) == Ok(plan)
    ensures info.Some? && info.value.paymentHash.Some? && plan.paymentHash == "0x" + info.value.paymentHash.value
    ensures plan.incoming.invoice == ""
    ensures q.give == Fiber ==>
              && plan.direction == FiberToLn && cltvExpiry.Some?
              && plan.outgoing.tlcExpiryAt == q.now + (cltvExpiry.value + 40) * 600_000
              && (var lasts := plan.incoming.tlcExpiryAt - q.now;
                  var needed := plan.outgoing.tlcExpiryAt - q.now + q.minSafetyDeltaMs + 7_200_000;
                  lasts >= 61_200_000 && lasts >= needed && (lasts == 61_200_000 || lasts == needed))
    ensures q.give == Lightning ==>
              && plan.direction == LnToFiber && plan.outgoing.tlcExpiryAt == q.now + 64_800_000
              && (plan.incoming.tlcExpiryAt - q.now) % 300_000 == 0
  {
  }

  /** Why there is no plan. */
  lemma PlansRefuse(q: PlanRequest, info: Option<InvoiceInfo>, cltvExpiry: Option<int>)
    ensures var r := PlanLegs(q, info, cltvExpiry);
            var there := info.Some? && info.value.network == q.get;
            var hashed := there && info.value.paymentHash.Some? && info.value.paymentHash.value != "";
            && (r == Err(InvoiceUnreadable) <==> info.None?)
            && (r == Err(NetworkMismatch) <==> info.Some? && !there)
            && (r == Err(NoPaymentHash) <==> there && !hashed)
            && (r == Err(UnsupportedPair) <==> hashed && q.give == q.get)
            && (r == Err(DecodingFailed) <==> hashed && q.give == Fiber && q.get == Lightning && cltvExpiry.None?)
  {
  }

  /** Redeeming a quote passes the plan on unchanged. */
  lemma OrdersFollowThePlan(orderId: OrderId, quoteId: string, plan: LegPlan)
    ensures var p := OrderOf(orderId, quoteId, plan);
            && p.orderId == orderId && p.quoteId == quoteId && p.direction == plan.direction && p.paymentHash == plan.paymentHash
            && p.incoming == plan.incoming && p.outgoing == plan.outgoing
  {
  }

  /** The hub receives what the client gives and sends what the client gets exactly when the swap goes from
      Fiber to Lightning, or the two amounts are the same: the other direction plans them the other way round. */
  lemma AmountsAreQuotedExactly(q: PlanRequest, info: Option<InvoiceInfo>, cltvExpiry: Option<int>, plan: LegPlan)
    requires PlanLegs(q, info, cltvExpiry) == Ok(plan)
    ensures plan.incoming.amount == q.giveAmount && plan.outgoing.amount == q.getAmount <==>
              q.give == Fiber || q.giveAmount == q.getAmount
    ensures q.give == Lightning ==> plan.incoming.amount == q.getAmount && plan.outgoing.amount == q.giveAmount
  {
  }

  /** Redeeming a quote hands the plan to the engine as it is. */
  function OrderOf(orderId: OrderId, quoteId: string, plan: LegPlan): CreateOrderParams {
    CreateOrderParams(orderId, quoteId, plan.direction, plan.paymentHash, plan.incoming, plan.outgoing)
  }

  // ----- From the plan to the nodes -----

  /** The length a created order's hold is asked for is that between its creation and the incoming expiry. */
  ghost predicate HoldsLast(m: Machine, deltaMs: int) {
    && (m.proc.creation.AtCreate? ==> m.proc.creation.tlcExpiryDeltaMs == deltaMs)
    && forall i :: 0 <= i < |m.trace| && m.trace[i].Issued? && m.trace[i].call.CreateHoldInvoice? ==>
         m.trace[i].call.tlcExpiryDeltaMs == deltaMs
  }

  lemma EmitsHold(cfg: Config, m: Machine, a: Action, deltaMs: int)
    requires m.proc.creation.AtCreate? ==> m.proc.creation.tlcExpiryDeltaMs == deltaMs
    ensures forall i :: 0 <= i < |Emits(cfg, m, a)| && Emits(cfg, m, a)[i].Issued? && Emits(cfg, m, a)[i].call.CreateHoldInvoice? ==>
              Emits(cfg, m, a)[i].call.tlcExpiryDeltaMs == deltaMs
  {
  }

  lemma StepHoldsLast(cfg: Config, m: Machine, a: Action, deltaMs: int)
    requires HoldsLast(m, deltaMs)
    ensures HoldsLast(Step(cfg, m, a), deltaMs)
  {
    var t, es := Step(cfg, m, a), Emits(cfg, m, a);
    StepEdits(cfg, m, a);
    EmitsHold(cfg, m, a, deltaMs);
    forall i | 0 <= i < |t.trace| && t.trace[i].Issued? && t.trace[i].call.CreateHoldInvoice?
      ensures t.trace[i].call.tlcExpiryDeltaMs == deltaMs
    {
      assert t.trace[i] == if i < |m.trace| then m.trace[i] else es[i - |m.trace|];
    }
  }

  lemma {:induction false} StepsHoldLast(cfg: Config, m: Machine, actions: seq<Action>, deltaMs: int)
    requires HoldsLast(m, deltaMs)
    ensures HoldsLast(Steps(cfg, m, actions), deltaMs)
    decreases |actions|
  {
    if actions != [] {
      StepHoldsLast(cfg, m, actions[0], deltaMs);
      StepsHoldLast(cfg, Step(cfg, m, actions[0]), actions[1..], deltaMs);
    }
  }

  /** When the node lets go of an incoming HTLC that arrived at `heldAt` against a hold invoice. */
  function HoldReleasedAt(call: Call, heldAt: real, chain: Chain): real
    requires call.CreateHoldInvoice?
    requires call.network == Lightning && HoldBlocks(call.tlcExpiryDeltaMs) >= 0 ==> |chain| == HoldBlocks(call.tlcExpiryDeltaMs)
  {
    if call.network == Fiber then heldAt + call.tlcExpiryDeltaMs as real
    else if HoldBlocks(call.tlcExpiryDeltaMs) < 0 then heldAt
    else heldAt + Elapsed(chain, |chain|)
  }

  /** When the outgoing HTLC of a payment that reached the node at `sentAt` times out at the latest. */
  function PayTimesOutAt(call: Call, sentAt: real, chain: Chain): real
    requires call.Pay? && call.tlcExpiryLimitMs >= 0
    requires call.network == Lightning ==> |chain| == PayBlocks(call.tlcExpiryLimitMs)
  {
    if call.network == Fiber then sentAt + call.tlcExpiryLimitMs as real else sentAt + Elapsed(chain, |chain|)
  }

  lemma HoldOutlivesItsDelta(call: Call, heldAt: real, chain: Chain)
    requires call.CreateHoldInvoice? && Plausible(chain)
    requires call.network == Lightning && HoldBlocks(call.tlcExpiryDeltaMs) >= 0 ==> |chain| == HoldBlocks(call.tlcExpiryDeltaMs)
    ensures HoldReleasedAt(call, heldAt, chain) >= heldAt + call.tlcExpiryDeltaMs as real
  {
    if call.network == Lightning {
      var n := HoldBlocks(call.tlcExpiryDeltaMs);
      RoundingsAreTight(call.tlcExpiryDeltaMs, n);
      if n >= 0 {
        ElapsedBounds(chain, n);
        assert (n * 300000) as real == n as real * 300000.0;
      }
    }
  }

  lemma PaymentKeepsItsLimit(call: Call, sentAt: real, chain: Chain)
    requires call.Pay? && call.tlcExpiryLimitMs >= 0 && Plausible(chain)
    requires call.network == Lightning ==> |chain| == PayBlocks(call.tlcExpiryLimitMs)
    ensures PayTimesOutAt(call, sentAt, chain) <= sentAt + call.tlcExpiryLimitMs as real
  {
    if call.network == Lightning {
      var n := PayBlocks(call.tlcExpiryLimitMs);
      RoundingsAreTight(call.tlcExpiryLimitMs, n);
      ElapsedBounds(chain, n);
      assert (n * 600000) as real == n as real * 600000.0;
    }
  }

  lemma GapBetween(cfg: Config, o: Order, hold: Obs, pay: Obs, heldAt: real, sentAt: real, inChain: Chain, outChain: Chain)
    requires hold.Issued? && hold.call.CreateHoldInvoice? && IsPay(pay) && pay.call.tlcExpiryLimitMs >= 0
    requires CallOk(cfg, o, hold.call, hold.persisted) && CallOk(cfg, o, pay.call, pay.persisted)
    requires Plausible(inChain) && Plausible(outChain)
    requires hold.call.network == Lightning && HoldBlocks(hold.call.tlcExpiryDeltaMs) >= 0 ==>
               |inChain| == HoldBlocks(hold.call.tlcExpiryDeltaMs)
    requires pay.call.network == Lightning ==> |outChain| == PayBlocks(pay.call.tlcExpiryLimitMs)
    ensures hold.call.network == o.incoming.network && pay.call.network == o.outgoing.network
    ensures HoldReleasedAt(hold.call, heldAt, inChain) >= heldAt + hold.call.tlcExpiryDeltaMs as real
    ensures PayTimesOutAt(pay.call, sentAt, outChain) <= sentAt + (o.outgoing.tlcExpiryAt - pay.call.readAt) as real
  {
    HoldOutlivesItsDelta(hold.call, heldAt, inChain);
    PaymentKeepsItsLimit(pay.call, sentAt, outChain);
  }

  /** A run shows a hold invoice at `i` and at `j` a payment with a limit still to run; the chains are long
      enough to time both out. */
  predicate Observed(trace: seq<Obs>, i: nat, j: nat, inChain: Chain, outChain: Chain) {
    && i < |trace| && trace[i].Issued? && trace[i].call.CreateHoldInvoice?
    && j < |trace| && IsPay(trace[j]) && trace[j].call.tlcExpiryLimitMs >= 0
    && Plausible(inChain) && Plausible(outChain)
    && (trace[i].call.network == Lightning && HoldBlocks(trace[i].call.tlcExpiryDeltaMs) >= 0 ==>
          |inChain| == HoldBlocks(trace[i].call.tlcExpiryDeltaMs))
    && (trace[j].call.network == Lightning ==> |outChain| == PayBlocks(trace[j].call.tlcExpiryLimitMs))
  }

  /** The incoming HTLC, arrived at `heldAt`, is held at least `gap` longer than the outgoing one, sent at `sentAt`. */
  predicate HeldLonger(trace: seq<Obs>, i: nat, j: nat, heldAt: real, sentAt: real, inChain: Chain, outChain: Chain, gap: real)
    requires Observed(trace, i, j, inChain, outChain)
  {
    HoldReleasedAt(trace[i].call, heldAt, inChain) >= PayTimesOutAt(trace[j].call, sentAt, outChain) + gap
  }

  /** From the guard to the nodes, over every run of a created order: the HTLC that pays the hold invoice,
      whenever it arrives, is held past the time-out of every payment sent with a limit still to run, by the
      distance of the two expiries less what passed between reading the clock and reaching the node,
      whatever the chains do. */
  lemma NoWindowAtTheNodes(cfg: Config, p: CreateOrderParams, createdAt: int, actions: seq<Action>, i: nat, j: nat,
                           heldAt: real, sentAt: real, inChain: Chain, outChain: Chain)
    requires Observed(Steps(cfg, Created(p, createdAt), actions).trace, i, j, inChain, outChain)
    requires heldAt >= createdAt as real
    ensures var trace := Steps(cfg, Created(p, createdAt), actions).trace;
            HeldLonger(trace, i, j, heldAt, sentAt, inChain, outChain,
                       (p.incoming.tlcExpiryAt - p.outgoing.tlcExpiryAt) as real - (sentAt - trace[j].call.readAt as real))
  {
    CreatedLawful(cfg, p, createdAt);
    StepsSafe(cfg, Created(p, createdAt), actions);
    StepsHoldLast(cfg, Created(p, createdAt), actions, p.incoming.tlcExpiryAt - createdAt);
    var m := Steps(cfg, Created(p, createdAt), actions);
    GapBetween(cfg, m.order, m.trace[i], m.trace[j], heldAt, sentAt, inChain, outChain);
  }

  /** End to end: an order created from a plan passes the engine's guard with two hours to spare, and in all its
      runs those two hours and the safety delta are there at the nodes. */
  lemma PlannedSwapsHaveNoWindow(cfg: Config, q: PlanRequest, info: Option<InvoiceInfo>, cltvExpiry: Option<int>,
                                 orderId: OrderId, quoteId: string, createdAt: int, actions: seq<Action>, i: nat, j: nat,
                                 heldAt: real, sentAt: real, inChain: Chain, outChain: Chain)
    requires q.minSafetyDeltaMs == cfg.minSafetyDeltaMs && PlanLegs(q, info, cltvExpiry).Ok?
    requires var p := OrderOf(orderId, quoteId, PlanLegs(q, info, cltvExpiry).value);
             Observed(Steps(cfg, Created(p, createdAt), actions).trace, i, j, inChain, outChain)
    requires heldAt >= createdAt as real
    ensures var p := OrderOf(orderId, quoteId, PlanLegs(q, info, cltvExpiry).value);
            var trace := Steps(cfg, Created(p, createdAt), actions).trace;
            && ExpiryGuard(cfg, p)
            && HeldLonger(trace, i, j, heldAt, sentAt, inChain, outChain,
                          (cfg.minSafetyDeltaMs + 2 * HOUR) as real - (sentAt - trace[j].call.readAt as real))
  {
    var plan := PlanLegs(q, info, cltvExpiry).value;
    PlansHaveSlack(q, info, cltvExpiry, plan);
    NoWindowAtTheNodes(cfg, OrderOf(orderId, quoteId, plan), createdAt, actions, i, j, heldAt, sentAt, inChain, outChain);
  }
}
