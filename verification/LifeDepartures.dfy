/** Lives in which a forgotten record breaks what the protocol promises. OrderLife proves when this happens; the lives
    here show that it does, to every order, on a file of its own: its processes die in the middle of an append, and
    the next record is lost behind the fragment. */
module LifeDepartures {
  import opened Basics
  import opened Orders
  import opened OrderMachine
  import opened OrderLog
  import opened OrderDisk
  import opened MachineSteps
  import opened MachineSafety
  import opened MachineHistory
  import opened OrderLife

  /** No other order takes part. */
  predicate Alone(turn: Turn) {
    turn.Own? || turn.OwnCut? || turn == OtherCut(Nothing)
  }

  predicate AllAlone(turns: seq<Turn>) {
    forall i :: 0 <= i < |turns| ==> Alone(turns[i])
  }

  ghost predicate Lives(cfg: Config, f: Life, g: Life) {
    exists turns: seq<Turn> :: AllAlone(turns) && LifeRun(cfg, f, turns) == g
  }

  lemma LivesItself(cfg: Config, f: Life)
    ensures Lives(cfg, f, f)
  {
    assert AllAlone([]) && LifeRun(cfg, f, []) == f;
  }

  lemma LivesOn(cfg: Config, f: Life, g: Life, turn: Turn)
    requires Lives(cfg, f, g) && Alone(turn)
    ensures Lives(cfg, f, LifeStep(cfg, g, turn))
  {
    var turns: seq<Turn> :| AllAlone(turns) && LifeRun(cfg, f, turns) == g;
    var more := turns + [turn];
    assert more[..|more| - 1] == turns;
    assert LifeRun(cfg, f, more) == LifeStep(cfg, g, turn);
  }

  // ----- The turns these lives are made of -----

  /** A step that writes nothing. */
  lemma Quietly(cfg: Config, f: Life, g: Life, a: Action) returns (h: Life)
    requires Lives(cfg, f, g) && g.m.Some? && a != Crash && EditOf(cfg, g.m.value, a) == NoEdit
    ensures Lives(cfg, f, h) && h == Life(Some(Step(cfg, g.m.value, a)), g.disk)
  {
    LivesOn(cfg, f, g, Own(a));
    h := LifeStep(cfg, g, Own(a));
  }

  /** A run of the machine that writes nothing. */
  lemma {:induction false} QuietRun(cfg: Config, f: Life, g: Life, actions: seq<Action>, at: int) returns (h: Life)
    requires Lives(cfg, f, g) && g.m.Some? && AllAt(actions, at)
    requires Steps(cfg, g.m.value, actions).trail == g.m.value.trail
    ensures Lives(cfg, f, h) && h == Life(Some(Steps(cfg, g.m.value, actions)), g.disk)
    decreases |actions|
  {
    if actions == [] {
      h := g;
    } else {
      var m, a := g.m.value, actions[0];
      var t := Step(cfg, m, a);
      StepEdits(cfg, m, a);
      TrailsGrow(cfg, t, actions[1..]);
      assert Steps(cfg, m, actions) == Steps(cfg, t, actions[1..]);
      assert |t.trail| <= |m.trail|;
      h := Quietly(cfg, f, g, a);
      h := QuietRun(cfg, f, h, actions[1..], at);
    }
  }

  lemma {:induction false} TrailsGrow(cfg: Config, m: Machine, actions: seq<Action>)
    ensures m.trail <= Steps(cfg, m, actions).trail
    decreases |actions|
  {
    if actions != [] {
      StepEdits(cfg, m, actions[0]);
      TrailsGrow(cfg, Step(cfg, m, actions[0]), actions[1..]);
    }
  }

  /** A step whose record is kept. */
  lemma Recording(cfg: Config, f: Life, g: Life, a: Action) returns (h: Life)
    requires Lives(cfg, f, g) && g.m.Some? && a != Crash && EditOf(cfg, g.m.value, a) != NoEdit && g.disk.tail == Clean
    ensures var m := g.m.value;
            Lives(cfg, f, h) && h == Life(Some(Step(cfg, m, a)), Disk(g.disk.lines + [EditLine(m.order, EditOf(cfg, m, a))], Clean))
    ensures Intact(g) ==> Intact(h)
  {
    LivesOn(cfg, f, g, Own(a));
    h := LifeStep(cfg, g, Own(a));
    if Intact(g) { RecordIsKeptExactly(cfg, g, a); }
  }

  /** A death in the middle of the append: the record is lost, and leaves a fragment. */
  lemma CutShort(cfg: Config, f: Life, g: Life, a: Action) returns (h: Life)
    requires Lives(cfg, f, g) && g.m.Some? && EditOf(cfg, g.m.value, a) != NoEdit && g.disk.tail == Clean && Intact(g)
    ensures Lives(cfg, f, h) && h == Life(Some(g.m.value.(proc := IDLE)), Disk(g.disk.lines, Torn)) && Intact(h)
  {
    LivesOn(cfg, f, g, OwnCut(a, Part));
    h := LifeStep(cfg, g, OwnCut(a, Part));
    CutShortIsCrash(cfg, g);
  }

  lemma CutShortIsCrash(cfg: Config, g: Life)
    requires g.m.Some? && g.disk.tail == Clean && Intact(g)
    ensures var t := Life(g.m, Disk(g.disk.lines, Torn));
            Reread(t) == Life(Some(g.m.value.(proc := IDLE)), t.disk) && Intact(Reread(t))
  {
    var t := Life(g.m, Disk(g.disk.lines, Torn));
    assert g.disk.lines + [] == g.disk.lines;
    DeathIsCrashExactly(cfg, t);
    assert Step(cfg, g.m.value, Crash) == g.m.value.(proc := IDLE);
  }

  /** A death before the newline: the record is read, for now. */
  lemma CutBeforeNewline(cfg: Config, f: Life, g: Life, a: Action) returns (h: Life)
    requires Lives(cfg, f, g) && g.m.Some? && EditOf(cfg, g.m.value, a) != NoEdit && g.disk.tail == Clean
    ensures var l := EditLine(g.m.value.order, EditOf(cfg, g.m.value, a));
            && Lives(cfg, f, h) && h.disk == Disk(g.disk.lines, Whole(l)) && h.m.Some?
            && h.m.value.order == l.order && h.m.value.proc == IDLE && h.m.value.trace == Step(cfg, g.m.value, a).trace
  {
    LivesOn(cfg, f, g, OwnCut(a, AllButNewline));
    h := LifeStep(cfg, g, OwnCut(a, AllButNewline));
  }

  /** A step whose record is written behind the fragment, and lost with it; whatever lacked its newline, too. */
  lemma Losing(cfg: Config, f: Life, g: Life, a: Action) returns (h: Life)
    requires Lives(cfg, f, g) && g.m.Some? && a != Crash && EditOf(cfg, g.m.value, a) != NoEdit && g.disk.tail != Clean
    ensures Lives(cfg, f, h) && h == Life(Some(Step(cfg, g.m.value, a)), Disk(g.disk.lines, Clean))
  {
    LivesOn(cfg, f, g, Own(a));
    h := LifeStep(cfg, g, Own(a));
  }

  /** A death between appends: the next process finds the last record. */
  lemma Dying(cfg: Config, f: Life, g: Life) returns (h: Life)
    requires Lives(cfg, f, g) && g.m.Some? && g.disk.lines != [] && g.disk.tail == Clean
    ensures Lives(cfg, f, h)
    ensures h == Life(Some(Machine(g.disk.lines[|g.disk.lines| - 1].order, Rows(g.disk.lines), IDLE, g.m.value.trace)), g.disk)
  {
    LivesOn(cfg, f, g, OtherCut(Nothing));
    h := LifeStep(cfg, g, OtherCut(Nothing));
    assert g.disk.lines + [] == g.disk.lines;
  }

  /** An order just created, on a file of its own. */
  function Fresh(p: CreateOrderParams, t0: int): Life {
    Life(Some(Created(p, t0)), Disk([BirthLine(p, t0)], Clean))
  }

  lemma Newborn(cfg: Config, p: CreateOrderParams, t0: int) returns (g: Life)
    ensures Lives(cfg, Fresh(p, t0), g) && g == Fresh(p, t0) && Intact(g)
  {
    LivesItself(cfg, Fresh(p, t0));
    RowsOneMore([], BirthLine(p, t0));
    assert [] + [BirthLine(p, t0)] == [BirthLine(p, t0)];
    assert [BirthLine(p, t0)] + [] == [BirthLine(p, t0)];
    g := Fresh(p, t0);
  }

  // ----- Stages -----

  /** The order is in memory in state `s`, with nothing running and nothing queued. */
  predicate Idles(g: Life, s: OrderState) {
    && g.m.Some? && g.m.value.order.state == s
    && g.m.value.proc.pc == Idle && g.m.value.proc.queue == [] && !g.m.value.proc.tail
  }

  /** An event arrives, and waits to be handled. */
  lemma Arrives(cfg: Config, f: Life, g: Life, s: OrderState, kind: EventKind, now: int) returns (h: Life)
    requires Lives(cfg, f, g) && Idles(g, s)
    ensures Lives(cfg, f, h) && h.disk == g.disk && (Intact(g) ==> Intact(h))
    ensures h.m == Some(OrderMachine.Enqueue(g.m.value, HandleTask(OwnEvent(g.m.value, kind))))
    ensures EditOf(cfg, h.m.value, Advance(now)) == EventEdit(cfg, g.m.value.order, OwnEvent(g.m.value, kind), now)
  {
    h := Quietly(cfg, f, g, Deliver(OwnEvent(g.m.value, kind)));
    assert h.m.value.proc.queue[0] == HandleTask(OwnEvent(g.m.value, kind));
  }

  /** The hold is recorded, and the dispatch is next. */
  predicate AboutToDispatch(cfg: Config, g: Life, t0: int) {
    && g.m.Some? && g.m.value.order.state == IncomingHeld && g.m.value.order.outgoing.status == Waiting
    && g.m.value.proc.pc == AtDispatch && g.m.value.proc.queue == [] && !g.m.value.proc.tail
    && InWindow(cfg, g.m.value.order, t0)
  }

  lemma HoldHandled(cfg: Config, m: Machine, t0: int)
    requires m.order.state == Pending && m.order.outgoing.status == Waiting && InWindow(cfg, m.order, t0)
    requires m.proc.pc == Idle && m.proc.queue == [HandleTask(OwnEvent(m, EvIncomingHeld))] && !m.proc.tail
    ensures var t := Step(cfg, m, Advance(t0));
            && t.order == HoldArrived(m.order, t0) && t.trace == m.trace
            && t.proc.pc == AtDispatch && t.proc.queue == [] && !t.proc.tail
  {
  }

  /** The dispatch recorded, the payment made, and the call returned. */
  lemma DispatchGoesOut(cfg: Config, f: Life, g: Life, t0: int) returns (h: Life)
    requires Lives(cfg, f, g) && AboutToDispatch(cfg, g, t0) && g.disk.tail == Clean
    ensures Lives(cfg, f, h) && Idles(h, OutgoingInFlight) && (Intact(g) ==> Intact(h))
    ensures h.m.value.order == Dispatched(g.m.value.order, t0)
    ensures h.disk == Disk(g.disk.lines + [EditLine(g.m.value.order, Dispatch(t0))], Clean)
  {
    h := Recording(cfg, f, g, Advance(t0));
    h := Quietly(cfg, f, h, Advance(t0));
    h := Quietly(cfg, f, h, Resolve(Done, t0));
  }

  /** A created order, dispatched by the process that created it. */
  lemma InFlightOnDisk(cfg: Config, p: CreateOrderParams, t0: int) returns (g: Life)
    requires t0 + cfg.minSafetyDeltaMs < p.incoming.tlcExpiryAt
    ensures Lives(cfg, Fresh(p, t0), g) && Idles(g, OutgoingInFlight) && Intact(g) && g.disk.tail == Clean
  {
    g := Newborn(cfg, p, t0);
    g := Arrives(cfg, Fresh(p, t0), g, Pending, EvIncomingHeld, t0);
    HoldHandled(cfg, g.m.value, t0);
    g := Recording(cfg, Fresh(p, t0), g, Advance(t0));
    g := DispatchGoesOut(cfg, Fresh(p, t0), g, t0);
  }

  // ----- A cancel that is forgotten -----

  /** The payment fails, and the process dies in the middle of recording the refund. */
  lemma RefundIsTorn(cfg: Config, f: Life, g: Life, t0: int) returns (h: Life)
    requires Lives(cfg, f, g) && Idles(g, OutgoingInFlight) && Intact(g) && g.disk.tail == Clean
    ensures Lives(cfg, f, h) && Idles(h, OutgoingInFlight) && h.disk == Disk(g.disk.lines, Torn)
    ensures h.m.value.order == g.m.value.order && Intact(h)
  {
    h := Arrives(cfg, f, g, OutgoingInFlight, EvOutgoingFailed, t0);
    h := CutShort(cfg, f, h, Advance(t0));
  }

  lemma RefundRuns(cfg: Config, m: Machine, t0: int)
    requires m.order.state == OutgoingInFlight && m.proc.pc == Idle && m.proc.queue == [] && !m.proc.tail
    ensures var t := Step(cfg, OrderMachine.Enqueue(m, HandleTask(OwnEvent(m, EvOutgoingFailed))), Advance(t0));
            && t.trace == m.trace && EditOf(cfg, t, Advance(t0)) == NoEdit && t.order.paymentHash == m.order.paymentHash
            && Step(cfg, t, Advance(t0)).trace == m.trace + Asks(t, Cancel(m.order.incoming.network, m.order.paymentHash))
  {
    var q := OrderMachine.Enqueue(m, HandleTask(OwnEvent(m, EvOutgoingFailed)));
    assert q.proc.queue[0] == HandleTask(OwnEvent(m, EvOutgoingFailed));
    StepEdits(cfg, q, Advance(t0));
    StepPc(cfg, q, Advance(t0));
    StepEdits(cfg, Step(cfg, q, Advance(t0)), Advance(t0));
  }

  predicate EndsInCancel(trace: seq<Obs>) {
    trace != [] && IsCancel(trace[|trace| - 1])
  }

  /** The next process records the refund behind the fragment, and cancels the hold. */
  lemma RefundGoesOut(cfg: Config, f: Life, g: Life, t0: int) returns (h: Life)
    requires Lives(cfg, f, g) && Idles(g, OutgoingInFlight) && g.disk.tail == Torn
    ensures Lives(cfg, f, h) && h.m.Some? && EndsInCancel(h.m.value.trace) && h.disk == Disk(g.disk.lines, Clean)
  {
    RefundRuns(cfg, g.m.value, t0);
    h := Arrives(cfg, f, g, OutgoingInFlight, EvOutgoingFailed, t0);
    h := Losing(cfg, f, h, Advance(t0));
    h := Quietly(cfg, f, h, Advance(t0));
  }

  /** It dies, and the one after it finds the order in flight. */
  lemma RefundIsLost(cfg: Config, f: Life, g: Life, t0: int) returns (h: Life)
    requires Lives(cfg, f, g) && Idles(g, OutgoingInFlight) && g.disk.tail == Torn && Intact(g)
    ensures Lives(cfg, f, h) && h.m.Some? && h.m.value.proc == IDLE && h.m.value.order.state == OutgoingInFlight
    ensures EndsInCancel(h.m.value.trace)
  {
    assert g.disk.lines + [] == g.disk.lines;
    h := RefundGoesOut(cfg, f, g, t0);
    h := Dying(cfg, f, h);
  }

  lemma QuietReach(cfg: Config, f: Life, g: Life, t: Machine, at: int) returns (h: Life)
    requires Lives(cfg, f, g) && g.m.Some? && Reaches(cfg, g.m.value, t, at) && t.trail == g.m.value.trail
    ensures Lives(cfg, f, h) && h == Life(Some(t), g.disk)
  {
    var actions :| AllAt(actions, at) && Steps(cfg, g.m.value, actions) == t;
    h := QuietRun(cfg, f, g, actions, at);
  }

  predicate EndsInPay(trace: seq<Obs>) {
    trace != [] && IsPay(trace[|trace| - 1])
  }

  predicate AddsAPay(t: seq<Obs>, u: seq<Obs>) {
    t <= u && |t| < |u| && EndsInPay(u)
  }

  /** The order is found in flight, the node has no payment, and it is paid again. */
  lemma PaysAgain(cfg: Config, f: Life, g: Life) returns (h: Life)
    requires Lives(cfg, f, g) && g.m.Some? && g.m.value.proc == IDLE && g.m.value.order.state == OutgoingInFlight
    ensures Lives(cfg, f, h) && h.disk == g.disk && h.m.Some? && h.m.value.order == g.m.value.order
    ensures h.m.value.trail == g.m.value.trail && h.m.value.proc == IDLE.(pc := WaitRepay)
    ensures AddsAPay(g.m.value.trace, h.m.value.trace)
  {
    var t := InFlightPays(cfg, g.m.value, 0);
    h := QuietReach(cfg, f, g, t, 0);
  }

  lemma CancelThenPay(t: seq<Obs>, u: seq<Obs>)
    requires EndsInCancel(t) && AddsAPay(t, u)
    ensures !NothingAfterCancel(u)
  {
    assert u[|t| - 1] == t[|t| - 1] && MovesMoney(u[|u| - 1]);
  }

  /** A record that was synced to disk before its side effect is forgotten with it: every order can be paid after its
      hold was cancelled. */
  lemma PaidAfterCancelHappens(cfg: Config, p: CreateOrderParams, t0: int)
    requires t0 + cfg.minSafetyDeltaMs < p.incoming.tlcExpiryAt
    ensures exists g :: Lives(cfg, Fresh(p, t0), g) && g.m.Some? && !NothingAfterCancel(g.m.value.trace)
  {
    var g := InFlightOnDisk(cfg, p, t0);
    g := RefundIsTorn(cfg, Fresh(p, t0), g, t0);
    g := RefundIsLost(cfg, Fresh(p, t0), g, t0);
    var h := PaysAgain(cfg, Fresh(p, t0), g);
    CancelThenPay(g.m.value.trace, h.m.value.trace);
  }

  // ----- An outcome that is forgotten -----

  lemma CancelRequested(cfg: Config, f: Life, g: Life, t0: int) returns (h: Life)
    requires Lives(cfg, f, g) && Idles(g, Pending)
    ensures Lives(cfg, f, h) && h.disk == g.disk && (Intact(g) ==> Intact(h))
    ensures h.m == Some(OrderMachine.Enqueue(g.m.value, CancelTask))
    ensures EditOf(cfg, h.m.value, Advance(t0)) == FailAs(CANCELLED, true, t0)
  {
    h := Quietly(cfg, f, g, RequestCancel);
    assert h.m.value.proc.queue[0] == CancelTask;
  }

  /** Every order can be FAILED, on record, and PENDING again. */
  lemma FailureIsForgottenHappens(cfg: Config, p: CreateOrderParams, t0: int)
    ensures exists g, h :: Lives(cfg, Fresh(p, t0), g) && Lives(cfg, g, h) &&
              g.m.Some? && g.m.value.order.state == Failed && h.m.Some? && h.m.value.order.state == Pending
  {
    var f := Fresh(p, t0);
    var g := Newborn(cfg, p, t0);
    g := CancelRequested(cfg, f, g, t0);
    g := CutShort(cfg, f, g, Advance(t0));
    g := CancelRequested(cfg, f, g, t0);
    g := Losing(cfg, f, g, Advance(t0));
    StepFails(cfg, Created(p, t0).(proc := IDLE), t0);
    assert g.m.value.order.state == Failed;
    LivesItself(cfg, g);
    var h := Dying(cfg, g, g);
  }

  lemma StepFails(cfg: Config, m: Machine, t0: int)
    requires m.order.state == Pending && m.proc.pc == Idle && m.proc.queue == []
    ensures Step(cfg, OrderMachine.Enqueue(m, CancelTask), Advance(t0)).order.state == Failed
  {
    var q := OrderMachine.Enqueue(m, CancelTask);
    assert q.proc.queue[0] == CancelTask;
    StepEdits(cfg, q, Advance(t0));
  }

  // ----- A hold that is forgotten -----

  /** The process dies in the middle of recording the hold; the next one records it behind the fragment. */
  lemma HoldIsLost(cfg: Config, p: CreateOrderParams, t0: int) returns (g: Life)
    requires t0 + cfg.minSafetyDeltaMs < p.incoming.tlcExpiryAt
    ensures Lives(cfg, Fresh(p, t0), g) && AboutToDispatch(cfg, g, t0) && g.disk == Disk([BirthLine(p, t0)], Clean)
    ensures g.m.value.trace == []
  {
    var f := Fresh(p, t0);
    g := Newborn(cfg, p, t0);
    g := Arrives(cfg, f, g, Pending, EvIncomingHeld, t0);
    g := CutShort(cfg, f, g, Advance(t0));
    g := Arrives(cfg, f, g, Pending, EvIncomingHeld, t0);
    HoldHandled(cfg, g.m.value, t0);
    g := Losing(cfg, f, g, Advance(t0));
  }

  lemma DispatchedWithoutHold(cfg: Config, p: CreateOrderParams, t0: int) returns (g: Life)
    requires t0 + cfg.minSafetyDeltaMs < p.incoming.tlcExpiryAt
    ensures Lives(cfg, Fresh(p, t0), g) && g.m.Some? && g.m.value.proc == IDLE && g.m.value.order.state == OutgoingInFlight
    ensures !HoldOnRecord(g.m.value.trail)
  {
    var f := Fresh(p, t0);
    g := HoldIsLost(cfg, p, t0);
    var held := g.m.value.order;
    g := DispatchGoesOut(cfg, f, g, t0);
    g := Dying(cfg, f, g);
    TwoRows(BirthLine(p, t0), EditLine(held, Dispatch(t0)));
  }

  /** Every order can be paid with no INCOMING_HELD on its record. */
  lemma PaidWithoutHoldHappens(cfg: Config, p: CreateOrderParams, t0: int)
    requires t0 + cfg.minSafetyDeltaMs < p.incoming.tlcExpiryAt
    ensures exists g, h :: Lives(cfg, Fresh(p, t0), g) && Lives(cfg, g, h) && g.m.Some? && h.m.Some? &&
              !HoldOnRecord(g.m.value.trail) && h.m.value.trail == g.m.value.trail &&
              AddsAPay(g.m.value.trace, h.m.value.trace)
  {
    var g := DispatchedWithoutHold(cfg, p, t0);
    LivesItself(cfg, g);
    var h := PaysAgain(cfg, g, g);
  }

  lemma TwoRows(k: LogLine, l: LogLine)
    ensures Rows([k, l]) == [Row(k), Row(l)]
  {
    RowsOneMore([], k);
    RowsOneMore([k], l);
    assert [] + [k] == [k] && [k] + [l] == [k, l];
  }

  // ----- A dispatch that is forgotten -----

  lemma DispatchShows(cfg: Config, m: Machine, t0: int)
    requires m.order.state == IncomingHeld && m.order.outgoing.status == Waiting && m.proc.pc == AtDispatch
    requires InWindow(cfg, m.order, t0)
    ensures var t := Step(cfg, m, Advance(t0));
            && EditOf(cfg, m, Advance(t0)) == Dispatch(t0) && EditOf(cfg, t, Advance(t0)) == NoEdit
            && t.trace == m.trace && AddsAPay(m.trace, Step(cfg, t, Advance(t0)).trace) && |Step(cfg, t, Advance(t0)).trace| == |m.trace| + 1
  {
    StepEdits(cfg, m, Advance(t0));
    StepPc(cfg, m, Advance(t0));
    StepEdits(cfg, Step(cfg, m, Advance(t0)), Advance(t0));
  }

  /** The process dies with all but the newline of the dispatch written: the next one finds the order in flight. */
  lemma DispatchLacksItsNewline(cfg: Config, p: CreateOrderParams, t0: int) returns (g: Life)
    requires t0 + cfg.minSafetyDeltaMs < p.incoming.tlcExpiryAt
    ensures Lives(cfg, Fresh(p, t0), g) && Idles(g, OutgoingInFlight) && g.m.value.proc == IDLE
    ensures g.disk.lines == [BirthLine(p, t0)] && g.disk.tail.Whole? && g.m.value.trace == []
  {
    g := HoldIsLost(cfg, p, t0);
    DispatchShows(cfg, g.m.value, t0);
    g := CutBeforeNewline(cfg, Fresh(p, t0), g, Advance(t0));
  }

  lemma RepayReturns(cfg: Config, m: Machine, t0: int)
    requires m.proc == IDLE.(pc := WaitRepay)
    ensures Step(cfg, m, Resolve(Done, t0)) == m.(proc := IDLE) && EditOf(cfg, m, Resolve(Done, t0)) == NoEdit
  {
  }

  /** The next record, of a refund, takes what lacked its newline with it. */
  lemma RefundTakesAll(cfg: Config, f: Life, g: Life, t0: int) returns (h: Life)
    requires Lives(cfg, f, g) && Idles(g, OutgoingInFlight) && g.disk.lines != [] && g.disk.tail.Whole?
    ensures var lines := g.disk.lines;
            && Lives(cfg, f, h) && h.disk == Disk(lines, Clean)
            && h.m == Some(Machine(lines[|lines| - 1].order, Rows(lines), IDLE, g.m.value.trace))
  {
    RefundRuns(cfg, g.m.value, t0);
    h := Arrives(cfg, f, g, OutgoingInFlight, EvOutgoingFailed, t0);
    h := Losing(cfg, f, h, Advance(t0));
    h := Dying(cfg, f, h);
  }

  /** Its payment made, the dispatch is lost with the record that follows it. */
  lemma DispatchIsLost(cfg: Config, f: Life, g: Life, p: CreateOrderParams, t0: int) returns (h: Life)
    requires Lives(cfg, f, g) && g.m.Some? && g.m.value.order.state == OutgoingInFlight
    requires g.m.value.proc == IDLE.(pc := WaitRepay)
    requires g.disk.lines == [BirthLine(p, t0)] && g.disk.tail.Whole?
    ensures Lives(cfg, f, h) && h.disk.tail == Clean && Idles(h, Pending)
    ensures h.m.value.order == NewOrder(p, t0) && h.m.value.trace == g.m.value.trace
  {
    RepayReturns(cfg, g.m.value, t0);
    h := Quietly(cfg, f, g, Resolve(Done, t0));
    h := RefundTakesAll(cfg, f, h, t0);
  }

  /** Found PENDING, the order is dispatched as if for the first time. */
  lemma DispatchesAnew(cfg: Config, f: Life, g: Life, t0: int) returns (h: Life)
    requires Lives(cfg, f, g) && Idles(g, Pending) && g.disk.tail == Clean
    requires g.m.value.order.outgoing.status == Waiting && InWindow(cfg, g.m.value.order, t0)
    ensures Lives(cfg, f, h) && h.m.Some? && AddsAPay(g.m.value.trace, h.m.value.trace)
    ensures |h.m.value.trace| == |g.m.value.trace| + 1
  {
    h := Arrives(cfg, f, g, Pending, EvIncomingHeld, t0);
    HoldHandled(cfg, h.m.value.(proc := g.m.value.proc.(queue := [HandleTask(OwnEvent(g.m.value, EvIncomingHeld))])), t0);
    h := Recording(cfg, f, h, Advance(t0));
    DispatchShows(cfg, h.m.value, t0);
    h := Recording(cfg, f, h, Advance(t0));
    h := Quietly(cfg, f, h, Advance(t0));
  }

  lemma PayThenPay(t: seq<Obs>, u: seq<Obs>)
    requires EndsInPay(t) && AddsAPay(t, u) && |u| == |t| + 1
    ensures !SingleFlight(u)
  {
    assert u[..|t|] == t;
    assert !MayPay(t);
  }

  lemma PaidOnce(cfg: Config, p: CreateOrderParams, t0: int) returns (g: Life)
    requires t0 + cfg.minSafetyDeltaMs < p.incoming.tlcExpiryAt
    ensures Lives(cfg, Fresh(p, t0), g) && g.disk.tail == Clean && Idles(g, Pending)
    ensures g.m.value.order == NewOrder(p, t0) && EndsInPay(g.m.value.trace)
  {
    g := DispatchLacksItsNewline(cfg, p, t0);
    g := PaysAgain(cfg, Fresh(p, t0), g);
    assert EndsInPay(g.m.value.trace);
    g := DispatchIsLost(cfg, Fresh(p, t0), g, p, t0);
  }

  /** Every order can be paid twice, with no denial by the node in between. */
  lemma PaidTwiceHappens(cfg: Config, p: CreateOrderParams, t0: int)
    requires t0 + cfg.minSafetyDeltaMs < p.incoming.tlcExpiryAt
    ensures exists g :: Lives(cfg, Fresh(p, t0), g) && g.m.Some? && !SingleFlight(g.m.value.trace)
  {
    var g := PaidOnce(cfg, p, t0);
    var h := DispatchesAnew(cfg, Fresh(p, t0), g, t0);
    PayThenPay(g.m.value.trace, h.m.value.trace);
    assert Lives(cfg, Fresh(p, t0), h) && h.m.Some?;
  }

  // ----- An order that is forgotten altogether -----

  /** Created by a process that died just before the newline of its first record. */
  function Glued(p: CreateOrderParams, t0: int): Life {
    Life(Some(Machine(NewOrder(p, t0), [Row(BirthLine(p, t0))], IDLE, [])), Disk([], Whole(BirthLine(p, t0))))
  }

  lemma GluedIsBorn(cfg: Config, p: CreateOrderParams, t0: int)
    ensures LifeStep(cfg, Unborn(Clean), BirthCut(p, t0, AllButNewline)) == Glued(p, t0)
  {
    var l := BirthLine(p, t0);
    assert [] + [l] == [l];
    RowsOneMore([], l);
    assert Rows([]) + [Row(l)] == [Row(l)];
  }

  /** The order is known, and nothing of it is readable. */
  predicate Forgettable(g: Life) {
    g.m.Some? && g.disk == BLANK_DISK
  }

  /** The next process knows nothing of it, as if it had never been; it can be created again. */
  lemma ForgottenIsUnborn(cfg: Config, g: Life, p: CreateOrderParams, t0: int)
    requires Forgettable(g)
    ensures LifeStep(cfg, g, OtherCut(Nothing)) == Unborn(Clean)
    ensures LifeStep(cfg, Unborn(Clean), Birth(p, t0)) == Fresh(p, t0)
  {
    assert BLANK_DISK.lines + [] == [];
    assert [] + [BirthLine(p, t0)] == [BirthLine(p, t0)];
  }

  /** The record of the hold is lost with the one of the creation. */
  lemma GluedHold(cfg: Config, p: CreateOrderParams, t0: int) returns (g: Life)
    requires t0 + cfg.minSafetyDeltaMs < p.incoming.tlcExpiryAt
    ensures Lives(cfg, Glued(p, t0), g) && AboutToDispatch(cfg, g, t0) && g.disk == BLANK_DISK
    ensures g.m.value.trace == [] && g.m.value.order.paymentHash == p.paymentHash
  {
    var f := Glued(p, t0);
    LivesItself(cfg, f);
    g := Arrives(cfg, f, f, Pending, EvIncomingHeld, t0);
    HoldHandled(cfg, g.m.value, t0);
    g := Losing(cfg, f, g, Advance(t0));
  }

  lemma RefundArrives(cfg: Config, f: Life, g: Life, t0: int) returns (h: Life)
    requires Lives(cfg, f, g) && Idles(g, OutgoingInFlight)
    ensures Lives(cfg, f, h) && h.disk == g.disk
    ensures h.m == Some(OrderMachine.Enqueue(g.m.value, HandleTask(OwnEvent(g.m.value, EvOutgoingFailed))))
    ensures EditOf(cfg, h.m.value, Advance(t0)) != NoEdit
  {
    h := Arrives(cfg, f, g, OutgoingInFlight, EvOutgoingFailed, t0);
  }

  /** A refund takes the last record of the order with it. */
  lemma RefundForgets(cfg: Config, f: Life, g: Life, t0: int) returns (h: Life)
    requires Lives(cfg, f, g) && Idles(g, OutgoingInFlight) && g.disk.lines == [] && g.disk.tail.Whole?
    ensures Lives(cfg, f, h) && Forgettable(h) && h.m.value.trace == g.m.value.trace
    ensures h.m.value.order.paymentHash == g.m.value.order.paymentHash
  {
    h := RefundArrives(cfg, f, g, t0);
    h := Losing(cfg, f, h, Advance(t0));
    RefundRuns(cfg, g.m.value, t0);
  }

  lemma GluedDispatch(cfg: Config, p: CreateOrderParams, t0: int) returns (g: Life)
    requires t0 + cfg.minSafetyDeltaMs < p.incoming.tlcExpiryAt
    ensures Lives(cfg, Glued(p, t0), g) && g.m.Some? && g.m.value.order.state == OutgoingInFlight && g.m.value.proc == IDLE
    ensures g.disk.lines == [] && g.disk.tail.Whole? && g.m.value.order.paymentHash == p.paymentHash
  {
    g := GluedHold(cfg, p, t0);
    DispatchShows(cfg, g.m.value, t0);
    g := CutBeforeNewline(cfg, Glued(p, t0), g, Advance(t0));
  }

  /** Every order can be paid, the payment not denied, and forgotten altogether. */
  lemma PaidAndForgottenHappens(cfg: Config, p: CreateOrderParams, t0: int) returns (g: Life)
    requires t0 + cfg.minSafetyDeltaMs < p.incoming.tlcExpiryAt
    ensures Lives(cfg, Glued(p, t0), g) && Forgettable(g) && EndsInPay(g.m.value.trace)
    ensures g.m.value.order.paymentHash == p.paymentHash
  {
    var f := Glued(p, t0);
    g := GluedDispatch(cfg, p, t0);
    g := PaysAgain(cfg, f, g);
    RepayReturns(cfg, g.m.value, t0);
    g := Quietly(cfg, f, g, Resolve(Done, t0));
    g := RefundForgets(cfg, f, g, t0);
  }

  lemma FailureCancels(cfg: Config, m: Machine, t0: int)
    requires m.order.state == Pending && m.proc.pc == Idle && m.proc.queue == []
    ensures var t := Step(cfg, OrderMachine.Enqueue(m, CancelTask), Advance(t0));
            && t.trace == m.trace && EditOf(cfg, t, Advance(t0)) == NoEdit && t.order.paymentHash == m.order.paymentHash
            && Step(cfg, t, Advance(t0)).order == t.order
            && Step(cfg, t, Advance(t0)).trace == m.trace + Asks(t, Cancel(m.order.incoming.network, m.order.paymentHash))
  {
    var q := OrderMachine.Enqueue(m, CancelTask);
    assert q.proc.queue[0] == CancelTask;
    StepEdits(cfg, q, Advance(t0));
    StepPc(cfg, q, Advance(t0));
    StepEdits(cfg, Step(cfg, q, Advance(t0)), Advance(t0));
  }

  /** Every order can have its hold cancelled and be forgotten altogether. */
  lemma CancelledAndForgottenHappens(cfg: Config, p: CreateOrderParams, t0: int) returns (g: Life)
    ensures Lives(cfg, Glued(p, t0), g) && Forgettable(g) && EndsInCancel(g.m.value.trace)
    ensures g.m.value.order.paymentHash == p.paymentHash
  {
    var f := Glued(p, t0);
    LivesItself(cfg, f);
    FailureCancels(cfg, f.m.value, t0);
    g := CancelRequested(cfg, f, f, t0);
    g := Losing(cfg, f, g, Advance(t0));
    g := Quietly(cfg, f, g, Advance(t0));
  }
}
