/** The life of one order over the file, across processes: its machine in memory, its records on disk, and deaths in
    the middle of an append. What the next process reads need not be what this one had in memory. */
module OrderLife {
  import opened Basics
  import opened Orders
  import opened OrderMachine
  import opened OrderLog
  import opened OrderDisk
  import opened MachineSteps
  import opened MachineSafety
  import opened MachineHistory

  /** An order not in memory is unborn, or its records were all forgotten. */
  datatype Life = Life(m: Option<Machine>, disk: Disk)

  /** `Cut` turns are deaths, so far into the append of a record of this order, or of another one. */
  datatype Turn =
    | Own(a: Action)
    | OwnCut(a: Action, cut: Cut)
    | Birth(p: CreateOrderParams, now: int)
    | BirthCut(p: CreateOrderParams, now: int, cut: Cut)
    | Other
    | OtherCut(cut: Cut)

  function EditLine(o: Order, e: Edit): LogLine
    requires e != NoEdit
  {
    UpdateLine(Apply(o, e), Apply(o, e).updatedAt, Some(Label(e)), o.state)
  }

  function BirthLine(p: CreateOrderParams, now: int): LogLine {
    CreateLine(NewOrder(p, now), now)
  }

  /** The append was not finished: the process never went on from it. */
  predicate Unfinished(cut: Cut) {
    cut == Nothing || cut == Part
  }

  /** Memory and disk after the turn, before a dying process is followed by the next one. */
  function Before(cfg: Config, f: Life, turn: Turn): Life {
    match turn
    case Own(a) => if f.m.None? || a == Crash then f else Acted(cfg, f, a, Full)
    case OwnCut(a, cut) => if f.m.None? then f else Acted(cfg, f, a, cut)
    case Birth(p, now) => if f.m.Some? then f else Born(f, p, now, Full)
    case BirthCut(p, now, cut) => if f.m.Some? then f else Born(f, p, now, cut)
    case Other => Life(f.m, PutOther(f.disk, Full))
    case OtherCut(cut) => Life(f.m, PutOther(f.disk, cut))
  }

  function Acted(cfg: Config, f: Life, a: Action, cut: Cut): Life
    requires f.m.Some?
  {
    var m := f.m.value;
    var e := EditOf(cfg, m, a);
    if e == NoEdit then Life(Some(Step(cfg, m, a)), f.disk)
    else Life(Some(if Unfinished(cut) then m else Step(cfg, m, a)), Put(f.disk, EditLine(m.order, e), cut))
  }

  function Born(f: Life, p: CreateOrderParams, now: int, cut: Cut): Life {
    Life(if Unfinished(cut) then None else Some(Created(p, now)), Put(f.disk, BirthLine(p, now), cut))
  }

  predicate Dies(turn: Turn) {
    turn.OwnCut? || turn.BirthCut? || turn.OtherCut?
  }

  /** The next process: it knows what it reads. Of an order it knows, what the outside has seen stays seen; of one that
      was forgotten, and perhaps is created again, HashSafety tells. */
  function Reread(f: Life): Life {
    var book := ReadBack(f.disk);
    var trace := if f.m.Some? then f.m.value.trace else [];
    Life(if book == [] then None else Some(Machine(book[|book| - 1].order, Rows(book), IDLE, trace)), f.disk)
  }

  function LifeStep(cfg: Config, f: Life, turn: Turn): Life {
    if Dies(turn) then Reread(Before(cfg, f, turn)) else Before(cfg, f, turn)
  }

  function LifeRun(cfg: Config, f: Life, turns: seq<Turn>): Life {
    if turns == [] then f else LifeStep(cfg, LifeRun(cfg, f, turns[..|turns| - 1]), turns[|turns| - 1])
  }

  // ----- What survives every life -----

  /** Records of one order: each consistent in itself, on the same terms, and of states that only move forward. */
  ghost predicate Consistent(cfg: Config, lines: seq<LogLine>, o: Order) {
    && (forall i :: 0 <= i < |lines| ==>
          LegsAgree(cfg, lines[i].order) && SameTerms(o, lines[i].order) && Later(lines[i].order.state, o.state))
    && (forall i, j :: 0 <= i < j < |lines| ==> Later(lines[i].order.state, lines[j].order.state))
  }

  ghost predicate Sound(cfg: Config, f: Life) {
    if f.m.None? then ReadBack(f.disk) == [] else
    Guarded(cfg, f.m.value) && LegsAgree(cfg, f.m.value.order) && Consistent(cfg, ReadBack(f.disk), f.m.value.order)
  }

  lemma PutReads(d: Disk, l: LogLine, cut: Cut)
    ensures var book := ReadBack(Put(d, l, cut));
            && (book == ReadBack(d) || book == d.lines || book == d.lines + [l])
            && (Unfinished(cut) ==> book == ReadBack(d) || book == d.lines)
    ensures d.lines <= ReadBack(d)
  {
    assert d.lines + [] == d.lines;
  }

  lemma PutOtherReads(d: Disk, cut: Cut)
    ensures ReadBack(PutOther(d, cut)) == ReadBack(d) || ReadBack(PutOther(d, cut)) == d.lines
    ensures d.lines <= ReadBack(d)
  {
    assert d.lines + [] == d.lines;
  }

  lemma ConsistentPrefix(cfg: Config, lines: seq<LogLine>, some: seq<LogLine>, o: Order)
    requires Consistent(cfg, lines, o) && some <= lines
    ensures Consistent(cfg, some, o)
  {
    assert forall i :: 0 <= i < |some| ==> some[i] == lines[i];
  }

  lemma ConsistentOn(cfg: Config, lines: seq<LogLine>, o: Order, l: LogLine)
    requires Consistent(cfg, lines, o)
    requires LegsAgree(cfg, l.order) && SameTerms(o, l.order) && Later(o.state, l.order.state)
    ensures Consistent(cfg, lines + [l], l.order) && Consistent(cfg, lines, l.order)
  {
    forall i | 0 <= i < |lines| ensures Later(lines[i].order.state, l.order.state) {
      EdgesCompose(lines[i].order.state, o.state, l.order.state);
    }
  }

  lemma ActedSound(cfg: Config, f: Life, a: Action, cut: Cut)
    requires Sound(cfg, f) && f.m.Some?
    ensures Sound(cfg, Acted(cfg, f, a, cut))
  {
    var m := f.m.value;
    var e := EditOf(cfg, m, a);
    StepGuarded(cfg, m, a);
    StepEditsOrder(cfg, m, a);
    if e != NoEdit {
      var l := EditLine(m.order, e);
      EditKeepsLegs(cfg, m.order, e);
      EdgesCompose(m.order.state, m.order.state, l.order.state);
      PutReads(f.disk, l, cut);
      ConsistentPrefix(cfg, ReadBack(f.disk), f.disk.lines, m.order);
      ConsistentOn(cfg, f.disk.lines, m.order, l);
      ConsistentOn(cfg, ReadBack(f.disk), m.order, l);
    }
  }

  lemma BornSound(cfg: Config, f: Life, p: CreateOrderParams, now: int, cut: Cut)
    requires Sound(cfg, f) && f.m.None?
    ensures Sound(cfg, Born(f, p, now, cut))
  {
    CreatedLawful(cfg, p, now);
    PutReads(f.disk, BirthLine(p, now), cut);
    assert f.disk.lines == [];
  }

  lemma OtherSound(cfg: Config, f: Life, cut: Cut)
    requires Sound(cfg, f)
    ensures Sound(cfg, Life(f.m, PutOther(f.disk, cut)))
  {
    PutOtherReads(f.disk, cut);
    if f.m.Some? {
      ConsistentPrefix(cfg, ReadBack(f.disk), f.disk.lines, f.m.value.order);
    }
  }

  lemma BeforeSound(cfg: Config, f: Life, turn: Turn)
    requires Sound(cfg, f)
    ensures Sound(cfg, Before(cfg, f, turn))
  {
    match turn
    case Own(a) => if f.m.Some? && a != Crash { ActedSound(cfg, f, a, Full); }
    case OwnCut(a, cut) => if f.m.Some? { ActedSound(cfg, f, a, cut); }
    case Birth(p, now) => if f.m.None? { BornSound(cfg, f, p, now, Full); }
    case BirthCut(p, now, cut) => if f.m.None? { BornSound(cfg, f, p, now, cut); }
    case Other => OtherSound(cfg, f, Full);
    case OtherCut(cut) => OtherSound(cfg, f, cut);
  }

  lemma RereadSound(cfg: Config, f: Life)
    requires Sound(cfg, f)
    ensures Sound(cfg, Reread(f))
  {
    var book := ReadBack(f.disk);
    if book != [] {
      var last := book[|book| - 1].order;
      TermsGuarded(cfg, f.m.value.order, last, f.m.value.trace);
      forall i | 0 <= i < |book| ensures SameTerms(last, book[i].order) && Later(book[i].order.state, last.state) {
      }
    }
  }

  lemma StepSound(cfg: Config, f: Life, turn: Turn)
    requires Sound(cfg, f)
    ensures Sound(cfg, LifeStep(cfg, f, turn))
  {
    BeforeSound(cfg, f, turn);
    if Dies(turn) { RereadSound(cfg, Before(cfg, f, turn)); }
  }

  /** Whatever is forgotten: the hold is settled only with a preimage of its hash while OUTGOING_SETTLED was persisted,
      every call sees its own state persisted and concerns its own order, a pay is sent in the window or after the
      answer "none", and every record that is read back agrees with itself. */
  lemma {:induction false} SurvivesForgetting(cfg: Config, f: Life, turns: seq<Turn>)
    requires Sound(cfg, f)
    ensures Sound(cfg, LifeRun(cfg, f, turns))
  {
    if turns != [] {
      SurvivesForgetting(cfg, f, turns[..|turns| - 1]);
      StepSound(cfg, LifeRun(cfg, f, turns[..|turns| - 1]), turns[|turns| - 1]);
    }
  }

  // ----- When nothing is forgotten -----

  /** What the next process would read is what this one has in memory. */
  predicate Intact(f: Life) {
    f.m.None? ||
    var book := ReadBack(f.disk);
    book != [] && Rows(book) == f.m.value.trail && book[|book| - 1].order == f.m.value.order
  }

  /** A death takes nothing back but what was running, if and only if the records on disk are those in memory. */
  lemma DeathIsCrashExactly(cfg: Config, f: Life)
    requires f.m.Some?
    ensures Reread(f).m == Some(Step(cfg, f.m.value, Crash)) <==> Intact(f)
  {
  }

  lemma {:induction false} RowCount(lines: seq<LogLine>)
    ensures |Rows(lines)| == |lines|
  {
    if lines != [] {
      RowCount(lines[..|lines| - 1]);
    }
  }

  /** A record is forgotten if and only if it was written behind something that was cut short. */
  lemma RecordIsKeptExactly(cfg: Config, f: Life, a: Action)
    requires f.m.Some? && Intact(f) && EditOf(cfg, f.m.value, a) != NoEdit
    ensures Intact(Acted(cfg, f, a, Full)) <==> f.disk.tail == Clean
  {
    var m := f.m.value;
    var e := EditOf(cfg, m, a);
    var l := EditLine(m.order, e);
    StepEdits(cfg, m, a);
    RowCount(ReadBack(f.disk));
    RowCount(f.disk.lines);
    assert f.disk.lines + [] == f.disk.lines;
    if f.disk.tail == Clean {
      RowsOneMore(f.disk.lines, l);
      assert ReadBack(Put(f.disk, l, Full)) == f.disk.lines + [l];
    }
  }

  /** And another order's record takes this order's last one with it if and only if that one lacked its newline. */
  lemma OtherRecordSparesExactly(f: Life)
    requires f.m.Some? && Intact(f)
    ensures Intact(Life(f.m, PutOther(f.disk, Full))) <==> !f.disk.tail.Whole?
  {
    RowCount(ReadBack(f.disk));
    RowCount(f.disk.lines);
    assert f.disk.lines + [] == f.disk.lines;
  }

  predicate NothingForgotten(cfg: Config, f: Life, turns: seq<Turn>) {
    turns == [] ||
    var init, turn := turns[..|turns| - 1], turns[|turns| - 1];
    NothingForgotten(cfg, f, init) && (Dies(turn) ==> Intact(Before(cfg, LifeRun(cfg, f, init), turn)))
  }

  /** What a turn is to a machine that never forgets. */
  function Idealized(cfg: Config, m: Machine, turn: Turn): seq<Action> {
    match turn
    case Own(a) => if a == Crash then [] else [a]
    case OwnCut(a, cut) => if EditOf(cfg, m, a) != NoEdit && Unfinished(cut) then [Crash] else [a, Crash]
    case BirthCut(_, _, _) => [Crash]
    case OtherCut(_) => [Crash]
    case _ => []
  }

  lemma IdealStep(cfg: Config, f: Life, turn: Turn)
    requires f.m.Some? && (Dies(turn) ==> Intact(Before(cfg, f, turn)))
    ensures LifeStep(cfg, f, turn).m == Some(Steps(cfg, f.m.value, Idealized(cfg, f.m.value, turn)))
  {
    var m := f.m.value;
    if Dies(turn) { DeathIsCrashExactly(cfg, Before(cfg, f, turn)); }
    if turn.Own? && turn.a != Crash {
      StepsCons(cfg, m, turn.a, []);
    } else if Dies(turn) {
      StepsCons(cfg, m, Crash, []);
      if turn.OwnCut? {
        StepsCons(cfg, m, turn.a, [Crash]);
        StepsCons(cfg, Step(cfg, m, turn.a), Crash, []);
        assert [turn.a] + [Crash] == [turn.a, Crash];
      }
    }
  }

  function IdealRun(cfg: Config, f: Life, turns: seq<Turn>): seq<Action>
    requires f.m.Some? && NothingForgotten(cfg, f, turns)
    ensures LifeRun(cfg, f, turns).m == Some(Steps(cfg, f.m.value, IdealRun(cfg, f, turns)))
  {
    if turns == [] then [] else
    var init, turn := turns[..|turns| - 1], turns[|turns| - 1];
    var before := IdealRun(cfg, f, init);
    var g := LifeRun(cfg, f, init);
    IdealStep(cfg, g, turn);
    StepsAppend(cfg, f.m.value, before, Idealized(cfg, g.m.value, turn));
    before + Idealized(cfg, g.m.value, turn)
  }

  /** A life in which nothing of the order is forgotten is a run of the machine: all that is proved of those holds. */
  lemma UnforgottenLivesAreRuns(cfg: Config, p: CreateOrderParams, now: int, disk: Disk, turns: seq<Turn>)
    requires NothingForgotten(cfg, Life(Some(Created(p, now)), disk), turns)
    ensures var f := LifeRun(cfg, Life(Some(Created(p, now)), disk), turns);
            f.m.Some? && (exists actions :: f.m.value == Steps(cfg, Created(p, now), actions)) && Lawful(cfg, f.m.value)
  {
    var actions := IdealRun(cfg, Life(Some(Created(p, now)), disk), turns);
    CreatedLawful(cfg, p, now);
    StepsLawful(cfg, Created(p, now), actions);
  }

  /** The death of a process leaves no append cut short. */
  predicate Uncut(turn: Turn) {
    match turn
    case OwnCut(_, cut) => cut == Nothing || cut == Full
    case BirthCut(_, _, cut) => cut == Nothing || cut == Full
    case OtherCut(cut) => cut == Nothing || cut == Full
    case _ => true
  }

  lemma ActedIntact(cfg: Config, f: Life, a: Action, cut: Cut)
    requires f.m.Some? && Intact(f) && f.disk.tail == Clean && (cut == Nothing || cut == Full)
    ensures Intact(Acted(cfg, f, a, cut)) && Acted(cfg, f, a, cut).disk.tail == Clean
  {
    StepEdits(cfg, f.m.value, a);
    if EditOf(cfg, f.m.value, a) != NoEdit && cut == Full { RecordIsKeptExactly(cfg, f, a); }
  }

  lemma BeforeIntact(cfg: Config, f: Life, turn: Turn)
    requires f.m.Some? && Intact(f) && f.disk.tail == Clean && Uncut(turn)
    ensures Intact(Before(cfg, f, turn)) && Before(cfg, f, turn).disk.tail == Clean
  {
    match turn
    case Own(a) => if a != Crash { ActedIntact(cfg, f, a, Full); }
    case OwnCut(a, cut) => ActedIntact(cfg, f, a, cut);
    case _ => assert f.disk.lines + [] == f.disk.lines;
  }

  /** So nothing is forgotten while every process opens its file where a record ends. */
  lemma {:induction false} CleanOpeningsForgetNothing(cfg: Config, f: Life, turns: seq<Turn>)
    requires f.m.Some? && Intact(f) && f.disk.tail == Clean
    requires forall i :: 0 <= i < |turns| ==> Uncut(turns[i])
    ensures NothingForgotten(cfg, f, turns)
    ensures var g := LifeRun(cfg, f, turns); g.m.Some? && Intact(g) && g.disk.tail == Clean
  {
    if turns != [] {
      var init, turn := turns[..|turns| - 1], turns[|turns| - 1];
      CleanOpeningsForgetNothing(cfg, f, init);
      BeforeIntact(cfg, LifeRun(cfg, f, init), turn);
    }
  }

  // ----- Nothing settles after a cancel -----

  /** Nothing can be paid or settled from here. */
  predicate Inert(m: Machine) {
    m.order.state == Refunding || Terminal(m.order.state) || (m.order.state == IncomingHeld && m.proc.pc != AtDispatch)
  }

  predicate MovesMoney(e: Obs) {
    e.Issued? && (e.call.Pay? || e.call.Settle?)
  }

  ghost predicate NothingAfterCancel(trace: seq<Obs>) {
    forall i, j :: 0 <= i < j < |trace| && IsCancel(trace[i]) ==> !MovesMoney(trace[j])
  }

  lemma InertEmits(cfg: Config, m: Machine, a: Action)
    requires PcOk(cfg, m)
    ensures Inert(m) ==> forall i :: 0 <= i < |Emits(cfg, m, a)| ==> !MovesMoney(Emits(cfg, m, a)[i])
    ensures forall i :: 0 <= i < |Emits(cfg, m, a)| && IsCancel(Emits(cfg, m, a)[i]) ==> |Emits(cfg, m, a)| == 1 && Inert(m)
  {
  }

  lemma StepInert(cfg: Config, m: Machine, a: Action)
    requires PcOk(cfg, m) && Inert(m)
    ensures Inert(Step(cfg, m, a))
  {
    StepEditsOrder(cfg, m, a);
    StepPc(cfg, m, a);
    StepPcOk(cfg, m, a);
    if m.order.state == IncomingHeld { HeldWaits(cfg, m, a); }
  }

  lemma HeldWaits(cfg: Config, m: Machine, a: Action)
    requires PcOk(cfg, m) && m.order.state == IncomingHeld && m.proc.pc != AtDispatch
    ensures !EditOf(cfg, m, a).Dispatch?
  {
  }

  /** Nothing was paid or settled after a cancel in all that `seen` holds, and nothing will be. */
  ghost predicate FinalOver(m: Machine, seen: seq<Obs>) {
    NothingAfterCancel(seen) && (HasCancel(seen) ==> Inert(m))
  }

  lemma StepFinalOver(cfg: Config, m: Machine, a: Action, seen: seq<Obs>)
    requires PcOk(cfg, m) && FinalOver(m, seen)
    ensures FinalOver(Step(cfg, m, a), seen + Emits(cfg, m, a))
  {
    var es := Emits(cfg, m, a);
    InertEmits(cfg, m, a);
    if Inert(m) { StepInert(cfg, m, a); }
    NothingAfterOn(seen, es);
    if i :| 0 <= i < |seen + es| && IsCancel((seen + es)[i]) {
      assert (seen + es)[i] == if i < |seen| then seen[i] else es[i - |seen|];
    }
  }

  predicate IsCancel(e: Obs) {
    e.Issued? && e.call.Cancel?
  }

  lemma NothingAfterOn(trace: seq<Obs>, es: seq<Obs>)
    requires NothingAfterCancel(trace)
    requires HasCancel(trace) ==> forall j :: 0 <= j < |es| ==> !MovesMoney(es[j])
    requires forall i :: 0 <= i < |es| && IsCancel(es[i]) ==> |es| == 1
    ensures NothingAfterCancel(trace + es)
  {
    var all := trace + es;
    forall i, j | 0 <= i < j < |all| && IsCancel(all[i]) ensures !MovesMoney(all[j]) {
      if i < |trace| {
        assert all[i] == trace[i];
        if j >= |trace| { assert all[j] == es[j - |trace|]; }
      }
    }
  }

  ghost predicate CanMoveMoney(cfg: Config, m: Machine) {
    exists t, at :: Reaches(cfg, m, t, at) && |m.trace| < |t.trace| && MovesMoney(t.trace[|t.trace| - 1])
  }

  lemma {:induction false} InertForEver(cfg: Config, m: Machine, actions: seq<Action>)
    requires PcOk(cfg, m) && Inert(m)
    ensures var t := Steps(cfg, m, actions);
            m.trace <= t.trace && forall j :: |m.trace| <= j < |t.trace| ==> !MovesMoney(t.trace[j])
    decreases |actions|
  {
    if actions != [] {
      var t := Step(cfg, m, actions[0]);
      StepEdits(cfg, m, actions[0]);
      InertEmits(cfg, m, actions[0]);
      StepInert(cfg, m, actions[0]);
      StepPcOk(cfg, m, actions[0]);
      InertForEver(cfg, t, actions[1..]);
      assert Steps(cfg, m, actions) == Steps(cfg, t, actions[1..]);
    }
  }

  lemma PendingPays(cfg: Config, m: Machine, at: int) returns (t: Machine)
    requires m.proc.pc == Idle && m.proc.queue == [] && !m.proc.tail
    requires LegsAgree(cfg, m.order) && m.order.state == Pending && InWindow(cfg, m.order, at)
    ensures Reaches(cfg, m, t, at) && |t.trace| == |m.trace| + 1 && t.trace[..|m.trace|] == m.trace
    ensures IsPay(t.trace[|m.trace|])
  {
    ReachesItself(cfg, m, at);
    var held := OwnEvent(m, EvIncomingHeld);
    var m1 := Step(cfg, m, Deliver(held));
    ReachesOn(cfg, m, m, at, Deliver(held));
    assert m1.proc.queue[0] == HandleTask(held);
    var m2 := Step(cfg, m1, Advance(at));
    ReachesOn(cfg, m, m1, at, Advance(at));
    var m3 := Step(cfg, m2, Advance(at));
    ReachesOn(cfg, m, m2, at, Advance(at));
    assert m3.proc.pc.AtPay? && m3.trace == m.trace;
    t := Step(cfg, m3, Advance(at));
    ReachesOn(cfg, m, m3, at, Advance(at));
  }

  /** An order found in flight is asked about, and paid once more if the node has no payment. */
  lemma InFlightPays(cfg: Config, m: Machine, at: int) returns (t: Machine)
    requires m.proc == IDLE && m.order.state == OutgoingInFlight
    ensures Reaches(cfg, m, t, at) && |m.trace| < |t.trace| && m.trace <= t.trace && IsPay(t.trace[|t.trace| - 1])
    ensures t.trail == m.trail && t.order == m.order && t.proc == IDLE.(pc := WaitRepay)
  {
    ReachesItself(cfg, m, at);
    var m1 := Step(cfg, m, Recover);
    ReachesOn(cfg, m, m, at, Recover);
    assert m1.proc.queue[0] == ReconcileTask;
    var m2 := Step(cfg, m1, Advance(at));
    ReachesOn(cfg, m, m1, at, Advance(at));
    assert m2.proc.pc == WaitInvoiceState(OutgoingInFlight);
    var m3 := Step(cfg, m2, Resolve(InvoiceIs(HoldHeld), at));
    ReachesOn(cfg, m, m2, at, Resolve(InvoiceIs(HoldHeld), at));
    assert m3.proc.pc == AtTail;
    var m4 := Step(cfg, m3, Advance(at));
    ReachesOn(cfg, m, m3, at, Advance(at));
    var none := Resolve(PaymentIs(PaymentResult(NoPayment, None, None)), at);
    t := Step(cfg, m4, none);
    ReachesOn(cfg, m, m4, at, none);
  }

  lemma PaidSettles(cfg: Config, m: Machine, at: int) returns (t: Machine)
    requires m.proc == IDLE && LegsAgree(cfg, m.order) && m.order.state == OutgoingSettled
    ensures Reaches(cfg, m, t, at) && |m.trace| < |t.trace| && MovesMoney(t.trace[|t.trace| - 1])
  {
    ReachesItself(cfg, m, at);
    var settled := OwnEvent(m, EvOutgoingSettled);
    var m1 := Step(cfg, m, Deliver(settled));
    ReachesOn(cfg, m, m, at, Deliver(settled));
    assert m1.proc.queue[0] == HandleTask(settled);
    var m2 := Step(cfg, m1, Advance(at));
    ReachesOn(cfg, m, m1, at, Advance(at));
    assert m2.proc.pc == AtSettle;
    t := Step(cfg, m2, Advance(at));
    ReachesOn(cfg, m, m2, at, Advance(at));
  }

  /** From what the next process finds of an order, something can be paid or settled if and only if it is found PENDING,
      OUTGOING_IN_FLIGHT or OUTGOING_SETTLED. */
  lemma ResurrectedMovesMoneyExactly(cfg: Config, m: Machine)
    requires m.proc == IDLE && LegsAgree(cfg, m.order)
    ensures CanMoveMoney(cfg, m) <==> !Inert(m)
    ensures Inert(m) <==>
              m.order.state != Pending && m.order.state != OutgoingInFlight && m.order.state != OutgoingSettled
  {
    if Inert(m) {
      forall t, at | Reaches(cfg, m, t, at) && |m.trace| < |t.trace| ensures !MovesMoney(t.trace[|t.trace| - 1]) {
        var actions :| AllAt(actions, at) && Steps(cfg, m, actions) == t;
        InertForEver(cfg, m, actions);
      }
    } else if m.order.state == Pending {
      var t := PendingPays(cfg, m, m.order.incoming.tlcExpiryAt - cfg.minSafetyDeltaMs - 1);
    } else if m.order.state == OutgoingInFlight {
      var t := InFlightPays(cfg, m, 0);
    } else {
      var t := PaidSettles(cfg, m, 0);
    }
  }

  // ----- Single flight of one order -----

  /** The next process finds the order PENDING although it was paid, and no node has said since that it was not. */
  ghost predicate PaysAnew(f: Life) {
    f.m.Some? && Reread(f).m.Some? && Reread(f).m.value.order.state == Pending && !MayPay(f.m.value.trace)
  }

  ghost predicate NeverPaysAnew(cfg: Config, f: Life, turns: seq<Turn>) {
    turns == [] ||
    var init, turn := turns[..|turns| - 1], turns[|turns| - 1];
    NeverPaysAnew(cfg, f, init) && (Dies(turn) ==> !PaysAnew(Before(cfg, LifeRun(cfg, f, init), turn)))
  }

  ghost predicate OnePayment(f: Life) {
    f.m.Some? ==> Single(f.m.value)
  }

  lemma BeforeSingle(cfg: Config, f: Life, turn: Turn)
    requires Sound(cfg, f) && OnePayment(f)
    ensures OnePayment(Before(cfg, f, turn))
  {
    if f.m.Some? && turn.Own? { StepSingle(cfg, f.m.value, turn.a); }
    if f.m.Some? && turn.OwnCut? { StepSingle(cfg, f.m.value, turn.a); }
  }

  /** In any life, of what was seen of the order since it was last created: between two pays the node denied having one,
      unless a death brings a paid order back to PENDING. */
  lemma {:induction false} SingleFlightUnlessPaidAnew(cfg: Config, f: Life, turns: seq<Turn>)
    requires Sound(cfg, f) && OnePayment(f) && NeverPaysAnew(cfg, f, turns)
    ensures OnePayment(LifeRun(cfg, f, turns))
  {
    if turns != [] {
      var init, turn := turns[..|turns| - 1], turns[|turns| - 1];
      SingleFlightUnlessPaidAnew(cfg, f, init);
      SurvivesForgetting(cfg, f, init);
      BeforeSingle(cfg, LifeRun(cfg, f, init), turn);
    }
  }

  // ----- A dispatch record that got its newline is never forgotten -----

  predicate AnchoredAt(d: Disk, i: int) {
    0 <= i < |d.lines| && d.lines[i].order.state == OutgoingInFlight
  }

  ghost predicate Anchored(d: Disk) {
    exists i :: AnchoredAt(d, i)
  }

  /** Memory or disk know of the dispatch only if its record is there for good; it is written on a boundary. */
  ghost predicate DispatchIsAnchored(f: Life) {
    && (forall l :: l in ReadBack(f.disk) && l.order.state == OutgoingInFlight ==> Anchored(f.disk))
    && (f.m.Some? ==>
          && (f.m.value.order.state == OutgoingInFlight ==> Anchored(f.disk))
          && (!NoPay(f.m.value.trace) ==> Anchored(f.disk))
          && (f.m.value.proc.pc == AtDispatch ==> f.disk.tail == Clean))
  }

  /** The process dies when all but the newline of a dispatch record is written. */
  predicate DispatchLacksNewline(cfg: Config, f: Life, turn: Turn) {
    turn.OwnCut? && turn.cut == AllButNewline && f.m.Some? && EditOf(cfg, f.m.value, turn.a).Dispatch?
  }

  predicate DispatchesComplete(cfg: Config, f: Life, turns: seq<Turn>) {
    turns == [] ||
    var init, turn := turns[..|turns| - 1], turns[|turns| - 1];
    DispatchesComplete(cfg, f, init) && !DispatchLacksNewline(cfg, LifeRun(cfg, f, init), turn)
  }

  lemma PutKeepsAnchor(d: Disk, l: LogLine, cut: Cut)
    requires Anchored(d)
    ensures Anchored(Put(d, l, cut))
  {
    var i :| AnchoredAt(d, i);
    assert AnchoredAt(Put(d, l, cut), i);
  }

  lemma OtherKeepsAnchor(d: Disk, cut: Cut)
    requires Anchored(d)
    ensures Anchored(PutOther(d, cut))
  {
    var i :| AnchoredAt(d, i);
    assert AnchoredAt(PutOther(d, cut), i);
  }

  lemma PutAnchors(d: Disk, l: LogLine)
    requires d.tail == Clean && l.order.state == OutgoingInFlight
    ensures Anchored(Put(d, l, Full))
  {
    assert AnchoredAt(Put(d, l, Full), |d.lines|);
  }

  /** Only a dispatch brings an order in flight, and nothing is paid but in flight. */
  lemma ActsInFlight(cfg: Config, m: Machine, a: Action)
    requires PcOk(cfg, m)
    ensures Step(cfg, m, a).order.state == OutgoingInFlight ==>
              m.order.state == OutgoingInFlight || EditOf(cfg, m, a).Dispatch?
    ensures EditOf(cfg, m, a).Dispatch? ==> m.proc.pc == AtDispatch
    ensures !NoPay(Step(cfg, m, a).trace) ==> !NoPay(m.trace) || m.order.state == OutgoingInFlight
    ensures Step(cfg, m, a).proc.pc == AtDispatch ==> EditOf(cfg, m, a) != NoEdit || m.proc.pc == AtDispatch
  {
    var t, es := Step(cfg, m, a), Emits(cfg, m, a);
    StepEdits(cfg, m, a);
    StepEditsOrder(cfg, m, a);
    StepPc(cfg, m, a);
    EmitsOk(cfg, m, a);
    if j :| 0 <= j < |t.trace| && IsPay(t.trace[j]) && j >= |m.trace| {
      assert t.trace[j] == es[j - |m.trace|] && EmittedOk(cfg, m, es, j - |m.trace|);
    }
  }

  lemma WrittenAnchored(f: Life, t: Machine, l: LogLine, cut: Cut)
    requires f.m.Some? && DispatchIsAnchored(f) && l.order == t.order
    requires l.order.state == OutgoingInFlight ==> Anchored(f.disk) || (f.disk.tail == Clean && cut != AllButNewline)
    requires !NoPay(t.trace) ==> Anchored(f.disk)
    ensures var g := Life(Some(if Unfinished(cut) then f.m.value else t), Put(f.disk, l, cut));
            DispatchIsAnchored(Reread(g)) && (cut == Full ==> DispatchIsAnchored(g))
  {
    PutReads(f.disk, l, cut);
    if Anchored(f.disk) {
      PutKeepsAnchor(f.disk, l, cut);
    } else if l.order.state == OutgoingInFlight && cut == Full {
      PutAnchors(f.disk, l);
    }
  }

  lemma ActedAnchored(cfg: Config, f: Life, a: Action, cut: Cut)
    requires Sound(cfg, f) && f.m.Some? && DispatchIsAnchored(f)
    requires EditOf(cfg, f.m.value, a).Dispatch? ==> cut != AllButNewline
    ensures DispatchIsAnchored(Reread(Acted(cfg, f, a, cut)))
    ensures cut == Full ==> DispatchIsAnchored(Acted(cfg, f, a, cut))
  {
    var m := f.m.value;
    var e, t := EditOf(cfg, m, a), Step(cfg, m, a);
    ActsInFlight(cfg, m, a);
    StepEditsOrder(cfg, m, a);
    if e != NoEdit { WrittenAnchored(f, t, EditLine(m.order, e), cut); }
  }

  lemma OtherAnchored(f: Life, cut: Cut)
    requires DispatchIsAnchored(f)
    ensures var g := Life(f.m, PutOther(f.disk, cut));
            DispatchIsAnchored(Reread(g)) && (cut == Full ==> DispatchIsAnchored(g))
  {
    PutOtherReads(f.disk, cut);
    if Anchored(f.disk) { OtherKeepsAnchor(f.disk, cut); }
  }

  lemma BornAnchored(f: Life, p: CreateOrderParams, now: int, cut: Cut)
    requires DispatchIsAnchored(f) && f.m.None?
    ensures DispatchIsAnchored(Reread(Born(f, p, now, cut))) && (cut == Full ==> DispatchIsAnchored(Born(f, p, now, cut)))
  {
    var l := BirthLine(p, now);
    PutReads(f.disk, l, cut);
    if Anchored(f.disk) { PutKeepsAnchor(f.disk, l, cut); }
  }

  lemma StepAnchored(cfg: Config, f: Life, turn: Turn)
    requires Sound(cfg, f) && DispatchIsAnchored(f) && !DispatchLacksNewline(cfg, f, turn)
    ensures DispatchIsAnchored(LifeStep(cfg, f, turn))
  {
    match turn
    case Own(a) => if f.m.Some? && a != Crash { ActedAnchored(cfg, f, a, Full); }
    case OwnCut(a, cut) => if f.m.Some? { ActedAnchored(cfg, f, a, cut); }
    case Birth(p, now) => if f.m.None? { BornAnchored(f, p, now, Full); }
    case BirthCut(p, now, cut) => if f.m.None? { BornAnchored(f, p, now, cut); }
    case Other => OtherAnchored(f, Full);
    case OtherCut(cut) => OtherAnchored(f, cut);
  }

  lemma AnchoredIsNotPending(cfg: Config, f: Life)
    requires Sound(cfg, f) && Anchored(f.disk) && f.m.Some?
    ensures !PaysAnew(f)
  {
    var i :| AnchoredAt(f.disk, i);
    var book := ReadBack(f.disk);
    assert book[i] == f.disk.lines[i];
    assert Later(book[i].order.state, book[|book| - 1].order.state);
  }

  /** What was paid is on disk, and stays there whatever dies. */
  lemma PaidIsAnchored(cfg: Config, f: Life, turn: Turn)
    requires Sound(cfg, f) && DispatchIsAnchored(f) && Before(cfg, f, turn).m.Some?
    ensures !NoPay(Before(cfg, f, turn).m.value.trace) ==> Anchored(Before(cfg, f, turn).disk)
  {
    if !NoPay(Before(cfg, f, turn).m.value.trace) && f.m.Some? {
      var m := f.m.value;
      if turn.Own? || turn.OwnCut? {
        ActsInFlight(cfg, m, turn.a);
        var e := EditOf(cfg, m, turn.a);
        if e != NoEdit { PutKeepsAnchor(f.disk, EditLine(m.order, e), if turn.Own? then Full else turn.cut); }
      } else if turn.OtherCut? || turn.Other? {
        OtherKeepsAnchor(f.disk, if turn.Other? then Full else turn.cut);
      }
    }
  }

  lemma BeforePaid(cfg: Config, f: Life, turn: Turn)
    requires Sound(cfg, f) && DispatchIsAnchored(f) && Dies(turn)
    ensures !PaysAnew(Before(cfg, f, turn))
  {
    var g := Before(cfg, f, turn);
    BeforeSound(cfg, f, turn);
    if g.m.Some? && !NoPay(g.m.value.trace) {
      PaidIsAnchored(cfg, f, turn);
      AnchoredIsNotPending(cfg, g);
    }
  }

  /** Single flight survives every torn append but one kind: a dispatch is never a process's first record, so it is
      forgotten only if it lacked its newline. In every other life, two pays are separated by a denial. */
  lemma {:induction false} SingleFlightSurvives(cfg: Config, f: Life, turns: seq<Turn>)
    requires Sound(cfg, f) && OnePayment(f) && DispatchIsAnchored(f) && DispatchesComplete(cfg, f, turns)
    ensures NeverPaysAnew(cfg, f, turns) && DispatchIsAnchored(LifeRun(cfg, f, turns)) && OnePayment(LifeRun(cfg, f, turns))
  {
    if turns != [] {
      var init, turn := turns[..|turns| - 1], turns[|turns| - 1];
      var g := LifeRun(cfg, f, init);
      SingleFlightSurvives(cfg, f, init);
      SurvivesForgetting(cfg, f, init);
      StepAnchored(cfg, g, turn);
      if Dies(turn) { BeforePaid(cfg, g, turn); }
      SingleFlightUnlessPaidAnew(cfg, f, turns);
    }
  }

  // ----- The hold before the pay: the exact condition -----

  predicate HoldOnRecord(trail: seq<OrderEvent>) {
    exists k :: 0 <= k < |trail| && trail[k].toState == IncomingHeld
  }

  predicate HoldComesFirst(m: Machine) {
    m.order.state == OutgoingInFlight || m.proc.pc == AtDispatch ==> HoldOnRecord(m.trail)
  }

  lemma RowsStay(trail: seq<OrderEvent>, more: seq<OrderEvent>)
    requires trail <= more && HoldOnRecord(trail)
    ensures HoldOnRecord(more)
  {
    var k :| 0 <= k < |trail| && trail[k].toState == IncomingHeld;
    assert more[k] == trail[k];
  }

  lemma StepHoldComesFirst(cfg: Config, m: Machine, a: Action)
    requires PcOk(cfg, m) && HoldComesFirst(m)
    ensures HoldComesFirst(Step(cfg, m, a)) && m.trail <= Step(cfg, m, a).trail && m.trace <= Step(cfg, m, a).trace
    ensures forall j :: |m.trace| <= j < |Step(cfg, m, a).trace| && IsPay(Step(cfg, m, a).trace[j]) ==> HoldOnRecord(m.trail)
  {
    var e, t := EditOf(cfg, m, a), Step(cfg, m, a);
    StepEdits(cfg, m, a);
    StepPc(cfg, m, a);
    ActsInFlight(cfg, m, a);
    if e.ArriveHold? {
      assert t.trail[|m.trail|].toState == IncomingHeld;
    } else if HoldOnRecord(m.trail) {
      RowsStay(m.trail, t.trail);
    }
    forall j | |m.trace| <= j < |t.trace| && IsPay(t.trace[j]) ensures HoldOnRecord(m.trail) {
      StepPaysInFlight(cfg, m, a, j);
    }
  }

  lemma {:induction false} RunHoldComesFirst(cfg: Config, m: Machine, actions: seq<Action>)
    requires PcOk(cfg, m) && HoldComesFirst(m)
    ensures var t := Steps(cfg, m, actions);
            && m.trail <= t.trail && m.trace <= t.trace
            && forall j :: |m.trace| <= j < |t.trace| && IsPay(t.trace[j]) ==> HoldOnRecord(t.trail)
    decreases |actions|
  {
    if actions != [] {
      var m1, t := Step(cfg, m, actions[0]), Steps(cfg, m, actions);
      StepHoldComesFirst(cfg, m, actions[0]);
      StepPcOk(cfg, m, actions[0]);
      RunHoldComesFirst(cfg, m1, actions[1..]);
      forall j | |m.trace| <= j < |t.trace| && IsPay(t.trace[j]) ensures HoldOnRecord(t.trail) {
        if j < |m1.trace| {
          assert m1.trace[j] == t.trace[j];
          RowsStay(m.trail, t.trail);
        }
      }
    }
  }

  ghost predicate PaysUnheld(m: Machine, t: Machine) {
    |m.trace| < |t.trace| && IsPay(t.trace[|t.trace| - 1]) && !HoldOnRecord(t.trail)
  }

  ghost predicate CanPayUnheld(cfg: Config, m: Machine) {
    exists t, at :: Reaches(cfg, m, t, at) && PaysUnheld(m, t)
  }

  /** An order can be paid with no INCOMING_HELD on its record if and only if the next process finds it in flight
      without one. */
  lemma PaidWithoutHoldExactly(cfg: Config, m: Machine)
    requires m.proc == IDLE && LegsAgree(cfg, m.order)
    ensures CanPayUnheld(cfg, m) <==> m.order.state == OutgoingInFlight && !HoldOnRecord(m.trail)
  {
    if m.order.state == OutgoingInFlight && !HoldOnRecord(m.trail) {
      var t := InFlightPays(cfg, m, 0);
      assert PaysUnheld(m, t);
    } else {
      forall t, at | Reaches(cfg, m, t, at) ensures !PaysUnheld(m, t) {
        var actions :| AllAt(actions, at) && Steps(cfg, m, actions) == t;
        RunHoldComesFirst(cfg, m, actions);
      }
    }
  }

  // ----- Outcomes: the exact condition -----

  predicate HasState(lines: seq<LogLine>, s: OrderState) {
    exists i :: 0 <= i < |lines| && lines[i].order.state == s
  }

  lemma HasStateStill(some: seq<LogLine>, lines: seq<LogLine>, s: OrderState)
    requires some <= lines && HasState(some, s)
    ensures HasState(lines, s)
  {
    var i :| 0 <= i < |some| && some[i].order.state == s;
    assert lines[i] == some[i];
  }

  lemma HasStateOneMore(lines: seq<LogLine>, l: LogLine, s: OrderState)
    ensures HasState(lines + [l], s) <==> HasState(lines, s) || l.order.state == s
  {
    var all := lines + [l];
    assert all[|lines|] == l;
    if HasState(lines, s) { HasStateStill(lines, all, s); }
    if i :| 0 <= i < |all| && all[i].order.state == s && i < |lines| {
      assert lines[i] == all[i];
    }
  }

  /** Nothing follows a terminal record but records in its state. */
  lemma LastHasState(cfg: Config, book: seq<LogLine>, o: Order, s: OrderState)
    requires Consistent(cfg, book, o) && Terminal(s) && HasState(book, s)
    ensures book != [] && book[|book| - 1].order.state == s
  {
    var i :| 0 <= i < |book| && book[i].order.state == s;
    if i < |book| - 1 { assert Later(book[i].order.state, book[|book| - 1].order.state); }
  }

  /** The order is known, in state `s`. */
  predicate IsIn(f: Life, s: OrderState) {
    f.m.Some? && f.m.value.order.state == s
  }

  /** Every process finds it there and leaves it there, in every continuation. */
  ghost predicate StaysIn(cfg: Config, f: Life, s: OrderState) {
    forall turns :: IsIn(LifeRun(cfg, f, turns), s)
  }

  lemma LinesStay(cfg: Config, f: Life, turn: Turn)
    ensures f.disk.lines <= Before(cfg, f, turn).disk.lines
  {
  }

  lemma BeforeStaysIn(cfg: Config, f: Life, turn: Turn, s: OrderState)
    requires Sound(cfg, f) && IsIn(f, s) && Terminal(s)
    ensures IsIn(Before(cfg, f, turn), s)
  {
    if turn.Own? || turn.OwnCut? { StepEditsOrder(cfg, f.m.value, turn.a); }
  }

  lemma RereadIsIn(cfg: Config, f: Life, s: OrderState)
    requires Sound(cfg, f) && f.m.Some? && Terminal(s) && HasState(ReadBack(f.disk), s)
    ensures IsIn(Reread(f), s)
  {
    LastHasState(cfg, ReadBack(f.disk), f.m.value.order, s);
  }

  lemma StepStaysIn(cfg: Config, f: Life, turn: Turn, s: OrderState)
    requires Sound(cfg, f) && IsIn(f, s) && Terminal(s) && HasState(f.disk.lines, s)
    ensures IsIn(LifeStep(cfg, f, turn), s) && HasState(LifeStep(cfg, f, turn).disk.lines, s)
  {
    var g := Before(cfg, f, turn);
    BeforeSound(cfg, f, turn);
    BeforeStaysIn(cfg, f, turn, s);
    LinesStay(cfg, f, turn);
    HasStateStill(f.disk.lines, g.disk.lines, s);
    HasStateStill(g.disk.lines, ReadBack(g.disk), s);
    RereadIsIn(cfg, g, s);
  }

  lemma {:induction false} OutcomeStays(cfg: Config, f: Life, turns: seq<Turn>, s: OrderState)
    requires Sound(cfg, f) && IsIn(f, s) && Terminal(s) && HasState(f.disk.lines, s)
    ensures IsIn(LifeRun(cfg, f, turns), s) && HasState(LifeRun(cfg, f, turns).disk.lines, s)
  {
    if turns != [] {
      var init := turns[..|turns| - 1];
      OutcomeStays(cfg, f, init, s);
      SurvivesForgetting(cfg, f, init);
      StepStaysIn(cfg, LifeRun(cfg, f, init), turns[|turns| - 1], s);
    }
  }

  /** Otherwise the next record of another order takes it away. */
  lemma OutcomeIsTaken(cfg: Config, f: Life, s: OrderState)
    requires !HasState(f.disk.lines, s)
    ensures !IsIn(LifeRun(cfg, f, [OtherCut(Full)]), s)
  {
    assert [OtherCut(Full)][..0] == [];
    assert f.disk.lines + [] == f.disk.lines;
    Found(Before(cfg, f, OtherCut(Full)));
  }

  /** A terminal state is there for good, through all deaths to come, if and only if a record in it got its newline. */
  lemma OutcomeStaysExactly(cfg: Config, f: Life, s: OrderState)
    requires Sound(cfg, f) && IsIn(f, s) && Terminal(s)
    ensures StaysIn(cfg, f, s) <==> HasState(f.disk.lines, s)
  {
    if HasState(f.disk.lines, s) {
      forall turns ensures IsIn(LifeRun(cfg, f, turns), s) { OutcomeStays(cfg, f, turns, s); }
    } else {
      OutcomeIsTaken(cfg, f, s);
    }
  }

  lemma NoOutcomeYet(cfg: Config, f: Life, s: OrderState)
    requires Sound(cfg, f) && f.m.Some? && Terminal(s) && f.m.value.order.state != s
    ensures !HasState(f.disk.lines, s)
  {
    forall i | 0 <= i < |f.disk.lines| ensures f.disk.lines[i].order.state != s {
      assert ReadBack(f.disk)[i] == f.disk.lines[i];
    }
  }

  /** Whether the order is found in `s` at all or not. */
  lemma StaysInExactly(cfg: Config, f: Life, s: OrderState)
    requires Sound(cfg, f) && Terminal(s) && (HasState(f.disk.lines, s) ==> f.m.Some? && IsIn(f, s))
    ensures StaysIn(cfg, f, s) <==> HasState(f.disk.lines, s)
  {
    if IsIn(f, s) {
      OutcomeStaysExactly(cfg, f, s);
    } else {
      assert LifeRun(cfg, f, []) == f;
    }
  }

  /** The step that ends an order does so for good, through all deaths to come, if and only if its record is written
      where a record ends, newline included. */
  lemma OutcomeIsFinalExactly(cfg: Config, f: Life, a: Action, cut: Cut)
    requires Sound(cfg, f) && f.m.Some? && !Terminal(f.m.value.order.state)
    requires Terminal(Step(cfg, f.m.value, a).order.state)
    ensures var s := Step(cfg, f.m.value, a).order.state;
            && (StaysIn(cfg, LifeStep(cfg, f, OwnCut(a, cut)), s) <==> f.disk.tail == Clean && cut == Full)
            && (StaysIn(cfg, LifeStep(cfg, f, Own(a)), s) <==> f.disk.tail == Clean)
  {
    EndsHere(cfg, f, a, Own(a), Full);
    EndsHere(cfg, f, a, OwnCut(a, cut), cut);
  }

  lemma WritesState(d: Disk, l: LogLine, cut: Cut, s: OrderState)
    requires !HasState(d.lines, s) && l.order.state == s
    ensures HasState(Put(d, l, cut).lines, s) <==> d.tail == Clean && cut == Full
  {
    HasStateOneMore(d.lines, l, s);
  }

  lemma EndsHere(cfg: Config, f: Life, a: Action, turn: Turn, cut: Cut)
    requires Sound(cfg, f) && f.m.Some? && !Terminal(f.m.value.order.state)
    requires Terminal(Step(cfg, f.m.value, a).order.state)
    requires turn == OwnCut(a, cut) || (turn == Own(a) && cut == Full)
    ensures StaysIn(cfg, LifeStep(cfg, f, turn), Step(cfg, f.m.value, a).order.state) <==>
              f.disk.tail == Clean && cut == Full
  {
    var m, s := f.m.value, Step(cfg, f.m.value, a).order.state;
    StepEditsOrder(cfg, m, a);
    NoOutcomeYet(cfg, f, s);
    WritesState(f.disk, EditLine(m.order, EditOf(cfg, m, a)), cut, s);
    ActedSound(cfg, f, a, cut);
    StepSound(cfg, f, turn);
    FoundWhereWritten(cfg, Acted(cfg, f, a, cut), s);
    StaysInExactly(cfg, LifeStep(cfg, f, turn), s);
  }

  lemma FoundWhereWritten(cfg: Config, b: Life, s: OrderState)
    requires Sound(cfg, b) && b.m.Some? && Terminal(s)
    ensures HasState(b.disk.lines, s) ==> IsIn(Reread(b), s)
  {
    if HasState(b.disk.lines, s) {
      HasStateStill(b.disk.lines, ReadBack(b.disk), s);
      RereadIsIn(cfg, b, s);
    }
  }

  lemma Found(f: Life)
    ensures var book := ReadBack(f.disk);
            if book == [] then Reread(f).m == None else Reread(f).m.Some? && Reread(f).m.value.order == book[|book| - 1].order
  {
  }

  /** Before its creation, over whatever file. */
  function Unborn(tail: Tail): Life {
    Life(None, Disk([], if tail.Whole? then Torn else tail))
  }

  lemma UnbornIsSound(cfg: Config, tail: Tail)
    ensures Sound(cfg, Unborn(tail)) && OnePayment(Unborn(tail)) && DispatchIsAnchored(Unborn(tail))
  {
  }
}
