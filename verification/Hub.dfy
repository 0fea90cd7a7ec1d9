/** Many orders of one hub over one file: one table of orders, one index by hash, one log, and processes that die and
    are followed by others. Each order's part in this is a life of OrderLife. */
module Hub {
  import opened Basics
  import opened Orders
  import opened OrderMachine
  import opened OrderLog
  import opened OrderDisk
  import opened MachineSteps
  import opened MachineSafety
  import opened MachineHistory
  import opened OrderLife

  datatype Hub = Hub(machines: map<OrderId, Machine>, byHash: map<Hash, OrderId>, disk: Disk, ready: bool)

  const NOTHING := Hub(map[], map[], BLANK_DISK, false)

  /** `Open` is the end of `start()`. The `Cut` deeds are deaths in the middle of an append, `Die` between two. */
  datatype Deed =
    | Create(p: CreateOrderParams, now: int)
    | Do(id: OrderId, a: Action)
    | Open
    | CreateCut(p: CreateOrderParams, now: int, cut: Cut)
    | DoCut(id: OrderId, a: Action, cut: Cut)
    | Die

  predicate CanCreate(cfg: Config, h: Hub, p: CreateOrderParams) {
    h.ready && IsHash256(p.paymentHash) && ExpiryGuard(cfg, p) && p.orderId !in h.machines && p.paymentHash !in h.byHash
  }

  function Creates(h: Hub, p: CreateOrderParams, now: int, cut: Cut): Hub {
    var disk := Put(h.disk, BirthLine(p, now), cut);
    if Unfinished(cut) then h.(disk := disk)
    else h.(machines := h.machines[p.orderId := Created(p, now)], byHash := h.byHash[p.paymentHash := p.orderId], disk := disk)
  }

  function Acts(cfg: Config, h: Hub, id: OrderId, a: Action, cut: Cut): Hub
    requires id in h.machines
  {
    var m := h.machines[id];
    var e := EditOf(cfg, m, a);
    if e == NoEdit then h.(machines := h.machines[id := Step(cfg, m, a)])
    else
      var disk := Put(h.disk, EditLine(m.order, e), cut);
      if Unfinished(cut) then h.(disk := disk)
      else h.(machines := h.machines[id := Step(cfg, m, a)], byHash := h.byHash[m.order.paymentHash := id], disk := disk)
  }

  function After(cfg: Config, h: Hub, deed: Deed): Hub {
    match deed
    case Create(p, now) => if CanCreate(cfg, h, p) then Creates(h, p, now, Full) else h
    case CreateCut(p, now, cut) => if CanCreate(cfg, h, p) then Creates(h, p, now, cut) else h
    case Do(id, a) => if id in h.machines && a != Crash then Acts(cfg, h, id, a, Full) else h
    case DoCut(id, a, cut) => if id in h.machines then Acts(cfg, h, id, a, cut) else h
    case Open => h.(ready := true)
    case Die => h
  }

  predicate Kills(deed: Deed) {
    deed.CreateCut? || deed.DoCut? || deed.Die?
  }

  function TraceIn(h: Hub, id: OrderId): seq<Obs> {
    if id in h.machines then h.machines[id].trace else []
  }

  /** The orders that these records tell of, each with all its rows. What the outside has seen of them stays seen. */
  function Loaded(h: Hub, lines: seq<LogLine>): map<OrderId, Machine> {
    if lines == [] then map[] else
    var before, l := Loaded(h, lines[..|lines| - 1]), lines[|lines| - 1];
    var id := l.order.orderId;
    var rows := if id in before then before[id].trail else [];
    before[id := Machine(l.order, rows + [Row(l)], IDLE, TraceIn(h, id))]
  }

  /** The next process loads the file. */
  function Restart(h: Hub): Hub {
    var lines := ReadBack(h.disk);
    Hub(Loaded(h, lines), LoadAll(OrderLog.EMPTY, lines).byHash, h.disk, false)
  }

  /** The machines are those of the memory that loads the same records. */
  lemma {:induction false} LoadedIsMemory(h: Hub, lines: seq<LogLine>, id: OrderId)
    ensures var mem := LoadAll(OrderLog.EMPTY, lines);
            && (id in Loaded(h, lines) <==> id in mem.orders)
            && (id !in mem.orders ==> EventsOf(mem, id) == [])
            && (id in mem.orders ==>
                  Loaded(h, lines)[id] == Machine(mem.orders[id], EventsOf(mem, id), IDLE, TraceIn(h, id)))
  {
    if lines != [] {
      LoadedIsMemory(h, lines[..|lines| - 1], id);
    }
  }

  function HubStep(cfg: Config, h: Hub, deed: Deed): Hub {
    if Kills(deed) then Restart(After(cfg, h, deed)) else After(cfg, h, deed)
  }

  function HubRun(cfg: Config, h: Hub, deeds: seq<Deed>): Hub {
    if deeds == [] then h else HubStep(cfg, HubRun(cfg, h, deeds[..|deeds| - 1]), deeds[|deeds| - 1])
  }

  lemma HubRunOne(cfg: Config, h: Hub, deeds: seq<Deed>, deed: Deed)
    ensures HubRun(cfg, h, deeds + [deed]) == HubStep(cfg, HubRun(cfg, h, deeds), deed)
  {
    assert (deeds + [deed])[..|deeds|] == deeds;
  }

  lemma HubRunUpTo(cfg: Config, h: Hub, deeds: seq<Deed>, i: nat)
    requires i < |deeds|
    ensures HubRun(cfg, h, deeds[..i + 1]) == HubStep(cfg, HubRun(cfg, h, deeds[..i]), deeds[i])
  {
    assert deeds[..i + 1] == deeds[..i] + [deeds[i]];
    HubRunOne(cfg, h, deeds[..i], deeds[i]);
  }

  lemma {:induction false} HubRunAppend(cfg: Config, h: Hub, deeds: seq<Deed>, more: seq<Deed>)
    ensures HubRun(cfg, h, deeds + more) == HubRun(cfg, HubRun(cfg, h, deeds), more)
  {
    if more == [] {
      assert deeds + more == deeds;
    } else {
      var init, last := more[..|more| - 1], more[|more| - 1];
      HubRunAppend(cfg, h, deeds, init);
      InitAndLast(more);
      Associate(deeds, init, [last]);
      HubRunOne(cfg, h, deeds + init, last);
    }
  }

  lemma OpenThen(cfg: Config, h: Hub, deed: Deed)
    ensures HubRun(cfg, h, [Deed.Open, deed]) == HubStep(cfg, h.(ready := true), deed)
  {
    HubRunOne(cfg, h, [], Deed.Open);
    HubRunOne(cfg, h, [Deed.Open], deed);
    assert [] + [Deed.Open] == [Deed.Open] && [Deed.Open] + [deed] == [Deed.Open, deed];
  }

  // ----- One order of the hub -----

  function LifeOf(h: Hub, id: OrderId): Life {
    Life(if id in h.machines then Some(h.machines[id]) else None, MyDisk(h.disk, id))
  }

  /** What a deed is to one order: its own turn, a record of another order, a death, or nothing at all. */
  function TurnsOf(cfg: Config, h: Hub, deed: Deed, id: OrderId): seq<Turn> {
    match deed
    case Create(p, now) =>
      if !CanCreate(cfg, h, p) then [] else if p.orderId == id then [Birth(p, now)] else [Other]
    case CreateCut(p, now, cut) =>
      if !CanCreate(cfg, h, p) then [OtherCut(Nothing)]
      else if p.orderId == id then [BirthCut(p, now, cut)] else [OtherCut(cut)]
    case Do(i, a) =>
      if i !in h.machines || a == Crash then []
      else if i == id then [Own(a)]
      else if EditOf(cfg, h.machines[i], a) == NoEdit then [] else [Other]
    case DoCut(i, a, cut) =>
      if i !in h.machines then [OtherCut(Nothing)]
      else if i == id then [OwnCut(a, cut)]
      else if EditOf(cfg, h.machines[i], a) == NoEdit then [OtherCut(Nothing)] else [OtherCut(cut)]
    case Open => []
    case Die => [OtherCut(Nothing)]
  }

  ghost predicate UnderOwnId(h: Hub) {
    forall id :: id in h.machines ==> h.machines[id].order.orderId == id
  }

  lemma NewLife(cfg: Config, h: Hub, p: CreateOrderParams, now: int, cut: Cut, id: OrderId)
    requires CanCreate(cfg, h, p)
    ensures LifeOf(Creates(h, p, now, cut), id) ==
              if p.orderId == id then Born(LifeOf(h, id), p, now, cut)
              else Life(LifeOf(h, id).m, PutOther(LifeOf(h, id).disk, cut))
  {
    MyPut(h.disk, BirthLine(p, now), cut, id);
  }

  /** What a record of order `i` is to order `id`. */
  lemma WritingLife(h: Hub, i: OrderId, t: Machine, l: LogLine, cut: Cut, id: OrderId)
    requires i in h.machines && l.order.orderId == i
    ensures var f, disk := LifeOf(h, id), Put(h.disk, l, cut);
            && LifeOf(h.(disk := disk), id) == Life(f.m, if i == id then Put(f.disk, l, cut) else PutOther(f.disk, cut))
            && LifeOf(h.(machines := h.machines[i := t], disk := disk), id) ==
                 if i == id then Life(Some(t), Put(f.disk, l, cut)) else Life(f.m, PutOther(f.disk, cut))
  {
    MyPut(h.disk, l, cut, id);
  }

  lemma EditKeepsIds(o: Order, e: Edit)
    ensures Apply(o, e).orderId == o.orderId && Apply(o, e).paymentHash == o.paymentHash
  {
  }

  lemma OwnActing(cfg: Config, h: Hub, id: OrderId, a: Action, cut: Cut)
    requires UnderOwnId(h) && id in h.machines
    ensures LifeOf(Acts(cfg, h, id, a, cut), id) == Acted(cfg, LifeOf(h, id), a, cut)
  {
    var m := h.machines[id];
    var e, t := EditOf(cfg, m, a), Step(cfg, m, a);
    if e != NoEdit {
      EditKeepsIds(m.order, e);
      WritingLife(h, id, t, EditLine(m.order, e), cut, id);
      IndexIsNotLife(Acts(cfg, h, id, a, cut), id, h.byHash);
    }
  }

  lemma OthersActing(cfg: Config, h: Hub, i: OrderId, a: Action, cut: Cut, id: OrderId)
    requires UnderOwnId(h) && i in h.machines && i != id
    ensures LifeOf(Acts(cfg, h, i, a, cut), id) ==
              if EditOf(cfg, h.machines[i], a) == NoEdit then LifeOf(h, id)
              else Life(LifeOf(h, id).m, PutOther(LifeOf(h, id).disk, cut))
  {
    var m := h.machines[i];
    var e, t := EditOf(cfg, m, a), Step(cfg, m, a);
    if e != NoEdit {
      EditKeepsIds(m.order, e);
      WritingLife(h, i, t, EditLine(m.order, e), cut, id);
      IndexIsNotLife(Acts(cfg, h, i, a, cut), id, h.byHash);
    }
  }

  lemma ActingLife(cfg: Config, h: Hub, i: OrderId, a: Action, cut: Cut, id: OrderId)
    requires UnderOwnId(h) && i in h.machines
    ensures LifeOf(Acts(cfg, h, i, a, cut), id) ==
              if i == id then Acted(cfg, LifeOf(h, id), a, cut)
              else if EditOf(cfg, h.machines[i], a) == NoEdit then LifeOf(h, id)
              else Life(LifeOf(h, id).m, PutOther(LifeOf(h, id).disk, cut))
  {
    if i == id { OwnActing(cfg, h, id, a, cut); } else { OthersActing(cfg, h, i, a, cut, id); }
  }

  lemma IndexIsNotLife(h: Hub, id: OrderId, byHash: map<Hash, OrderId>)
    ensures LifeOf(h.(byHash := byHash), id) == LifeOf(h, id)
  {
  }

  lemma RestartedLife(h: Hub, id: OrderId)
    ensures LifeOf(Restart(h), id) == Reread(LifeOf(h, id))
  {
    LoadsMine(ReadBack(h.disk), id);
    LoadedIsMemory(h, ReadBack(h.disk), id);
    MyReadBack(h.disk, id);
  }

  lemma {:induction false} MineIsMine(lines: seq<LogLine>, id: OrderId)
    ensures forall i :: 0 <= i < |Mine(lines, id)| ==> Mine(lines, id)[i].order.orderId == id
  {
    if lines != [] {
      MineIsMine(lines[..|lines| - 1], id);
    }
  }

  lemma RestartFiled(h: Hub)
    ensures UnderOwnId(Restart(h))
  {
    forall id | id in Restart(h).machines ensures Restart(h).machines[id].order.orderId == id {
      LoadsMine(ReadBack(h.disk), id);
      LoadedIsMemory(h, ReadBack(h.disk), id);
      MineIsMine(ReadBack(h.disk), id);
    }
  }

  /** No step changes an order's id or its hash. */
  lemma StepKeepsIds(cfg: Config, m: Machine, a: Action)
    ensures Step(cfg, m, a).order.orderId == m.order.orderId && Step(cfg, m, a).order.paymentHash == m.order.paymentHash
  {
    StepEdits(cfg, m, a);
  }

  lemma ActsFiled(cfg: Config, h: Hub, id: OrderId, a: Action, cut: Cut)
    requires UnderOwnId(h) && id in h.machines
    ensures UnderOwnId(Acts(cfg, h, id, a, cut))
  {
    StepKeepsIds(cfg, h.machines[id], a);
  }

  lemma StepFiled(cfg: Config, h: Hub, deed: Deed)
    requires UnderOwnId(h)
    ensures UnderOwnId(After(cfg, h, deed)) && UnderOwnId(HubStep(cfg, h, deed))
  {
    if deed.Do? && deed.id in h.machines { ActsFiled(cfg, h, deed.id, deed.a, Full); }
    if deed.DoCut? && deed.id in h.machines { ActsFiled(cfg, h, deed.id, deed.a, deed.cut); }
    RestartFiled(After(cfg, h, deed));
  }

  lemma NothingPut(f: Life)
    ensures Life(f.m, PutOther(f.disk, Nothing)) == f
  {
  }

  lemma OneTurn(cfg: Config, f: Life, turn: Turn)
    ensures LifeRun(cfg, f, [turn]) == LifeStep(cfg, f, turn)
  {
    assert [turn][..0] == [];
  }

  lemma AliveDeedIsTurns(cfg: Config, h: Hub, deed: Deed, id: OrderId)
    requires UnderOwnId(h) && !Kills(deed)
    ensures LifeOf(After(cfg, h, deed), id) == LifeRun(cfg, LifeOf(h, id), TurnsOf(cfg, h, deed, id))
  {
    var turns := TurnsOf(cfg, h, deed, id);
    if turns != [] { OneTurn(cfg, LifeOf(h, id), turns[0]); }
    match deed
    case Create(p, now) => if CanCreate(cfg, h, p) { NewLife(cfg, h, p, now, Full, id); }
    case Do(i, a) => if i in h.machines && a != Crash { ActingLife(cfg, h, i, a, Full, id); }
    case Open =>
  }

  /** A death is one turn for everybody. */
  lemma DeathIsTurn(cfg: Config, h: Hub, deed: Deed, id: OrderId)
    requires UnderOwnId(h) && Kills(deed)
    ensures |TurnsOf(cfg, h, deed, id)| == 1 && Dies(TurnsOf(cfg, h, deed, id)[0])
    ensures LifeOf(After(cfg, h, deed), id) == Before(cfg, LifeOf(h, id), TurnsOf(cfg, h, deed, id)[0])
  {
    NothingPut(LifeOf(h, id));
    match deed
    case CreateCut(p, now, cut) => if CanCreate(cfg, h, p) { NewLife(cfg, h, p, now, cut, id); }
    case DoCut(i, a, cut) => if i in h.machines { ActingLife(cfg, h, i, a, cut, id); }
    case Die =>
  }

  /** Each deed of the hub is, to each order, the turns it takes in it. */
  lemma DeedIsTurns(cfg: Config, h: Hub, deed: Deed, id: OrderId)
    requires UnderOwnId(h)
    ensures LifeOf(HubStep(cfg, h, deed), id) == LifeRun(cfg, LifeOf(h, id), TurnsOf(cfg, h, deed, id))
  {
    if Kills(deed) {
      DeathIsTurn(cfg, h, deed, id);
      OneTurn(cfg, LifeOf(h, id), TurnsOf(cfg, h, deed, id)[0]);
      RestartedLife(After(cfg, h, deed), id);
    } else {
      AliveDeedIsTurns(cfg, h, deed, id);
    }
  }

  lemma LifeRunOne(cfg: Config, f: Life, turns: seq<Turn>, turn: Turn)
    ensures LifeRun(cfg, f, turns + [turn]) == LifeStep(cfg, LifeRun(cfg, f, turns), turn)
  {
    assert (turns + [turn])[..|turns|] == turns;
  }

  lemma {:induction false} LifeRunAppend(cfg: Config, f: Life, turns: seq<Turn>, more: seq<Turn>)
    ensures LifeRun(cfg, f, turns + more) == LifeRun(cfg, LifeRun(cfg, f, turns), more)
  {
    if more == [] {
      assert turns + more == turns;
    } else {
      var init, last := more[..|more| - 1], more[|more| - 1];
      LifeRunAppend(cfg, f, turns, init);
      InitAndLast(more);
      Associate(turns, init, [last]);
      LifeRunOne(cfg, f, turns + init, last);
    }
  }

  function LifeTurns(cfg: Config, h: Hub, deeds: seq<Deed>, id: OrderId): seq<Turn> {
    if deeds == [] then [] else
    var init := deeds[..|deeds| - 1];
    LifeTurns(cfg, h, init, id) + TurnsOf(cfg, HubRun(cfg, h, init), deeds[|deeds| - 1], id)
  }

  /** Whatever the orders do to each other through the one file, each of them lives a life: its own steps, the records
      of others, and the deaths. */
  lemma {:induction false} EachOrderLives(cfg: Config, h: Hub, deeds: seq<Deed>, id: OrderId)
    requires UnderOwnId(h)
    ensures UnderOwnId(HubRun(cfg, h, deeds))
    ensures LifeOf(HubRun(cfg, h, deeds), id) == LifeRun(cfg, LifeOf(h, id), LifeTurns(cfg, h, deeds, id))
  {
    if deeds != [] {
      var init, deed := deeds[..|deeds| - 1], deeds[|deeds| - 1];
      var g := HubRun(cfg, h, init);
      EachOrderLives(cfg, h, init, id);
      StepFiled(cfg, g, deed);
      DeedIsTurns(cfg, g, deed, id);
      LifeRunAppend(cfg, LifeOf(h, id), LifeTurns(cfg, h, init, id), TurnsOf(cfg, g, deed, id));
    }
  }
}
