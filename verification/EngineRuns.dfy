/** Runs of the class OrderEngine over its store, through processes that die in the middle of an append: each is a run
    of Hub, so what is proved of those holds of the class. */
module EngineRuns {
  import opened Basics
  import opened Orders
  import opened OrderMachine
  import opened OrderLog
  import opened OrderDisk
  import opened OrderStore
  import opened MachineSteps
  import opened MachineSafety
  import opened OrderLife
  import opened Hub
  import opened HubSafety
  import opened HashSafety
  import opened Isolation
  import opened OrderEngine

  /** An engine with its store and its file, as a hub. */
  ghost function StateOf(e: OrderEngine): Hub
    requires e.Valid()
    reads e, e.store
  {
    Hub(e.Machines(), e.store.byHash, DiskOf(e.store.codec, e.store.file), e.ready)
  }

  ghost predicate Works(e: OrderEngine)
    reads e, e.store
  {
    e.Valid() && Tidy(e.store.file)
  }

  // ----- What was appended can be told from what memory has become -----

  lemma {:induction false} Known(mem: Memory, lines: seq<LogLine>, i: nat)
    requires i < |lines|
    ensures lines[i].order.orderId in LoadAll(mem, lines).orders && CountFor(lines, lines[i].order.orderId) >= 1
  {
    if i < |lines| - 1 {
      Known(mem, lines[..|lines| - 1], i);
    }
  }

  lemma {:induction false} AllOfOne(lines: seq<LogLine>, id: OrderId)
    requires forall i :: 0 <= i < |lines| ==> lines[i].order.orderId == id
    ensures CountFor(lines, id) == |lines|
  {
    if lines != [] {
      AllOfOne(lines[..|lines| - 1], id);
    }
  }

  /** Orders whose trails did not grow were not written. */
  lemma AllItsOwn(mem: Memory, lines: seq<LogLine>, id: OrderId)
    requires forall other :: other in LoadAll(mem, lines).orders && other != id ==>
               EventsOf(LoadAll(mem, lines), other) == EventsOf(mem, other)
    ensures CountFor(lines, id) == |lines| && forall i :: 0 <= i < |lines| ==> lines[i].order.orderId == id
  {
    forall i | 0 <= i < |lines| ensures lines[i].order.orderId == id {
      Known(mem, lines, i);
      RowsLoaded(mem, lines, lines[i].order.orderId);
    }
    AllOfOne(lines, id);
  }

  lemma NewLines(mem: Memory, lines: seq<LogLine>, id: OrderId, o: Order, e: Edit)
    requires id in LoadAll(mem, lines).orders
    requires forall other :: other in LoadAll(mem, lines).orders && other != id ==>
               EventsOf(LoadAll(mem, lines), other) == EventsOf(mem, other)
    requires EventsOf(LoadAll(mem, lines), id) == Recorded(o, EventsOf(mem, id), e)
    requires LoadAll(mem, lines).orders[id] == Apply(o, e)
    ensures lines == if e == NoEdit then [] else [EditLine(o, e)]
  {
    RowsLoaded(mem, lines, id);
    AllItsOwn(mem, lines, id);
    if lines != [] {
      HeadAndTail(lines);
      assert lines[..0] == [];
      assert LoadAll(mem, lines) == Load(mem, lines[0]);
      assert Row(lines[0]) == EventsOf(LoadAll(mem, lines), id)[|EventsOf(mem, id)|];
    }
  }

  // ----- One deed -----

  ghost function Writes(cfg: Config, m: Machine, a: Action): seq<LogLine> {
    if EditOf(cfg, m, a) == NoEdit then [] else [EditLine(m.order, EditOf(cfg, m, a))]
  }

  ghost predicate MachinesOf(machines: map<OrderId, Machine>, mem: Memory) {
    machines.Keys == mem.orders.Keys &&
    forall id :: id in machines ==> machines[id].order == mem.orders[id] && machines[id].trail == EventsOf(mem, id)
  }

  lemma MachinesMoved(cfg: Config, mem: Memory, t: Memory, lines: seq<LogLine>, was: map<OrderId, Machine>,
                      machines: map<OrderId, Machine>, id: OrderId, a: Action)
    requires MachinesOf(was, mem) && MachinesOf(machines, t) && t == LoadAll(mem, lines)
    requires id in was && machines == was[id := Step(cfg, was[id], a)]
    ensures lines == Writes(cfg, was[id], a)
  {
    var m := was[id];
    StepEdits(cfg, m, a);
    forall other | other in t.orders && other != id ensures EventsOf(t, other) == EventsOf(mem, other) {
      assert machines[other] == was[other];
    }
    NewLines(mem, lines, id, m.order, EditOf(cfg, m, a));
  }

  lemma OneFiled(codec: Codec, text: string, mem: Memory, l: LogLine)
    requires Json(codec) && Tidy(text)
    ensures var grown := text + WrittenAll(codec, [l]);
            Tidy(grown) && DiskOf(codec, grown) == Put(DiskOf(codec, text), l, Full)
    ensures LoadAll(mem, [l]) == Load(mem, l)
  {
    assert [l][..0] == [] && "" + Written(codec, l) == Written(codec, l);
    LineIsPut(codec, text, l);
    LineAppended(codec, text, l);
  }

  lemma ActionFiled(cfg: Config, codec: Codec, text: string, mem: Memory, m: Machine, a: Action)
    requires Json(codec) && Tidy(text)
    ensures var grown, e := text + WrittenAll(codec, Writes(cfg, m, a)), EditOf(cfg, m, a);
            && Tidy(grown)
            && DiskOf(codec, grown) ==
                 (if e == NoEdit then DiskOf(codec, text) else Put(DiskOf(codec, text), EditLine(m.order, e), Full))
            && LoadAll(mem, Writes(cfg, m, a)).byHash ==
                 if e == NoEdit then mem.byHash else mem.byHash[m.order.paymentHash := m.order.orderId]
  {
    var e := EditOf(cfg, m, a);
    if e == NoEdit {
      assert text + "" == text;
    } else {
      OneFiled(codec, text, mem, EditLine(m.order, e));
      StepKeepsIds(cfg, m, a);
      StepEdits(cfg, m, a);
    }
  }

  /** So memory and file together moved as the hub does. */
  lemma MovedIsDone(cfg: Config, codec: Codec, h: Hub, g: Hub, id: OrderId, a: Action, text: string,
                    mem: Memory, t: Memory, lines: seq<LogLine>)
    requires Json(codec) && Tidy(text) && a != Crash && t == LoadAll(mem, lines)
    requires h.disk == DiskOf(codec, text) && g.disk == DiskOf(codec, text + WrittenAll(codec, lines))
    requires h.byHash == mem.byHash && g.byHash == t.byHash && g.ready == h.ready
    requires MachinesOf(h.machines, mem) && MachinesOf(g.machines, t)
    requires id in h.machines && h.machines[id].order.orderId == id
    requires g.machines == h.machines[id := Step(cfg, h.machines[id], a)]
    ensures lines == Writes(cfg, h.machines[id], a)
    ensures g == HubStep(cfg, h, Do(id, a)) && Tidy(text + WrittenAll(codec, lines))
  {
    MachinesMoved(cfg, mem, t, lines, h.machines, g.machines, id, a);
    ActionFiled(cfg, codec, text, mem, h.machines[id], a);
  }

  lemma {:induction false} WrittenAppend(codec: Codec, a: seq<LogLine>, b: seq<LogLine>)
    ensures WrittenAll(codec, a + b) == WrittenAll(codec, a) + WrittenAll(codec, b)
  {
    if b == [] {
      assert a + b == a;
    } else {
      var init, l := b[..|b| - 1], b[|b| - 1];
      WrittenAppend(codec, a, init);
      assert (a + b)[..|a + b| - 1] == a + init;
      Associate(WrittenAll(codec, a), WrittenAll(codec, init), Written(codec, l));
    }
  }

  lemma Grown(codec: Codec, found: string, before: seq<LogLine>, lines: seq<LogLine>)
    ensures found + WrittenAll(codec, before + lines) == (found + WrittenAll(codec, before)) + WrittenAll(codec, lines)
    ensures LoadAll(Replay(codec, found), before + lines) == LoadAll(LoadAll(Replay(codec, found), before), lines)
  {
    WrittenAppend(codec, before, lines);
    Associate(found, WrittenAll(codec, before), WrittenAll(codec, lines));
    LoadAllAppend(Replay(codec, found), before, lines);
  }

  /** Memory and file grew by what was appended. */
  lemma GrewBy(e: OrderEngine, before: seq<LogLine>)
    requires e.Valid() && before <= e.store.appended
    ensures var lines, found := e.store.appended[|before|..], e.store.found;
            && e.store.Mem() == LoadAll(LoadAll(Replay(e.store.codec, found), before), lines)
            && e.store.file == (found + WrittenAll(e.store.codec, before)) + WrittenAll(e.store.codec, lines)
  {
    assert e.store.appended == before + e.store.appended[|before|..];
    Grown(e.store.codec, e.store.found, before, e.store.appended[|before|..]);
  }

  method Perform(e: OrderEngine, id: OrderId, a: Action)
    requires e.Valid() && id in e.store.orders && a != Crash
    modifies e`procs, e`traces, e.store
    ensures e.Valid() && e.ready == old(e.ready) && old(e.store.appended) <= e.store.appended
    ensures e.Machines() == old(e.Machines())[id := Step(e.cfg, old(e.MachineOf(id)), a)]
  {
    ghost var was := e.Machines();
    e.Perform(id, a);
    assert e.Valid();
    SameSet(e.Machines().Keys, was.Keys + {id});
    forall other | other in was && other != id ensures e.Machines()[other] == was[other] {
      assert e.MachineOf(other) == old(e.MachineOf(other));
    }
    OneUpdated(was, e.Machines(), id);
  }

  /** Whatever one order does is a deed of the hub; the file grows by the record it wrote, if it wrote one. */
  method Act(e: OrderEngine, id: OrderId, a: Action)
    requires Works(e) && id in e.store.orders && a != Crash
    modifies e`procs, e`traces, e.store
    ensures Works(e)
    ensures StateOf(e) == HubStep(e.cfg, old(StateOf(e)), Do(id, a))
    ensures e.store.file == old(e.store.file) + WrittenAll(e.store.codec, Writes(e.cfg, old(e.MachineOf(id)), a))
  {
    ghost var h, mem, text, before := StateOf(e), e.store.Mem(), e.store.file, e.store.appended;
    e.store.FiledUnderItsId(id);
    Perform(e, id, a);
    GrewBy(e, before);
    MovedIsDone(e.cfg, e.store.codec, h, StateOf(e), id, a, text, mem, e.store.Mem(), e.store.appended[|before|..]);
  }

  // ----- Creation -----

  ghost function Births(cfg: Config, h: Hub, p: CreateOrderParams, now: int): seq<LogLine> {
    if CanCreate(cfg, h, p) then [BirthLine(p, now)] else []
  }

  lemma CreatedIsDone(cfg: Config, codec: Codec, h: Hub, g: Hub, p: CreateOrderParams, now: int, text: string)
    requires Json(codec) && Tidy(text) && CanCreate(cfg, h, p)
    requires h.disk == DiskOf(codec, text) && g.disk == DiskOf(codec, text + WrittenAll(codec, [BirthLine(p, now)]))
    requires g.byHash == h.byHash[p.paymentHash := p.orderId] && g.ready == h.ready
    requires g.machines == h.machines[p.orderId := Created(p, now)]
    ensures g == HubStep(cfg, h, Create(p, now)) && Tidy(text + WrittenAll(codec, [BirthLine(p, now)]))
  {
    OneFiled(codec, text, OrderLog.EMPTY, BirthLine(p, now));
  }

  /** A request for an order, accepted or not. */
  method Ask(e: OrderEngine, p: CreateOrderParams, now: int)
    requires Works(e)
    modifies e`procs, e.store
    ensures Works(e)
    ensures StateOf(e) == HubStep(e.cfg, old(StateOf(e)), Create(p, now))
    ensures e.store.file == old(e.store.file) + WrittenAll(e.store.codec, Births(e.cfg, old(StateOf(e)), p, now))
  {
    ghost var h, text, before := StateOf(e), e.store.file, e.store.appended;
    var r := e.CreateOrder(p, now);
    GrewBy(e, before);
    assert r.Ok? <==> CanCreate(e.cfg, h, p);
    if r.Ok? {
      CreatedIsDone(e.cfg, e.store.codec, h, StateOf(e), p, now, text);
    } else {
      assert text + "" == text;
    }
  }

  // ----- Deaths -----

  /** Whoever loads the file is the next process of the hub. */
  lemma LoadedIsRestart(h: Hub, codec: Codec, raw: string, g: Hub)
    requires h.disk == g.disk == DiskOf(codec, raw) && !g.ready
    requires var mem := Replay(codec, raw);
             && g.byHash == mem.byHash && g.machines.Keys == mem.orders.Keys
             && forall id :: id in g.machines ==>
                  g.machines[id] == Machine(mem.orders[id], EventsOf(mem, id), IDLE, TraceIn(h, id))
    ensures g == Restart(h)
  {
    ReadsBackRecords(codec, raw);
    var machines := Restart(h).machines;
    forall id ensures id in machines <==> id in g.machines
              ensures id in machines ==> machines[id] == g.machines[id]
    {
      LoadedIsMemory(h, ReadBack(h.disk), id);
    }
    SameSet(machines.Keys, g.machines.Keys);
  }

  /** The next process opens what is left of the file. */
  method Reopen(cfg: Config, codec: Codec, raw: string, ghost h: Hub) returns (e: OrderEngine)
    requires Json(codec) && Tidy(raw) && h.disk == DiskOf(codec, raw)
    ensures fresh(e) && fresh(e.store) && Works(e) && e.cfg == cfg && e.store.codec == codec
    ensures StateOf(e) == Restart(h)
  {
    var store := new FileOrderStore(codec, raw);
    e := new OrderEngine(cfg, store, Tabulate(h.machines.Keys, id requires id in h.machines => h.machines[id].trace));
    LoadedIsRestart(h, codec, raw, StateOf(e));
  }

  lemma AtMostOne(codec: Codec, lines: seq<LogLine>)
    requires |lines| <= 1
    ensures WrittenAll(codec, lines) == if lines == [] then "" else Written(codec, lines[0])
  {
    if lines != [] { assert lines[..0] == [] && "" + Written(codec, lines[0]) == Written(codec, lines[0]); }
  }

  /** What a process leaves that dies so far into its last append, if it made one. */
  method LeftOf(codec: Codec, before: string, after: string, cut: Cut, ghost lines: seq<LogLine>) returns (raw: string)
    requires Json(codec) && Tidy(before) && |lines| <= 1 && after == before + WrittenAll(codec, lines)
    ensures Tidy(raw)
    ensures DiskOf(codec, raw) == if lines == [] then DiskOf(codec, before) else Put(DiskOf(codec, before), lines[0], cut)
  {
    AtMostOne(codec, lines);
    if |after| == |before| {
      return before;
    }
    ghost var l := lines[0];
    var n := |after| - |before| - 1;
    assert ObjectText(codec.encode(l)) && n == |codec.encode(l)|;
    assert CutOf(n, 0) == Nothing && CutOf(n, 1) == Part && CutOf(n, n) == AllButNewline && CutOf(n, n + 1) == Full;
    var k: nat :| k <= n + 1 && CutOf(n, k) == cut;
    raw := after[..|before| + k];
    assert raw == before + Written(codec, l)[..k];
    FileIsDisk(codec, before, l, k);
  }

  /** The file that is left is the hub's. */
  lemma DiskLeft(cfg: Config, h: Hub, deed: Deed, lines: seq<LogLine>, cut: Cut, d: Disk)
    requires match deed
             case CreateCut(p, now, c) => c == cut && lines == Births(cfg, h, p, now)
             case DoCut(id, a, c) => c == cut && id in h.machines && lines == Writes(cfg, h.machines[id], a)
             case _ => false
    requires d == if lines == [] then h.disk else Put(h.disk, lines[0], cut)
    ensures After(cfg, h, deed).disk == d && HubStep(cfg, h, deed) == Restart(After(cfg, h, deed))
  {
  }

  /** The process dies when so much of the record that the deed writes is on disk. */
  method AskAndDie(e: OrderEngine, deed: Deed) returns (next: OrderEngine)
    requires Works(e) && deed.CreateCut?
    modifies e`procs, e.store
    ensures fresh(next) && fresh(next.store) && Works(next) && next.cfg == e.cfg && next.store.codec == e.store.codec
    ensures StateOf(next) == HubStep(e.cfg, old(StateOf(e)), deed)
  {
    ghost var h := StateOf(e);
    var before := e.store.file;
    Ask(e, deed.p, deed.now);
    ghost var lines := Births(e.cfg, h, deed.p, deed.now);
    var raw := LeftOf(e.store.codec, before, e.store.file, deed.cut, lines);
    DiskLeft(e.cfg, h, deed, lines, deed.cut, DiskOf(e.store.codec, raw));
    next := Reopen(e.cfg, e.store.codec, raw, After(e.cfg, h, deed));
  }

  method ActAndDie(e: OrderEngine, deed: Deed) returns (next: OrderEngine)
    requires Works(e) && deed.DoCut? && deed.id in e.store.orders && deed.a != Crash
    modifies e`procs, e`traces, e.store
    ensures fresh(next) && fresh(next.store) && Works(next) && next.cfg == e.cfg && next.store.codec == e.store.codec
    ensures StateOf(next) == HubStep(e.cfg, old(StateOf(e)), deed)
  {
    ghost var h := StateOf(e);
    var before := e.store.file;
    Act(e, deed.id, deed.a);
    ghost var lines := Writes(e.cfg, h.machines[deed.id], deed.a);
    var raw := LeftOf(e.store.codec, before, e.store.file, deed.cut, lines);
    DiskLeft(e.cfg, h, deed, lines, deed.cut, DiskOf(e.store.codec, raw));
    next := Reopen(e.cfg, e.store.codec, raw, After(e.cfg, h, deed));
  }

  // ----- Runs -----

  /** The process lives on. */
  lemma OpenIsReady(cfg: Config, h: Hub)
    ensures HubStep(cfg, h, Deed.Open) == h.(ready := true)
  {
  }

  method OpenDoor(e: OrderEngine)
    requires Works(e)
    modifies e`ready
    ensures Works(e)
    ensures StateOf(e) == HubStep(e.cfg, old(StateOf(e)), Deed.Open)
  {
    OpenIsReady(e.cfg, StateOf(e));
    e.Open();
  }

  method GoOn(e: OrderEngine, deed: Deed)
    requires Works(e) && !Kills(deed)
    modifies e, e.store
    ensures Works(e)
    ensures StateOf(e) == HubStep(e.cfg, old(StateOf(e)), deed)
  {
    if deed.Create? {
      Ask(e, deed.p, deed.now);
    } else if deed.Open? {
      OpenDoor(e);
    } else if deed.id in e.store.orders && deed.a != Crash {
      Act(e, deed.id, deed.a);
    }
  }

  lemma NothingWritten(cfg: Config, h: Hub, deed: Deed)
    requires deed.Die? || (deed.DoCut? && (deed.id !in h.machines || deed.a == Crash))
    ensures After(cfg, h, deed).disk == h.disk && HubStep(cfg, h, deed) == Restart(After(cfg, h, deed))
  {
  }

  /** The process dies. */
  method EndWith(e: OrderEngine, deed: Deed) returns (next: OrderEngine)
    requires Works(e) && Kills(deed)
    modifies e, e.store
    ensures fresh(next) && fresh(next.store) && Works(next) && next.cfg == e.cfg && next.store.codec == e.store.codec
    ensures StateOf(next) == HubStep(e.cfg, old(StateOf(e)), deed)
  {
    if deed.CreateCut? {
      next := AskAndDie(e, deed);
    } else if deed.DoCut? && deed.id in e.store.orders && deed.a != Crash {
      next := ActAndDie(e, deed);
    } else {
      ghost var h := StateOf(e);
      NothingWritten(e.cfg, h, deed);
      next := Reopen(e.cfg, e.store.codec, e.store.file, After(e.cfg, h, deed));
    }
  }

  method Happen(e: OrderEngine, deed: Deed) returns (next: OrderEngine)
    requires Works(e)
    modifies e, e.store
    ensures (next == e || fresh(next)) && (next.store == e.store || fresh(next.store))
    ensures Works(next) && next.cfg == e.cfg && next.store.codec == e.store.codec
    ensures StateOf(next) == HubStep(e.cfg, old(StateOf(e)), deed)
  {
    if Kills(deed) {
      next := EndWith(e, deed);
    } else {
      GoOn(e, deed);
      next := e;
    }
  }

  /** Whatever happens to an engine and the processes after it is a run of the hub. */
  method Live(e: OrderEngine, deeds: seq<Deed>) returns (last: OrderEngine)
    requires Works(e)
    modifies e, e.store
    ensures Works(last) && last.cfg == e.cfg
    ensures StateOf(last) == HubRun(e.cfg, old(StateOf(e)), deeds)
  {
    last := e;
    ghost var h := StateOf(e);
    assert deeds[..0] == [];
    for i := 0 to |deeds|
      invariant (last == e || fresh(last)) && (last.store == e.store || fresh(last.store))
      invariant Works(last) && last.cfg == e.cfg
      invariant StateOf(last) == HubRun(e.cfg, h, deeds[..i])
    {
      HubRunUpTo(e.cfg, h, deeds, i);
      last := Happen(last, deeds[i]);
    }
    assert deeds[..|deeds|] == deeds;
  }

  lemma StepDoneApart(cfg: Config, g: Hub, deed: Deed, id: OrderId)
    requires deed.Do?
    ensures HubStep(cfg, g, deed).machines.Keys == g.machines.Keys
    ensures id in g.machines ==> HubStep(cfg, g, deed).machines[id] == Steps(cfg, g.machines[id], Projected(deed, id))
  {
    if id in g.machines && deed.id == id && deed.a != Crash { StepsCons(cfg, g.machines[id], deed.a, []); }
  }

  lemma {:induction false} DoneApart(cfg: Config, h: Hub, deeds: seq<Deed>, id: OrderId)
    requires forall i :: 0 <= i < |deeds| ==> deeds[i].Do?
    ensures HubRun(cfg, h, deeds).machines.Keys == h.machines.Keys
    ensures id in h.machines ==> HubRun(cfg, h, deeds).machines[id] == Steps(cfg, h.machines[id], Project(deeds, id))
  {
    if deeds != [] {
      var init, deed := deeds[..|deeds| - 1], deeds[|deeds| - 1];
      DoneApart(cfg, h, init, id);
      StepDoneApart(cfg, HubRun(cfg, h, init), deed, id);
      if id in h.machines { StepsAppend(cfg, h.machines[id], Project(init, id), Projected(deed, id)); }
    }
  }

  /** Any interleaving of any orders' actions, in one process: every order ends where its own actions take it. */
  method PerformAll(e: OrderEngine, deeds: seq<Deed>)
    requires Works(e) && forall i :: 0 <= i < |deeds| ==> deeds[i].Do?
    modifies e, e.store
    ensures Works(e) && StateOf(e) == HubRun(e.cfg, old(StateOf(e)), deeds)
    ensures e.store.orders.Keys == old(e.store.orders.Keys)
    ensures forall id :: id in e.store.orders ==> e.MachineOf(id) == Steps(e.cfg, old(e.MachineOf(id)), Project(deeds, id))
  {
    ghost var h := StateOf(e);
    assert deeds[..0] == [];
    for i := 0 to |deeds|
      invariant Works(e) && StateOf(e) == HubRun(e.cfg, h, deeds[..i])
    {
      HubRunUpTo(e.cfg, h, deeds, i);
      GoOn(e, deeds[i]);
    }
    assert deeds[..|deeds|] == deeds;
    DoneApart(e.cfg, h, deeds, "");
    forall id | id in e.store.orders ensures e.MachineOf(id) == Steps(e.cfg, h.machines[id], Project(deeds, id)) {
      DoneApart(e.cfg, h, deeds, id);
      assert StateOf(e).machines[id] == e.MachineOf(id);
    }
  }

  /** Across deaths too, as long as they fall between two appends. */
  method LiveApart(e: OrderEngine, deeds: seq<Deed>) returns (last: OrderEngine)
    requires Works(e) && HubOk(e.cfg, StateOf(e)) && forall i :: 0 <= i < |deeds| ==> Isolation.Uncut(deeds[i])
    modifies e, e.store
    ensures Works(last)
    ensures forall id :: id in old(e.store.orders) && old(Synced(StateOf(e), id)) ==>
              && id in last.store.orders && Synced(StateOf(last), id)
              && last.MachineOf(id) == Steps(e.cfg, old(e.MachineOf(id)), Project(deeds, id))
  {
    ghost var h := StateOf(e);
    last := Live(e, deeds);
    forall id | Synced(h, id)
      ensures id in last.store.orders && Synced(StateOf(last), id)
      ensures last.MachineOf(id) == Steps(e.cfg, h.machines[id], Project(deeds, id))
    {
      OrdersRunApart(e.cfg, h, deeds, id);
      assert StateOf(last).machines[id] == last.MachineOf(id);
    }
  }

  lemma NothingRestarts()
    ensures Restart(NOTHING) == NOTHING
  {
    assert ReadBack(BLANK_DISK) == [];
  }

  /** What is promised of every order and of every payment hash, in every run from an empty file. */
  ghost predicate Kept(cfg: Config, deeds: seq<Deed>, h: Hub) {
    HubOk(cfg, h) && forall hash :: KeptFor(cfg, deeds, hash)
  }

  /** Over all that was ever seen under the hash. */
  ghost predicate KeptFor(cfg: Config, deeds: seq<Deed>, hash: Hash) {
    var seen := ForHash(AllSeen(cfg, NOTHING, deeds), hash);
    && (NeverForgetsCancel(cfg, NOTHING, [], deeds, hash) ==> NothingAfterCancel(seen))
    && (NeverForgetsPay(cfg, NOTHING, [], deeds, hash) ==> SingleFlight(seen))
    && (KeepsDispatches(cfg, NOTHING, deeds) ==> forall accepted :: Truthful(seen, accepted) ==> |accepted| <= 1)
  }

  lemma RunsKeep(cfg: Config, deeds: seq<Deed>)
    ensures Kept(cfg, deeds, HubRun(cfg, NOTHING, deeds))
  {
    NothingIsOk(cfg);
    HubStaysOk(cfg, NOTHING, deeds);
    forall hash ensures KeptFor(cfg, deeds, hash) { RunsKeepFor(cfg, deeds, hash); }
  }

  lemma RunsKeepFor(cfg: Config, deeds: seq<Deed>, hash: Hash)
    ensures KeptFor(cfg, deeds, hash)
  {
    var seen := ForHash(AllSeen(cfg, NOTHING, deeds), hash);
    assert [] + AllSeen(cfg, NOTHING, deeds) == AllSeen(cfg, NOTHING, deeds);
    NothingIsOk(cfg);
    if NeverForgetsCancel(cfg, NOTHING, [], deeds, hash) { NothingSettlesAfterCancelPerHash(cfg, NOTHING, [], deeds, hash); }
    if NeverForgetsPay(cfg, NOTHING, [], deeds, hash) { SingleFlightPerHash(cfg, NOTHING, [], deeds, hash); }
    if KeepsDispatches(cfg, NOTHING, deeds) {
      forall accepted | Truthful(seen, accepted) ensures |accepted| <= 1 { OnePaymentPerHash(cfg, deeds, hash, accepted); }
    }
  }

  /** A hub from its first day: the class, its store and its processes keep what the protocol promises. */
  method LiveFromScratch(cfg: Config, codec: Codec, deeds: seq<Deed>) returns (last: OrderEngine)
    requires Json(codec)
    ensures Works(last) && StateOf(last) == HubRun(cfg, NOTHING, deeds)
    ensures Kept(cfg, deeds, StateOf(last))
  {
    EmptyFile(codec);
    NothingRestarts();
    var first := Reopen(cfg, codec, "", NOTHING);
    last := Live(first, deeds);
    RunsKeep(cfg, deeds);
  }
}
