/** What holds over all orders of a hub at once: one order per payment hash, and one payment per hash. */
module HubSafety {
  import opened Basics
  import opened Orders
  import opened OrderMachine
  import opened OrderLog
  import opened OrderDisk
  import opened MachineSteps
  import opened MachineSafety
  import opened MachineHistory
  import opened OrderLife
  import opened Hub

  // ----- One order per hash -----

  /** The index leads from each order's hash to that order, and nowhere else. */
  ghost predicate Indexed(h: Hub) {
    && (forall id :: id in h.machines ==>
          h.machines[id].order.paymentHash in h.byHash && h.byHash[h.machines[id].order.paymentHash] == id)
    && (forall hash :: hash in h.byHash ==>
          h.byHash[hash] in h.machines && h.machines[h.byHash[hash]].order.paymentHash == hash)
  }

  ghost predicate HubOk(cfg: Config, h: Hub) {
    UnderOwnId(h) && Indexed(h) && forall id :: Sound(cfg, LifeOf(h, id))
  }

  /** Records and index agree. */
  ghost predicate IndexedLines(lines: seq<LogLine>, byHash: map<Hash, OrderId>) {
    && (forall i :: 0 <= i < |lines| ==>
          lines[i].order.paymentHash in byHash && byHash[lines[i].order.paymentHash] == lines[i].order.orderId)
    && (forall i, j :: 0 <= i < |lines| && 0 <= j < |lines| && lines[i].order.orderId == lines[j].order.orderId ==>
          lines[i].order.paymentHash == lines[j].order.paymentHash)
  }

  /** The order is that of one of the records. */
  predicate OnRecord(lines: seq<LogLine>, o: Order) {
    exists i :: 0 <= i < |lines| && lines[i].order == o
  }

  lemma OnRecordStill(init: seq<LogLine>, l: LogLine, o: Order)
    ensures OnRecord(init, o) ==> OnRecord(init + [l], o)
    ensures OnRecord(init + [l], l.order)
  {
    var lines := init + [l];
    assert lines[|init|] == l;
    if OnRecord(init, o) {
      var i :| 0 <= i < |init| && init[i].order == o;
      assert lines[i] == init[i];
    }
  }

  ghost predicate IndexedMemory(mem: Memory, lines: seq<LogLine>) {
    && (forall id :: id in mem.orders ==>
          && mem.orders[id].paymentHash in mem.byHash && mem.byHash[mem.orders[id].paymentHash] == id
          && mem.orders[id].orderId == id && OnRecord(lines, mem.orders[id]))
    && (forall hash :: hash in mem.byHash ==> mem.byHash[hash] in mem.orders && mem.orders[mem.byHash[hash]].paymentHash == hash)
  }

  lemma SameOrderSameHash(lines: seq<LogLine>, byHash: map<Hash, OrderId>, o: Order, p: Order)
    requires IndexedLines(lines, byHash) && OnRecord(lines, o) && OnRecord(lines, p)
    ensures o.orderId == p.orderId <==> o.paymentHash == p.paymentHash
  {
    var i :| 0 <= i < |lines| && lines[i].order == o;
    var j :| 0 <= j < |lines| && lines[j].order == p;
  }

  lemma LoadIndexed(mem: Memory, init: seq<LogLine>, l: LogLine, byHash: map<Hash, OrderId>)
    requires IndexedMemory(mem, init) && IndexedLines(init + [l], byHash)
    ensures IndexedMemory(Load(mem, l), init + [l])
  {
    var t := Load(mem, l);
    forall id | id in mem.orders
      ensures OnRecord(init + [l], mem.orders[id]) && OnRecord(init + [l], l.order)
      ensures id == l.order.orderId <==> mem.orders[id].paymentHash == l.order.paymentHash
    {
      OnRecordStill(init, l, mem.orders[id]);
      SameOrderSameHash(init + [l], byHash, mem.orders[id], l.order);
    }
    OnRecordStill(init, l, l.order);
  }

  lemma {:induction false} LoadAllIndexed(lines: seq<LogLine>, byHash: map<Hash, OrderId>)
    requires IndexedLines(lines, byHash)
    ensures IndexedMemory(LoadAll(OrderLog.EMPTY, lines), lines)
  {
    if lines != [] {
      var init := lines[..|lines| - 1];
      LoadAllIndexed(init, byHash);
      InitAndLast(lines);
      LoadIndexed(LoadAll(OrderLog.EMPTY, init), init, lines[|lines| - 1], byHash);
    }
  }

  lemma {:induction false} MineHas(lines: seq<LogLine>, i: nat, id: OrderId)
    requires i < |lines| && lines[i].order.orderId == id
    ensures lines[i] in Mine(lines, id)
  {
    if i < |lines| - 1 {
      MineHas(lines[..|lines| - 1], i, id);
    }
  }

  /** What is on disk belongs to known orders, on their own terms. */
  lemma LineIsKnown(cfg: Config, h: Hub, i: nat)
    requires HubOk(cfg, h) && i < |ReadBack(h.disk)|
    ensures var o := ReadBack(h.disk)[i].order; o.orderId in h.machines && SameTerms(h.machines[o.orderId].order, o)
  {
    var lines := ReadBack(h.disk);
    var id := lines[i].order.orderId;
    MineHas(lines, i, id);
    MyReadBack(h.disk, id);
    assert Sound(cfg, LifeOf(h, id));
    var book := ReadBack(MyDisk(h.disk, id));
    var j :| 0 <= j < |book| && book[j] == lines[i];
  }

  lemma DiskIndexed(cfg: Config, h: Hub)
    requires HubOk(cfg, h)
    ensures IndexedLines(ReadBack(h.disk), h.byHash)
  {
    var lines := ReadBack(h.disk);
    forall i | 0 <= i < |lines|
      ensures lines[i].order.orderId in h.machines
      ensures lines[i].order.paymentHash == h.machines[lines[i].order.orderId].order.paymentHash
    {
      LineIsKnown(cfg, h, i);
    }
  }

  lemma RestartIndexed(cfg: Config, h: Hub)
    requires HubOk(cfg, h)
    ensures Indexed(Restart(h))
  {
    DiskIndexed(cfg, h);
    LoadAllIndexed(ReadBack(h.disk), h.byHash);
    forall id {
      LoadedIsMemory(h, ReadBack(h.disk), id);
    }
  }

  lemma Reindexed(h: Hub, id: OrderId, t: Machine, disk: Disk)
    requires Indexed(h) && id in h.machines && t.order.paymentHash == h.machines[id].order.paymentHash
    ensures Indexed(h.(machines := h.machines[id := t]))
    ensures Indexed(h.(machines := h.machines[id := t], byHash := h.byHash[t.order.paymentHash := id], disk := disk))
  {
    assert h.byHash[t.order.paymentHash := id] == h.byHash;
  }

  lemma ActsIndexed(cfg: Config, h: Hub, id: OrderId, a: Action, cut: Cut)
    requires Indexed(h) && id in h.machines
    ensures Indexed(Acts(cfg, h, id, a, cut))
  {
    StepKeepsIds(cfg, h.machines[id], a);
    Reindexed(h, id, Step(cfg, h.machines[id], a), Acts(cfg, h, id, a, cut).disk);
  }

  lemma CreatesIndexed(cfg: Config, h: Hub, p: CreateOrderParams, now: int, cut: Cut)
    requires Indexed(h) && CanCreate(cfg, h, p)
    ensures Indexed(Creates(h, p, now, cut))
  {
  }

  lemma AfterIndexed(cfg: Config, h: Hub, deed: Deed)
    requires Indexed(h)
    ensures Indexed(After(cfg, h, deed))
  {
    match deed
    case Create(p, now) => if CanCreate(cfg, h, p) { CreatesIndexed(cfg, h, p, now, Full); }
    case CreateCut(p, now, cut) => if CanCreate(cfg, h, p) { CreatesIndexed(cfg, h, p, now, cut); }
    case Do(id, a) => if id in h.machines && a != Crash { ActsIndexed(cfg, h, id, a, Full); }
    case DoCut(id, a, cut) => if id in h.machines { ActsIndexed(cfg, h, id, a, cut); }
    case _ =>
  }

  lemma AfterSound(cfg: Config, h: Hub, deed: Deed, id: OrderId)
    requires HubOk(cfg, h)
    ensures Sound(cfg, LifeOf(After(cfg, h, deed), id))
  {
    var f := LifeOf(h, id);
    assert Sound(cfg, f);
    match deed
    case Create(p, now) => if CanCreate(cfg, h, p) { NewLife(cfg, h, p, now, Full, id); NewSound(cfg, f, p, now, Full, id); }
    case CreateCut(p, now, cut) => if CanCreate(cfg, h, p) { NewLife(cfg, h, p, now, cut, id); NewSound(cfg, f, p, now, cut, id); }
    case Do(i, a) => if i in h.machines && a != Crash { ActingLife(cfg, h, i, a, Full, id); ActingSound(cfg, f, i, a, Full, id); }
    case DoCut(i, a, cut) => if i in h.machines { ActingLife(cfg, h, i, a, cut, id); ActingSound(cfg, f, i, a, cut, id); }
    case _ =>
  }

  lemma NewSound(cfg: Config, f: Life, p: CreateOrderParams, now: int, cut: Cut, id: OrderId)
    requires Sound(cfg, f) && (p.orderId == id ==> f.m.None?)
    ensures p.orderId == id ==> Sound(cfg, Born(f, p, now, cut))
    ensures Sound(cfg, Life(f.m, PutOther(f.disk, cut)))
  {
    if p.orderId == id { BornSound(cfg, f, p, now, cut); }
    OtherSound(cfg, f, cut);
  }

  lemma ActingSound(cfg: Config, f: Life, i: OrderId, a: Action, cut: Cut, id: OrderId)
    requires Sound(cfg, f) && (i == id ==> f.m.Some?)
    ensures i == id ==> Sound(cfg, Acted(cfg, f, a, cut))
    ensures Sound(cfg, Life(f.m, PutOther(f.disk, cut)))
  {
    if i == id { ActedSound(cfg, f, a, cut); }
    OtherSound(cfg, f, cut);
  }

  lemma AfterOk(cfg: Config, h: Hub, deed: Deed)
    requires HubOk(cfg, h)
    ensures HubOk(cfg, After(cfg, h, deed))
  {
    StepFiled(cfg, h, deed);
    AfterIndexed(cfg, h, deed);
    forall id ensures Sound(cfg, LifeOf(After(cfg, h, deed), id)) { AfterSound(cfg, h, deed, id); }
  }

  lemma RestartOk(cfg: Config, h: Hub)
    requires HubOk(cfg, h)
    ensures HubOk(cfg, Restart(h))
  {
    RestartFiled(h);
    RestartIndexed(cfg, h);
    forall id ensures Sound(cfg, LifeOf(Restart(h), id)) {
      assert Sound(cfg, LifeOf(h, id));
      RestartedLife(h, id);
      RereadSound(cfg, LifeOf(h, id));
    }
  }

  lemma NothingIsOk(cfg: Config)
    ensures HubOk(cfg, NOTHING)
  {
  }

  /** In every run of the hub, whatever dies and whatever is forgotten: no two orders share a hash, the index is exact,
      and every order is sound. */
  lemma {:induction false} HubStaysOk(cfg: Config, h: Hub, deeds: seq<Deed>)
    requires HubOk(cfg, h)
    ensures HubOk(cfg, HubRun(cfg, h, deeds))
  {
    if deeds != [] {
      var g := HubRun(cfg, h, deeds[..|deeds| - 1]);
      HubStaysOk(cfg, h, deeds[..|deeds| - 1]);
      AfterOk(cfg, g, deeds[|deeds| - 1]);
      RestartOk(cfg, After(cfg, g, deeds[|deeds| - 1]));
    }
  }

  // ----- One payment per hash -----

  /** What the nodes see of the hub: payments are told apart by their hash. */
  datatype Seen = Seen(hash: Hash, obs: Obs)

  function Tagged(hash: Hash, es: seq<Obs>): seq<Seen> {
    if es == [] then [] else Tagged(hash, es[..|es| - 1]) + [Seen(hash, es[|es| - 1])]
  }

  function ForHash(seen: seq<Seen>, hash: Hash): seq<Obs> {
    if seen == [] then [] else
    var last := seen[|seen| - 1];
    ForHash(seen[..|seen| - 1], hash) + if last.hash == hash then [last.obs] else []
  }

  function SeenOf(cfg: Config, h: Hub, id: OrderId, a: Action, cut: Cut): seq<Seen>
    requires id in h.machines
  {
    Tagged(h.machines[id].order.paymentHash, Shown(cfg, h.machines[id], a, cut))
  }

  function Sees(cfg: Config, h: Hub, deed: Deed): seq<Seen> {
    match deed
    case Do(id, a) => if id in h.machines && a != Crash then SeenOf(cfg, h, id, a, Full) else []
    case DoCut(id, a, cut) => if id in h.machines then SeenOf(cfg, h, id, a, cut) else []
    case _ => []
  }

  function AllSeen(cfg: Config, h: Hub, deeds: seq<Deed>): seq<Seen> {
    if deeds == [] then [] else
    var init := deeds[..|deeds| - 1];
    AllSeen(cfg, h, init) + Sees(cfg, HubRun(cfg, h, init), deeds[|deeds| - 1])
  }

  lemma {:induction false} ForHashAppend(seen: seq<Seen>, more: seq<Seen>, hash: Hash)
    ensures ForHash(seen + more, hash) == ForHash(seen, hash) + ForHash(more, hash)
  {
    if more == [] {
      assert seen + more == seen;
    } else {
      ForHashAppend(seen, more[..|more| - 1], hash);
      assert (seen + more)[..|seen + more| - 1] == seen + more[..|more| - 1];
      Associate(ForHash(seen, hash), ForHash(more[..|more| - 1], hash),
                if more[|more| - 1].hash == hash then [more[|more| - 1].obs] else []);
    }
  }

  lemma {:induction false} TaggedForHash(es: seq<Obs>, hash: Hash, other: Hash)
    ensures ForHash(Tagged(hash, es), other) == if other == hash then es else []
  {
    if es != [] {
      var init, last := es[..|es| - 1], Seen(hash, es[|es| - 1]);
      TaggedForHash(init, hash, other);
      assert (Tagged(hash, init) + [last])[..|Tagged(hash, init) + [last]| - 1] == Tagged(hash, init);
      InitAndLast(es);
    }
  }

  lemma AllSeenOne(cfg: Config, h: Hub, deeds: seq<Deed>, deed: Deed)
    ensures AllSeen(cfg, h, deeds + [deed]) == AllSeen(cfg, h, deeds) + Sees(cfg, HubRun(cfg, h, deeds), deed)
  {
    assert (deeds + [deed])[..|deeds|] == deeds;
  }

  lemma {:induction false} AllSeenAppend(cfg: Config, h: Hub, deeds: seq<Deed>, more: seq<Deed>)
    ensures AllSeen(cfg, h, deeds + more) == AllSeen(cfg, h, deeds) + AllSeen(cfg, HubRun(cfg, h, deeds), more)
  {
    if more == [] {
      assert deeds + more == deeds;
    } else {
      var init, last, g := more[..|more| - 1], more[|more| - 1], HubRun(cfg, h, deeds);
      AllSeenAppend(cfg, h, deeds, init);
      HubRunAppend(cfg, h, deeds, init);
      InitAndLast(more);
      Associate(deeds, init, [last]);
      AllSeenOne(cfg, h, deeds + init, last);
      AllSeenOne(cfg, g, init, last);
      Associate(AllSeen(cfg, h, deeds), AllSeen(cfg, g, init), Sees(cfg, HubRun(cfg, g, init), last));
    }
  }

  /** If the order may pay, so may its hash. */
  ghost predicate Covers(t: seq<Obs>, s: seq<Obs>) {
    MayPay(t) ==> MayPay(s)
  }

  lemma MayPayOn(t: seq<Obs>, e: Obs)
    ensures MayPay(t + [e]) <==> e == PaymentAnswered(NoPayment) || (!IsPay(e) && MayPay(t))
  {
    var u := t + [e];
    if e == PaymentAnswered(NoPayment) { assert AbsentSince(u, |t|); }
    if k :| AbsentSince(t, k) && !IsPay(e) { assert AbsentSince(u, k); }
    if MayPay(u) && e != PaymentAnswered(NoPayment) {
      assert u[|t|] == e;
      if k :| AbsentSince(u, k) {
        assert AbsentSince(t, k) by { assert forall i :: 0 <= i < |t| ==> u[i] == t[i]; }
      } else {
        assert NoPay(t) by { assert forall i :: 0 <= i < |t| ==> u[i] == t[i]; }
      }
    }
  }

  lemma {:induction false} CoversOn(t: seq<Obs>, s: seq<Obs>, es: seq<Obs>)
    requires Covers(t, s) && SingleFlight(t + es) && SingleFlight(s)
    ensures Covers(t + es, s + es) && SingleFlight(s + es)
    decreases |es|
  {
    if es == [] {
      assert t + es == t && s + es == s;
    } else {
      var init, e := es[..|es| - 1], es[|es| - 1];
      InitAndLast(es);
      var t', s' := t + init, s + init;
      assert t + es == t' + [e] && s + es == s' + [e];
      SingleFlightPrefix(t', e);
      CoversOn(t, s, init);
      MayPayOn(t', e);
      MayPayOn(s', e);
      OneMoreSingle(s', e);
    }
  }

  lemma SingleFlightPrefix(t: seq<Obs>, e: Obs)
    requires SingleFlight(t + [e])
    ensures SingleFlight(t) && (IsPay(e) ==> MayPay(t))
  {
    var u := t + [e];
    assert u[..|t|] == t;
    forall j | 0 <= j < |t| && IsPay(t[j]) ensures MayPay(t[..j]) {
      assert u[j] == t[j] && u[..j] == t[..j];
    }
    if IsPay(e) { assert IsPay(u[|t|]); }
  }

  lemma AfterSingle(cfg: Config, h: Hub, deed: Deed, id: OrderId)
    requires HubOk(cfg, h) && OnePayment(LifeOf(h, id))
    ensures OnePayment(LifeOf(After(cfg, h, deed), id))
  {
    var f := LifeOf(h, id);
    var turns := TurnsOf(cfg, h, deed, id);
    assert Sound(cfg, f);
    if turns != [] { BeforeSingle(cfg, f, turns[0]); }
    if Kills(deed) {
      DeathIsTurn(cfg, h, deed, id);
    } else {
      AliveDeedIsTurns(cfg, h, deed, id);
      if turns != [] { OneTurn(cfg, f, turns[0]); }
    }
  }

  /** The process dies when all but the newline of a dispatch record is written. */
  predicate LosesDispatch(cfg: Config, h: Hub, deed: Deed) {
    deed.DoCut? && deed.cut == AllButNewline && deed.id in h.machines && EditOf(cfg, h.machines[deed.id], deed.a).Dispatch?
  }

  predicate KeepsDispatches(cfg: Config, h: Hub, deeds: seq<Deed>) {
    deeds == [] ||
    var init := deeds[..|deeds| - 1];
    KeepsDispatches(cfg, h, init) && !LosesDispatch(cfg, HubRun(cfg, h, init), deeds[|deeds| - 1])
  }

  lemma DeedAnchored(cfg: Config, h: Hub, deed: Deed, id: OrderId)
    requires HubOk(cfg, h) && DispatchIsAnchored(LifeOf(h, id)) && !LosesDispatch(cfg, h, deed)
    ensures DispatchIsAnchored(LifeOf(HubStep(cfg, h, deed), id))
  {
    var turns := TurnsOf(cfg, h, deed, id);
    assert Sound(cfg, LifeOf(h, id));
    DeedIsTurns(cfg, h, deed, id);
    TurnKeepsDispatch(cfg, h, deed, id);
    if turns != [] {
      TurnAnchored(cfg, LifeOf(h, id), turns[0]);
    }
  }

  lemma TurnKeepsDispatch(cfg: Config, h: Hub, deed: Deed, id: OrderId)
    requires !LosesDispatch(cfg, h, deed)
    ensures var turns := TurnsOf(cfg, h, deed, id);
            turns == [] || (turns == [turns[0]] && !DispatchLacksNewline(cfg, LifeOf(h, id), turns[0]))
  {
  }

  lemma TurnAnchored(cfg: Config, f: Life, turn: Turn)
    requires Sound(cfg, f) && DispatchIsAnchored(f) && !DispatchLacksNewline(cfg, f, turn)
    ensures DispatchIsAnchored(LifeRun(cfg, f, [turn]))
  {
    OneTurn(cfg, f, turn);
    StepAnchored(cfg, f, turn);
  }

  /** Everything seen is covered by what is in memory. */
  ghost predicate Accounted(h: Hub, seen: seq<Seen>) {
    && (forall hash :: SingleFlight(ForHash(seen, hash)))
    && (forall id :: id in h.machines ==> Covers(h.machines[id].trace, ForHash(seen, h.machines[id].order.paymentHash)))
    && (forall hash :: hash !in h.byHash ==> MayPay(ForHash(seen, hash)))
  }

  function Shown(cfg: Config, m: Machine, a: Action, cut: Cut): seq<Obs> {
    if EditOf(cfg, m, a) != NoEdit && Unfinished(cut) then [] else Emits(cfg, m, a)
  }

  lemma ActsShow(cfg: Config, h: Hub, id: OrderId, a: Action, cut: Cut)
    requires id in h.machines && h.machines[id].order.paymentHash in h.byHash
    ensures var m, g := h.machines[id], Acts(cfg, h, id, a, cut);
            && g.machines.Keys == h.machines.Keys && g.byHash.Keys == h.byHash.Keys
            && (forall i :: i in h.machines && i != id ==> g.machines[i] == h.machines[i])
            && g.machines[id].order.paymentHash == m.order.paymentHash
            && g.machines[id].trace == m.trace + Shown(cfg, m, a, cut)
  {
    var m := h.machines[id];
    StepKeepsIds(cfg, m, a);
    StepEdits(cfg, m, a);
    assert m.trace + [] == m.trace;
  }

  lemma SeenGrows(cfg: Config, h: Hub, seen: seq<Seen>, id: OrderId, a: Action, cut: Cut, hash: Hash)
    requires id in h.machines
    ensures ForHash(seen + SeenOf(cfg, h, id, a, cut), hash) ==
              ForHash(seen, hash) + if hash == h.machines[id].order.paymentHash then Shown(cfg, h.machines[id], a, cut) else []
  {
    ForHashAppend(seen, SeenOf(cfg, h, id, a, cut), hash);
    TaggedForHash(Shown(cfg, h.machines[id], a, cut), h.machines[id].order.paymentHash, hash);
  }

  lemma ActsAccounted(cfg: Config, h: Hub, seen: seq<Seen>, id: OrderId, a: Action, cut: Cut)
    requires Indexed(h) && Accounted(h, seen) && id in h.machines
    requires SingleFlight(Acts(cfg, h, id, a, cut).machines[id].trace)
    ensures Accounted(Acts(cfg, h, id, a, cut), seen + SeenOf(cfg, h, id, a, cut))
  {
    var m := h.machines[id];
    var es := Shown(cfg, m, a, cut);
    ActsShow(cfg, h, id, a, cut);
    CoversOn(m.trace, ForHash(seen, m.order.paymentHash), es);
    var now := seen + SeenOf(cfg, h, id, a, cut);
    forall hash ensures ForHash(now, hash) == ForHash(seen, hash) + if hash == m.order.paymentHash then es else [] {
      SeenGrows(cfg, h, seen, id, a, cut, hash);
    }
    NowAccounted(h, seen, id, Acts(cfg, h, id, a, cut), now, es);
  }

  lemma NowAccounted(h: Hub, seen: seq<Seen>, id: OrderId, g: Hub, now: seq<Seen>, es: seq<Obs>)
    requires Accounted(h, seen) && id in h.machines && h.machines[id].order.paymentHash in h.byHash
    requires forall i :: i in h.machines && i != id ==> h.machines[i].order.paymentHash != h.machines[id].order.paymentHash
    requires g.machines.Keys == h.machines.Keys && g.byHash.Keys == h.byHash.Keys
    requires forall i :: i in h.machines && i != id ==> g.machines[i] == h.machines[i]
    requires g.machines[id].order.paymentHash == h.machines[id].order.paymentHash
    requires forall hash :: ForHash(now, hash) ==
               ForHash(seen, hash) + if hash == h.machines[id].order.paymentHash then es else []
    requires var H := h.machines[id].order.paymentHash;
             SingleFlight(ForHash(seen, H) + es) && Covers(g.machines[id].trace, ForHash(seen, H) + es)
    ensures Accounted(g, now)
  {
    var H := h.machines[id].order.paymentHash;
    forall hash ensures hash != H ==> ForHash(now, hash) == ForHash(seen, hash) {
      assert hash != H ==> ForHash(seen, hash) + [] == ForHash(seen, hash);
    }
  }

  /** A new order has a hash that was never paid for, or whose payment is denied. */
  lemma CreatesAccounted(cfg: Config, h: Hub, seen: seq<Seen>, p: CreateOrderParams, now: int, cut: Cut)
    requires Accounted(h, seen) && CanCreate(cfg, h, p)
    ensures Accounted(Creates(h, p, now, cut), seen)
  {
  }

  lemma DoneAccounted(cfg: Config, h: Hub, seen: seq<Seen>, deed: Deed)
    requires HubOk(cfg, h) && Accounted(h, seen) && (deed.Do? || deed.DoCut?) && deed.id in h.machines
    requires deed.Do? ==> deed.a != Crash
    requires OnePayment(LifeOf(h, deed.id))
    ensures Accounted(After(cfg, h, deed), seen + Sees(cfg, h, deed))
  {
    var cut := if deed.Do? then Full else deed.cut;
    AfterSingle(cfg, h, deed, deed.id);
    ActsAccounted(cfg, h, seen, deed.id, deed.a, cut);
  }

  lemma AfterAccounted(cfg: Config, h: Hub, seen: seq<Seen>, deed: Deed)
    requires HubOk(cfg, h) && Accounted(h, seen) && forall id :: OnePayment(LifeOf(h, id))
    ensures Accounted(After(cfg, h, deed), seen + Sees(cfg, h, deed))
  {
    if Sees(cfg, h, deed) == [] { assert seen + [] == seen; }
    if ((deed.Do? && deed.a != Crash) || deed.DoCut?) && deed.id in h.machines {
      DoneAccounted(cfg, h, seen, deed);
    } else if deed.Create? && CanCreate(cfg, h, deed.p) {
      CreatesAccounted(cfg, h, seen, deed.p, deed.now, Full);
    } else if deed.CreateCut? && CanCreate(cfg, h, deed.p) {
      CreatesAccounted(cfg, h, seen, deed.p, deed.now, deed.cut);
    }
  }

  /** An order that is forgotten was never paid, or its payment is denied. */
  lemma ForgottenUnpaid(cfg: Config, h: Hub, deed: Deed, id: OrderId)
    requires HubOk(cfg, h) && DispatchIsAnchored(LifeOf(h, id)) && Kills(deed)
    requires id in After(cfg, h, deed).machines && id !in HubStep(cfg, h, deed).machines
    ensures MayPay(After(cfg, h, deed).machines[id].trace)
  {
    var f, g := LifeOf(h, id), After(cfg, h, deed);
    assert Sound(cfg, f);
    DeathIsTurn(cfg, h, deed, id);
    PaidIsAnchored(cfg, f, TurnsOf(cfg, h, deed, id)[0]);
    RestartedLife(g, id);
    Found(LifeOf(g, id));
  }

  lemma RestartAccounted(cfg: Config, h: Hub, seen: seq<Seen>, deed: Deed)
    requires HubOk(cfg, h) && Kills(deed) && forall id :: DispatchIsAnchored(LifeOf(h, id))
    requires Accounted(After(cfg, h, deed), seen)
    ensures Accounted(HubStep(cfg, h, deed), seen)
  {
    var g := After(cfg, h, deed);
    var t := Restart(g);
    AfterOk(cfg, h, deed);
    RestartOk(cfg, g);
    forall id | id in t.machines ensures Covers(t.machines[id].trace, ForHash(seen, t.machines[id].order.paymentHash)) {
      FoundAgain(cfg, g, id);
    }
    forall hash | hash !in t.byHash ensures MayPay(ForHash(seen, hash)) {
      if hash in g.byHash {
        var id := g.byHash[hash];
        if id in t.machines { FoundAgain(cfg, g, id); }
        assert id !in t.machines;
        ForgottenUnpaid(cfg, h, deed, id);
      }
    }
  }

  /** What the next process knows, this one knew, on the same terms. */
  lemma FoundAgain(cfg: Config, h: Hub, id: OrderId)
    requires HubOk(cfg, h) && id in Restart(h).machines
    ensures id in h.machines && Restart(h).machines[id].trace == h.machines[id].trace
    ensures Restart(h).machines[id].order.paymentHash == h.machines[id].order.paymentHash
  {
    var f := LifeOf(h, id);
    assert Sound(cfg, f);
    RestartedLife(h, id);
    Found(f);
  }

  ghost predicate PaidOnce(cfg: Config, h: Hub, seen: seq<Seen>) {
    && HubOk(cfg, h) && Accounted(h, seen)
    && forall id :: OnePayment(LifeOf(h, id)) && DispatchIsAnchored(LifeOf(h, id))
  }

  lemma StepPaidOnce(cfg: Config, h: Hub, seen: seq<Seen>, deed: Deed)
    requires PaidOnce(cfg, h, seen) && !LosesDispatch(cfg, h, deed)
    ensures PaidOnce(cfg, HubStep(cfg, h, deed), seen + Sees(cfg, h, deed))
  {
    AfterOk(cfg, h, deed);
    AfterAccounted(cfg, h, seen, deed);
    if Kills(deed) {
      RestartOk(cfg, After(cfg, h, deed));
      RestartAccounted(cfg, h, seen + Sees(cfg, h, deed), deed);
    }
    forall id
      ensures OnePayment(LifeOf(HubStep(cfg, h, deed), id)) && DispatchIsAnchored(LifeOf(HubStep(cfg, h, deed), id))
    {
      DeedAnchored(cfg, h, deed, id);
      DeedSingle(cfg, h, deed, id);
    }
  }

  lemma DeedSingle(cfg: Config, h: Hub, deed: Deed, id: OrderId)
    requires HubOk(cfg, h) && OnePayment(LifeOf(h, id)) && DispatchIsAnchored(LifeOf(h, id))
    ensures OnePayment(LifeOf(HubStep(cfg, h, deed), id))
  {
    AfterSingle(cfg, h, deed, id);
    if Kills(deed) {
      assert Sound(cfg, LifeOf(h, id));
      DeathIsTurn(cfg, h, deed, id);
      BeforePaid(cfg, LifeOf(h, id), TurnsOf(cfg, h, deed, id)[0]);
      RestartedLife(After(cfg, h, deed), id);
    }
  }

  lemma {:induction false} HubPaysOnce(cfg: Config, deeds: seq<Deed>)
    requires KeepsDispatches(cfg, NOTHING, deeds)
    ensures PaidOnce(cfg, HubRun(cfg, NOTHING, deeds), AllSeen(cfg, NOTHING, deeds))
  {
    if deeds == [] {
      NothingIsOk(cfg);
    } else {
      var init := deeds[..|deeds| - 1];
      HubPaysOnce(cfg, init);
      StepPaidOnce(cfg, HubRun(cfg, NOTHING, init), AllSeen(cfg, NOTHING, init), deeds[|deeds| - 1]);
    }
  }

  /** Rule R4, over all orders and all processes since the file was empty: a node that answers truthfully about a
      payment hash accepts at most one payment for it, unless a process died just before the newline of a dispatch. */
  lemma OnePaymentPerHash(cfg: Config, deeds: seq<Deed>, hash: Hash, accepted: set<int>)
    requires KeepsDispatches(cfg, NOTHING, deeds)
    requires Truthful(ForHash(AllSeen(cfg, NOTHING, deeds), hash), accepted)
    ensures |accepted| <= 1
  {
    HubPaysOnce(cfg, deeds);
    OneIsAccepted(ForHash(AllSeen(cfg, NOTHING, deeds), hash), accepted);
  }
}
