/** Orders share one table, one index and one file, and processes that die and start over; yet each ends as if it were
    alone, as long as no append is cut short. What a cut append does to the others is told by their lives. */
module Isolation {
  import opened Basics
  import opened Orders
  import opened OrderMachine
  import opened OrderDisk
  import opened MachineSteps
  import opened OrderLife
  import opened Hub
  import opened HubSafety

  /** Processes die between appends only. */
  predicate Uncut(deed: Deed) {
    deed.Create? || deed.Do? || deed.Open? || deed.Die?
  }

  /** The steps of one order, in their order; every order dies with the process. */
  function Project(deeds: seq<Deed>, id: OrderId): seq<Action> {
    if deeds == [] then [] else
    Project(deeds[..|deeds| - 1], id) + Projected(deeds[|deeds| - 1], id)
  }

  function Projected(deed: Deed, id: OrderId): seq<Action> {
    if deed.Do? && deed.id == id && deed.a != Crash then [deed.a] else if deed.Die? then [Crash] else []
  }

  /** In memory, and on disk as in memory, with the file ending where a record ends. */
  predicate Synced(h: Hub, id: OrderId) {
    id in h.machines && Intact(LifeOf(h, id)) && h.disk.tail == Clean
  }

  lemma UncutTurn(cfg: Config, f: Life, turn: Turn)
    requires f.m.Some? && Intact(f) && f.disk.tail == Clean && OrderLife.Uncut(turn)
    ensures var g := LifeRun(cfg, f, [turn]);
            && g.m == Some(Steps(cfg, f.m.value, Idealized(cfg, f.m.value, turn)))
            && Intact(g) && g.disk.tail == Clean
  {
    OneTurn(cfg, f, turn);
    BeforeIntact(cfg, f, turn);
    IdealStep(cfg, f, turn);
    CleanOpeningsForgetNothing(cfg, f, [turn]);
  }

  lemma TurnIsProjected(cfg: Config, h: Hub, deed: Deed, id: OrderId)
    requires id in h.machines && Uncut(deed)
    ensures var turns := TurnsOf(cfg, h, deed, id);
            if turns == [] then Projected(deed, id) == []
            else turns == [turns[0]] && OrderLife.Uncut(turns[0]) &&
                 Idealized(cfg, h.machines[id], turns[0]) == Projected(deed, id)
  {
  }

  lemma StepApart(cfg: Config, h: Hub, deed: Deed, id: OrderId)
    requires UnderOwnId(h) && Synced(h, id) && Uncut(deed)
    ensures UnderOwnId(HubStep(cfg, h, deed)) && Synced(HubStep(cfg, h, deed), id)
    ensures HubStep(cfg, h, deed).machines[id] == Steps(cfg, h.machines[id], Projected(deed, id))
  {
    var f, t := LifeOf(h, id), HubStep(cfg, h, deed);
    var turns := TurnsOf(cfg, h, deed, id);
    StepFiled(cfg, h, deed);
    DeedIsTurns(cfg, h, deed, id);
    TurnIsProjected(cfg, h, deed, id);
    if turns != [] { UncutTurn(cfg, f, turns[0]); }
    assert LifeOf(t, id).m.Some? && LifeOf(t, id).disk.tail == Clean;
  }

  /** Whatever the other orders do, and however many processes die, an order ends as if it had run alone: same record,
      same trail, same calls, and the same on disk. */
  lemma {:induction false} OrdersRunApart(cfg: Config, h: Hub, deeds: seq<Deed>, id: OrderId)
    requires UnderOwnId(h) && Synced(h, id) && forall i :: 0 <= i < |deeds| ==> Uncut(deeds[i])
    ensures UnderOwnId(HubRun(cfg, h, deeds)) && Synced(HubRun(cfg, h, deeds), id)
    ensures HubRun(cfg, h, deeds).machines[id] == Steps(cfg, h.machines[id], Project(deeds, id))
  {
    if deeds != [] {
      var init, deed := deeds[..|deeds| - 1], deeds[|deeds| - 1];
      OrdersRunApart(cfg, h, init, id);
      StepApart(cfg, HubRun(cfg, h, init), deed, id);
      StepsAppend(cfg, h.machines[id], Project(init, id), Projected(deed, id));
    }
  }

  lemma StepStaysUnknown(cfg: Config, h: Hub, deed: Deed, id: OrderId)
    requires HubOk(cfg, h) && id !in h.machines && Uncut(deed) && !deed.Create?
    ensures id !in HubStep(cfg, h, deed).machines
  {
    var g := After(cfg, h, deed);
    AfterOk(cfg, h, deed);
    if Kills(deed) {
      assert Sound(cfg, LifeOf(g, id));
      RestartedLife(g, id);
      assert LifeOf(Restart(g), id).m == None;
    }
  }

  lemma {:induction false} StaysUnknown(cfg: Config, h: Hub, deeds: seq<Deed>, id: OrderId)
    requires HubOk(cfg, h) && id !in h.machines
    requires forall i :: 0 <= i < |deeds| ==> Uncut(deeds[i]) && !deeds[i].Create?
    ensures id !in HubRun(cfg, h, deeds).machines
  {
    if deeds != [] {
      var init := deeds[..|deeds| - 1];
      StaysUnknown(cfg, h, init, id);
      HubStaysOk(cfg, h, init);
      StepStaysUnknown(cfg, HubRun(cfg, h, init), deeds[|deeds| - 1], id);
    }
  }

  /** Order `id` is where its own steps take it. */
  ghost predicate ApartAt(cfg: Config, h: Hub, t: Hub, deeds: seq<Deed>, id: OrderId) {
    && (id in h.machines <==> id in t.machines)
    && (id in h.machines ==> Synced(t, id) && t.machines[id] == Steps(cfg, h.machines[id], Project(deeds, id)))
  }

  lemma OneRunsApart(cfg: Config, h: Hub, deeds: seq<Deed>, id: OrderId)
    requires HubOk(cfg, h) && (id in h.machines ==> Synced(h, id))
    requires forall i :: 0 <= i < |deeds| ==> Uncut(deeds[i]) && !deeds[i].Create?
    ensures ApartAt(cfg, h, HubRun(cfg, h, deeds), deeds, id)
  {
    if id in h.machines {
      OrdersRunApart(cfg, h, deeds, id);
    } else {
      StaysUnknown(cfg, h, deeds, id);
    }
  }

  lemma AllRunApart(cfg: Config, h: Hub, deeds: seq<Deed>)
    requires HubOk(cfg, h) && forall id :: id in h.machines ==> Synced(h, id)
    requires forall i :: 0 <= i < |deeds| ==> Uncut(deeds[i]) && !deeds[i].Create?
    ensures forall id :: ApartAt(cfg, h, HubRun(cfg, h, deeds), deeds, id)
  {
    forall id ensures ApartAt(cfg, h, HubRun(cfg, h, deeds), deeds, id) {
      OneRunsApart(cfg, h, deeds, id);
    }
  }

  lemma SameApart(cfg: Config, h: Hub, t: Hub, ds: seq<Deed>, u: Hub, es: seq<Deed>)
    requires forall id :: id in h.machines ==> Project(ds, id) == Project(es, id)
    requires forall id :: ApartAt(cfg, h, t, ds, id) && ApartAt(cfg, h, u, es, id)
    ensures t.machines == u.machines
  {
    forall id ensures id in t.machines <==> id in u.machines
              ensures id in t.machines ==> t.machines[id] == u.machines[id]
    {
      assert ApartAt(cfg, h, t, ds, id) && ApartAt(cfg, h, u, es, id);
    }
    SameSet(t.machines.Keys, u.machines.Keys);
  }

  /** Two interleavings of the same per-order steps leave the same orders, in memory and for the next process. */
  lemma InterleavingDoesNotMatter(cfg: Config, h: Hub, ds: seq<Deed>, es: seq<Deed>)
    requires HubOk(cfg, h) && forall id :: id in h.machines ==> Synced(h, id)
    requires forall i :: 0 <= i < |ds| ==> Uncut(ds[i]) && !ds[i].Create?
    requires forall i :: 0 <= i < |es| ==> Uncut(es[i]) && !es[i].Create?
    requires forall id :: id in h.machines ==> Project(ds, id) == Project(es, id)
    ensures HubRun(cfg, h, ds).machines == HubRun(cfg, h, es).machines
    ensures forall id :: id in h.machines ==> Synced(HubRun(cfg, h, ds), id) && Synced(HubRun(cfg, h, es), id)
  {
    var t, u := HubRun(cfg, h, ds), HubRun(cfg, h, es);
    AllRunApart(cfg, h, ds);
    AllRunApart(cfg, h, es);
    SameApart(cfg, h, t, ds, u, es);
    forall id | id in h.machines ensures Synced(t, id) && Synced(u, id) {
      assert ApartAt(cfg, h, t, ds, id) && ApartAt(cfg, h, u, es, id);
    }
  }
}
