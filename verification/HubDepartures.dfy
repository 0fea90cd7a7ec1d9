/** The lives of LifeDepartures are lived: each of them is a run of the whole hub, from an empty file. */
module HubDepartures {
  import opened Basics
  import opened Orders
  import opened OrderMachine
  import opened OrderLog
  import opened OrderDisk
  import opened MachineSafety
  import opened MachineHistory
  import opened OrderLife
  import opened LifeDepartures
  import opened Hub
  import opened HubSafety
  import opened HashSafety

  /** What a hub has to do for one turn of an order that is alone in it. */
  function DeedFor(id: OrderId, turn: Turn): Deed {
    match turn
    case Own(a) => Do(id, a)
    case OwnCut(a, cut) => DoCut(id, a, cut)
    case _ => Die
  }

  function DeedsFor(id: OrderId, turns: seq<Turn>): seq<Deed> {
    if turns == [] then [] else DeedsFor(id, turns[..|turns| - 1]) + [DeedFor(id, turns[|turns| - 1])]
  }

  /** The deed is that turn to the order, or nothing where the turn is nothing. */
  lemma TurnOfDeed(cfg: Config, h: Hub, id: OrderId, turn: Turn)
    requires Alone(turn)
    ensures var f, turns := LifeOf(h, id), TurnsOf(cfg, h, DeedFor(id, turn), id);
            if turns == [] then LifeStep(cfg, f, turn) == f
            else turns == [turns[0]] && LifeStep(cfg, f, turns[0]) == LifeStep(cfg, f, turn)
  {
    NothingPut(LifeOf(h, id));
  }

  lemma TurnIsDeed(cfg: Config, h: Hub, id: OrderId, turn: Turn)
    requires UnderOwnId(h) && Alone(turn)
    ensures LifeOf(HubStep(cfg, h, DeedFor(id, turn)), id) == LifeStep(cfg, LifeOf(h, id), turn)
  {
    var f, turns := LifeOf(h, id), TurnsOf(cfg, h, DeedFor(id, turn), id);
    DeedIsTurns(cfg, h, DeedFor(id, turn), id);
    TurnOfDeed(cfg, h, id, turn);
    if turns != [] { OneTurn(cfg, f, turns[0]); }
  }

  lemma {:induction false} TurnsAreDeeds(cfg: Config, h: Hub, id: OrderId, turns: seq<Turn>)
    requires UnderOwnId(h) && AllAlone(turns)
    ensures UnderOwnId(HubRun(cfg, h, DeedsFor(id, turns)))
    ensures LifeOf(HubRun(cfg, h, DeedsFor(id, turns)), id) == LifeRun(cfg, LifeOf(h, id), turns)
  {
    if turns != [] {
      var init := turns[..|turns| - 1];
      TurnsAreDeeds(cfg, h, id, init);
      TurnIsDeed(cfg, HubRun(cfg, h, DeedsFor(id, init)), id, turns[|turns| - 1]);
      StepFiled(cfg, HubRun(cfg, h, DeedsFor(id, init)), DeedFor(id, turns[|turns| - 1]));
      assert DeedsFor(id, turns)[..|turns| - 1] == DeedsFor(id, init) by { DeedCount(id, init); }
    }
  }

  lemma {:induction false} DeedCount(id: OrderId, turns: seq<Turn>)
    ensures |DeedsFor(id, turns)| == |turns|
  {
    if turns != [] {
      DeedCount(id, turns[..|turns| - 1]);
    }
  }

  predicate Acceptable(cfg: Config, p: CreateOrderParams) {
    IsHash256(p.paymentHash) && ExpiryGuard(cfg, p)
  }

  lemma FirstOrder(cfg: Config, p: CreateOrderParams, t0: int)
    requires Acceptable(cfg, p)
    ensures var h := HubRun(cfg, NOTHING, [Deed.Open, Create(p, t0)]);
            UnderOwnId(h) && LifeOf(h, p.orderId) == Fresh(p, t0)
  {
    var h := NOTHING.(ready := true);
    OpenThen(cfg, NOTHING, Create(p, t0));
    assert CanCreate(cfg, h, p);
    BornFresh(cfg, h, p, t0);
  }

  lemma BornFresh(cfg: Config, h: Hub, p: CreateOrderParams, t0: int)
    requires h == NOTHING.(ready := true) && CanCreate(cfg, h, p)
    ensures UnderOwnId(Creates(h, p, t0, Full)) && LifeOf(Creates(h, p, t0, Full), p.orderId) == Fresh(p, t0)
  {
    NewLife(cfg, h, p, t0, Full, p.orderId);
    assert [] + [BirthLine(p, t0)] == [BirthLine(p, t0)];
  }

  /** What an order goes on to live, the hub goes on to live. */
  lemma Lived(cfg: Config, start: seq<Deed>, id: OrderId, g: Life) returns (turns: seq<Turn>)
    requires UnderOwnId(HubRun(cfg, NOTHING, start)) && Lives(cfg, LifeOf(HubRun(cfg, NOTHING, start), id), g)
    ensures AllAlone(turns) && LifeOf(HubRun(cfg, NOTHING, start + DeedsFor(id, turns)), id) == g
  {
    var h := HubRun(cfg, NOTHING, start);
    turns :| AllAlone(turns) && LifeRun(cfg, LifeOf(h, id), turns) == g;
    TurnsAreDeeds(cfg, h, id, turns);
    HubRunAppend(cfg, NOTHING, start, DeedsFor(id, turns));
  }

  /** Every such life is a run of the hub over its file. */
  lemma LivesAreLived(cfg: Config, p: CreateOrderParams, t0: int, g: Life)
    requires Acceptable(cfg, p) && Lives(cfg, Fresh(p, t0), g)
    ensures exists deeds :: LifeOf(HubRun(cfg, NOTHING, deeds), p.orderId) == g
  {
    FirstOrder(cfg, p, t0);
    var turns := Lived(cfg, [Deed.Open, Create(p, t0)], p.orderId, g);
  }

  /** So the hub can pay an order after it cancelled its hold, ... */
  lemma HubPaysAfterCancel(cfg: Config, p: CreateOrderParams, t0: int)
    requires Acceptable(cfg, p) && t0 + cfg.minSafetyDeltaMs < p.incoming.tlcExpiryAt
    ensures exists deeds :: var h := HubRun(cfg, NOTHING, deeds);
              p.orderId in h.machines && !NothingAfterCancel(h.machines[p.orderId].trace)
  {
    PaidAfterCancelHappens(cfg, p, t0);
    var g :| Lives(cfg, Fresh(p, t0), g) && g.m.Some? && !NothingAfterCancel(g.m.value.trace);
    LivesAreLived(cfg, p, t0, g);
    var deeds :| LifeOf(HubRun(cfg, NOTHING, deeds), p.orderId) == g;
    assert p.orderId in HubRun(cfg, NOTHING, deeds).machines;
  }

  /** ... and pay it twice without a denial in between. */
  lemma HubPaysTwice(cfg: Config, p: CreateOrderParams, t0: int)
    requires Acceptable(cfg, p) && t0 + cfg.minSafetyDeltaMs < p.incoming.tlcExpiryAt
    ensures exists deeds :: var h := HubRun(cfg, NOTHING, deeds);
              p.orderId in h.machines && !SingleFlight(h.machines[p.orderId].trace)
  {
    PaidTwiceHappens(cfg, p, t0);
    var g :| Lives(cfg, Fresh(p, t0), g) && g.m.Some? && !SingleFlight(g.m.value.trace);
    LivesAreLived(cfg, p, t0, g);
    var deeds :| LifeOf(HubRun(cfg, NOTHING, deeds), p.orderId) == g;
    assert p.orderId in HubRun(cfg, NOTHING, deeds).machines;
  }

  // ----- A hub that forgot everything -----

  /** No other order is created. */
  predicate OnlyFor(deed: Deed, id: OrderId) {
    (deed.Create? || deed.CreateCut?) ==> deed.p.orderId == id
  }

  lemma AfterOthersUnknown(cfg: Config, h: Hub, deed: Deed, id: OrderId, other: OrderId)
    requires OnlyFor(deed, id) && other != id && other !in h.machines
    ensures other !in After(cfg, h, deed).machines
  {
  }

  lemma StepOthersUnknown(cfg: Config, h: Hub, deed: Deed, id: OrderId, other: OrderId)
    requires HubOk(cfg, h) && OnlyFor(deed, id) && other != id && other !in h.machines
    ensures other !in HubStep(cfg, h, deed).machines
  {
    var g := After(cfg, h, deed);
    AfterOk(cfg, h, deed);
    AfterOthersUnknown(cfg, h, deed, id, other);
    if other in Restart(g).machines { FoundAgain(cfg, g, other); }
  }

  lemma {:induction false} OthersStayUnknown(cfg: Config, deeds: seq<Deed>, id: OrderId, other: OrderId)
    requires other != id && forall i :: 0 <= i < |deeds| ==> OnlyFor(deeds[i], id)
    ensures other !in HubRun(cfg, NOTHING, deeds).machines
  {
    if deeds != [] {
      var init := deeds[..|deeds| - 1];
      OthersStayUnknown(cfg, init, id, other);
      NothingIsOk(cfg);
      HubStaysOk(cfg, NOTHING, init);
      StepOthersUnknown(cfg, HubRun(cfg, NOTHING, init), deeds[|deeds| - 1], id, other);
    }
  }

  /** A hub without orders, over a file that ends where a record ends, is as on its first day. */
  lemma NobodyIsNothing(cfg: Config, h: Hub)
    requires HubOk(cfg, h) && !h.ready && h.disk.tail == Clean && forall id :: id !in h.machines
    ensures h == NOTHING
  {
    assert h.disk.lines + [] == h.disk.lines;
    if h.disk.lines != [] { LineIsKnown(cfg, h, 0); }
    assert h.machines == map[];
    assert forall hash :: hash !in h.byHash;
    assert h.byHash == map[];
  }

  lemma BornGlued(cfg: Config, h: Hub, p: CreateOrderParams, t0: int)
    requires h == NOTHING.(ready := true) && CanCreate(cfg, h, p)
    ensures var t := Restart(Creates(h, p, t0, AllButNewline)); UnderOwnId(t) && LifeOf(t, p.orderId) == Glued(p, t0)
  {
    NewLife(cfg, h, p, t0, AllButNewline, p.orderId);
    RestartedLife(Creates(h, p, t0, AllButNewline), p.orderId);
    RestartFiled(Creates(h, p, t0, AllButNewline));
    assert LifeOf(h, p.orderId) == Unborn(Clean);
    GluedIsBorn(cfg, p, t0);
  }

  lemma CutBirth(cfg: Config, h: Hub, p: CreateOrderParams, t0: int)
    requires CanCreate(cfg, h, p)
    ensures HubStep(cfg, h, CreateCut(p, t0, AllButNewline)) == Restart(Creates(h, p, t0, AllButNewline))
  {
  }

  lemma GluedAfter(cfg: Config, h: Hub, p: CreateOrderParams, t0: int, start: seq<Deed>, t: Hub)
    requires h == NOTHING.(ready := true) && CanCreate(cfg, h, p) && start == [Deed.Open, CreateCut(p, t0, AllButNewline)]
    requires t == Restart(Creates(h, p, t0, AllButNewline))
    ensures HubRun(cfg, NOTHING, start) == t
  {
    OpenThen(cfg, NOTHING, CreateCut(p, t0, AllButNewline));
    CutBirth(cfg, h, p, t0);
  }

  lemma GluedOrder(cfg: Config, p: CreateOrderParams, t0: int) returns (start: seq<Deed>)
    requires Acceptable(cfg, p)
    ensures UnderOwnId(HubRun(cfg, NOTHING, start)) && LifeOf(HubRun(cfg, NOTHING, start), p.orderId) == Glued(p, t0)
    ensures forall i :: 0 <= i < |start| ==> OnlyFor(start[i], p.orderId)
  {
    var h := NOTHING.(ready := true);
    BornGlued(cfg, h, p, t0);
    start := [Deed.Open, CreateCut(p, t0, AllButNewline)];
    GluedAfter(cfg, h, p, t0, start, Restart(Creates(h, p, t0, AllButNewline)));
  }

  lemma {:induction false} DeedsAreOnlyFor(id: OrderId, turns: seq<Turn>)
    requires AllAlone(turns)
    ensures forall i :: 0 <= i < |DeedsFor(id, turns)| ==> OnlyFor(DeedsFor(id, turns)[i], id)
  {
    if turns != [] {
      DeedsAreOnlyFor(id, turns[..|turns| - 1]);
    }
  }

  lemma StillOnlyFor(id: OrderId, start: seq<Deed>, turns: seq<Turn>)
    requires AllAlone(turns) && forall i :: 0 <= i < |start| ==> OnlyFor(start[i], id)
    ensures var deeds := start + DeedsFor(id, turns); forall i :: 0 <= i < |deeds| ==> OnlyFor(deeds[i], id)
  {
    DeedsAreOnlyFor(id, turns);
  }

  lemma LivedAlone(cfg: Config, start: seq<Deed>, id: OrderId, g: Life) returns (deeds: seq<Deed>)
    requires UnderOwnId(HubRun(cfg, NOTHING, start)) && Lives(cfg, LifeOf(HubRun(cfg, NOTHING, start), id), g)
    requires forall i :: 0 <= i < |start| ==> OnlyFor(start[i], id)
    ensures LifeOf(HubRun(cfg, NOTHING, deeds), id) == g
    ensures forall i :: 0 <= i < |deeds| ==> OnlyFor(deeds[i], id)
  {
    var turns := Lived(cfg, start, id, g);
    StillOnlyFor(id, start, turns);
    deeds := start + DeedsFor(id, turns);
  }

  /** The hub lives a life of a glued order. */
  lemma GluedIsLived(cfg: Config, p: CreateOrderParams, t0: int, g: Life) returns (deeds: seq<Deed>)
    requires Acceptable(cfg, p) && Lives(cfg, Glued(p, t0), g)
    ensures LifeOf(HubRun(cfg, NOTHING, deeds), p.orderId) == g
    ensures forall i :: 0 <= i < |deeds| ==> OnlyFor(deeds[i], p.orderId)
  {
    var start := GluedOrder(cfg, p, t0);
    deeds := LivedAlone(cfg, start, p.orderId, g);
  }

  /** It dies, and knows nothing any more; what its order was seen to do is still the last that was seen. */
  lemma HubForgets(cfg: Config, p: CreateOrderParams, t0: int, g: Life) returns (deeds: seq<Deed>)
    requires Acceptable(cfg, p) && Lives(cfg, Glued(p, t0), g) && Forgettable(g)
    requires g.m.value.order.paymentHash == p.paymentHash
    ensures HubRun(cfg, NOTHING, deeds) == NOTHING
    ensures EndsWith(ForHash(AllSeen(cfg, NOTHING, deeds), p.paymentHash), g.m.value.trace)
  {
    var alive := GluedIsLived(cfg, p, t0, g);
    var h := HubRun(cfg, NOTHING, alive);
    deeds := alive + [Die];
    HubRunOne(cfg, NOTHING, alive, Die);
    AllSeenOne(cfg, NOTHING, alive, Die);
    NothingIsOk(cfg);
    HubStaysOk(cfg, NOTHING, alive);
    HubStaysOk(cfg, NOTHING, deeds);
    KnowsNothing(cfg, h, p.orderId, g, alive);
    NobodyIsNothing(cfg, Restart(h));
    TracesAreEnds(cfg, alive, p.paymentHash);
    HeldUnderHash(cfg, h, p.orderId, g);
    assert [] + AllSeen(cfg, NOTHING, alive) == AllSeen(cfg, NOTHING, alive);
    assert AllSeen(cfg, NOTHING, alive) + [] == AllSeen(cfg, NOTHING, alive);
  }

  lemma KnowsNothing(cfg: Config, h: Hub, id: OrderId, g: Life, deeds: seq<Deed>)
    requires h == HubRun(cfg, NOTHING, deeds) && LifeOf(h, id) == g && Forgettable(g)
    requires forall i :: 0 <= i < |deeds| ==> OnlyFor(deeds[i], id)
    ensures Restart(h).disk.tail == Clean && forall other :: other !in Restart(h).machines
  {
    NothingIsOk(cfg);
    HubStaysOk(cfg, NOTHING, deeds);
    RestartedLife(h, id);
    assert BLANK_DISK.lines + [] == [];
    assert LifeOf(Restart(h), id).m.None?;
    forall other ensures other !in Restart(h).machines {
      if other != id && other in Restart(h).machines {
        FoundAgain(cfg, h, other);
        OthersStayUnknown(cfg, deeds, id, other);
      }
    }
  }

  lemma HeldUnderHash(cfg: Config, h: Hub, id: OrderId, g: Life)
    requires HubOk(cfg, h) && LifeOf(h, id) == g && g.m.Some?
    ensures HolderOf(h, g.m.value.order.paymentHash) == g.m
  {
    assert id in h.machines && h.machines[id] == g.m.value;
  }

  lemma LastPayIsOpen(s: seq<Obs>, t: seq<Obs>)
    requires EndsWith(s, t) && EndsInPay(t)
    ensures !MayPay(s)
  {
    assert s[|s| - 1] == t[|t| - 1];
  }

  lemma LastCancelIsSeen(s: seq<Obs>, t: seq<Obs>)
    requires EndsWith(s, t) && EndsInCancel(t)
    ensures HasCancel(s)
  {
    assert s[|s| - 1] == t[|t| - 1];
  }

  /** Every order can be paid and then forgotten so completely that the hub is as on its first day, with the payment not
      denied; an order with its hash is then paid again. */
  lemma HubPaysForgottenAgain(cfg: Config, p: CreateOrderParams, t0: int)
    requires Acceptable(cfg, p) && t0 + cfg.minSafetyDeltaMs < p.incoming.tlcExpiryAt
    ensures exists deeds :: var seen := AllSeen(cfg, NOTHING, deeds);
              && HubRun(cfg, NOTHING, deeds) == NOTHING && !MayPay(ForHash(seen, p.paymentHash))
              && CanPayTwice(cfg, NOTHING, seen, p.paymentHash)
  {
    var g := PaidAndForgottenHappens(cfg, p, t0);
    var deeds := HubForgets(cfg, p, t0, g);
    var seen := AllSeen(cfg, NOTHING, deeds);
    LastPayIsOpen(ForHash(seen, p.paymentHash), g.m.value.trace);
    NothingIsOk(cfg);
    PaysHashAnew(cfg, NOTHING, seen, p.paymentHash);
  }

  /** And so can it pay a hash after a cancel. */
  lemma HubPaysForgottenCancel(cfg: Config, p: CreateOrderParams, t0: int)
    requires Acceptable(cfg, p)
    ensures exists deeds :: var seen := AllSeen(cfg, NOTHING, deeds);
              && HubRun(cfg, NOTHING, deeds) == NOTHING && HasCancel(ForHash(seen, p.paymentHash))
              && CanMoveAfterCancel(cfg, NOTHING, seen, p.paymentHash)
  {
    var g := CancelledAndForgottenHappens(cfg, p, t0);
    var deeds := HubForgets(cfg, p, t0, g);
    var seen := AllSeen(cfg, NOTHING, deeds);
    LastCancelIsSeen(ForHash(seen, p.paymentHash), g.m.value.trace);
    NothingIsOk(cfg);
    MovesHashAnew(cfg, NOTHING, seen, p.paymentHash);
  }
}
