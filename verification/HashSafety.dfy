/** What holds of a payment hash, over every order that was ever created with it: a record can be forgotten so completely
    that the hub accepts another order with its hash, while the nodes remember what they saw. */
module HashSafety {
  import opened Basics
  import opened Orders
  import opened OrderMachine
  import opened OrderDisk
  import opened MachineSteps
  import opened MachineSafety
  import opened MachineHistory
  import opened OrderLife
  import opened Hub
  import opened HubSafety

  /** The order that a hash leads to. */
  function HolderOf(h: Hub, hash: Hash): Option<Machine> {
    if hash in h.byHash && h.byHash[hash] in h.machines then Some(h.machines[h.byHash[hash]]) else None
  }

  /** A process that has just been started: nothing of this order is running. */
  predicate Rested(m: Option<Machine>) {
    m.Some? ==> m.value.proc == IDLE
  }

  lemma RestartRests(h: Hub, hash: Hash)
    ensures Rested(HolderOf(Restart(h), hash))
  {
    var t := Restart(h);
    if hash in t.byHash { RestartedLife(h, t.byHash[hash]); }
  }

  lemma HolderIs(cfg: Config, h: Hub, hash: Hash)
    requires HubOk(cfg, h)
    ensures HolderOf(h, hash).None? <==> hash !in h.byHash
    ensures hash in h.byHash ==>
              var id := h.byHash[hash];
              && id in h.machines && HolderOf(h, hash) == Some(h.machines[id]) && h.machines[id].order.paymentHash == hash
              && PcOk(cfg, h.machines[id]) && LegsAgree(cfg, h.machines[id].order)
  {
    if hash in h.byHash {
      assert Sound(cfg, LifeOf(h, h.byHash[hash]));
    }
  }

  /** Created just now. */
  predicate Newborn(m: Machine) {
    m.order.state == Pending && m.proc.pc == Idle && m.trace == []
  }

  /** What a deed is to a hash: a step of its order, seen by the nodes, or a birth, or nothing. */
  ghost predicate Moves(cfg: Config, m: Option<Machine>, t: Option<Machine>, es: seq<Obs>) {
    || (es == [] && t == m)
    || (es == [] && m.None? && t.Some? && Newborn(t.value))
    || (m.Some? && t.Some? && exists a :: MovesBy(cfg, m.value, a, t.value, es))
  }

  predicate MovesBy(cfg: Config, m: Machine, a: Action, t: Machine, es: seq<Obs>) {
    t == Step(cfg, m, a) && es == Emits(cfg, m, a)
  }

  lemma HolderMoves(cfg: Config, h: Hub, id: OrderId, a: Action, cut: Cut, hash: Hash)
    requires Indexed(h) && id in h.machines
    ensures var m := h.machines[id];
            HolderOf(Acts(cfg, h, id, a, cut), hash) ==
              if m.order.paymentHash == hash && !(EditOf(cfg, m, a) != NoEdit && Unfinished(cut))
              then Some(Step(cfg, m, a)) else HolderOf(h, hash)
    ensures h.machines[id].order.paymentHash == hash ==> HolderOf(h, hash) == Some(h.machines[id])
  {
    StepKeepsIds(cfg, h.machines[id], a);
  }

  lemma ActsMove(cfg: Config, h: Hub, id: OrderId, a: Action, cut: Cut, hash: Hash)
    requires Indexed(h) && id in h.machines
    ensures Moves(cfg, HolderOf(h, hash), HolderOf(Acts(cfg, h, id, a, cut), hash), ForHash(SeenOf(cfg, h, id, a, cut), hash))
  {
    var m := h.machines[id];
    TaggedForHash(Shown(cfg, m, a, cut), m.order.paymentHash, hash);
    HolderMoves(cfg, h, id, a, cut, hash);
    assert MovesBy(cfg, m, a, Step(cfg, m, a), Emits(cfg, m, a));
  }

  lemma CreatesMove(cfg: Config, h: Hub, p: CreateOrderParams, now: int, cut: Cut, hash: Hash)
    requires Indexed(h) && CanCreate(cfg, h, p)
    ensures Moves(cfg, HolderOf(h, hash), HolderOf(Creates(h, p, now, cut), hash), [])
  {
  }

  lemma AfterMoves(cfg: Config, h: Hub, deed: Deed, hash: Hash)
    requires Indexed(h)
    ensures Moves(cfg, HolderOf(h, hash), HolderOf(After(cfg, h, deed), hash), ForHash(Sees(cfg, h, deed), hash))
  {
    match deed
    case Create(p, now) => if CanCreate(cfg, h, p) { CreatesMove(cfg, h, p, now, Full, hash); }
    case CreateCut(p, now, cut) => if CanCreate(cfg, h, p) { CreatesMove(cfg, h, p, now, cut, hash); }
    case Do(id, a) => if id in h.machines && a != Crash { ActsMove(cfg, h, id, a, Full, hash); }
    case DoCut(id, a, cut) => if id in h.machines { ActsMove(cfg, h, id, a, cut, hash); }
    case _ =>
  }

  // ----- Single flight -----

  /** Everything seen under the hash is single flight, and stays so while the process lives. */
  ghost predicate SingleHash(m: Option<Machine>, seen: seq<Obs>) {
    && SingleFlight(seen)
    && (m.None? ==> MayPay(seen))
    && (m.Some? ==> SingleOver(m.value, seen))
  }

  lemma MoveSingle(cfg: Config, m: Option<Machine>, t: Option<Machine>, es: seq<Obs>, seen: seq<Obs>)
    requires Moves(cfg, m, t, es) && SingleHash(m, seen) && (m.Some? ==> PcOk(cfg, m.value))
    ensures SingleHash(t, seen + es)
  {
    if es == [] { assert seen + es == seen; }
    if m.Some? && t.Some? {
      if a :| MovesBy(cfg, m.value, a, t.value, es) { StepSingleOver(cfg, m.value, a, seen); }
    }
  }

  /** At this death: a pay was seen that no node denied, and the next process finds its order PENDING, or finds no order
      under its hash at all. */
  ghost predicate ForgetsPay(g: Hub, seen: seq<Obs>, hash: Hash) {
    !MayPay(seen) && MayPayAnew(HolderOf(Restart(g), hash))
  }

  predicate MayPayAnew(found: Option<Machine>) {
    found.None? || found.value.order.state == Pending
  }

  ghost predicate NeverForgetsPay(cfg: Config, h: Hub, seen: seq<Seen>, deeds: seq<Deed>, hash: Hash) {
    deeds == [] ||
    var init, deed := deeds[..|deeds| - 1], deeds[|deeds| - 1];
    && NeverForgetsPay(cfg, h, seen, init, hash)
    && (Kills(deed) ==> !ForgetsPay(After(cfg, HubRun(cfg, h, init), deed), ForHash(seen + AllSeen(cfg, h, deeds), hash), hash))
  }

  lemma SeenOneMore(cfg: Config, h: Hub, seen: seq<Seen>, deeds: seq<Deed>, hash: Hash)
    requires deeds != []
    ensures var init, deed := deeds[..|deeds| - 1], deeds[|deeds| - 1];
            ForHash(seen + AllSeen(cfg, h, deeds), hash) ==
              ForHash(seen + AllSeen(cfg, h, init), hash) + ForHash(Sees(cfg, HubRun(cfg, h, init), deed), hash)
  {
    var init, deed := deeds[..|deeds| - 1], deeds[|deeds| - 1];
    var es := Sees(cfg, HubRun(cfg, h, init), deed);
    Associate(seen, AllSeen(cfg, h, init), es);
    ForHashAppend(seen + AllSeen(cfg, h, init), es, hash);
  }

  lemma StepSingleHash(cfg: Config, h: Hub, deed: Deed, seen: seq<Obs>, hash: Hash)
    requires HubOk(cfg, h) && SingleHash(HolderOf(h, hash), seen)
    requires Kills(deed) ==> !ForgetsPay(After(cfg, h, deed), seen + ForHash(Sees(cfg, h, deed), hash), hash)
    ensures SingleHash(HolderOf(HubStep(cfg, h, deed), hash), seen + ForHash(Sees(cfg, h, deed), hash))
  {
    HolderIs(cfg, h, hash);
    AfterMoves(cfg, h, deed, hash);
    MoveSingle(cfg, HolderOf(h, hash), HolderOf(After(cfg, h, deed), hash), ForHash(Sees(cfg, h, deed), hash), seen);
    RestartRests(After(cfg, h, deed), hash);
  }

  /** In every run: between any two pays under a hash the node denied having one, unless a death forgot a pay. */
  lemma {:induction false} SingleFlightPerHash(cfg: Config, h: Hub, seen: seq<Seen>, deeds: seq<Deed>, hash: Hash)
    requires HubOk(cfg, h) && SingleHash(HolderOf(h, hash), ForHash(seen, hash))
    requires NeverForgetsPay(cfg, h, seen, deeds, hash)
    ensures SingleHash(HolderOf(HubRun(cfg, h, deeds), hash), ForHash(seen + AllSeen(cfg, h, deeds), hash))
  {
    if deeds == [] {
      assert seen + [] == seen;
    } else {
      var init, deed := deeds[..|deeds| - 1], deeds[|deeds| - 1];
      SingleFlightPerHash(cfg, h, seen, init, hash);
      HubStaysOk(cfg, h, init);
      SeenOneMore(cfg, h, seen, deeds, hash);
      StepSingleHash(cfg, HubRun(cfg, h, init), deed, ForHash(seen + AllSeen(cfg, h, init), hash), hash);
    }
  }

  // ----- Nothing settles after a cancel -----

  ghost predicate FinalHash(m: Option<Machine>, seen: seq<Obs>) {
    && NothingAfterCancel(seen)
    && (m.None? ==> !HasCancel(seen))
    && (m.Some? ==> FinalOver(m.value, seen))
  }

  lemma MoveFinal(cfg: Config, m: Option<Machine>, t: Option<Machine>, es: seq<Obs>, seen: seq<Obs>)
    requires Moves(cfg, m, t, es) && FinalHash(m, seen) && (m.Some? ==> PcOk(cfg, m.value))
    ensures FinalHash(t, seen + es)
  {
    if es == [] { assert seen + es == seen; }
    if m.Some? && t.Some? {
      if a :| MovesBy(cfg, m.value, a, t.value, es) { StepFinalOver(cfg, m.value, a, seen); }
    }
  }

  /** At this death: a cancel was seen, and the next process finds its order in a state that has more to do, or finds no
      order under its hash at all. */
  ghost predicate ForgetsCancel(g: Hub, seen: seq<Obs>, hash: Hash) {
    HasCancel(seen) && MayMoveAnew(HolderOf(Restart(g), hash))
  }

  predicate MayMoveAnew(found: Option<Machine>) {
    found.None? || !Inert(found.value)
  }

  ghost predicate NeverForgetsCancel(cfg: Config, h: Hub, seen: seq<Seen>, deeds: seq<Deed>, hash: Hash) {
    deeds == [] ||
    var init, deed := deeds[..|deeds| - 1], deeds[|deeds| - 1];
    && NeverForgetsCancel(cfg, h, seen, init, hash)
    && (Kills(deed) ==>
          !ForgetsCancel(After(cfg, HubRun(cfg, h, init), deed), ForHash(seen + AllSeen(cfg, h, deeds), hash), hash))
  }

  lemma StepFinalHash(cfg: Config, h: Hub, deed: Deed, seen: seq<Obs>, hash: Hash)
    requires HubOk(cfg, h) && FinalHash(HolderOf(h, hash), seen)
    requires Kills(deed) ==> !ForgetsCancel(After(cfg, h, deed), seen + ForHash(Sees(cfg, h, deed), hash), hash)
    ensures FinalHash(HolderOf(HubStep(cfg, h, deed), hash), seen + ForHash(Sees(cfg, h, deed), hash))
  {
    HolderIs(cfg, h, hash);
    AfterMoves(cfg, h, deed, hash);
    MoveFinal(cfg, HolderOf(h, hash), HolderOf(After(cfg, h, deed), hash), ForHash(Sees(cfg, h, deed), hash), seen);
  }

  /** In every run: nothing is paid or settled under a hash after a cancel, unless a death forgot the cancel. */
  lemma {:induction false} NothingSettlesAfterCancelPerHash(cfg: Config, h: Hub, seen: seq<Seen>, deeds: seq<Deed>, hash: Hash)
    requires HubOk(cfg, h) && FinalHash(HolderOf(h, hash), ForHash(seen, hash))
    requires NeverForgetsCancel(cfg, h, seen, deeds, hash)
    ensures FinalHash(HolderOf(HubRun(cfg, h, deeds), hash), ForHash(seen + AllSeen(cfg, h, deeds), hash))
  {
    if deeds == [] {
      assert seen + [] == seen;
    } else {
      var init, deed := deeds[..|deeds| - 1], deeds[|deeds| - 1];
      NothingSettlesAfterCancelPerHash(cfg, h, seen, init, hash);
      HubStaysOk(cfg, h, init);
      SeenOneMore(cfg, h, seen, deeds, hash);
      StepFinalHash(cfg, HubRun(cfg, h, init), deed, ForHash(seen + AllSeen(cfg, h, init), hash), hash);
    }
  }

  // ----- Both conditions are exact -----

  /** One process, without a death. */
  predicate Living(deeds: seq<Deed>) {
    forall i :: 0 <= i < |deeds| ==> !Kills(deeds[i])
  }

  lemma {:induction false} LivingForgetsNothing(cfg: Config, h: Hub, seen: seq<Seen>, deeds: seq<Deed>, hash: Hash)
    requires Living(deeds)
    ensures NeverForgetsPay(cfg, h, seen, deeds, hash) && NeverForgetsCancel(cfg, h, seen, deeds, hash)
  {
    if deeds != [] {
      LivingForgetsNothing(cfg, h, seen, deeds[..|deeds| - 1], hash);
    }
  }

  function DeedsOf(id: OrderId, actions: seq<Action>): (deeds: seq<Deed>)
    ensures |deeds| == |actions| && forall i :: 0 <= i < |deeds| ==> deeds[i] == Do(id, actions[i])
  {
    seq(|actions|, i requires 0 <= i < |actions| => Do(id, actions[i]))
  }

  lemma Shows(cfg: Config, h: Hub, id: OrderId, a: Action)
    requires id in h.machines && a != Crash
    ensures var m, t, hash := h.machines[id], HubStep(cfg, h, Do(id, a)), h.machines[id].order.paymentHash;
            && id in t.machines && t.machines[id] == Step(cfg, m, a) && t.machines[id].order.paymentHash == hash
            && t.machines[id].trace == m.trace + ForHash(Sees(cfg, h, Do(id, a)), hash)
  {
    var m := h.machines[id];
    TaggedForHash(Emits(cfg, m, a), m.order.paymentHash, m.order.paymentHash);
    StepKeepsIds(cfg, m, a);
    StepEdits(cfg, m, a);
  }

  /** What an order does is what is seen under its hash. */
  lemma {:induction false} ActionsShow(cfg: Config, h: Hub, id: OrderId, actions: seq<Action>)
    requires id in h.machines && forall i :: 0 <= i < |actions| ==> actions[i] != Crash
    ensures var m, t, hash := h.machines[id], HubRun(cfg, h, DeedsOf(id, actions)), h.machines[id].order.paymentHash;
            && id in t.machines && t.machines[id] == Steps(cfg, m, actions) && t.machines[id].order.paymentHash == hash
            && t.machines[id].trace == m.trace + ForHash(AllSeen(cfg, h, DeedsOf(id, actions)), hash)
  {
    var m, deeds, hash := h.machines[id], DeedsOf(id, actions), h.machines[id].order.paymentHash;
    if actions == [] {
      assert m.trace + [] == m.trace;
    } else {
      var init, a := actions[..|actions| - 1], actions[|actions| - 1];
      ActionsShow(cfg, h, id, init);
      assert deeds[..|deeds| - 1] == DeedsOf(id, init);
      InitAndLast(actions);
      StepsLast(cfg, m, init, a);
      var g := HubRun(cfg, h, DeedsOf(id, init));
      Shows(cfg, g, id, a);
      ForHashAppend(AllSeen(cfg, h, DeedsOf(id, init)), Sees(cfg, g, Do(id, a)), hash);
      Associate(m.trace, ForHash(AllSeen(cfg, h, DeedsOf(id, init)), hash), ForHash(Sees(cfg, g, Do(id, a)), hash));
    }
  }

  ghost predicate EndsInMove(es: seq<Obs>) {
    es != [] && MovesMoney(es[|es| - 1])
  }

  /** What the order of a hash can do, the hub can do, and the nodes see it. */
  lemma HolderActs(cfg: Config, h: Hub, id: OrderId, t: Machine, at: int) returns (deeds: seq<Deed>)
    requires id in h.machines && Reaches(cfg, h.machines[id], t, at)
    ensures Living(deeds)
    ensures t.trace == h.machines[id].trace + ForHash(AllSeen(cfg, h, deeds), h.machines[id].order.paymentHash)
  {
    var actions :| AllAt(actions, at) && Steps(cfg, h.machines[id], actions) == t;
    deeds := DeedsOf(id, actions);
    ActionsShow(cfg, h, id, actions);
  }

  lemma Suffix(s: seq<Obs>, t: seq<Obs>, es: seq<Obs>)
    requires t == s + es && |s| < |t|
    ensures es != [] && es[|es| - 1] == t[|t| - 1]
  {
  }

  // A name that no order has.

  lemma {:induction false} Longest(ids: set<OrderId>) returns (n: nat)
    ensures forall id :: id in ids ==> |id| < n
    decreases |ids|
  {
    if |ids| == 0 {
      n := 0;
    } else {
      var id :| id in ids;
      n := Longest(ids - {id});
      if n <= |id| { n := |id| + 1; }
    }
  }

  lemma FreshId(ids: set<OrderId>) returns (id: OrderId)
    ensures id !in ids
  {
    var n := Longest(ids);
    id := seq(n, i => 'a');
    assert |id| == n;
  }

  function AnyOrder(cfg: Config, id: OrderId, hash: Hash): CreateOrderParams {
    CreateOrderParams(id, "", FiberToLn, hash, LegParams(Fiber, "", 1, cfg.minSafetyDeltaMs + 2), LegParams(Lightning, "", 1, 0))
  }

  /** Under a hash that leads to no order, another one can be created. */
  lemma Recreated(cfg: Config, h: Hub, p: CreateOrderParams, now: int)
    requires CanCreate(cfg, h.(ready := true), p)
    ensures var deeds := [Deed.Open, Create(p, now)];
            && Living(deeds) && AllSeen(cfg, h, deeds) == []
            && HubRun(cfg, h, deeds) == Creates(h.(ready := true), p, now, Full)
  {
    OpenThen(cfg, h, Create(p, now));
    assert HubRun(cfg, h, [Deed.Open]) == h.(ready := true) && [] + [Deed.Open] == [Deed.Open];
    assert [Deed.Open] + [Create(p, now)] == [Deed.Open, Create(p, now)];
    AllSeenOne(cfg, h, [], Deed.Open);
    AllSeenOne(cfg, h, [Deed.Open], Create(p, now));
  }

  lemma NewOrder(cfg: Config, h: Hub, hash: Hash) returns (id: OrderId, deeds: seq<Deed>)
    requires hash !in h.byHash && IsHash256(hash)
    ensures Living(deeds) && AllSeen(cfg, h, deeds) == []
    ensures var t := HubRun(cfg, h, deeds);
            && id in t.machines && t.machines[id].proc.pc == Idle && t.machines[id].proc.queue == []
            && !t.machines[id].proc.tail && t.machines[id].trace == [] && t.machines[id].order.paymentHash == hash
            && LegsAgree(cfg, t.machines[id].order) && t.machines[id].order.state == Pending
            && InWindow(cfg, t.machines[id].order, 1)
  {
    id := FreshId(h.machines.Keys);
    var p := AnyOrder(cfg, id, hash);
    Recreated(cfg, h, p, 0);
    deeds := [Deed.Open, Create(p, 0)];
    CreatedLawful(cfg, p, 0);
  }

  /** It is paid. */
  lemma NewOrderPays(cfg: Config, h: Hub, hash: Hash) returns (deeds: seq<Deed>)
    requires hash !in h.byHash && IsHash256(hash)
    ensures Living(deeds) && |ForHash(AllSeen(cfg, h, deeds), hash)| == 1 && IsPay(ForHash(AllSeen(cfg, h, deeds), hash)[0])
  {
    var id, start := NewOrder(cfg, h, hash);
    var t := HubRun(cfg, h, start);
    var u := PendingPays(cfg, t.machines[id], 1);
    var more := HolderActs(cfg, t, id, u, 1);
    deeds := start + more;
    AllSeenAppend(cfg, h, start, more);
    assert [] + AllSeen(cfg, t, more) == AllSeen(cfg, t, more);
    assert [] + ForHash(AllSeen(cfg, t, more), hash) == ForHash(AllSeen(cfg, t, more), hash);
  }

  ghost predicate CanPayTwice(cfg: Config, h: Hub, seen: seq<Seen>, hash: Hash) {
    exists deeds :: Living(deeds) && !SingleFlight(ForHash(seen + AllSeen(cfg, h, deeds), hash))
  }

  lemma PayBreaksSingleFlight(s: seq<Obs>, es: seq<Obs>)
    requires !MayPay(s) && es != [] && IsPay(es[0])
    ensures !SingleFlight(s + es)
  {
    assert (s + es)[|s|] == es[0] && (s + es)[..|s|] == s;
  }

  lemma PaysHashAnew(cfg: Config, h: Hub, seen: seq<Seen>, hash: Hash)
    requires HubOk(cfg, h) && Rested(HolderOf(h, hash)) && !MayPay(ForHash(seen, hash)) && IsHash256(hash)
    requires MayPayAnew(HolderOf(h, hash))
    ensures CanPayTwice(cfg, h, seen, hash)
  {
    HolderIs(cfg, h, hash);
    var deeds;
    if hash in h.byHash {
      var id := h.byHash[hash];
      var m := h.machines[id];
      var at := m.order.incoming.tlcExpiryAt - cfg.minSafetyDeltaMs - 1;
      var t := PendingPays(cfg, m, at);
      deeds := HolderActs(cfg, h, id, t, at);
      assert t.trace[|m.trace|] == ForHash(AllSeen(cfg, h, deeds), hash)[0];
    } else {
      deeds := NewOrderPays(cfg, h, hash);
    }
    ForHashAppend(seen, AllSeen(cfg, h, deeds), hash);
    PayBreaksSingleFlight(ForHash(seen, hash), ForHash(AllSeen(cfg, h, deeds), hash));
  }

  /** A process can pay a second time under a hash, with no denial in between, if and only if a pay was seen that no node
      denied, and it finds its order PENDING or no order under the hash. */
  lemma PaidTwiceExactly(cfg: Config, h: Hub, seen: seq<Seen>, hash: Hash)
    requires HubOk(cfg, h) && Rested(HolderOf(h, hash)) && SingleFlight(ForHash(seen, hash))
    requires ForHash(seen, hash) != [] ==> IsHash256(hash)
    ensures CanPayTwice(cfg, h, seen, hash) <==> !MayPay(ForHash(seen, hash)) && MayPayAnew(HolderOf(h, hash))
  {
    if !MayPay(ForHash(seen, hash)) && MayPayAnew(HolderOf(h, hash)) {
      PaysHashAnew(cfg, h, seen, hash);
    } else {
      forall deeds | Living(deeds) ensures SingleFlight(ForHash(seen + AllSeen(cfg, h, deeds), hash)) {
        LivingForgetsNothing(cfg, h, seen, deeds, hash);
        SingleFlightPerHash(cfg, h, seen, deeds, hash);
      }
    }
  }

  ghost predicate CanMoveAfterCancel(cfg: Config, h: Hub, seen: seq<Seen>, hash: Hash) {
    exists deeds :: Living(deeds) && !NothingAfterCancel(ForHash(seen + AllSeen(cfg, h, deeds), hash))
  }

  lemma MoveBreaksFinality(s: seq<Obs>, es: seq<Obs>)
    requires HasCancel(s) && EndsInMove(es)
    ensures !NothingAfterCancel(s + es)
  {
    var i :| 0 <= i < |s| && IsCancel(s[i]);
    var all := s + es;
    assert all[i] == s[i] && all[|all| - 1] == es[|es| - 1];
  }

  lemma HolderMovesTo(cfg: Config, h: Hub, id: OrderId, t: Machine, at: int) returns (deeds: seq<Deed>)
    requires id in h.machines && Reaches(cfg, h.machines[id], t, at)
    requires |h.machines[id].trace| < |t.trace| && MovesMoney(t.trace[|t.trace| - 1])
    ensures Living(deeds) && EndsInMove(ForHash(AllSeen(cfg, h, deeds), h.machines[id].order.paymentHash))
  {
    var m := h.machines[id];
    deeds := HolderActs(cfg, h, id, t, at);
    Suffix(m.trace, t.trace, ForHash(AllSeen(cfg, h, deeds), m.order.paymentHash));
  }

  lemma HolderMovesMoney(cfg: Config, h: Hub, id: OrderId) returns (deeds: seq<Deed>)
    requires id in h.machines && LegsAgree(cfg, h.machines[id].order) && h.machines[id].proc == IDLE
    requires !Inert(h.machines[id])
    ensures Living(deeds) && EndsInMove(ForHash(AllSeen(cfg, h, deeds), h.machines[id].order.paymentHash))
  {
    var m := h.machines[id];
    ResurrectedMovesMoneyExactly(cfg, m);
    var t, at :| Reaches(cfg, m, t, at) && |m.trace| < |t.trace| && MovesMoney(t.trace[|t.trace| - 1]);
    deeds := HolderMovesTo(cfg, h, id, t, at);
  }

  lemma MovesHashAnew(cfg: Config, h: Hub, seen: seq<Seen>, hash: Hash)
    requires HubOk(cfg, h) && Rested(HolderOf(h, hash)) && HasCancel(ForHash(seen, hash)) && IsHash256(hash)
    requires MayMoveAnew(HolderOf(h, hash))
    ensures CanMoveAfterCancel(cfg, h, seen, hash)
  {
    HolderIs(cfg, h, hash);
    var deeds;
    if hash in h.byHash {
      deeds := HolderMovesMoney(cfg, h, h.byHash[hash]);
    } else {
      deeds := NewOrderPays(cfg, h, hash);
    }
    ForHashAppend(seen, AllSeen(cfg, h, deeds), hash);
    MoveBreaksFinality(ForHash(seen, hash), ForHash(AllSeen(cfg, h, deeds), hash));
  }

  /** A process can pay or settle under a hash after a cancel if and only if a cancel was seen, and it finds its order in a
      state that has more to do or no order under the hash. */
  lemma MovedAfterCancelExactly(cfg: Config, h: Hub, seen: seq<Seen>, hash: Hash)
    requires HubOk(cfg, h) && Rested(HolderOf(h, hash)) && NothingAfterCancel(ForHash(seen, hash))
    requires ForHash(seen, hash) != [] ==> IsHash256(hash)
    ensures CanMoveAfterCancel(cfg, h, seen, hash) <==> HasCancel(ForHash(seen, hash)) && MayMoveAnew(HolderOf(h, hash))
  {
    if HasCancel(ForHash(seen, hash)) && MayMoveAnew(HolderOf(h, hash)) {
      MovesHashAnew(cfg, h, seen, hash);
    } else {
      forall deeds | Living(deeds) ensures NothingAfterCancel(ForHash(seen + AllSeen(cfg, h, deeds), hash)) {
        LivingForgetsNothing(cfg, h, seen, deeds, hash);
        NothingSettlesAfterCancelPerHash(cfg, h, seen, deeds, hash);
      }
    }
  }

  // ----- In runs from an empty file -----

  /** Nothing is seen under what is not a hash, and no order has it. */
  predicate HashOk(h: Hub, seen: seq<Obs>, hash: Hash) {
    hash in h.byHash || seen != [] ==> IsHash256(hash)
  }

  lemma StepHashOk(cfg: Config, h: Hub, deed: Deed, seen: seq<Obs>, hash: Hash)
    requires HubOk(cfg, h) && HashOk(h, seen, hash)
    ensures HashOk(HubStep(cfg, h, deed), seen + ForHash(Sees(cfg, h, deed), hash), hash)
  {
    HolderIs(cfg, h, hash);
    AfterMoves(cfg, h, deed, hash);
    AfterOk(cfg, h, deed);
    HolderIs(cfg, After(cfg, h, deed), hash);
    if hash in Restart(After(cfg, h, deed)).byHash { FoundUnderHash(cfg, After(cfg, h, deed), hash); }
    if hash !in h.byHash && hash in After(cfg, h, deed).byHash { NewUnderHash(cfg, h, deed, hash); }
  }

  lemma NewUnderHash(cfg: Config, h: Hub, deed: Deed, hash: Hash)
    requires HubOk(cfg, h) && hash !in h.byHash && hash in After(cfg, h, deed).byHash
    ensures IsHash256(hash)
  {
  }

  /** What the next process finds under a hash, this one had there. */
  lemma FoundUnderHash(cfg: Config, h: Hub, hash: Hash)
    requires HubOk(cfg, h) && hash in Restart(h).byHash
    ensures hash in h.byHash && HolderOf(Restart(h), hash).Some?
    ensures HolderOf(Restart(h), hash).value.trace == HolderOf(h, hash).value.trace
    ensures HolderOf(Restart(h), hash).value.proc == IDLE
  {
    RestartOk(cfg, h);
    HolderIs(cfg, Restart(h), hash);
    FoundAgain(cfg, h, Restart(h).byHash[hash]);
    RestartRests(h, hash);
    HolderIs(cfg, h, hash);
  }

  lemma {:induction false} HashStaysOk(cfg: Config, deeds: seq<Deed>, hash: Hash)
    ensures HashOk(HubRun(cfg, NOTHING, deeds), ForHash([] + AllSeen(cfg, NOTHING, deeds), hash), hash)
  {
    if deeds == [] {
      assert [] + AllSeen(cfg, NOTHING, deeds) == [];
    } else {
      var init, deed := deeds[..|deeds| - 1], deeds[|deeds| - 1];
      HashStaysOk(cfg, init, hash);
      NothingIsOk(cfg);
      HubStaysOk(cfg, NOTHING, init);
      SeenOneMore(cfg, NOTHING, [], deeds, hash);
      StepHashOk(cfg, HubRun(cfg, NOTHING, init), deed, ForHash([] + AllSeen(cfg, NOTHING, init), hash), hash);
    }
  }

  /** A run from an empty file, up to a death. */
  predicate EndsInDeath(deeds: seq<Deed>) {
    deeds != [] && Kills(deeds[|deeds| - 1])
  }

  /** The hub at that death, with all that was in memory. */
  function AtDeath(cfg: Config, deeds: seq<Deed>): Hub
    requires EndsInDeath(deeds)
  {
    After(cfg, HubRun(cfg, NOTHING, deeds[..|deeds| - 1]), deeds[|deeds| - 1])
  }

  /** A death leads to a second pay under a hash if and only if it forgets a pay; all deaths before it did not. */
  lemma DeathPaysTwiceExactly(cfg: Config, deeds: seq<Deed>, hash: Hash)
    requires EndsInDeath(deeds) && NeverForgetsPay(cfg, NOTHING, [], deeds[..|deeds| - 1], hash)
    ensures var seen := AllSeen(cfg, NOTHING, deeds);
            CanPayTwice(cfg, HubRun(cfg, NOTHING, deeds), seen, hash) <==> ForgetsPay(AtDeath(cfg, deeds), ForHash(seen, hash), hash)
  {
    var init, deed, seen := deeds[..|deeds| - 1], deeds[|deeds| - 1], AllSeen(cfg, NOTHING, deeds);
    NothingIsOk(cfg);
    HubStaysOk(cfg, NOTHING, init);
    HubStaysOk(cfg, NOTHING, deeds);
    SingleFlightPerHash(cfg, NOTHING, [], init, hash);
    SeenOneMore(cfg, NOTHING, [], deeds, hash);
    assert [] + seen == seen;
    SeenAtDeath(cfg, HubRun(cfg, NOTHING, init), deed, ForHash([] + AllSeen(cfg, NOTHING, init), hash), hash);
    HashStaysOk(cfg, deeds, hash);
    PaidTwiceExactly(cfg, HubRun(cfg, NOTHING, deeds), seen, hash);
  }

  lemma SeenAtDeath(cfg: Config, h: Hub, deed: Deed, seen: seq<Obs>, hash: Hash)
    requires HubOk(cfg, h) && Kills(deed)
    ensures SingleHash(HolderOf(h, hash), seen) ==> SingleFlight(seen + ForHash(Sees(cfg, h, deed), hash))
    ensures FinalHash(HolderOf(h, hash), seen) ==> NothingAfterCancel(seen + ForHash(Sees(cfg, h, deed), hash))
    ensures Rested(HolderOf(HubStep(cfg, h, deed), hash))
  {
    var g, es := After(cfg, h, deed), ForHash(Sees(cfg, h, deed), hash);
    RestartRests(g, hash);
    HolderIs(cfg, h, hash);
    AfterMoves(cfg, h, deed, hash);
    if SingleHash(HolderOf(h, hash), seen) { MoveSingle(cfg, HolderOf(h, hash), HolderOf(g, hash), es, seen); }
    if FinalHash(HolderOf(h, hash), seen) { MoveFinal(cfg, HolderOf(h, hash), HolderOf(g, hash), es, seen); }
  }

  /** A death leads to a pay or settle after a cancel under a hash if and only if it forgets the cancel. */
  lemma DeathMovesAfterCancelExactly(cfg: Config, deeds: seq<Deed>, hash: Hash)
    requires EndsInDeath(deeds) && NeverForgetsCancel(cfg, NOTHING, [], deeds[..|deeds| - 1], hash)
    ensures var seen := AllSeen(cfg, NOTHING, deeds);
            CanMoveAfterCancel(cfg, HubRun(cfg, NOTHING, deeds), seen, hash) <==>
              ForgetsCancel(AtDeath(cfg, deeds), ForHash(seen, hash), hash)
  {
    var init, deed, seen := deeds[..|deeds| - 1], deeds[|deeds| - 1], AllSeen(cfg, NOTHING, deeds);
    NothingIsOk(cfg);
    HubStaysOk(cfg, NOTHING, init);
    HubStaysOk(cfg, NOTHING, deeds);
    NothingSettlesAfterCancelPerHash(cfg, NOTHING, [], init, hash);
    SeenOneMore(cfg, NOTHING, [], deeds, hash);
    assert [] + seen == seen;
    SeenAtDeath(cfg, HubRun(cfg, NOTHING, init), deed, ForHash([] + AllSeen(cfg, NOTHING, init), hash), hash);
    HashStaysOk(cfg, deeds, hash);
    MovedAfterCancelExactly(cfg, HubRun(cfg, NOTHING, deeds), seen, hash);
  }

  /** What an order was seen to do since it was created is the end of all that was seen under its hash. */
  predicate EndsWith(s: seq<Obs>, t: seq<Obs>) {
    |t| <= |s| && s[|s| - |t|..] == t
  }

  predicate TraceIsEnd(m: Option<Machine>, seen: seq<Obs>) {
    m.Some? ==> EndsWith(seen, m.value.trace)
  }

  lemma EndsOn(s: seq<Obs>, t: seq<Obs>, es: seq<Obs>)
    requires EndsWith(s, t)
    ensures EndsWith(s + es, t + es)
  {
  }

  lemma MoveEnds(cfg: Config, m: Option<Machine>, t: Option<Machine>, es: seq<Obs>, seen: seq<Obs>)
    requires Moves(cfg, m, t, es) && TraceIsEnd(m, seen)
    ensures TraceIsEnd(t, seen + es)
  {
    if es == [] { assert seen + es == seen; }
    if m.Some? && t.Some? {
      if a :| MovesBy(cfg, m.value, a, t.value, es) {
        EndsOn(seen, m.value.trace, es);
        StepEdits(cfg, m.value, a);
      }
    }
  }

  lemma StepEnds(cfg: Config, h: Hub, deed: Deed, seen: seq<Obs>, hash: Hash)
    requires HubOk(cfg, h) && TraceIsEnd(HolderOf(h, hash), seen)
    ensures TraceIsEnd(HolderOf(HubStep(cfg, h, deed), hash), seen + ForHash(Sees(cfg, h, deed), hash))
  {
    var g := After(cfg, h, deed);
    AfterMoves(cfg, h, deed, hash);
    MoveEnds(cfg, HolderOf(h, hash), HolderOf(g, hash), ForHash(Sees(cfg, h, deed), hash), seen);
    AfterOk(cfg, h, deed);
    if hash in Restart(g).byHash { FoundUnderHash(cfg, g, hash); }
    HolderIs(cfg, g, hash);
  }

  lemma {:induction false} TracesAreEnds(cfg: Config, deeds: seq<Deed>, hash: Hash)
    ensures TraceIsEnd(HolderOf(HubRun(cfg, NOTHING, deeds), hash), ForHash([] + AllSeen(cfg, NOTHING, deeds), hash))
  {
    if deeds != [] {
      var init, deed := deeds[..|deeds| - 1], deeds[|deeds| - 1];
      TracesAreEnds(cfg, init, hash);
      NothingIsOk(cfg);
      HubStaysOk(cfg, NOTHING, init);
      SeenOneMore(cfg, NOTHING, [], deeds, hash);
      StepEnds(cfg, HubRun(cfg, NOTHING, init), deed, ForHash([] + AllSeen(cfg, NOTHING, init), hash), hash);
    }
  }
}
