/** The cache between issuing a quote and redeeming it: one redemption per quote, none after its expiry,
    and counters that account for every quote issued. */
module QuoteCache {
  import opened Basics

  // The fields the cache looks at; `content` stands for the rest of the quote and for its request.
  datatype CachedQuote = CachedQuote(quoteId: string, expiresAt: int, content: string)

  type Quotes = map<string, CachedQuote>

  datatype Cache = Cache(quotes: Quotes, issued: nat, accepted: nat, expired: nat, rejected: nat)

  const EMPTY := Cache(map[], 0, 0, 0, 0)

  datatype Stats = Stats(issued: nat, accepted: nat, expired: nat, rejected: nat, hitRateBps: nat, windowMs: int)

  // ----- The cache as a value -----

  datatype Op =
    | Issue(cached: CachedQuote)
    | Reject
    | Consume(quoteId: string, now: int)
    | Snapshot(now: int)

  function Expired(quotes: Quotes, now: int): set<string> {
    set id | id in quotes && quotes[id].expiresAt <= now
  }

  function Swept(c: Cache, now: int): Cache {
    c.(quotes := c.quotes - Expired(c.quotes, now), expired := c.expired + |Expired(c.quotes, now)|)
  }

  function Redeemed(c: Cache, quoteId: string, now: int): Option<CachedQuote> {
    var s := Swept(c, now);
    if quoteId in s.quotes then Some(s.quotes[quoteId]) else None
  }

  function Do(c: Cache, op: Op): Cache {
    match op
    case Issue(cached) => c.(quotes := c.quotes[cached.quoteId := cached], issued := c.issued + 1)
    case Reject => c.(rejected := c.rejected + 1)
    case Consume(quoteId, now) =>
      var s := Swept(c, now);
      if quoteId in s.quotes then s.(quotes := s.quotes - {quoteId}, accepted := s.accepted + 1) else s
    case Snapshot(now) => Swept(c, now)
  }

  /** The cache after a run of operations, on any clock. */
  function After(ops: seq<Op>): Cache {
    if ops == [] then EMPTY else Do(After(ops[..|ops| - 1]), ops[|ops| - 1])
  }

  function HitRateBps(c: Cache): nat {
    if c.issued > 0 then c.accepted * 10_000 / c.issued else 0
  }

  // ----- What is in the cache, told from the operations alone -----

  /** `op` ends the life of a quote issued before it: replaced, asked for, or swept at or past its expiry. */
  predicate Ends(op: Op, cached: CachedQuote) {
    match op
    case Issue(other) => other.quoteId == cached.quoteId
    case Reject => false
    case Consume(quoteId, now) => quoteId == cached.quoteId || cached.expiresAt <= now
    case Snapshot(now) => cached.expiresAt <= now
  }

  predicate LiveSince(ops: seq<Op>, cached: CachedQuote, k: int) {
    0 <= k < |ops| && ops[k] == Issue(cached) && forall j :: k < j < |ops| ==> !Ends(ops[j], cached)
  }

  ghost predicate Live(ops: seq<Op>, cached: CachedQuote) {
    exists k :: LiveSince(ops, cached, k)
  }

  predicate Keyed(c: Cache) {
    forall id :: id in c.quotes ==> c.quotes[id].quoteId == id
  }

  predicate Holds(c: Cache, cached: CachedQuote) {
    cached.quoteId in c.quotes && c.quotes[cached.quoteId] == cached
  }

  lemma DoHolds(c: Cache, op: Op, cached: CachedQuote)
    requires Keyed(c)
    ensures Keyed(Do(c, op))
    ensures Holds(Do(c, op), cached) <==> op == Issue(cached) || (Holds(c, cached) && !Ends(op, cached))
  {
  }

  lemma LiveStep(ops: seq<Op>, op: Op, cached: CachedQuote)
    ensures Live(ops + [op], cached) <==> op == Issue(cached) || (Live(ops, cached) && !Ends(op, cached))
  {
    var all := ops + [op];
    if op == Issue(cached) {
      assert LiveSince(all, cached, |ops|);
    } else {
      if k :| LiveSince(all, cached, k) {
        assert all[k] == ops[k] && all[|ops|] == op;
        assert forall j :: k < j < |ops| ==> all[j] == ops[j];
        assert LiveSince(ops, cached, k);
      }
      if k :| LiveSince(ops, cached, k) && !Ends(op, cached) {
        assert LiveSince(all, cached, k);
      }
    }
  }

  /** The cache holds a quote exactly while no operation since its issue has ended its life. */
  lemma {:induction false} HoldsWhatIsLive(ops: seq<Op>, cached: CachedQuote)
    ensures Keyed(After(ops))
    ensures Holds(After(ops), cached) <==> Live(ops, cached)
  {
    if ops != [] {
      var n := |ops| - 1;
      HoldsWhatIsLive(ops[..n], cached);
      DoHolds(After(ops[..n]), ops[n], cached);
      LiveStep(ops[..n], ops[n], cached);
      assert ops == ops[..n] + [ops[n]];
    }
  }

  /** A redemption gives back a quote exactly when it was issued under that id, nothing has ended its life
      since, and it has not expired: in particular never twice, and never at or after `expiresAt`. */
  lemma RedeemsExactly(ops: seq<Op>, quoteId: string, now: int, cached: CachedQuote)
    ensures Redeemed(After(ops), quoteId, now) == Some(cached) <==>
              cached.quoteId == quoteId && Live(ops, cached) && now < cached.expiresAt
    ensures forall other :: Live(ops + [Consume(quoteId, now)], other) ==> other.quoteId != quoteId && now < other.expiresAt
  {
    HoldsWhatIsLive(ops, cached);
    forall other | Live(ops + [Consume(quoteId, now)], other) ensures other.quoteId != quoteId && now < other.expiresAt {
      LiveStep(ops, Consume(quoteId, now), other);
    }
  }

  // ----- The counters, told from the operations -----

  predicate IsIssue(op: Op) {
    op.Issue?
  }

  predicate IsReject(op: Op) {
    op.Reject?
  }

  /** How many of the operations are of a kind. */
  function Many(ops: seq<Op>, kind: Op -> bool): nat {
    if ops == [] then 0 else Many(ops[..|ops| - 1], kind) + (if kind(ops[|ops| - 1]) then 1 else 0)
  }

  /** How many of the operations gave a quote back. */
  function Given(ops: seq<Op>): nat {
    if ops == [] then 0 else
    var init, op := ops[..|ops| - 1], ops[|ops| - 1];
    Given(init) + (if op.Consume? && Redeemed(After(init), op.quoteId, op.now).Some? then 1 else 0)
  }

  /** Issues, refusals and redemptions are counted once each, and nothing else is. */
  lemma {:induction false} CountersTell(ops: seq<Op>)
    ensures After(ops).issued == Many(ops, IsIssue) && After(ops).rejected == Many(ops, IsReject) && After(ops).accepted == Given(ops)
  {
    if ops != [] {
      CountersTell(ops[..|ops| - 1]);
    }
  }

  /** The hit rate is the share of redeemed quotes in basis points, rounded down, and nothing when none was issued. */
  lemma HitRateMeans(c: Cache)
    ensures c.issued > 0 ==> HitRateBps(c) * c.issued <= c.accepted * 10_000 < (HitRateBps(c) + 1) * c.issued
    ensures c.issued == 0 ==> HitRateBps(c) == 0
  {
    if c.issued > 0 {
      var q := c.accepted * 10_000 / c.issued;
      assert q * c.issued <= c.accepted * 10_000 < q * c.issued + c.issued;
      assert (q + 1) * c.issued == q * c.issued + c.issued;
    }
  }

  // ----- The accounts -----

  /** An operation that issues a quote under the id of one still in the cache. */
  predicate Overwrites(c: Cache, op: Op) {
    op.Issue? && op.cached.quoteId in c.quotes
  }

  function Overwritten(ops: seq<Op>): nat {
    if ops == [] then 0
    else Overwritten(ops[..|ops| - 1]) + (if Overwrites(After(ops[..|ops| - 1]), ops[|ops| - 1]) then 1 else 0)
  }

  lemma RemovalCounts(quotes: Quotes, gone: set<string>)
    requires gone <= quotes.Keys
    ensures |quotes - gone| == |quotes| - |gone|
  {
    assert (quotes - gone).Keys == quotes.Keys - gone;
    assert |quotes.Keys| == |quotes| && |(quotes - gone).Keys| == |quotes - gone|;
    DifferenceCounts(quotes.Keys, gone);
  }

  lemma DifferenceCounts<T>(all: set<T>, gone: set<T>)
    requires gone <= all
    ensures |all - gone| == |all| - |gone|
  {
    assert all == (all - gone) + gone;
  }

  lemma AdditionCounts(quotes: Quotes, id: string, cached: CachedQuote)
    ensures |quotes[id := cached]| == |quotes| + (if id in quotes then 0 else 1)
  {
    assert quotes[id := cached].Keys == quotes.Keys + {id};
    assert |quotes.Keys| == |quotes| && |quotes[id := cached].Keys| == |quotes[id := cached]|;
    if id in quotes { assert quotes.Keys + {id} == quotes.Keys; }
  }

  function Balance(c: Cache): int {
    c.issued - c.accepted - c.expired - |c.quotes|
  }

  lemma DoKeepsBalance(c: Cache, op: Op)
    ensures Balance(Do(c, op)) == Balance(c) + (if Overwrites(c, op) then 1 else 0)
  {
    match op
    case Issue(cached) => AdditionCounts(c.quotes, cached.quoteId, cached);
    case Reject =>
    case Consume(quoteId, now) =>
      var s := Swept(c, now);
      RemovalCounts(c.quotes, Expired(c.quotes, now));
      if quoteId in s.quotes { RemovalCounts(s.quotes, {quoteId}); }
    case Snapshot(now) => RemovalCounts(c.quotes, Expired(c.quotes, now));
  }

  lemma {:induction false} BalanceIsOverwritten(ops: seq<Op>)
    ensures Balance(After(ops)) == Overwritten(ops)
  {
    if ops != [] {
      BalanceIsOverwritten(ops[..|ops| - 1]);
      DoKeepsBalance(After(ops[..|ops| - 1]), ops[|ops| - 1]);
    }
  }

  predicate NeverOverwrites(ops: seq<Op>) {
    ops == [] || (NeverOverwrites(ops[..|ops| - 1]) && !Overwrites(After(ops[..|ops| - 1]), ops[|ops| - 1]))
  }

  lemma {:induction false} OverwrittenMeans(ops: seq<Op>)
    ensures Overwritten(ops) == 0 <==> NeverOverwrites(ops)
  {
    if ops != [] {
      OverwrittenMeans(ops[..|ops| - 1]);
    }
  }

  /** Every quote issued was accepted, has expired, or is still there, exactly when no quote was ever issued
      under the id of one still in the cache; and the hit rate never exceeds one either way. */
  lemma AccountsBalanceExactly(ops: seq<Op>)
    ensures var c := After(ops); c.issued == c.accepted + c.expired + |c.quotes| <==> NeverOverwrites(ops)
    ensures var c := After(ops); c.accepted + c.expired + |c.quotes| <= c.issued
    ensures HitRateBps(After(ops)) <= 10_000
  {
    BalanceIsOverwritten(ops);
    OverwrittenMeans(ops);
    var c := After(ops);
    if c.issued > 0 { RatioIsBounded(c.accepted, c.issued); }
  }

  lemma RatioIsBounded(a: nat, b: nat)
    requires a <= b && b > 0
    ensures a * 10_000 / b <= 10_000
  {
    var q := a * 10_000 / b;
    assert q * b <= a * 10_000 <= 10_000 * b;
    MulGrows(q, 10_000, b);
  }

  lemma MulGrows(a: nat, k: nat, b: nat)
    requires b > 0
    ensures a > k ==> a * b > k * b
  {
    if a > k {
      assert a * b == k * b + (a - k) * b;
    }
  }

  // ----- One id -----

  function Count(b: bool): nat {
    if b then 1 else 0
  }

  /** How often an id was issued, replaced while live, redeemed, and reported expired. */
  function Issues(ops: seq<Op>, id: string): nat {
    if ops == [] then 0 else
    var op := ops[|ops| - 1];
    Issues(ops[..|ops| - 1], id) + Count(op.Issue? && op.cached.quoteId == id)
  }

  function Replacements(ops: seq<Op>, id: string): nat {
    if ops == [] then 0 else
    var c, op := After(ops[..|ops| - 1]), ops[|ops| - 1];
    Replacements(ops[..|ops| - 1], id) + Count(op.Issue? && op.cached.quoteId == id && id in c.quotes)
  }

  function Redemptions(ops: seq<Op>, id: string): nat {
    if ops == [] then 0 else
    var c, op := After(ops[..|ops| - 1]), ops[|ops| - 1];
    Redemptions(ops[..|ops| - 1], id) + Count(op.Consume? && op.quoteId == id && Redeemed(c, id, op.now).Some?)
  }

  function Expiries(ops: seq<Op>, id: string): nat {
    if ops == [] then 0 else
    var c, op := After(ops[..|ops| - 1]), ops[|ops| - 1];
    Expiries(ops[..|ops| - 1], id) + Count((op.Consume? || op.Snapshot?) && id in Expired(c.quotes, op.now))
  }

  /** Each issue of an id ends in one redemption, one expiry report or one replacement, or is still live. */
  lemma {:induction false} EveryIssueEndsOnce(ops: seq<Op>, id: string)
    ensures Issues(ops, id) ==
              Redemptions(ops, id) + Expiries(ops, id) + Replacements(ops, id) + Count(id in After(ops).quotes)
  {
    if ops != [] {
      EveryIssueEndsOnce(ops[..|ops| - 1], id);
    }
  }

  /** So an id that is issued once is redeemed or reported expired at most once, and never both. */
  lemma RedeemedOrExpiredOnce(ops: seq<Op>, id: string)
    requires Issues(ops, id) <= 1
    ensures Redemptions(ops, id) + Expiries(ops, id) <= 1
  {
    EveryIssueEndsOnce(ops, id);
  }

  // ----- The class -----

  /** The listener was told each id of `gone`, once. */
  ghost predicate Reports(gone: set<string>, before: seq<string>, after: seq<string>) {
    && before <= after && |after| == |before| + |gone|
    && forall id :: id in gone <==> id in after[|before|..]
  }

  lemma ReportOneMore(gone: set<string>, before: seq<string>, after: seq<string>, id: string)
    requires Reports(gone, before, after) && id !in gone
    ensures Reports(gone + {id}, before, after + [id])
  {
    assert (after + [id])[|before|..] == after[|before|..] + [id];
  }

  /** All but `todo` has been looked at; what was found expired is `gone`, and `left` is the rest. */
  ghost predicate Walked(all: Quotes, now: int, todo: set<string>, gone: set<string>, left: Quotes) {
    && left == all - gone && gone !! todo
    && forall id :: id in gone <==> id in all && all[id].expiresAt <= now && id !in todo
  }

  lemma WalkOneMore(all: Quotes, now: int, todo: set<string>, gone: set<string>, left: Quotes, id: string)
    requires Walked(all, now, todo, gone, left) && todo <= left.Keys && id in todo
    ensures left[id] == all[id] && id !in gone
    ensures if left[id].expiresAt <= now then Walked(all, now, todo - {id}, gone + {id}, left - {id})
            else Walked(all, now, todo - {id}, gone, left)
    ensures todo - {id} <= (left - {id}).Keys
  {
    assert (all - gone) - {id} == all - (gone + {id});
  }

  lemma WalkedThrough(all: Quotes, now: int, todo: set<string>, gone: set<string>, left: Quotes)
    requires Walked(all, now, todo, gone, left) && |todo| == 0
    ensures gone == Expired(all, now) && left == all - Expired(all, now)
  {
    SameSet(gone, Expired(all, now));
  }

  class QuoteCache {
    var quotes: Quotes
    var issued: nat
    var accepted: nat
    var expired: nat
    var rejected: nat
    const windowMs: int

    // What the expiry listener was told, and what has been done to the cache.
    ghost var reported: seq<string>
    ghost var ops: seq<Op>

    ghost function State(): Cache
      reads this
    {
      Cache(quotes, issued, accepted, expired, rejected)
    }

    ghost predicate Valid()
      reads this
    {
      State() == After(ops)
    }

    constructor (windowMs: int)
      ensures Valid() && State() == EMPTY && ops == [] && reported == [] && this.windowMs == windowMs
    {
      quotes, issued, accepted, expired, rejected := map[], 0, 0, 0, 0;
      this.windowMs := windowMs;
      ops, reported := [], [];
    }

    /** What each public method has done once it returns. */
    ghost method Did(op: Op)
      requires State() == Do(After(ops), op)
      modifies this`ops
      ensures ops == old(ops) + [op] && Valid()
    {
      ops := ops + [op];
      assert ops[..|ops| - 1] == old(ops);
    }

    method IssueQuote(cached: CachedQuote)
      requires Valid()
      modifies this
      ensures Valid() && ops == old(ops) + [Issue(cached)] && reported == old(reported)
    {
      quotes := quotes[cached.quoteId := cached];
      issued := issued + 1;
      Did(Issue(cached));
    }

    method RejectRequest()
      requires Valid()
      modifies this
      ensures Valid() && ops == old(ops) + [Reject] && reported == old(reported)
    {
      rejected := rejected + 1;
      Did(Reject);
    }

    /** Deletes while it walks: what has expired goes, each id once, and is reported. */
    method SweepExpired(now: int)
      modifies this`quotes, this`expired, this`reported
      ensures State() == Swept(old(State()), now)
      ensures Reports(Expired(old(quotes), now), old(reported), reported)
    {
      ghost var all, told, count := quotes, reported, expired;
      ghost var gone: set<string> := {};
      var todo := quotes.Keys;
      while |todo| > 0
        invariant todo <= quotes.Keys
        invariant Walked(all, now, todo, gone, quotes)
        invariant expired == count + |gone| && Reports(gone, told, reported)
        decreases |todo|
      {
        var id :| id in todo;
        var dead := quotes[id].expiresAt <= now;
        WalkOneMore(all, now, todo, gone, quotes, id);
        todo := todo - {id};
        if dead {
          ReportOneMore(gone, told, reported, id);
          quotes := quotes - {id};
          expired := expired + 1;
          gone := gone + {id};
          reported := reported + [id];
        }
      }
      WalkedThrough(all, now, todo, gone, quotes);
    }

    method ConsumeQuote(quoteId: string, now: int) returns (r: Option<CachedQuote>)
      requires Valid()
      modifies this
      ensures r == Redeemed(old(State()), quoteId, now)
      ensures Valid() && ops == old(ops) + [Consume(quoteId, now)]
      ensures Reports(Expired(old(quotes), now), old(reported), reported)
    {
      SweepExpired(now);
      if quoteId in quotes {
        r := Some(quotes[quoteId]);
        quotes := quotes - {quoteId};
        accepted := accepted + 1;
      } else {
        r := None;
      }
      Did(Consume(quoteId, now));
    }

    method TakeSnapshot(now: int) returns (r: Stats)
      requires Valid()
      modifies this
      ensures Valid() && ops == old(ops) + [Snapshot(now)]
      ensures r == Stats(issued, accepted, expired, rejected, HitRateBps(State()), windowMs) && r.hitRateBps <= 10_000
      ensures Reports(Expired(old(quotes), now), old(reported), reported)
    {
      SweepExpired(now);
      Did(Snapshot(now));
      AccountsBalanceExactly(ops);
      var hitRateBps: nat := if issued > 0 then accepted * 10_000 / issued else 0;
      r := Stats(issued, accepted, expired, rejected, hitRateBps, windowMs);
    }
  }
}
