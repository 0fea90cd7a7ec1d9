/** The pricing strategies and their composition. */
module Pricing {
  import opened Basics
  import opened Rational
  import opened QuoteMath
  import opened QuoteService

  /** The rate times (10^6 + delta) / 10^6, exactly; None where the source throws, when nothing positive is left. */
  function ApplyPpm(r: Rat, delta: int): (n: Option<Rat>)
    requires IsRate(r)
    ensures n.Some? <==> PPM + delta > 0
    ensures n.Some? ==> IsRate(n.value)
  {
    if PPM + delta <= 0 then None
    else
      MulMono(0, r.num, PPM + delta);
      NormalizedIsRate(Rat(r.num * (PPM + delta), r.den * PPM));
      Some(Normalized(Rat(r.num * (PPM + delta), r.den * PPM)))
  }

  /** The hub's position, in ppm: positive when it holds more of what it pays out than of what it takes in. */
  function SkewPpm(maxSkewPpm: int, ctx: PricingContext): int
    requires ctx.giveAvailable + ctx.getAvailable != 0
  {
    TruncDiv(maxSkewPpm * (ctx.getAvailable - ctx.giveAvailable), ctx.giveAvailable + ctx.getAvailable)
  }

  /** The truncated quotient stays within a bound exactly when the exact one is less than one above it. */
  lemma TruncBounded(a: int, m: int, b: int)
    requires b > 0 && m >= 0
    ensures Abs(TruncDiv(a, b)) <= m <==> Abs(a) < (m + 1) * b
  {
    TruncMeans(a, b);
    FloorMeans(Abs(a), b, m + 1);
  }

  lemma AbsOfProduct(m: int, d: int)
    requires m >= 0
    ensures Abs(m * d) == m * Abs(d)
  {
    if d >= 0 {
      MulMono(0, d, m);
    } else {
      MulMono(d, 0, m);
      Negated(m, d);
    }
  }

  /** The skew points the way of the imbalance, and truncation toward zero makes it the same for a surplus and for the
      equal shortage, which flooring would not. It stays within its bound if and only if the imbalance is not too far
      beyond the total, as it never is while neither inventory is negative. */
  lemma SkewIsBoundedAndFair(maxSkewPpm: int, ctx: PricingContext)
    requires maxSkewPpm >= 0 && ctx.giveAvailable + ctx.getAvailable > 0
    ensures var skew, total := SkewPpm(maxSkewPpm, ctx), ctx.giveAvailable + ctx.getAvailable;
            && (Abs(skew) <= maxSkewPpm <==> maxSkewPpm * (Abs(ctx.getAvailable - ctx.giveAvailable) - total) < total)
            && (ctx.giveAvailable >= 0 && ctx.getAvailable >= 0 ==> Abs(skew) <= maxSkewPpm)
            && (skew > 0 ==> ctx.getAvailable > ctx.giveAvailable)
            && (skew < 0 ==> ctx.getAvailable < ctx.giveAvailable)
            && SkewPpm(maxSkewPpm, ctx.(giveAvailable := ctx.getAvailable, getAvailable := ctx.giveAvailable)) == -skew
  {
    var total, diff := ctx.giveAvailable + ctx.getAvailable, ctx.getAvailable - ctx.giveAvailable;
    SkewBound(maxSkewPpm, diff, total);
    SkewSign(maxSkewPpm, diff, total);
    assert maxSkewPpm * (ctx.giveAvailable - ctx.getAvailable) == -(maxSkewPpm * diff) by { Negated(maxSkewPpm, diff); }
    TruncMeans(maxSkewPpm * diff, total);
  }

  lemma SkewBound(m: int, diff: int, total: int)
    requires m >= 0 && total > 0
    ensures Abs(TruncDiv(m * diff, total)) <= m <==> m * (Abs(diff) - total) < total
    ensures Abs(diff) <= total ==> Abs(TruncDiv(m * diff, total)) <= m
  {
    TruncBounded(m * diff, m, total);
    AbsOfProduct(m, diff);
    assert (m + 1) * total == m * total + total;
    assert m * (Abs(diff) - total) == m * Abs(diff) - m * total;
    if Abs(diff) <= total { MulMono(Abs(diff) - total, 0, m); }
  }

  lemma SkewSign(m: int, diff: int, total: int)
    requires m >= 0 && total > 0
    ensures TruncDiv(m * diff, total) > 0 ==> diff > 0
    ensures TruncDiv(m * diff, total) < 0 ==> diff < 0
  {
    if diff <= 0 { MulMono(diff, 0, m); }
    if diff >= 0 { MulMono(0, diff, m); }
    SignKept(m * diff, total);
  }

  lemma Negated(m: int, d: int)
    ensures m * -d == -(m * d)
  {
  }

  lemma SignKept(a: int, b: int)
    requires b > 0
    ensures a >= 0 ==> TruncDiv(a, b) >= 0
    ensures a <= 0 ==> TruncDiv(a, b) <= 0
  {
    FloorMeans(Abs(a), b, 0);
    TruncMeans(a, b);
  }

  /** A decision; None where the source throws. */
  function Adjusted(rate: Option<Rat>, hubFeePpm: int, flatFee: int): Option<PriceDecision> {
    if rate.None? then None else Some(Accept(rate.value, hubFeePpm, flatFee))
  }

  function StaticPeg(base: Rat, spreadPpm: int, hubFeePpm: int, flatFee: int): Option<PriceDecision>
    requires IsRate(base)
  {
    Adjusted(ApplyPpm(base, -spreadPpm), hubFeePpm, flatFee)
  }

  /** A feed that is missing or stale is never quoted from. */
  predicate FeedIsFresh(maxFeedAgeMs: int, ctx: PricingContext) {
    ctx.feedRate.Some? && ctx.feedUpdatedAt.Some? && ctx.now - ctx.feedUpdatedAt.value <= maxFeedAgeMs
  }

  function FeedSpread(spreadPpm: int, maxFeedAgeMs: int, hubFeePpm: int, flatFee: int, ctx: PricingContext): Option<PriceDecision>
    requires ctx.feedRate.Some? ==> IsRate(ctx.feedRate.value)
  {
    if !FeedIsFresh(maxFeedAgeMs, ctx) then Some(Reject(PricingUnavailable))
    else
      NormalizedIsRate(ctx.feedRate.value);
      Adjusted(ApplyPpm(Normalized(ctx.feedRate.value), -spreadPpm), hubFeePpm, flatFee)
  }

  /** What the quote service needs of a decision. */
  predicate Usable(d: PriceDecision) {
    d.Accept? ==> IsRate(d.rate) && IsFee(d.hubFeePpm) && d.flatFee >= 0
  }

  /** The decision of an inner strategy with the hub's inventory applied to its rate. */
  function InventorySkew(d: PriceDecision, maxSkewPpm: int, ctx: PricingContext): Option<PriceDecision>
    requires Usable(d)
  {
    if d.Reject? then Some(d)
    else if ctx.giveAvailable + ctx.getAvailable <= 0 then Some(Reject(InventoryInsufficient))
    else Adjusted(ApplyPpm(d.rate, SkewPpm(maxSkewPpm, ctx)), d.hubFeePpm, d.flatFee)
  }

  ghost predicate UsableIf(d: Option<PriceDecision>, works: bool) {
    (d.Some? <==> works) && (d.Some? ==> Usable(d.value))
  }

  /** Every strategy, and every chain of wrappers around it, decides on what the quote service can use or throws, and
      throws exactly when the adjustment would leave nothing of the rate; a refusal passes through untouched. */
  lemma ChainsStayUsable(base: Rat, spreadPpm: int, maxFeedAgeMs: int, hubFeePpm: int, flatFee: int,
                         inner: PriceDecision, maxSkewPpm: int, ctx: PricingContext)
    requires IsRate(base) && IsFee(hubFeePpm) && flatFee >= 0 && Usable(inner)
    requires ctx.feedRate.Some? ==> IsRate(ctx.feedRate.value)
    ensures UsableIf(StaticPeg(base, spreadPpm, hubFeePpm, flatFee), spreadPpm < PPM)
    ensures UsableIf(FeedSpread(spreadPpm, maxFeedAgeMs, hubFeePpm, flatFee, ctx),
                     FeedIsFresh(maxFeedAgeMs, ctx) ==> spreadPpm < PPM)
    ensures UsableIf(InventorySkew(inner, maxSkewPpm, ctx),
                     inner.Accept? && ctx.giveAvailable + ctx.getAvailable > 0 ==> PPM + SkewPpm(maxSkewPpm, ctx) > 0)
    ensures inner.Reject? ==> InventorySkew(inner, maxSkewPpm, ctx) == Some(inner)
    ensures 0 <= maxSkewPpm < PPM && ctx.giveAvailable >= 0 && ctx.getAvailable >= 0 ==>
              InventorySkew(inner, maxSkewPpm, ctx).Some?
  {
    if 0 <= maxSkewPpm < PPM && ctx.giveAvailable + ctx.getAvailable > 0 {
      SkewIsBoundedAndFair(maxSkewPpm, ctx);
    }
  }

  /** `n` is `r` times (10^6 + delta) / 10^6, to the last unit. */
  predicate IsScaled(n: Rat, r: Rat, delta: int) {
    IsRate(n) && n.num * (r.den * 1_000_000) == (r.num * (1_000_000 + delta)) * n.den
  }

  lemma ScalesExactly(r: Rat, delta: int)
    requires IsRate(r) && ApplyPpm(r, delta).Some?
    ensures IsScaled(ApplyPpm(r, delta).value, r, delta)
  {
    MulMono(0, r.num, PPM + delta);
    var g := NormalizedSpec(Rat(r.num * (PPM + delta), r.den * PPM));
  }

  /** An accepted decision carries these fees, at the rate `r` moved by `delta`. */
  predicate Decides(d: Option<PriceDecision>, r: Rat, delta: int, hubFeePpm: int, flatFee: int) {
    d.Some? && d.value.Accept? && d.value.hubFeePpm == hubFeePpm && d.value.flatFee == flatFee && IsScaled(d.value.rate, r, delta)
  }

  /** What each strategy decides: the peg takes the spread off its base rate, the feed off a fresh quotation and refuses any
      other, and the wrapper moves an accepted rate by the skew and refuses when the hub holds nothing; the fees are those of
      the configuration, or of the wrapped decision. */
  lemma StrategiesDecide(base: Rat, spreadPpm: int, maxFeedAgeMs: int, hubFeePpm: int, flatFee: int,
                         inner: PriceDecision, maxSkewPpm: int, ctx: PricingContext)
    requires IsRate(base) && Usable(inner) && spreadPpm < 1_000_000
    requires ctx.feedRate.Some? ==> IsRate(ctx.feedRate.value)
    ensures Decides(StaticPeg(base, spreadPpm, hubFeePpm, flatFee), base, -spreadPpm, hubFeePpm, flatFee)
    ensures var d := FeedSpread(spreadPpm, maxFeedAgeMs, hubFeePpm, flatFee, ctx);
            if ctx.feedRate.Some? && ctx.feedUpdatedAt.Some? && ctx.now <= ctx.feedUpdatedAt.value + maxFeedAgeMs
            then Decides(d, ctx.feedRate.value, -spreadPpm, hubFeePpm, flatFee)
            else d == Some(Reject(PricingUnavailable))
    ensures var d := InventorySkew(inner, maxSkewPpm, ctx);
            && (inner.Reject? ==> d == Some(inner))
            && (inner.Accept? && ctx.giveAvailable + ctx.getAvailable <= 0 ==> d == Some(Reject(InventoryInsufficient)))
            && (inner.Accept? && ctx.giveAvailable + ctx.getAvailable > 0 && d.Some? ==>
                  Decides(d, inner.rate, SkewPpm(maxSkewPpm, ctx), inner.hubFeePpm, inner.flatFee))
  {
    ScalesExactly(base, -spreadPpm);
    if FeedIsFresh(maxFeedAgeMs, ctx) {
      NormalizedIsRate(ctx.feedRate.value);
      FeedScales(ctx.feedRate.value, -spreadPpm);
    }
    if inner.Accept? && ctx.giveAvailable + ctx.getAvailable > 0 && InventorySkew(inner, maxSkewPpm, ctx).Some? {
      ScalesExactly(inner.rate, SkewPpm(maxSkewPpm, ctx));
    }
  }

  /** Bringing the feed's rate to lowest terms first makes no difference. */
  lemma FeedScales(r: Rat, delta: int)
    requires IsRate(r) && PPM + delta > 0
    ensures IsRate(Normalized(r)) && ApplyPpm(Normalized(r), delta).Some?
    ensures IsScaled(ApplyPpm(Normalized(r), delta).value, r, delta)
  {
    var g := NormalizedSpec(r);
    var n := Normalized(r);
    ScalesExactly(n, delta);
    var s := ApplyPpm(n, delta).value;
    Regrouped(s.num, n.den, 1_000_000, g);
    Regrouped(s.den, n.num, 1_000_000 + delta, g);
  }

  lemma Regrouped(a: int, b: int, k: int, g: int)
    ensures a * ((b * g) * k) == (a * (b * k)) * g
    ensures ((b * g) * k) * a == ((b * k) * a) * g
  {
    assert (b * g) * k == (b * k) * g;
    assert a * ((b * k) * g) == (a * (b * k)) * g;
  }

  /** The skew is the share of the imbalance in the total, of the greatest skew, rounded toward zero. */
  lemma SkewIsExact(maxSkewPpm: int, ctx: PricingContext)
    requires maxSkewPpm >= 0 && ctx.giveAvailable + ctx.getAvailable > 0
    ensures var skew, total := SkewPpm(maxSkewPpm, ctx), ctx.giveAvailable + ctx.getAvailable;
            && (ctx.getAvailable >= ctx.giveAvailable ==>
                  0 <= skew && skew * total <= maxSkewPpm * (ctx.getAvailable - ctx.giveAvailable) < (skew + 1) * total)
            && (ctx.getAvailable <= ctx.giveAvailable ==>
                  skew <= 0 && -skew * total <= maxSkewPpm * (ctx.giveAvailable - ctx.getAvailable) < (-skew + 1) * total)
  {
    var total, diff := ctx.giveAvailable + ctx.getAvailable, ctx.getAvailable - ctx.giveAvailable;
    var a := maxSkewPpm * diff;
    assert maxSkewPpm * -diff == -a by { Negated(maxSkewPpm, diff); }
    if diff >= 0 { MulMono(0, diff, maxSkewPpm); } else { MulMono(0, -diff, maxSkewPpm); }
    TruncMeans(a, total);
    SignKept(a, total);
    var q := Abs(a) / total;
    FloorMeans(Abs(a), total, q);
    FloorMeans(Abs(a), total, q + 1);
  }

  /** A spread never improves the client's rate. */
  lemma SpreadFavoursTheHub(r: Rat, spreadPpm: int)
    requires IsRate(r) && 0 <= spreadPpm < PPM
    ensures var n := ApplyPpm(r, -spreadPpm).value; n.num * r.den <= r.num * n.den
  {
    var scaled := Rat(r.num * (PPM - spreadPpm), r.den * PPM);
    var n := Normalized(scaled);
    MulMono(0, r.num, PPM - spreadPpm);
    var g := NormalizedSpec(scaled);
    MulMono(PPM - spreadPpm, PPM, r.num * r.den);
    assert (n.num * g) * r.den == (r.num * r.den) * (PPM - spreadPpm);
    assert r.num * (n.den * g) == (r.num * r.den) * PPM;
    CancelFactor(n.num, n.den, g, r);
  }
}
