/** Quotes as the hub issues them, and the client's independent check of them. Amounts are integers here, not
    decimal strings; signatures and the decoding of invoices are inputs. */
module QuoteService {
  import opened Basics
  import opened Rational
  import opened QuoteMath

  datatype RejectCode =
    | Internal | PairUnsupported | AmountOutOfBounds | InvoiceInvalid | InvoiceMismatch
    | PricingUnavailable | InventoryInsufficient | QuoteExpired | Unauthorized

  datatype AssetRef = LightningSat | FiberShannon | FiberUdt(udtScript: string)

  datatype Pair = Pair(give: AssetRef, get: AssetRef)

  datatype Side = Give | Get

  datatype Mode = PayInvoice | Receive

  /** `value` is None when the request's amount is not an integer; a missing target invoice is empty. */
  datatype QuoteRequest = QuoteRequest(protocol: string, pair: Pair, side: Side, value: Option<int>,
                                       mode: Mode, targetInvoice: string)

  datatype PricingContext = PricingContext(giveAvailable: int, getAvailable: int, inFlightExposure: int,
                                           now: int, feedRate: Option<Rat>, feedUpdatedAt: Option<int>)

  datatype PriceDecision = Accept(rate: Rat, hubFeePpm: int, flatFee: int) | Reject(reason: RejectCode)

  datatype Quote = SignedQuote(protocol: string, quoteId: string, pair: Pair, rate: Rat, giveAmount: int, getAmount: int,
                         hubFeePpm: int, flatFee: int, estNetworkFee: int, issuedAt: int, expiresAt: int)

  const PROTOCOL_VERSION := "bifrost/0.1"

  datatype Config = Config(strategy: (QuoteRequest, PricingContext) -> PriceDecision,
                           estNetworkFee: QuoteRequest -> int, supportsPair: Option<Pair -> bool>,
                           minAmount: int, maxAmount: int, quoteTtlMs: int)

  /** What the service needs of its configuration: amounts are positive, fees are not negative and leave
      something over, and an accepted price is a rate. */
  ghost predicate Sane(cfg: Config) {
    && cfg.minAmount >= 1 && cfg.quoteTtlMs >= 0
    && (forall req :: cfg.estNetworkFee(req) >= 0)
    && (forall req, ctx :: cfg.strategy(req, ctx).Accept? ==>
          IsRate(cfg.strategy(req, ctx).rate) && IsFee(cfg.strategy(req, ctx).hubFeePpm) &&
          cfg.strategy(req, ctx).flatFee >= 0)
  }

  /** The first complaint about a request, if there is one. */
  function Validate(cfg: Config, req: QuoteRequest, invoiceAmount: Option<int>): Option<RejectCode> {
    if req.protocol != PROTOCOL_VERSION then Some(Internal)
    else if cfg.supportsPair.Some? && !cfg.supportsPair.value(req.pair) then Some(PairUnsupported)
    else if req.value.None? then Some(AmountOutOfBounds)
    else if req.value.value < cfg.minAmount || req.value.value > cfg.maxAmount then Some(AmountOutOfBounds)
    else if req.mode == PayInvoice && req.targetInvoice == "" then Some(InvoiceInvalid)
    else if req.mode == PayInvoice && invoiceAmount.Some? && invoiceAmount.value != req.value.value
    then Some(InvoiceMismatch)
    else None
  }

  /** The two amounts and the rate that is published with them. */
  datatype Terms = Terms(giveAmount: int, getAmount: int, rate: Rat)

  /** In closed form: side=give at the strategy's own rate, side=get at the effective one. */
  function TermsFor(side: Side, value: int, rate: Rat, ppm: int, fees: int): Terms
    requires Priced(rate, ppm, fees) && value >= 1
  {
    if side == Give then Terms(value, GetFor(rate, ppm, fees, value), rate)
    else
      var gross, give := Least(value + fees, ppm), GiveFor(rate, ppm, fees, value);
      LeastIsExact(value + fees, ppm);
      GiveIsMinimal(rate, gross, 0);
      Terms(give, value, Normalized(Rat(gross, give)))
  }

  /** What `Quote` returns, for every request. */
  function Quoted(cfg: Config, req: QuoteRequest, ctx: PricingContext, invoiceAmount: Option<int>,
                  now: int, quoteId: string): Result<Quote, RejectCode>
    requires Sane(cfg)
  {
    var complaint := Validate(cfg, req, invoiceAmount);
    if complaint.Some? then Err(complaint.value)
    else
      var decision := cfg.strategy(req, ctx);
      if decision.Reject? then Err(decision.reason)
      else
        var rate := Normalized(decision.rate);
        NormalizedIsRate(decision.rate);
        if rate.num == 0 then Err(PricingUnavailable)
        else
          var netFee := cfg.estNetworkFee(req);
          var t := TermsFor(req.side, req.value.value, rate, decision.hubFeePpm, decision.flatFee + netFee);
          if req.side == Give && t.getAmount <= 0 then Err(AmountOutOfBounds)
          else
            TermsRate(req.side, req.value.value, rate, decision.hubFeePpm, decision.flatFee + netFee);
            if MulDivFloor(t.giveAmount, t.rate.num, t.rate.den) + ctx.inFlightExposure > ctx.getAvailable
            then Err(InventoryInsufficient)
            else Ok(SignedQuote(PROTOCOL_VERSION, quoteId, req.pair, t.rate, t.giveAmount, t.getAmount,
                          decision.hubFeePpm, decision.flatFee, netFee, now, now + cfg.quoteTtlMs))
  }

  lemma NormalizedIsRate(r: Rat)
    requires IsRate(r)
    ensures IsRate(Normalized(r)) && (Normalized(r).num == 0 <==> r.num == 0)
  {
    var _ := NormalizedSpec(r);
  }

  /** The published rate of side=get turns the give back into exactly the gross it was computed from, and is never
      better for the client than the strategy's rate. */
  lemma TermsRate(side: Side, value: int, rate: Rat, ppm: int, fees: int)
    requires Priced(rate, ppm, fees) && value >= 1
    ensures var t := TermsFor(side, value, rate, ppm, fees);
            && t.rate.num > 0 && t.rate.den > 0 && t.giveAmount >= 1
            && t.rate.num * rate.den <= rate.num * t.rate.den
            && (side == Get ==> MulDivFloor(t.giveAmount, t.rate.num, t.rate.den) == Least(value + fees, ppm))
  {
    if side == Get {
      var gross, give := Least(value + fees, ppm), GiveFor(rate, ppm, fees, value);
      LeastIsExact(value + fees, ppm);
      GiveIsMinimal(rate, gross, 0);
      EffectiveRate(rate, gross, give);
    }
  }

  lemma EffectiveRate(rate: Rat, gross: int, give: int)
    requires rate.num > 0 && rate.den > 0 && gross >= 1 && give == MulDivCeil(gross, rate.den, rate.num) && give >= 1
    ensures var n := Normalized(Rat(gross, give));
            && n.num > 0 && n.den > 0
            && MulDivFloor(give, n.num, n.den) == gross
            && n.num * rate.den <= rate.num * n.den
  {
    var n := Normalized(Rat(gross, give));
    var g := NormalizedSpec(Rat(gross, give));
    assert give * n.num == gross * n.den;
    ExactQuotient(give * n.num, n.den, gross);
    MulMono(1, gross, rate.den);
    CeilMeans(gross * rate.den, rate.num, give);
    CancelFactor(n.num, n.den, g, rate);
  }

  /** A common factor does not matter for which of two rates is the better one. */
  lemma CancelFactor(num: int, den: int, g: int, rate: Rat)
    requires g > 0 && (num * g) * rate.den <= rate.num * (den * g)
    ensures num * rate.den <= rate.num * den
  {
    var x, y := num * rate.den, rate.num * den;
    assert x * g == (num * g) * rate.den && y * g == rate.num * (den * g);
    if x > y { MulMono(y + 1, x, g); }
  }

  lemma AddFactor(num: int, den: int, g: int, rate: Rat)
    requires g > 0 && rate.num * den <= num * rate.den
    ensures rate.num * (den * g) <= (num * g) * rate.den
  {
    var x, y := rate.num * den, num * rate.den;
    assert x * g == rate.num * (den * g) && y * g == (num * g) * rate.den;
    MulMono(x, y, g);
  }

  lemma ExactQuotient(p: int, d: int, q: int)
    requires d > 0 && q >= 0 && p == q * d
    ensures p / d == q
  {
    MulMono(0, q, d);
    FloorMeans(p, d, q);
    assert (q + 1) * d == q * d + d;
    FloorMeans(p, d, q + 1);
  }

  class QuoteService {
    const cfg: Config

    constructor (cfg: Config)
      ensures this.cfg == cfg
    {
      this.cfg := cfg;
    }

    /** Issue a quote, or refuse with a code of the closed registry. */
    method Quote(req: QuoteRequest, ctx: PricingContext, invoiceAmount: Option<int>, now: int, quoteId: string)
      returns (r: Result<Quote, RejectCode>)
      requires Sane(cfg)
      ensures r == Quoted(cfg, req, ctx, invoiceAmount, now, quoteId)
    {
      var complaint := Validate(cfg, req, invoiceAmount);
      if complaint.Some? {
        return Err(complaint.value);
      }
      var decision := cfg.strategy(req, ctx);
      if decision.Reject? {
        return Err(decision.reason);
      }
      NormalizedIsRate(decision.rate);
      var rate := Normalize(decision.rate);
      if rate.num == 0 {
        return Err(PricingUnavailable);
      }
      var netFee := cfg.estNetworkFee(req);
      var hubFeePpm, flatFee := decision.hubFeePpm, decision.flatFee;
      var value := req.value.value;
      var giveAmount, getAmount, publishedRate;
      TermsRate(req.side, value, rate, hubFeePpm, flatFee + netFee);
      if req.side == Give {
        giveAmount := value;
        var gross := MulDivFloor(giveAmount, rate.num, rate.den);
        var hubFee := MulDivCeil(gross, hubFeePpm, PPM);
        getAmount := gross - hubFee - flatFee - netFee;
        if getAmount <= 0 {
          return Err(AmountOutOfBounds);
        }
        publishedRate := rate;
      } else {
        getAmount := value;
        var target := getAmount + flatFee + netFee;
        var gross, _, _ := SearchGross(target, hubFeePpm);
        LeastIsExact(target, hubFeePpm);
        GiveIsMinimal(rate, gross, 0);
        giveAmount := MulDivCeil(gross, rate.den, rate.num);
        publishedRate := Normalize(Rat(gross, giveAmount));
      }
      var grossOut := MulDivFloor(giveAmount, publishedRate.num, publishedRate.den);
      if grossOut + ctx.inFlightExposure > ctx.getAvailable {
        return Err(InventoryInsufficient);
      }
      r := Ok(SignedQuote(PROTOCOL_VERSION, quoteId, req.pair, publishedRate, giveAmount, getAmount,
                     hubFeePpm, flatFee, netFee, now, now + cfg.quoteTtlMs));
    }
  }

  // ----- The client's check -----

  /** Recompute the amounts; the difference must be zero or one unit, in the hub's favour. */
  function VerifyAmounts(q: Quote): Option<RejectCode> {
    if q.rate.den == 0 then Some(PricingUnavailable)
    else
      var diff := Difference(q);
      if diff < 0 || diff > 1 then Some(PricingUnavailable) else None
  }

  function Difference(q: Quote): int
    requires q.rate.den != 0
  {
    var gross := TruncDiv(q.giveAmount * q.rate.num, q.rate.den);
    gross - TruncDiv(gross * q.hubFeePpm, PPM) - q.flatFee - q.estNetworkFee - q.getAmount
  }

  function VerifyQuote(q: Quote, req: QuoteRequest, signed: bool, now: int, invoiceAmount: Option<int>)
    : Option<RejectCode>
  {
    if q.protocol != PROTOCOL_VERSION then Some(Internal)
    else if q.expiresAt <= now then Some(QuoteExpired)
    else if !signed then Some(Unauthorized)
    else if q.pair != req.pair then Some(PairUnsupported)
    else
      var amounts := VerifyAmounts(q);
      if amounts.Some? then amounts
      else if req.mode == PayInvoice && invoiceAmount.Some? && q.getAmount != invoiceAmount.value then Some(InvoiceMismatch)
      else None
  }

  // ----- Main results -----

  /** Any quote, with the amounts, rate and fees of `TermsFor` filled in. */
  function Filled(q: Quote, side: Side, value: int, rate: Rat, ppm: int, flatFee: int, netFee: int): Quote
    requires Priced(rate, ppm, flatFee + netFee) && value >= 1
  {
    var t := TermsFor(side, value, rate, ppm, flatFee + netFee);
    q.(rate := t.rate, giveAmount := t.giveAmount, getAmount := t.getAmount,
       hubFeePpm := ppm, flatFee := flatFee, estNetworkFee := netFee)
  }

  /** The recomputation differs by nothing for side=get, and by at most the unit of the rounded-up fee for side=give. */
  lemma DifferenceOfTerms(quote: Quote, side: Side, value: int, rate: Rat, ppm: int, flatFee: int, netFee: int)
    requires Priced(rate, ppm, flatFee + netFee) && value >= 1
    ensures var q := Filled(quote, side, value, rate, ppm, flatFee, netFee);
            q.rate.den != 0 && 0 <= Difference(q) <= 1 && (side == Get ==> Difference(q) == 0)
  {
    var q := Filled(quote, side, value, rate, ppm, flatFee, netFee);
    TermsRate(side, value, rate, ppm, flatFee + netFee);
    var gross := MulDivFloor(q.giveAmount, q.rate.num, q.rate.den);
    if side == Get {
      LeastIsExact(value + (flatFee + netFee), ppm);
    } else {
      GrossMonotone(rate, 0, value);
      CeilFee(gross, ppm);
    }
  }

  /** Every quote the service issues passes the client's check until it expires, exactly as signed; only the last
      item, the invoice amount, can still fail. */
  lemma IssuedQuotesVerify(cfg: Config, req: QuoteRequest, ctx: PricingContext, invoiceAmount: Option<int>,
                           issued: int, quoteId: string, now: int)
    requires Sane(cfg) && now < issued + cfg.quoteTtlMs
    ensures var r := Quoted(cfg, req, ctx, invoiceAmount, issued, quoteId);
            r.Ok? ==>
              && VerifyAmounts(r.value) == None
              && (req.side == Get ==> r.value.getAmount == req.value.value && Difference(r.value) == 0)
              && (req.side == Give ==> r.value.giveAmount == req.value.value)
              && (VerifyQuote(r.value, req, true, now, invoiceAmount) == None <==>
                    !(req.mode == PayInvoice && invoiceAmount.Some? && req.side == Give &&
                      r.value.getAmount != req.value.value))
  {
    var r := Quoted(cfg, req, ctx, invoiceAmount, issued, quoteId);
    if r.Ok? {
      var decision := cfg.strategy(req, ctx);
      NormalizedIsRate(decision.rate);
      DifferenceOfTerms(r.value, req.side, req.value.value, Normalized(decision.rate), decision.hubFeePpm,
                        decision.flatFee, cfg.estNetworkFee(req));
    }
  }

  // ----- When a quote is issued, and what it says -----

  /** Each complaint about a request, in the order in which they are made. */
  lemma ComplaintsExactly(cfg: Config, req: QuoteRequest, invoiceAmount: Option<int>)
    ensures var c := Validate(cfg, req, invoiceAmount);
            var spoken := req.protocol == "bifrost/0.1";
            var offered := spoken && (cfg.supportsPair.None? || cfg.supportsPair.value(req.pair));
            var bounded := offered && req.value.Some? && cfg.minAmount <= req.value.value <= cfg.maxAmount;
            var named := bounded && (req.mode == PayInvoice ==> req.targetInvoice != "");
            var agreed := named && (req.mode == PayInvoice && invoiceAmount.Some? ==> invoiceAmount == req.value);
            && (c == Some(Internal) <==> !spoken)
            && (c == Some(PairUnsupported) <==> spoken && !offered)
            && (c == Some(AmountOutOfBounds) <==> offered && !bounded)
            && (c == Some(InvoiceInvalid) <==> bounded && !named)
            && (c == Some(InvoiceMismatch) <==> named && !agreed)
            && (c == None <==> agreed)
  {
  }

  /** What the hub would pay out before its fee, for a rate that need not be in lowest terms. */
  function Gross(side: Side, value: int, rate: Rat, ppm: int, fees: int): int
    requires rate.den > 0 && IsFee(ppm) && value >= 1 && fees >= 0
  {
    if side == Give then value * rate.num / rate.den else Least(value + fees, ppm)
  }

  lemma SameFloor(value: int, rate: Rat)
    requires IsRate(rate) && value >= 0
    ensures var n := Normalized(rate); n.den > 0 && MulDivFloor(value, n.num, n.den) == value * rate.num / rate.den
  {
    var n := Normalized(rate);
    var g := NormalizedSpec(rate);
    MulMono(0, value, n.num);
    MulMono(0, value, rate.num);
    var q := value * n.num / n.den;
    FloorMeans(value * n.num, n.den, q);
    FloorMeans(value * n.num, n.den, q + 1);
    assert value * rate.num == (value * n.num) * g;
    ScaledFloor(value * n.num, n.den, g, q);
  }

  lemma ScaledFloor(p: int, d: int, g: int, q: int)
    requires p >= 0 && d > 0 && g > 0 && q * d <= p < (q + 1) * d
    ensures d * g > 0 && p * g >= 0 && (p * g) / (d * g) == q
  {
    MulMono(1, d, g);
    MulMono(0, p, g);
    MulMono(q * d, p, g);
    MulMono(p + 1, (q + 1) * d, g);
    assert q * (d * g) == (q * d) * g && (q + 1) * (d * g) == ((q + 1) * d) * g && (p + 1) * g == p * g + g;
    FloorMeans(p * g, d * g, q);
    FloorMeans(p * g, d * g, q + 1);
  }

  /** A quote is issued exactly when the request is in order, the strategy accepts it at a rate above zero, something is
      left of a given amount after the fees, and the hub holds what it would pay out beside what is already under way. */
  lemma IssuedExactly(cfg: Config, req: QuoteRequest, ctx: PricingContext, invoiceAmount: Option<int>, now: int, quoteId: string)
    requires Sane(cfg)
    ensures var r, d := Quoted(cfg, req, ctx, invoiceAmount, now, quoteId), cfg.strategy(req, ctx);
            r.Ok? <==>
              && Validate(cfg, req, invoiceAmount) == None && d.Accept? && d.rate.num > 0
              && var fees := d.flatFee + cfg.estNetworkFee(req);
                 var gross := Gross(req.side, req.value.value, d.rate, d.hubFeePpm, fees);
                 && (req.side == Give ==> gross >= 0 && gross - CeilDiv(gross * d.hubFeePpm, 1_000_000) - fees > 0)
                 && gross + ctx.inFlightExposure <= ctx.getAvailable
  {
    var d := cfg.strategy(req, ctx);
    if Validate(cfg, req, invoiceAmount) == None && d.Accept? {
      NormalizedIsRate(d.rate);
      if d.rate.num > 0 {
        var n, fees, value := Normalized(d.rate), d.flatFee + cfg.estNetworkFee(req), req.value.value;
        GrossIsPaidOut(req.side, value, d.rate, d.hubFeePpm, fees);
      }
    }
  }

  /** Before the fee, the hub pays out the same by the strategy's rate and by the published one. */
  lemma GrossIsPaidOut(side: Side, value: int, rate: Rat, ppm: int, fees: int)
    requires IsRate(rate) && rate.num > 0 && Priced(Normalized(rate), ppm, fees) && value >= 1
    ensures var t, gross := TermsFor(side, value, Normalized(rate), ppm, fees), Gross(side, value, rate, ppm, fees);
            && t.rate.den > 0 && MulDivFloor(t.giveAmount, t.rate.num, t.rate.den) == gross && gross >= 0
            && gross * ppm >= 0
            && (side == Give ==> t.giveAmount == value && t.getAmount == gross - CeilDiv(gross * ppm, 1_000_000) - fees)
            && (side == Get ==> t.getAmount == value)
  {
    TermsRate(side, value, Normalized(rate), ppm, fees);
    var gross := Gross(side, value, rate, ppm, fees);
    if side == Give {
      SameFloor(value, rate);
      GrossMonotone(Normalized(rate), 0, value);
    } else {
      LeastIsExact(value + fees, ppm);
    }
    MulMono(0, ppm, gross);
  }

  /** What an issued quote says: what was asked for, the strategy's fees and the estimate for the network each in its place,
      the amount that was fixed, and for how long. */
  lemma IssuedQuoteSays(cfg: Config, req: QuoteRequest, ctx: PricingContext, invoiceAmount: Option<int>, now: int, quoteId: string)
    requires Sane(cfg) && Quoted(cfg, req, ctx, invoiceAmount, now, quoteId).Ok?
    ensures var q, d := Quoted(cfg, req, ctx, invoiceAmount, now, quoteId).value, cfg.strategy(req, ctx);
            && q.protocol == "bifrost/0.1" && q.quoteId == quoteId && q.pair == req.pair
            && q.issuedAt == now && q.expiresAt - q.issuedAt == cfg.quoteTtlMs
            && d.Accept? && q.hubFeePpm == d.hubFeePpm && q.flatFee == d.flatFee && q.estNetworkFee == cfg.estNetworkFee(req)
            && q.rate.den > 0 && q.rate.num > 0
            && (forall k: nat :: k > 0 && Divides(k, q.rate.num) && Divides(k, q.rate.den) ==> k == 1)
            && (req.side == Get ==> q.getAmount == req.value.value)
            && (req.side == Give ==>
                  var gross := q.giveAmount * d.rate.num / d.rate.den;
                  && q.giveAmount == req.value.value && gross * q.hubFeePpm >= 0
                  && q.getAmount == gross - CeilDiv(gross * q.hubFeePpm, 1_000_000) - q.flatFee - q.estNetworkFee
                  && q.rate.num * d.rate.den == d.rate.num * q.rate.den)
  {
    var d := cfg.strategy(req, ctx);
    NormalizedIsRate(d.rate);
    var fees := d.flatFee + cfg.estNetworkFee(req);
    GrossIsPaidOut(req.side, req.value.value, d.rate, d.hubFeePpm, fees);
    TermsRate(req.side, req.value.value, Normalized(d.rate), d.hubFeePpm, fees);
    var n := Normalized(d.rate);
    var g := NormalizedSpec(d.rate);
    if req.side == Get {
      var gross := Least(req.value.value + fees, d.hubFeePpm);
      LeastIsExact(req.value.value + fees, d.hubFeePpm);
      GiveIsMinimal(n, gross, 0);
      var k := NormalizedSpec(Rat(gross, GiveFor(n, d.hubFeePpm, fees, req.value.value)));
    }
  }

  /** Why a request that is in order is refused all the same. */
  lemma RefusedFor(cfg: Config, req: QuoteRequest, ctx: PricingContext, invoiceAmount: Option<int>, now: int, quoteId: string)
    requires Sane(cfg) && Quoted(cfg, req, ctx, invoiceAmount, now, quoteId).Err?
    ensures var r, d := Quoted(cfg, req, ctx, invoiceAmount, now, quoteId), cfg.strategy(req, ctx);
            if Validate(cfg, req, invoiceAmount).Some? then r == Err(Validate(cfg, req, invoiceAmount).value)
            else if d.Reject? then r == Err(d.reason)
            else if d.rate.num == 0 then r == Err(PricingUnavailable)
            else
              var fees := d.flatFee + cfg.estNetworkFee(req);
              var gross := Gross(req.side, req.value.value, d.rate, d.hubFeePpm, fees);
              if req.side == Give && gross * d.hubFeePpm >= 0 && gross - CeilDiv(gross * d.hubFeePpm, 1_000_000) - fees <= 0
              then r == Err(AmountOutOfBounds) else r == Err(InventoryInsufficient)
  {
    var d := cfg.strategy(req, ctx);
    if Validate(cfg, req, invoiceAmount).None? && d.Accept? {
      NormalizedIsRate(d.rate);
      if d.rate.num > 0 { GrossIsPaidOut(req.side, req.value.value, d.rate, d.hubFeePpm, d.flatFee + cfg.estNetworkFee(req)); }
    }
  }

  /** The client accepts exactly the quotes that speak its protocol, are still good, signed, for the pair asked for, add up to
      within a unit in the hub's favour, and pay the invoice in full. The first item that fails names the refusal. */
  lemma VerifiedExactly(q: Quote, req: QuoteRequest, signed: bool, now: int, invoiceAmount: Option<int>)
    ensures var v := VerifyQuote(q, req, signed, now, invoiceAmount);
            var spoken := q.protocol == "bifrost/0.1";
            var live := spoken && now < q.expiresAt;
            var trusted := live && signed;
            var paired := trusted && q.pair.give == req.pair.give && q.pair.get == req.pair.get;
            var adding := paired && q.rate.den != 0 &&
                            var gross := TruncDiv(q.giveAmount * q.rate.num, q.rate.den);
                            var promised := q.getAmount + q.flatFee + q.estNetworkFee;
                            promised <= gross - TruncDiv(gross * q.hubFeePpm, 1_000_000) <= promised + 1;
            var paying := adding && (req.mode == PayInvoice && invoiceAmount.Some? ==> invoiceAmount.value == q.getAmount);
            && (v == None <==> paying)
            && (v == Some(Internal) <==> !spoken)
            && (v == Some(QuoteExpired) <==> spoken && !live)
            && (v == Some(Unauthorized) <==> live && !trusted)
            && (v == Some(PairUnsupported) <==> trusted && !paired)
            && (v == Some(PricingUnavailable) <==> paired && !adding)
            && (v == Some(InvoiceMismatch) <==> adding && !paying)
  {
  }

  /** The published rate of a quote is never better for the client than what the strategy decided. */
  lemma PublishedRateIsNotBetter(cfg: Config, req: QuoteRequest, ctx: PricingContext, invoiceAmount: Option<int>,
                                 issued: int, quoteId: string)
    requires Sane(cfg)
    ensures var r := Quoted(cfg, req, ctx, invoiceAmount, issued, quoteId);
            r.Ok? ==>
              var rate := cfg.strategy(req, ctx).rate;
              r.value.rate.num * rate.den <= rate.num * r.value.rate.den
  {
    var r := Quoted(cfg, req, ctx, invoiceAmount, issued, quoteId);
    if r.Ok? {
      var decision := cfg.strategy(req, ctx);
      var n := Normalized(decision.rate);
      var g := NormalizedSpec(decision.rate);
      TermsRate(req.side, req.value.value, n, decision.hubFeePpm, decision.flatFee + cfg.estNetworkFee(req));
      AddFactor(n.num, n.den, g, r.value.rate);
    }
  }

  /** A request to pay an invoice is held against its amount whatever side it fixes. With the give side fixed, the
      quote then fails the client's last check, except when the strategy's rate and the fees, all known beforehand,
      happen to turn the amount into itself. */
  lemma PayInvoiceWithGiveSide(cfg: Config, req: QuoteRequest, ctx: PricingContext, amount: int,
                               issued: int, quoteId: string, now: int)
    requires Sane(cfg) && now < issued + cfg.quoteTtlMs && req.mode == PayInvoice && req.side == Give
    ensures var r, decision := Quoted(cfg, req, ctx, Some(amount), issued, quoteId), cfg.strategy(req, ctx);
            r.Ok? ==>
              && amount == req.value.value && decision.Accept? && Normalized(decision.rate).den > 0
              && (VerifyQuote(r.value, req, true, now, Some(amount)) == None <==>
                    GetFor(Normalized(decision.rate), decision.hubFeePpm, decision.flatFee + cfg.estNetworkFee(req), amount)
                    == amount)
  {
    if Quoted(cfg, req, ctx, Some(amount), issued, quoteId).Ok? {
      NormalizedIsRate(cfg.strategy(req, ctx).rate);
      IssuedQuotesVerify(cfg, req, ctx, Some(amount), issued, quoteId, now);
    }
  }

  /** It does fail: at par, with any network fee at all. */
  lemma PayInvoiceWithGiveSideFails(ctx: PricingContext, amount: int, fee: int, issued: int, now: int)
    requires 1 <= fee < amount <= ctx.getAvailable - ctx.inFlightExposure && now < issued + 30_000
    ensures var cfg := Config((r, c) => Accept(Rat(1, 1), 0, 0), r => fee, None, 1, amount, 30_000);
            var req := QuoteRequest(PROTOCOL_VERSION, Pair(FiberShannon, LightningSat), Give, Some(amount), PayInvoice, "lnbc");
            fee >= 0 && Sane(cfg) && Quoted(cfg, req, ctx, Some(amount), issued, "id").Ok? &&
            VerifyQuote(Quoted(cfg, req, ctx, Some(amount), issued, "id").value, req, true, now, Some(amount))
            == Some(InvoiceMismatch)
  {
    assert Gcd(1, 1) == 1 by { assert Gcd(1, 0) == 1; }
    assert Normalized(Rat(1, 1)) == Rat(1, 1);
  }
}
