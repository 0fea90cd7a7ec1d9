/** The arithmetic of a quote: the hub's proportional fee, the search for the least gross amount that covers a
    target, and how the two sides of a quote relate at one rate. */
module QuoteMath {
  import opened Rational

  const PPM := 1_000_000

  predicate IsFee(ppm: int) {
    0 <= ppm < PPM
  }

  /** What is left of a gross amount after the proportional fee, rounded down. */
  function Net(gross: int, ppm: int): int {
    gross - MulDivFloor(gross, ppm, PPM)
  }

  /** The least gross amount whose net covers the target. */
  function Least(target: int, ppm: int): int
    requires target >= 1 && IsFee(ppm)
  {
    (target - 1) * PPM / (PPM - ppm) + 1
  }

  lemma FloorFee(gross: int, ppm: int)
    requires gross >= 0 && IsFee(ppm)
    ensures gross * ppm >= 0 && MulDivFloor(gross, ppm, PPM) == gross * ppm / PPM
    ensures 0 <= MulDivFloor(gross, ppm, PPM) <= gross
    ensures MulDivFloor(gross, ppm, PPM) * PPM <= gross * ppm < (MulDivFloor(gross, ppm, PPM) + 1) * PPM
  {
    MulMono(0, gross, ppm);
    MulMono(ppm, PPM, gross);
  }

  lemma QuotientExactly(x: int, d: int, t: int)
    requires d > 0 && t >= 0
    ensures x * d > t <==> x > t / d
  {
    var q := t / d;
    assert q * d <= t < q * d + d;
    assert (q + 1) * d == q * d + d;
    if x >= q + 1 { MulMono(q + 1, x, d); } else { MulMono(x, q, d); }
  }

  /** The net covers the target exactly when what the fee leaves of the gross does. */
  lemma NetCovers(gross: int, target: int, ppm: int)
    requires gross >= 0 && target >= 1 && IsFee(ppm)
    ensures Net(gross, ppm) >= target <==> gross * (PPM - ppm) > (target - 1) * PPM
  {
    FloorFee(gross, ppm);
    assert gross * (PPM - ppm) == gross * PPM - gross * ppm;
  }

  /** Covering a target and being at least `Least` of it are the same. */
  lemma CoversExactly(gross: int, target: int, ppm: int)
    requires gross >= 0 && target >= 1 && IsFee(ppm)
    ensures Net(gross, ppm) >= target <==> gross >= Least(target, ppm)
  {
    NetCovers(gross, target, ppm);
    QuotientExactly(gross, PPM - ppm, (target - 1) * PPM);
  }

  lemma NetStep(gross: int, ppm: int)
    requires gross >= 1 && IsFee(ppm)
    ensures Net(gross - 1, ppm) <= Net(gross, ppm) <= Net(gross - 1, ppm) + 1
  {
    FloorFee(gross, ppm);
    FloorFee(gross - 1, ppm);
    assert gross * ppm == (gross - 1) * ppm + ppm;
  }

  /** The least covering gross hits the target exactly: nothing is lost to rounding on the client's side. */
  lemma LeastIsExact(target: int, ppm: int)
    requires target >= 1 && IsFee(ppm)
    ensures Least(target, ppm) >= 1 && Net(Least(target, ppm), ppm) == target
  {
    var g := Least(target, ppm);
    CoversExactly(g, target, ppm);
    CoversExactly(g - 1, target, ppm);
    NetStep(g, ppm);
  }

  lemma StartReachesLeast(target: int, ppm: int)
    requires target >= 1 && IsFee(ppm)
    ensures MulDivCeil(target, PPM, PPM - ppm) >= Least(target, ppm)
  {
    var left := PPM - ppm;
    var start := MulDivCeil(target, PPM, left);
    CeilMeans(target * PPM, left, start);
    var q := (target - 1) * PPM / left;
    assert q * left <= (target - 1) * PPM && (target - 1) * PPM == target * PPM - PPM;
    if start <= q { MulMono(start, q, left); }
  }

  lemma StartIsNear(target: int, ppm: int)
    requires target >= 1 && IsFee(ppm)
    ensures MulDivCeil(target, PPM, PPM - ppm) <= Least(target, ppm) + CeilDiv(PPM, PPM - ppm)
  {
    var left := PPM - ppm;
    var q := (target - 1) * PPM / left;
    assert (target - 1) * PPM < q * left + left && (target - 1) * PPM == target * PPM - PPM;
    var c := CeilDiv(PPM, left);
    CeilMeans(PPM, left, c);
    assert (q + 1 + c) * left == q * left + left + c * left;
    CeilMeans(target * PPM, left, q + 1 + c);
  }

  /** The algebraic starting point covers the target, and overshoots by no more than the fee's share of a unit. */
  lemma StartCovers(target: int, ppm: int)
    requires target >= 1 && IsFee(ppm)
    ensures var start := MulDivCeil(target, PPM, PPM - ppm);
            && start >= Least(target, ppm) >= 1 && Net(start, ppm) >= target
            && start - Least(target, ppm) <= CeilDiv(PPM, PPM - ppm)
  {
    StartReachesLeast(target, ppm);
    StartIsNear(target, ppm);
    LeastIsExact(target, ppm);
    CoversExactly(MulDivCeil(target, PPM, PPM - ppm), target, ppm);
  }

  /** The search of the quote service: up until the target is covered, then down while it still is. Whatever the
      amount, the first loop never runs and the second runs at most as often as the fee alone allows. */
  method SearchGross(target: int, ppm: int) returns (gross: int, ghost ups: nat, ghost downs: nat)
    requires target >= 1 && IsFee(ppm)
    ensures gross == Least(target, ppm)
    ensures ups == 0 && downs <= CeilDiv(PPM, PPM - ppm)
  {
    gross := MulDivCeil(target, PPM, PPM - ppm);
    ghost var start := gross;
    ups, downs := 0, 0;
    while Net(gross, ppm) < target
      invariant gross == start + ups && start >= 0
      invariant ups > 0 ==> Net(start, ppm) < target
      decreases Least(target, ppm) - gross
    {
      CoversExactly(gross, target, ppm);
      gross := gross + 1;
      ups := ups + 1;
    }
    StartCovers(target, ppm);
    LeastIsExact(target, ppm);
    while gross > 1 && Net(gross - 1, ppm) >= target
      invariant gross >= Least(target, ppm) && downs == start - gross
      decreases gross
    {
      CoversExactly(gross - 1, target, ppm);
      gross := gross - 1;
      downs := downs + 1;
    }
    if gross > 1 { CoversExactly(gross - 1, target, ppm); }
  }

  // ----- The two sides of a quote at one rate -----

  predicate Priced(rate: Rat, ppm: int, fees: int) {
    rate.num > 0 && rate.den > 0 && IsFee(ppm) && fees >= 0
  }

  /** side=give: what the client gets for a given amount. */
  function GetFor(rate: Rat, ppm: int, fees: int, give: int): int
    requires rate.den > 0
  {
    var gross := MulDivFloor(give, rate.num, rate.den);
    gross - MulDivCeil(gross, ppm, PPM) - fees
  }

  /** side=get: what the client gives to get a given amount. */
  function GiveFor(rate: Rat, ppm: int, fees: int, get: int): int
    requires Priced(rate, ppm, fees) && get >= 1
  {
    MulDivCeil(Least(get + fees, ppm), rate.den, rate.num)
  }

  /** The rounded-up fee is at most one unit above the rounded-down one. */
  lemma CeilFee(gross: int, ppm: int)
    requires gross >= 0 && IsFee(ppm)
    ensures MulDivFloor(gross, ppm, PPM) <= MulDivCeil(gross, ppm, PPM) <= MulDivFloor(gross, ppm, PPM) + 1
    ensures 0 <= gross - MulDivCeil(gross, ppm, PPM)
  {
    FloorFee(gross, ppm);
    MulMono(ppm, PPM, gross);
    CeilMeans(gross * ppm, PPM, gross);
  }

  lemma NetCeilMonotone(g: int, h: int, ppm: int)
    requires 0 <= g <= h && IsFee(ppm)
    ensures g - MulDivCeil(g, ppm, PPM) <= h - MulDivCeil(h, ppm, PPM)
  {
    FloorFee(g, ppm);
    FloorFee(h, ppm);
    var c := MulDivCeil(g, ppm, PPM) + (h - g);
    CeilMeans(g * ppm, PPM, MulDivCeil(g, ppm, PPM));
    assert h * ppm == g * ppm + (h - g) * ppm;
    MulMono(ppm, PPM, h - g);
    assert c * PPM == MulDivCeil(g, ppm, PPM) * PPM + (h - g) * PPM;
    CeilMeans(h * ppm, PPM, c);
  }

  lemma GrossMonotone(rate: Rat, give: int, more: int)
    requires rate.num > 0 && rate.den > 0 && 0 <= give <= more
    ensures 0 <= MulDivFloor(give, rate.num, rate.den) <= MulDivFloor(more, rate.num, rate.den)
  {
    MulMono(0, give, rate.num);
    MulMono(give, more, rate.num);
    FloorMonotone(give * rate.num, more * rate.num, rate.den);
  }

  lemma FloorMonotone(p: int, r: int, den: int)
    requires 0 <= p <= r && den > 0
    ensures 0 <= p / den <= r / den
  {
    FloorMeans(r, den, p / den);
    FloorMeans(p, den, 0);
    FloorMeans(p, den, p / den);
  }

  /** Giving more never gets less, and getting more never costs less. */
  lemma QuotesAreMonotone(rate: Rat, ppm: int, fees: int, small: int, large: int)
    requires Priced(rate, ppm, fees) && 1 <= small <= large
    ensures GetFor(rate, ppm, fees, small) <= GetFor(rate, ppm, fees, large)
    ensures GiveFor(rate, ppm, fees, small) <= GiveFor(rate, ppm, fees, large)
  {
    GrossMonotone(rate, small, large);
    NetCeilMonotone(MulDivFloor(small, rate.num, rate.den), MulDivFloor(large, rate.num, rate.den), ppm);
    LeastIsExact(small + fees, ppm);
    LeastIsExact(large + fees, ppm);
    var g, h := Least(small + fees, ppm), Least(large + fees, ppm);
    CoversExactly(h, small + fees, ppm);
    MulMono(g, h, rate.den);
    MulMono(0, g, rate.den);
    var c := CeilDiv(h * rate.den, rate.num);
    CeilMeans(h * rate.den, rate.num, c);
    CeilMeans(g * rate.den, rate.num, c);
  }

  /** The give that buys a gross amount is the least one that does. */
  lemma GiveIsMinimal(rate: Rat, gross: int, give: int)
    requires rate.num > 0 && rate.den > 0 && gross >= 1 && give >= 0
    ensures give >= MulDivCeil(gross, rate.den, rate.num) <==> MulDivFloor(give, rate.num, rate.den) >= gross
    ensures MulDivCeil(gross, rate.den, rate.num) >= 1
  {
    MulMono(1, gross, rate.den);
    MulMono(0, give, rate.num);
    CeilMeans(gross * rate.den, rate.num, give);
    FloorMeans(give * rate.num, rate.den, gross);
    CeilMeans(gross * rate.den, rate.num, 0);
  }

  /** One unit less than the quoted give cannot cover the requested get. */
  lemma QuotedGiveIsMinimal(rate: Rat, ppm: int, fees: int, get: int)
    requires Priced(rate, ppm, fees) && get >= 1
    ensures var give := GiveFor(rate, ppm, fees, get);
            && give >= 1
            && Net(MulDivFloor(give, rate.num, rate.den), ppm) - fees >= get
            && Net(MulDivFloor(give - 1, rate.num, rate.den), ppm) - fees < get
  {
    var gross := Least(get + fees, ppm);
    LeastIsExact(get + fees, ppm);
    var give := GiveFor(rate, ppm, fees, get);
    GiveIsMinimal(rate, gross, give);
    GiveIsMinimal(rate, gross, give - 1);
    GrossMonotone(rate, give - 1, give);
    CoversExactly(MulDivFloor(give, rate.num, rate.den), get + fees, ppm);
    CoversExactly(MulDivFloor(give - 1, rate.num, rate.den), get + fees, ppm);
  }

  /** give -> get -> give: asking for what a give was quoted to yield never costs more than that give. */
  lemma GiveGetGive(rate: Rat, ppm: int, fees: int, give: int)
    requires Priced(rate, ppm, fees) && give >= 1 && GetFor(rate, ppm, fees, give) >= 1
    ensures GiveFor(rate, ppm, fees, GetFor(rate, ppm, fees, give)) <= give
  {
    GrossMonotone(rate, 0, give);
    var gross := MulDivFloor(give, rate.num, rate.den);
    var target := GetFor(rate, ppm, fees, give) + fees;
    CeilFee(gross, ppm);
    assert Net(gross, ppm) >= target;
    CoversExactly(gross, target, ppm);
    LeastIsExact(target, ppm);
    GiveIsMinimal(rate, Least(target, ppm), give);
  }

  /** get -> give -> get: paying what was quoted for a get yields at most one unit less than it. */
  lemma GetGiveGet(rate: Rat, ppm: int, fees: int, get: int)
    requires Priced(rate, ppm, fees) && get >= 1
    ensures GetFor(rate, ppm, fees, GiveFor(rate, ppm, fees, get)) >= get - 1
  {
    var gross, give := Least(get + fees, ppm), GiveFor(rate, ppm, fees, get);
    GiveCovers(rate, ppm, fees, get);
    FeesRoundOnce(gross, MulDivFloor(give, rate.num, rate.den), ppm);
  }

  /** The quoted give turns into at least the gross it was computed from, which nets the target exactly. */
  lemma GiveCovers(rate: Rat, ppm: int, fees: int, get: int)
    requires Priced(rate, ppm, fees) && get >= 1
    ensures var gross, give := Least(get + fees, ppm), GiveFor(rate, ppm, fees, get);
            1 <= gross <= MulDivFloor(give, rate.num, rate.den) && Net(gross, ppm) == get + fees
  {
    LeastIsExact(get + fees, ppm);
    GiveIsMinimal(rate, Least(get + fees, ppm), 0);
    GiveIsMinimal(rate, Least(get + fees, ppm), GiveFor(rate, ppm, fees, get));
  }

  /** Rounding the fee up instead of down costs at most one unit. */
  lemma FeesRoundOnce(g: int, h: int, ppm: int)
    requires 1 <= g <= h && IsFee(ppm)
    ensures h - MulDivCeil(h, ppm, PPM) >= Net(g, ppm) - 1
  {
    CeilFee(g, ppm);
    NetCeilMonotone(g, h, ppm);
  }
}
