/** Text as the host language holds it, in UTF-16 code units, and how JSON writes strings and integers. */
module JsonText {
  import opened Basics

  type Unit = u: int | 0 <= u < 0x1_0000

  type Text = seq<Unit>

  /** What a reader took from the front of a text, and what is left. */
  datatype Read<+T> = Read(value: T, rest: Text)

  const QUOTE: Unit := 34
  const BACKSLASH: Unit := 92
  const MINUS: Unit := 45

  /** A literal of ASCII characters. */
  function Ascii(s: string): (t: Text)
    requires forall i :: 0 <= i < |s| ==> s[i] as int < 128
    ensures |t| == |s| && forall i :: 0 <= i < |s| ==> t[i] == s[i] as int
  {
    seq(|s|, i requires 0 <= i < |s| => s[i] as int)
  }

  predicate IsHigh(u: Unit) {
    0xD800 <= u <= 0xDBFF
  }

  predicate IsLow(u: Unit) {
    0xDC00 <= u <= 0xDFFF
  }

  predicate StartsWithPair(t: Text) {
    |t| >= 2 && IsHigh(t[0]) && IsLow(t[1])
  }

  /** No surrogate stands alone. */
  predicate WellFormed(t: Text) {
    t == [] ||
    if StartsWithPair(t) then WellFormed(t[2..]) else !IsHigh(t[0]) && !IsLow(t[0]) && WellFormed(t[1..])
  }

  lemma {:induction false} WellFormedAppend(s: Text, t: Text)
    requires WellFormed(s) && WellFormed(t)
    ensures WellFormed(s + t)
    decreases |s|
  {
    if s == [] {
      assert s + t == t;
    } else if StartsWithPair(s) {
      WellFormedAppend(s[2..], t);
      assert (s + t)[2..] == s[2..] + t;
    } else {
      WellFormedAppend(s[1..], t);
      assert (s + t)[1..] == s[1..] + t;
    }
  }

  lemma {:induction false} AsciiIsWellFormed(t: Text)
    requires forall i :: 0 <= i < |t| ==> t[i] < 128
    ensures WellFormed(t)
  {
    if t != [] {
      AsciiIsWellFormed(t[1..]);
    }
  }

  // ----- Strings -----

  function HexDigit(n: int): Unit
    requires 0 <= n < 16
  {
    if n < 10 then 48 + n else 87 + n
  }

  function HexValue(u: Unit): Option<int> {
    if 48 <= u <= 57 then Some(u - 48)
    else if 97 <= u <= 102 then Some(u - 87)
    else if 65 <= u <= 70 then Some(u - 55)
    else None
  }

  /** The letter of a two-character escape. */
  function ShortEscape(u: Unit): Option<Unit> {
    if u == 8 then Some(98)
    else if u == 9 then Some(116)
    else if u == 10 then Some(110)
    else if u == 12 then Some(102)
    else if u == 13 then Some(114)
    else if u == QUOTE || u == BACKSLASH then Some(u)
    else None
  }

  function EscapedUnit(u: Unit): Text {
    if ShortEscape(u).Some? then [BACKSLASH, ShortEscape(u).value]
    else if u < 32 || IsHigh(u) || IsLow(u) then
      [BACKSLASH, 117, HexDigit(u / 4096), HexDigit(u / 256 % 16), HexDigit(u / 16 % 16), HexDigit(u % 16)]
    else [u]
  }

  /** Surrogate pairs stay as they are; a surrogate alone is escaped, like control characters. */
  function Escaped(s: Text): Text {
    if s == [] then []
    else if StartsWithPair(s) then s[..2] + Escaped(s[2..])
    else EscapedUnit(s[0]) + Escaped(s[1..])
  }

  function Quoted(s: Text): Text {
    [QUOTE] + Escaped(s) + [QUOTE]
  }

  /** The unit an escape stands for, read after its backslash. */
  function ReadEscape(t: Text): (r: Option<Read<Unit>>)
    ensures r.Some? ==> |r.value.rest| < |t|
  {
    if t == [] then None
    else if t[0] == QUOTE || t[0] == BACKSLASH || t[0] == 47 then Some(Read(t[0], t[1..]))
    else if t[0] == 98 then Some(Read(8, t[1..]))
    else if t[0] == 116 then Some(Read(9, t[1..]))
    else if t[0] == 110 then Some(Read(10, t[1..]))
    else if t[0] == 102 then Some(Read(12, t[1..]))
    else if t[0] == 114 then Some(Read(13, t[1..]))
    else if t[0] == 117 && |t| >= 5 &&
            HexValue(t[1]).Some? && HexValue(t[2]).Some? && HexValue(t[3]).Some? && HexValue(t[4]).Some? then
      Some(Read(HexValue(t[1]).value * 4096 + HexValue(t[2]).value * 256
                  + HexValue(t[3]).value * 16 + HexValue(t[4]).value, t[5..]))
    else None
  }

  /** A string, read after its opening quote. */
  function ReadString(t: Text): (r: Option<Read<Text>>)
    ensures r.Some? ==> |r.value.rest| < |t|
    decreases |t|
  {
    if t == [] || t[0] < 32 then None
    else if t[0] == QUOTE then Some(Read([], t[1..]))
    else if t[0] == BACKSLASH then
      var e := ReadEscape(t[1..]);
      if e.None? then None else Before(e.value.value, ReadString(e.value.rest))
    else Before(t[0], ReadString(t[1..]))
  }

  function Before(u: Unit, r: Option<Read<Text>>): Option<Read<Text>> {
    if r.None? then None else Some(Read([u] + r.value.value, r.value.rest))
  }

  lemma HexReadsBack(n: int)
    requires 0 <= n < 16
    ensures HexValue(HexDigit(n)) == Some(n)
  {
  }

  lemma HexDigitsOf(u: Unit)
    ensures 0 <= u / 4096 < 16
    ensures u == u / 4096 * 4096 + u / 256 % 16 * 256 + u / 16 % 16 * 16 + u % 16
  {
    assert u / 256 / 16 == u / 4096 && u / 16 / 16 == u / 256;
  }

  lemma ShortEscapeReadsBack(u: Unit, e: Unit, rest: Text)
    requires ShortEscape(u) == Some(e)
    ensures ReadEscape([e] + rest) == Some(Read(u, rest))
  {
    assert ([e] + rest)[1..] == rest;
  }

  lemma HexEscapeReadsBack(a: int, b: int, c: int, d: int, rest: Text)
    requires 0 <= a < 16 && 0 <= b < 16 && 0 <= c < 16 && 0 <= d < 16
    ensures ReadEscape([117, HexDigit(a), HexDigit(b), HexDigit(c), HexDigit(d)] + rest) ==
            Some(Read(a * 4096 + b * 256 + c * 16 + d, rest))
  {
    HexReadsBack(a); HexReadsBack(b); HexReadsBack(c); HexReadsBack(d);
    var t: Text := [117, HexDigit(a), HexDigit(b), HexDigit(c), HexDigit(d)] + rest;
    assert t[5..] == rest;
  }

  lemma EscapeReadsBack(u: Unit, e: Text, rest: Text)
    requires ReadEscape(e + rest) == Some(Read(u, rest))
    ensures ReadString([BACKSLASH] + e + rest) == Before(u, ReadString(rest))
  {
    assert ([BACKSLASH] + e + rest)[1..] == e + rest;
  }

  lemma EscapedUnitReadsBack(u: Unit, rest: Text)
    ensures ReadString(EscapedUnit(u) + rest) == Before(u, ReadString(rest))
  {
    if ShortEscape(u).Some? {
      var e := ShortEscape(u).value;
      ShortEscapeReadsBack(u, e, rest);
      EscapeReadsBack(u, [e], rest);
      assert EscapedUnit(u) == [BACKSLASH] + [e];
    } else if u < 32 || IsHigh(u) || IsLow(u) {
      HexDigitsOf(u);
      var a, b, c, d := u / 4096, u / 256 % 16, u / 16 % 16, u % 16;
      HexEscapeReadsBack(a, b, c, d, rest);
      var e: Text := [117, HexDigit(a), HexDigit(b), HexDigit(c), HexDigit(d)];
      EscapeReadsBack(u, e, rest);
      assert EscapedUnit(u) == [BACKSLASH] + e;
    } else {
      PlainReadsBack(u, rest);
    }
  }

  lemma PlainReadsBack(u: Unit, rest: Text)
    requires u >= 32 && u != QUOTE && u != BACKSLASH
    ensures ReadString([u] + rest) == Before(u, ReadString(rest))
  {
    assert ([u] + rest)[1..] == rest;
  }

  lemma PairReadsBack(high: Unit, low: Unit, rest: Text)
    requires IsHigh(high) && IsLow(low)
    ensures ReadString([high, low] + rest) == Before(high, Before(low, ReadString(rest)))
  {
    PlainReadsBack(low, rest);
    PlainReadsBack(high, [low] + rest);
    Associate([high], [low], rest);
    assert [high] + [low] == [high, low];
  }

  lemma ClosingQuote(rest: Text)
    ensures ReadString([QUOTE] + rest) == Some(Read([], rest))
  {
    assert ([QUOTE] + rest)[1..] == rest;
  }

  lemma OneMoreUnit(u: Unit, s: Text, tail: Text, rest: Text)
    requires ReadString(tail) == Some(Read(s, rest))
    ensures ReadString(EscapedUnit(u) + tail) == Some(Read([u] + s, rest))
  {
    EscapedUnitReadsBack(u, tail);
  }

  lemma OneMorePair(high: Unit, low: Unit, s: Text, tail: Text, rest: Text)
    requires IsHigh(high) && IsLow(low) && ReadString(tail) == Some(Read(s, rest))
    ensures ReadString([high, low] + tail) == Some(Read([high, low] + s, rest))
  {
    PairReadsBack(high, low, tail);
    Associate([high], [low], s);
    assert [high] + [low] == [high, low];
  }

  /** Every string reads back, whatever stands after its closing quote. */
  lemma {:induction false} StringReadsBack(s: Text, rest: Text)
    ensures ReadString(Escaped(s) + ([QUOTE] + rest)) == Some(Read(s, rest))
    decreases |s|
  {
    var close := [QUOTE] + rest;
    if s == [] {
      ClosingQuote(rest);
      assert Escaped(s) + close == close;
    } else if StartsWithPair(s) {
      var tail := Escaped(s[2..]) + close;
      StringReadsBack(s[2..], rest);
      OneMorePair(s[0], s[1], s[2..], tail, rest);
      Associate(s[..2], Escaped(s[2..]), close);
      assert s[..2] == [s[0], s[1]] && [s[0], s[1]] + s[2..] == s;
    } else {
      var tail := Escaped(s[1..]) + close;
      StringReadsBack(s[1..], rest);
      OneMoreUnit(s[0], s[1..], tail, rest);
      Associate(EscapedUnit(s[0]), Escaped(s[1..]), close);
      assert [s[0]] + s[1..] == s;
    }
  }

  /** Needs no escape wherever it stands. */
  predicate Plain(u: Unit) {
    u >= 32 && u != '"' as int && u != '\\' as int && !(0xD800 <= u < 0xE000)
  }

  /** Code units are escaped in the forms that JSON.stringify has for them, with lower-case digits. */
  lemma EscapedLikeStringify(u: Unit)
    ensures EscapedUnit(u) == [u] <==> Plain(u)
    ensures EscapedUnit(8) == Ascii("\\b") && EscapedUnit(9) == Ascii("\\t") && EscapedUnit(10) == Ascii("\\n")
    ensures EscapedUnit(12) == Ascii("\\f") && EscapedUnit(13) == Ascii("\\r")
    ensures EscapedUnit('"' as int) == Ascii("\\\"") && EscapedUnit('\\' as int) == Ascii("\\\\")
    ensures !Plain(u) && u != 8 && u != 9 && u != 10 && u != 12 && u != 13 && u != '"' as int && u != '\\' as int ==>
              && |EscapedUnit(u)| == 6 && EscapedUnit(u)[..2] == Ascii("\\u")
              && forall i :: 2 <= i < 6 ==> EscapedUnit(u)[i] in Ascii("0123456789abcdef")
  {
    var digits := Ascii("0123456789abcdef");
    HexDigits(digits, u / 4096);
    HexDigits(digits, u / 256 % 16);
    HexDigits(digits, u / 16 % 16);
    HexDigits(digits, u % 16);
  }

  lemma HexDigits(digits: Text, n: int)
    requires digits == Ascii("0123456789abcdef") && 0 <= n < 16
    ensures HexDigit(n) in digits
  {
    assert digits[n] == HexDigit(n);
  }

  lemma {:induction false} EscapedIsNoShorter(s: Text)
    ensures |Escaped(s)| >= |s|
    decreases |s|
  {
    if s != [] && StartsWithPair(s) {
      EscapedIsNoShorter(s[2..]);
    } else if s != [] {
      EscapedIsNoShorter(s[1..]);
    }
  }

  /** Surrogates stand in pairs, and nothing else needs an escape. */
  predicate StandsAsItIs(s: Text) {
    s == [] || if StartsWithPair(s) then StandsAsItIs(s[2..]) else Plain(s[0]) && StandsAsItIs(s[1..])
  }

  /** A string is left as it is exactly when nothing in it needs an escape; surrogate pairs do not. */
  lemma {:induction false} EscapedExactly(s: Text)
    ensures Escaped(s) == s <==> StandsAsItIs(s)
    decreases |s|
  {
    if s != [] && StartsWithPair(s) {
      EscapedExactly(s[2..]);
      assert s == s[..2] + s[2..] && (s[..2] + Escaped(s[2..]))[2..] == Escaped(s[2..]);
    } else if s != [] {
      EscapedExactly(s[1..]);
      EscapedIsNoShorter(s[1..]);
      EscapedLikeStringify(s[0]);
      assert s == [s[0]] + s[1..];
      if Plain(s[0]) { assert ([s[0]] + Escaped(s[1..]))[1..] == Escaped(s[1..]); }
    }
  }

  lemma {:induction false} EscapedIsWellFormed(s: Text)
    ensures WellFormed(Escaped(s))
    decreases |s|
  {
    if s == [] {
    } else if StartsWithPair(s) {
      EscapedIsWellFormed(s[2..]);
      assert Escaped(s)[2..] == Escaped(s[2..]);
    } else {
      EscapedIsWellFormed(s[1..]);
      assert WellFormed(EscapedUnit(s[0])) by {
        if EscapedUnit(s[0])[0] == BACKSLASH { AsciiIsWellFormed(EscapedUnit(s[0])); }
        else { assert EscapedUnit(s[0])[1..] == []; }
      }
      WellFormedAppend(EscapedUnit(s[0]), Escaped(s[1..]));
    }
  }

  // ----- Integers -----

  predicate IsDigit(u: Unit) {
    48 <= u <= 57
  }

  function DigitValue(u: Unit): nat
    requires IsDigit(u)
  {
    u as int - 48
  }

  function Decimal(n: nat): (t: Text)
    ensures t != [] && forall i :: 0 <= i < |t| ==> IsDigit(t[i])
  {
    if n < 10 then [48 + n] else Decimal(n / 10) + [48 + n % 10]
  }

  function DecimalValue(t: Text): nat
    requires forall i :: 0 <= i < |t| ==> IsDigit(t[i])
  {
    if t == [] then 0 else DecimalValue(t[..|t| - 1]) * 10 + DigitValue(t[|t| - 1])
  }

  lemma {:induction false} DecimalReadsBack(n: nat)
    ensures DecimalValue(Decimal(n)) == n
  {
    if n >= 10 {
      DecimalReadsBack(n / 10);
      assert Decimal(n)[..|Decimal(n)| - 1] == Decimal(n / 10);
    } else {
      assert Decimal(n)[..0] == [];
    }
  }

  /** The digits a text starts with. */
  function Digits(t: Text): (k: nat)
    ensures k <= |t| && forall i :: 0 <= i < k ==> IsDigit(t[i])
  {
    if t != [] && IsDigit(t[0]) then 1 + Digits(t[1..]) else 0
  }

  predicate NoDigitNext(rest: Text) {
    rest == [] || !IsDigit(rest[0])
  }

  lemma {:induction false} DigitsOf(t: Text, rest: Text)
    requires NoDigitNext(rest) && forall i :: 0 <= i < |t| ==> IsDigit(t[i])
    ensures Digits(t + rest) == |t|
  {
    if t == [] {
      assert t + rest == rest;
    } else {
      DigitsOf(t[1..], rest);
      assert (t + rest)[1..] == t[1..] + rest;
    }
  }

  function Integer(n: int): (t: Text)
    ensures t != [] && forall i :: 0 <= i < |t| ==> IsDigit(t[i]) || t[i] == MINUS
  {
    if n < 0 then [MINUS] + Decimal(-n) else Decimal(n)
  }

  lemma {:induction false} DecimalStarts(n: nat)
    ensures Decimal(n)[0] == '0' as int <==> n == 0
    ensures n < 10 ==> |Decimal(n)| == 1
  {
    if n >= 10 {
      DecimalStarts(n / 10);
    }
  }

  /** Without leading zeros, and zero without a sign. */
  lemma IntegerIsShort(n: int)
    ensures Integer(n)[0] == MINUS <==> n < 0
    ensures Integer(n)[if n < 0 then 1 else 0] == '0' as int <==> n == 0
    ensures Integer(0) == Ascii("0") && Integer(-102) == Ascii("-102")
  {
    DecimalStarts(if n < 0 then -n else n);
    assert Decimal(10) == Decimal(1) + [48] && Decimal(102) == Decimal(10) + [50];
  }

  function ReadNatural(t: Text): (r: Option<Read<int>>)
    ensures r.Some? ==> |r.value.rest| < |t|
  {
    var k := Digits(t);
    if k == 0 then None else Some(Read(DecimalValue(t[..k]), t[k..]))
  }

  function ReadInteger(t: Text): (r: Option<Read<int>>)
    ensures r.Some? ==> |r.value.rest| < |t|
  {
    if t != [] && t[0] == MINUS then
      var r := ReadNatural(t[1..]);
      if r.None? then None else Some(Read(-r.value.value, r.value.rest))
    else ReadNatural(t)
  }

  lemma NaturalReadsBack(n: nat, rest: Text)
    requires NoDigitNext(rest)
    ensures ReadNatural(Decimal(n) + rest) == Some(Read(n, rest))
  {
    DigitsOf(Decimal(n), rest);
    DecimalReadsBack(n);
    var t := Decimal(n) + rest;
    assert t[..|Decimal(n)|] == Decimal(n) && t[|Decimal(n)|..] == rest;
  }

  lemma MinusRead(t: Text)
    requires ReadNatural(t).Some?
    ensures ReadInteger([MINUS] + t) == Some(Read(-ReadNatural(t).value.value, ReadNatural(t).value.rest))
  {
    assert ([MINUS] + t)[1..] == t;
  }

  lemma NegativeReadsBack(n: int, rest: Text)
    requires n >= 0 && NoDigitNext(rest)
    ensures ReadInteger([MINUS] + Decimal(n) + rest) == Some(Read(-n, rest))
  {
    NaturalReadsBack(n, rest);
    Associate([MINUS], Decimal(n), rest);
    MinusRead(Decimal(n) + rest);
  }

  lemma IntegerReadsBack(n: int, rest: Text)
    requires NoDigitNext(rest)
    ensures ReadInteger(Integer(n) + rest) == Some(Read(n, rest))
  {
    if n < 0 {
      NegativeReadsBack(-n, rest);
    } else {
      NaturalReadsBack(n, rest);
      assert IsDigit(Decimal(n)[0]) && (Decimal(n) + rest)[0] == Decimal(n)[0];
    }
  }
}
