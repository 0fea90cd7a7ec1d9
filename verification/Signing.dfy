/** The bytes that are hashed and signed: UTF-8 of the canonical text, behind a tag for the kind of object. */
module Signing {
  import opened Basics
  import opened JsonText
  import opened Canonical

  type Byte = b: int | 0 <= b < 256

  // ----- UTF-8 -----

  function Utf8Unit(u: Unit): seq<Byte> {
    if u < 0x80 then [u]
    else if u < 0x800 then [0xC0 + u / 64, 0x80 + u % 64]
    else if IsHigh(u) || IsLow(u) then [0xEF, 0xBF, 0xBD]  // a surrogate alone becomes U+FFFD
    else [0xE0 + u / 4096, 0x80 + u / 64 % 64, 0x80 + u % 64]
  }

  function CodePoint(high: Unit, low: Unit): (c: int)
    requires IsHigh(high) && IsLow(low)
    ensures 0x10000 <= c < 0x110000
  {
    0x10000 + (high - 0xD800) * 0x400 + (low - 0xDC00)
  }

  function Utf8Pair(c: int): seq<Byte>
    requires 0x10000 <= c < 0x110000
  {
    [0xF0 + c / 0x40000, 0x80 + c / 0x1000 % 64, 0x80 + c / 64 % 64, 0x80 + c % 64]
  }

  /** The code units of the first character, and its bytes. */
  function Lead(t: Text): nat
    requires t != []
  {
    if StartsWithPair(t) then 2 else 1
  }

  function Utf8Lead(t: Text): (bytes: seq<Byte>)
    requires t != []
    ensures bytes != []
  {
    if StartsWithPair(t) then Utf8Pair(CodePoint(t[0], t[1])) else Utf8Unit(t[0])
  }

  function Utf8(t: Text): seq<Byte> {
    if t == [] then [] else Utf8Lead(t) + Utf8(t[Lead(t)..])
  }

  /** How many bytes a character takes, from its first byte. */
  function Width(b: Byte): nat {
    if b < 0x80 then 1 else if b < 0xE0 then 2 else if b < 0xF0 then 3 else 4
  }

  lemma LeadHasItsWidth(t: Text)
    requires t != [] && WellFormed(t)
    ensures |Utf8Lead(t)| == Width(Utf8Lead(t)[0])
  {
  }

  function PairValue(b: seq<Byte>): int
    requires |b| == 4
  {
    var high: int, second: int, third: int, low: int := b[0], b[1], b[2], b[3];
    (high - 0xF0) * 0x40000 + (second - 0x80) * 0x1000 + (third - 0x80) * 64 + (low - 0x80)
  }

  lemma PairReadsBack(c: int)
    requires 0x10000 <= c < 0x110000
    ensures PairValue(Utf8Pair(c)) == c
  {
    assert c / 64 / 64 == c / 0x1000 && c / 0x1000 / 64 == c / 0x40000;
  }

  lemma UnitReadsBack(u: Unit, v: Unit)
    requires !IsHigh(u) && !IsLow(u) && !IsHigh(v) && !IsLow(v) && Utf8Unit(u) == Utf8Unit(v)
    ensures u == v
  {
    assert u / 64 / 64 == u / 4096 && v / 64 / 64 == v / 4096;
    assert Utf8Unit(u)[0] == Utf8Unit(v)[0];
    if u >= 0x80 {
      assert Utf8Unit(u)[1] == Utf8Unit(v)[1];
    }
    if u >= 0x800 {
      assert Utf8Unit(u)[2] == Utf8Unit(v)[2];
    }
  }

  /** The high surrogate carries the upper ten bits above 0x10000, the low one the lower ten. */
  lemma CodePointIs(high: Unit, low: Unit)
    requires IsHigh(high) && IsLow(low)
    ensures (CodePoint(high, low) - 0x10000) / 0x400 == high - 0xD800
    ensures (CodePoint(high, low) - 0x10000) % 0x400 == low - 0xDC00
  {
  }

  /** The bits of the first character: a whole code unit, or the code point of a pair. */
  function CharacterAt(t: Text): int
    requires t != []
  {
    if StartsWithPair(t) then CodePoint(t[0], t[1]) else t[0]
  }

  /** What the bytes of one character spell, by section 3 of RFC 3629. */
  function Spelt(b: seq<Byte>): int
    requires 1 <= |b| <= 4
  {
    var low: int := b[|b| - 1];
    if |b| == 1 then low
    else if |b| == 2 then (b[0] - 0xC0) * 64 + (low - 0x80)
    else if |b| == 3 then (b[0] - 0xE0) * 4096 + (b[1] - 0x80) * 64 + (low - 0x80)
    else PairValue(b)
  }

  predicate Continues(b: Byte) {
    0x80 <= b < 0xC0
  }

  /** A character is encoded in as few bytes as can hold it, and they spell it. */
  lemma CharactersAreSpelt(t: Text)
    requires t != [] && WellFormed(t)
    ensures var b, c := Utf8Lead(t), CharacterAt(t);
            && |b| == (if c < 0x80 then 1 else if c < 0x800 then 2 else if c < 0x10000 then 3 else 4)
            && Spelt(b) == c && forall i :: 1 <= i < |b| ==> Continues(b[i])
  {
    var c := CharacterAt(t);
    if StartsWithPair(t) {
      PairReadsBack(c);
    } else {
      assert c / 64 / 64 == c / 4096;
    }
  }

  /** A surrogate alone, which no canonical text holds, is spelt as the replacement character. */
  lemma LoneSurrogatesAreReplaced(u: Unit)
    requires IsHigh(u) || IsLow(u)
    ensures |Utf8Unit(u)| == 3 && Spelt(Utf8Unit(u)) == 0xFFFD
  {
  }

  lemma CodePointIsInjective(h1: Unit, l1: Unit, h2: Unit, l2: Unit)
    requires IsHigh(h1) && IsLow(l1) && IsHigh(h2) && IsLow(l2) && CodePoint(h1, l1) == CodePoint(h2, l2)
    ensures h1 == h2 && l1 == l2
  {
  }

  lemma LeadReadsBack(s: Text, t: Text)
    requires s != [] && t != [] && WellFormed(s) && WellFormed(t) && Utf8Lead(s) == Utf8Lead(t)
    ensures s[..Lead(s)] == t[..Lead(t)]
  {
    if StartsWithPair(s) {
      assert |Utf8Lead(t)| == 4;
      PairReadsBack(CodePoint(s[0], s[1]));
      PairReadsBack(CodePoint(t[0], t[1]));
      CodePointIsInjective(s[0], s[1], t[0], t[1]);
    } else {
      assert |Utf8Lead(s)| <= 3;
      UnitReadsBack(s[0], t[0]);
    }
  }

  lemma {:induction false} Utf8IsInjective(s: Text, t: Text)
    requires WellFormed(s) && WellFormed(t) && Utf8(s) == Utf8(t)
    ensures s == t
    decreases |s|
  {
    if s != [] && t != [] {
      LeadHasItsWidth(s);
      LeadHasItsWidth(t);
      var k := |Utf8Lead(s)|;
      assert Utf8(s)[0] == Utf8Lead(s)[0] && Utf8(t)[0] == Utf8Lead(t)[0];
      assert Utf8Lead(s) == Utf8(s)[..k] == Utf8(t)[..k] == Utf8Lead(t);
      LeadReadsBack(s, t);
      assert Utf8(s[Lead(s)..]) == Utf8(s)[k..] == Utf8(t)[k..] == Utf8(t[Lead(t)..]);
      Utf8IsInjective(s[Lead(s)..], t[Lead(t)..]);
      assert s == s[..Lead(s)] + s[Lead(s)..] && t == t[..Lead(t)] + t[Lead(t)..];
    }
  }

  lemma {:induction false} AsciiEncodesAsItself(t: Text)
    requires forall i :: 0 <= i < |t| ==> t[i] < 128
    ensures |Utf8(t)| == |t| && forall i :: 0 <= i < |t| ==> Utf8(t)[i] == t[i]
  {
    if t != [] {
      AsciiEncodesAsItself(t[1..]);
      assert forall i :: 1 <= i < |t| ==> Utf8(t)[i] == Utf8(t[1..])[i - 1] && t[i] == t[1..][i - 1];
    }
  }

  // ----- What is signed -----

  datatype SignedType = QuoteTag | AdTag

  type Members = seq<Member<Value>>

  const SIGNATURE: Text := Ascii("signature")

  function Strip(ms: Members): Members {
    if ms == [] then []
    else if ms[0].key == SIGNATURE then Strip(ms[1..])
    else [ms[0]] + Strip(ms[1..])
  }

  function CanonicalBytes(ms: Members): Result<seq<Byte>, CanonError> {
    var text := Canonicalize(Obj(Strip(ms)));
    if text.Err? then Err(text.error) else Ok(Utf8(text.value))
  }

  function TagName(tag: SignedType): string {
    if tag == QuoteTag then "bifrost/0.1|quote|" else "bifrost/0.1|ad|"
  }

  function Prefix(tag: SignedType): seq<Byte> {
    Utf8(Ascii(TagName(tag)))
  }

  function SigningInput(ms: Members, tag: SignedType): Result<seq<Byte>, CanonError> {
    var body := CanonicalBytes(ms);
    if body.Err? then body else Ok(Prefix(tag) + body.value)
  }

  /** Copies `src` into `buf` from `offset` on. */
  method Set(buf: array<Byte>, src: seq<Byte>, offset: nat)
    requires offset + |src| <= buf.Length
    modifies buf
    ensures buf[..] == old(buf[..offset]) + src + old(buf[offset + |src|..])
  {
    for i := 0 to |src|
      invariant buf[..] == old(buf[..offset]) + src[..i] + old(buf[offset + i..])
    {
      buf[offset + i] := src[i];
      assert src[..i + 1] == src[..i] + [src[i]];
    }
    assert src[..|src|] == src;
  }

  /** The buffer holds the one and then the other, and nothing else. */
  method Concatenate(prefix: seq<Byte>, body: seq<Byte>) returns (bytes: seq<Byte>)
    ensures bytes == prefix + body
  {
    var buf := new Byte[|prefix| + |body|](_ => 0);
    Set(buf, prefix, 0);
    Set(buf, body, |prefix|);
    bytes := buf[..];
  }

  method SigningDigest<D>(sha256: seq<Byte> -> D, ms: Members, tag: SignedType) returns (r: Result<D, CanonError>)
    ensures r == var input := SigningInput(ms, tag); if input.Err? then Err(input.error) else Ok(sha256(input.value))
  {
    var prefix := Prefix(tag);
    var body := CanonicalBytes(ms);
    if body.Err? {
      return Err(body.error);
    }
    var bytes := Concatenate(prefix, body.value);
    r := Ok(sha256(bytes));
  }

  lemma {:induction false} StripHolds(ms: Members, m: Member<Value>)
    ensures m in Strip(ms) <==> m in ms && m.key != SIGNATURE
  {
    if ms != [] {
      StripHolds(ms[1..], m);
      HeadAndTail(ms);
    }
  }

  lemma {:induction false} StripDistinct(ms: Members)
    requires Distinct(ms)
    ensures Distinct(Strip(ms))
  {
    if ms != [] {
      StripDistinct(ms[1..]);
      var rest := Strip(ms[1..]);
      forall i | 0 <= i < |rest| ensures rest[i].key != ms[0].key {
        StripHolds(ms[1..], rest[i]);
        assert rest[i] in rest;
      }
    }
  }

  lemma StripProper(ms: Members)
    requires Proper(Obj(ms))
    ensures Proper(Obj(Strip(ms)))
  {
    StripDistinct(ms);
    forall i | 0 <= i < |Strip(ms)| ensures Proper(Strip(ms)[i].value) {
      StripHolds(ms, Strip(ms)[i]);
      assert Strip(ms)[i] in ms;
    }
  }

  lemma {:induction false} StripConcat(a: Members, b: Members)
    ensures Strip(a + b) == Strip(a) + Strip(b)
  {
    if a == [] {
      assert a + b == b;
    } else {
      StripConcat(a[1..], b);
      assert (a + b)[1..] == a[1..] + b;
    }
  }

  /** What is signed does not depend on the signature: not on its value, its place, or its presence. */
  lemma SignatureIsNotSigned(a: Members, signature: Value, b: Members, tag: SignedType)
    ensures SigningInput(a + [Member(SIGNATURE, signature)] + b, tag) == SigningInput(a + b, tag)
  {
    var s := [Member(SIGNATURE, signature)];
    StripConcat(a + s, b);
    StripConcat(a, s);
    StripConcat(a, b);
    assert Strip(s) == [] by { assert s[1..] == []; }
    assert Strip(a) + [] == Strip(a);
  }

  lemma PrefixSpells(tag: SignedType, i: nat)
    requires i < |TagName(tag)|
    ensures |Prefix(tag)| == |TagName(tag)| && Prefix(tag)[i] == TagName(tag)[i] as int
  {
    var t := Ascii(TagName(tag));
    AsciiEncodesAsItself(t);
    assert t[i] == TagName(tag)[i] as int;
  }

  lemma InputSpells(ms: Members, tag: SignedType, i: nat)
    requires SigningInput(ms, tag).Ok? && i < |TagName(tag)|
    ensures i < |SigningInput(ms, tag).value| && SigningInput(ms, tag).value[i] == TagName(tag)[i] as int
  {
    PrefixSpells(tag, i);
  }

  /** The bytes hashed begin with the version and the kind, in ASCII. */
  lemma InputsBegin(ms: Members, tag: SignedType)
    requires SigningInput(ms, tag).Ok? && CanonicalBytes(ms).Ok?
    ensures var kind := if tag.QuoteTag? then "bifrost/0.1|quote|" else "bifrost/0.1|ad|";
            && |SigningInput(ms, tag).value| == |kind| + |CanonicalBytes(ms).value|
            && forall i :: 0 <= i < |kind| ==> SigningInput(ms, tag).value[i] == kind[i] as int
  {
    PrefixSpells(tag, 0);
    forall i | 0 <= i < |TagName(tag)| ensures SigningInput(ms, tag).value[i] == TagName(tag)[i] as int {
      InputSpells(ms, tag, i);
    }
  }

  /** The field left out is the one called "signature", and nothing else is. */
  lemma {:induction false} OnlyTheSignatureIsLeftOut(ms: Members, m: Member<Value>)
    ensures m in Strip(ms) <==> m in ms && m.key != Ascii("signature")
  {
    StripHolds(ms, m);
  }

  /** The bytes hashed for a quote and for an advertisement never coincide. */
  lemma TagsSeparate(ms: Members, ns: Members)
    ensures SigningInput(ms, QuoteTag).Ok? ==> SigningInput(ms, QuoteTag) != SigningInput(ns, AdTag)
  {
    if SigningInput(ms, QuoteTag).Ok? && SigningInput(ns, AdTag).Ok? {
      InputSpells(ms, QuoteTag, 12);
      InputSpells(ns, AdTag, 12);
    }
  }

  lemma SameBodies(ms: Members, ns: Members)
    requires Proper(Obj(ms)) && Proper(Obj(ns))
    ensures CanonicalBytes(ms).Ok? && CanonicalBytes(ns).Ok? ==>
              (CanonicalBytes(ms) == CanonicalBytes(ns) <==> Alike(Obj(Strip(ms)), Obj(Strip(ns))))
  {
    if CanonicalBytes(ms).Ok? && CanonicalBytes(ns).Ok? {
      var v, w := Obj(Strip(ms)), Obj(Strip(ns));
      StripProper(ms);
      StripProper(ns);
      PrintsAlikeExactly(v, w);
      CanonicalIsWellFormed(v);
      CanonicalIsWellFormed(w);
      if CanonicalBytes(ms) == CanonicalBytes(ns) {
        Utf8IsInjective(Canonicalize(v).value, Canonicalize(w).value);
      }
    }
  }

  /** The same bytes are hashed exactly for objects of one kind that say the same but for their signatures. */
  lemma SigningInputIsExact(ms: Members, tag1: SignedType, ns: Members, tag2: SignedType)
    requires Proper(Obj(ms)) && Proper(Obj(ns))
    ensures SigningInput(ms, tag1).Ok? && SigningInput(ns, tag2).Ok? ==>
              (SigningInput(ms, tag1) == SigningInput(ns, tag2) <==>
                 tag1 == tag2 && Alike(Obj(Strip(ms)), Obj(Strip(ns))))
  {
    if SigningInput(ms, tag1).Ok? && SigningInput(ns, tag2).Ok? {
      if tag1 == tag2 {
        SameBodies(ms, ns);
        if SigningInput(ms, tag1) == SigningInput(ns, tag2) {
          SameTail(Prefix(tag1), CanonicalBytes(ms).value, CanonicalBytes(ns).value);
        }
      } else if tag1 == QuoteTag {
        TagsSeparate(ms, ns);
      } else {
        TagsSeparate(ns, ms);
      }
    }
  }

  lemma SameTail(p: seq<Byte>, x: seq<Byte>, y: seq<Byte>)
    requires p + x == p + y
    ensures x == y
  {
    assert (p + x)[|p|..] == x && (p + y)[|p|..] == y;
  }
}
