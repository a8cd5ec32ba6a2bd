/**
 The UTF-8 decoder of the X11 helper against the encoding of RFC 3629, sections 3 and 4.
 */
module Utf8 {
  import opened Wrappers

  type Bytes = seq<bv8>

  // ---------------------------------------------------------------- the standard

  /** Unicode scalar values: no surrogates. */
  predicate IsScalar(cp: bv32) {
    cp <= 0x10FFFF && !(0xD800 <= cp <= 0xDFFF)
  }

  /** The table in section 3 of RFC 3629. */
  function Encode(cp: bv32): Bytes {
    if cp < 0x80 then [(cp & 0x7F) as bv8]
    else if cp < 0x800 then [Lead2(cp), Continuation(cp)]
    else if cp < 0x10000 then [Lead3(cp), Continuation(cp >> 6), Continuation(cp)]
    else [Lead4(cp), Continuation(cp >> 12), Continuation(cp >> 6), Continuation(cp)]
  }

  function Lead2(cp: bv32): bv8 { 0xC0 | ((cp >> 6) & 0x1F) as bv8 }

  function Lead3(cp: bv32): bv8 { 0xE0 | ((cp >> 12) & 0x0F) as bv8 }

  function Lead4(cp: bv32): bv8 { 0xF0 | ((cp >> 18) & 0x07) as bv8 }

  function Continuation(bits: bv32): bv8 { 0x80 | (bits & 0x3F) as bv8 }

  // ---------------------------------------------------------------- the decoder

  predicate Continues(b: bv8) { b & 0xC0 == 0x80 }

  function Six(b: bv8): bv32 { (b & 0x3F) as bv32 }

  function Two(a: bv8, b: bv8): bv32 { ((a & 0x1F) as bv32 << 6) | Six(b) }

  function Three(a: bv8, b: bv8, c: bv8): bv32 { ((a & 0x0F) as bv32 << 12) | (Six(b) << 6) | Six(c) }

  function Four(a: bv8, b: bv8, c: bv8, d: bv8): bv32 { ((a & 0x07) as bv32 << 18) | (Six(b) << 12) | (Six(c) << 6) | Six(d) }

  /** What utf8_next finds at the start of `s`: a code point and the number of bytes it takes. */
  function Next(s: Bytes): Option<(bv32, nat)> {
    if s == [] || s[0] == 0 then None
    else if s[0] < 0x80 then Some((s[0] as bv32, 1))
    else if |s| >= 2 && s[0] & 0xE0 == 0xC0 && Continues(s[1]) then
      var cp := Two(s[0], s[1]);
      if cp < 0x80 then None else Some((cp, 2))
    else if |s| >= 3 && s[0] & 0xF0 == 0xE0 && Continues(s[1]) && Continues(s[2]) then
      var cp := Three(s[0], s[1], s[2]);
      if cp < 0x800 || 0xD800 <= cp <= 0xDFFF then None else Some((cp, 3))
    else if |s| >= 4 && s[0] & 0xF8 == 0xF0 && Continues(s[1]) && Continues(s[2]) && Continues(s[3]) then
      var cp := Four(s[0], s[1], s[2], s[3]);
      if cp < 0x10000 || cp > 0x10FFFF then None else Some((cp, 4))
    else None
  }

  // ---------------------------------------------------------------- one sequence, bit by bit

  lemma {:induction false} TwoBits(a: bv8, b: bv8)
    requires a & 0xE0 == 0xC0 && Continues(b)
    ensures var cp := Two(a, b); cp < 0x800 && Lead2(cp) == a && Continuation(cp) == b
  {}

  lemma {:induction false} ThreeBits(a: bv8, b: bv8, c: bv8)
    requires a & 0xF0 == 0xE0 && Continues(b) && Continues(c)
    ensures var cp := Three(a, b, c); cp < 0x10000 && Lead3(cp) == a && Continuation(cp >> 6) == b && Continuation(cp) == c
  {}

  lemma {:induction false} FourBits(a: bv8, b: bv8, c: bv8, d: bv8)
    requires a & 0xF8 == 0xF0 && Continues(b) && Continues(c) && Continues(d)
    ensures var cp := Four(a, b, c, d);
            Lead4(cp) == a && Continuation(cp >> 12) == b && Continuation(cp >> 6) == c && Continuation(cp) == d
  {}

  lemma {:induction false} BitsOfTwo(cp: bv32)
    requires 0x80 <= cp < 0x800
    ensures var a, b := Lead2(cp), Continuation(cp); a >= 0x80 && a & 0xE0 == 0xC0 && Continues(b) && Two(a, b) == cp
  {}

  lemma {:induction false} BitsOfThree(cp: bv32)
    requires 0x800 <= cp < 0x10000
    ensures var a, b, c := Lead3(cp), Continuation(cp >> 6), Continuation(cp);
            a >= 0x80 && a & 0xE0 != 0xC0 && a & 0xF0 == 0xE0 && Continues(b) && Continues(c) && Three(a, b, c) == cp
  {}

  lemma {:induction false} BitsOfFour(cp: bv32)
    requires 0x10000 <= cp <= 0x10FFFF
    ensures var a, b, c, d := Lead4(cp), Continuation(cp >> 12), Continuation(cp >> 6), Continuation(cp);
            && a >= 0x80 && a & 0xE0 != 0xC0 && a & 0xF0 != 0xE0 && a & 0xF8 == 0xF0
            && Continues(b) && Continues(c) && Continues(d) && Four(a, b, c, d) == cp
  {}

  lemma {:induction false} OneBits(a: bv8)
    requires a < 0x80
    ensures (a as bv32) < 0x80 && ((a as bv32) & 0x7F) as bv8 == a && (a != 0 ==> a as bv32 != 0)
  {}

  lemma {:induction false} BitsOfOne(cp: bv32)
    requires cp < 0x80
    ensures var a := (cp & 0x7F) as bv8; a < 0x80 && a as bv32 == cp && (cp != 0 ==> a != 0)
  {}

  // ---------------------------------------------------------------- sequences of bytes

  lemma {:induction false} EncodeTwo(a: bv8, b: bv8, cp: bv32)
    requires a & 0xE0 == 0xC0 && Continues(b) && cp == Two(a, b) && cp >= 0x80
    ensures cp != 0 && IsScalar(cp) && Encode(cp) == [a, b]
  {
    TwoBits(a, b);
  }

  lemma {:induction false} EncodeThree(a: bv8, b: bv8, c: bv8, cp: bv32)
    requires a & 0xF0 == 0xE0 && Continues(b) && Continues(c) && cp == Three(a, b, c) && cp >= 0x800 && !(0xD800 <= cp <= 0xDFFF)
    ensures cp != 0 && IsScalar(cp) && Encode(cp) == [a, b, c]
  {
    ThreeBits(a, b, c);
  }

  lemma {:induction false} FourForm(cp: bv32)
    requires 0x10000 <= cp <= 0x10FFFF
    ensures cp != 0 && IsScalar(cp) && Encode(cp) == [Lead4(cp), Continuation(cp >> 12), Continuation(cp >> 6), Continuation(cp)]
  {}

  lemma {:induction false} EncodeFour(a: bv8, b: bv8, c: bv8, d: bv8, cp: bv32)
    requires a & 0xF8 == 0xF0 && Continues(b) && Continues(c) && Continues(d) && cp == Four(a, b, c, d) && 0x10000 <= cp <= 0x10FFFF
    ensures cp != 0 && IsScalar(cp) && Encode(cp) == [a, b, c, d]
  {
    FourForm(cp);
    FourBits(a, b, c, d);
  }

  lemma {:induction false} Take<T>(s: seq<T>, n: nat)
    requires n <= |s|
    ensures n == 1 ==> s[..n] == [s[0]]
    ensures n == 2 ==> s[..n] == [s[0], s[1]]
    ensures n == 3 ==> s[..n] == [s[0], s[1], s[2]]
    ensures n == 4 ==> s[..n] == [s[0], s[1], s[2], s[3]]
  {}

  /** `cp` is no zero and its encoding is the first `n` bytes. */
  predicate IsFirst(s: Bytes, cp: bv32, n: nat) {
    cp != 0 && IsScalar(cp) && 1 <= n <= |s| && Encode(cp) == s[..n]
  }

  lemma {:induction false} AcceptsOne(s: Bytes)
    requires s != [] && 0 < s[0] < 0x80
    ensures IsFirst(s, s[0] as bv32, 1)
  {
    OneBits(s[0]);
    Take(s, 1);
  }

  lemma {:induction false} AcceptsTwo(s: Bytes, cp: bv32)
    requires |s| >= 2 && s[0] & 0xE0 == 0xC0 && Continues(s[1]) && cp == Two(s[0], s[1]) && cp >= 0x80
    ensures IsFirst(s, cp, 2)
  {
    EncodeTwo(s[0], s[1], cp);
    Take(s, 2);
  }

  lemma {:induction false} AcceptsThree(s: Bytes, cp: bv32)
    requires |s| >= 3 && s[0] & 0xF0 == 0xE0 && Continues(s[1]) && Continues(s[2]) && cp == Three(s[0], s[1], s[2])
    requires cp >= 0x800 && !(0xD800 <= cp <= 0xDFFF)
    ensures IsFirst(s, cp, 3)
  {
    EncodeThree(s[0], s[1], s[2], cp);
    Take(s, 3);
  }

  lemma {:induction false} AcceptsFour(s: Bytes, cp: bv32)
    requires |s| >= 4 && s[0] & 0xF8 == 0xF0 && Continues(s[1]) && Continues(s[2]) && Continues(s[3])
    requires cp == Four(s[0], s[1], s[2], s[3]) && 0x10000 <= cp <= 0x10FFFF
    ensures IsFirst(s, cp, 4)
  {
    EncodeFour(s[0], s[1], s[2], s[3], cp);
    Take(s, 4);
  }

  /** Whatever is accepted is the encoding of a scalar value other than U+0000, and takes at least one byte. */
  lemma {:induction false} AcceptsOnlyEncodings(s: Bytes)
    requires Next(s).Some?
    ensures IsFirst(s, Next(s).value.0, Next(s).value.1)
  {
    if s[0] < 0x80 {
      AcceptsOne(s);
    } else if |s| >= 2 && s[0] & 0xE0 == 0xC0 && Continues(s[1]) {
      AcceptsTwo(s, Two(s[0], s[1]));
    } else if |s| >= 3 && s[0] & 0xF0 == 0xE0 && Continues(s[1]) && Continues(s[2]) {
      AcceptsThree(s, Three(s[0], s[1], s[2]));
    } else {
      AcceptsFour(s, Four(s[0], s[1], s[2], s[3]));
    }
  }

  /** Every encoding of a scalar value other than U+0000 is accepted, whatever follows it. */
  lemma {:induction false} AcceptsEveryEncoding(cp: bv32, rest: Bytes)
    requires IsScalar(cp) && cp != 0
    ensures Next(Encode(cp) + rest) == Some((cp, |Encode(cp)|))
  {
    var s := Encode(cp) + rest;
    if cp < 0x80 {
      BitsOfOne(cp);
    } else if cp < 0x800 {
      BitsOfTwo(cp);
    } else if cp < 0x10000 {
      BitsOfThree(cp);
    } else {
      BitsOfFour(cp);
    }
  }

  /** The decoder accepts exactly the texts that start with such an encoding. */
  lemma {:induction false} AcceptsExactly(s: Bytes)
    ensures Next(s).Some? <==> exists cp: bv32 :: IsScalar(cp) && cp != 0 && Encode(cp) <= s
  {
    if Next(s).Some? {
      AcceptsOnlyEncodings(s);
      assert Encode(Next(s).value.0) <= s;
    }
    forall cp: bv32 | IsScalar(cp) && cp != 0 && Encode(cp) <= s ensures Next(s).Some? {
      var e := Encode(cp);
      assert s == e + s[|e|..];
      AcceptsEveryEncoding(cp, s[|e|..]);
    }
  }

  // ---------------------------------------------------------------- whole texts

  function Joined<T>(pieces: seq<seq<T>>): seq<T> {
    if pieces == [] then [] else pieces[0] + Joined(pieces[1..])
  }

  function EncodeAll(cps: seq<bv32>): Bytes {
    Joined(seq(|cps|, i requires 0 <= i < |cps| => Encode(cps[i])))
  }

  ghost predicate AllScalar(cps: seq<bv32>) {
    forall i | 0 <= i < |cps| :: IsScalar(cps[i]) && cps[i] != 0
  }

  /** The loop of send_text: decode until the end, or up to the first malformed byte. */
  method DecodeText(text: Bytes) returns (cps: seq<bv32>, consumed: nat)
    ensures consumed <= |text| && EncodeAll(cps) == text[..consumed] && AllScalar(cps)
    ensures consumed < |text| ==> Next(text[consumed..]).None?
  {
    cps, consumed := [], 0;
    while consumed < |text|
      invariant consumed <= |text| && EncodeAll(cps) == text[..consumed] && AllScalar(cps)
    {
      var next := Next(text[consumed..]);
      if next.None? { return; }
      AcceptsOnlyEncodings(text[consumed..]);
      EncodeOneMore(cps, next.value.0);
      assert text[..consumed + next.value.1] == text[..consumed] + text[consumed..][..next.value.1];
      cps, consumed := cps + [next.value.0], consumed + next.value.1;
    }
  }

  lemma {:induction false} JoinOneMore<T>(pieces: seq<seq<T>>, p: seq<T>)
    ensures Joined(pieces + [p]) == Joined(pieces) + p
  {
    if pieces == [] {
      assert [p][1..] == [];
    } else {
      JoinOneMore(pieces[1..], p);
      assert (pieces + [p])[1..] == pieces[1..] + [p];
    }
  }

  lemma {:induction false} EncodeOneMore(cps: seq<bv32>, cp: bv32)
    ensures EncodeAll(cps + [cp]) == EncodeAll(cps) + Encode(cp)
  {
    var more := cps + [cp];
    JoinOneMore(seq(|cps|, i requires 0 <= i < |cps| => Encode(cps[i])), Encode(cp));
    assert seq(|more|, i requires 0 <= i < |more| => Encode(more[i]))
        == seq(|cps|, i requires 0 <= i < |cps| => Encode(cps[i])) + [Encode(cp)];
  }
}
