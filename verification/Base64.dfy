/**
 The base64 decoder of the X11 helper against the encoder of RFC 4648, section 4.
 */
module Base64 {
  import opened Wrappers

  type Bytes = seq<bv8>

  const PAD: bv8 := 0x3D

  // ---------------------------------------------------------------- the standard

  /** The alphabet of section 4, for a value of six bits. */
  function Symbol(v: bv8): bv8 {
    if v < 26 then 0x41 + v
    else if v < 52 then 0x61 + (v - 26)
    else if v < 62 then 0x30 + (v - 52)
    else if v == 62 then 0x2B
    else 0x2F
  }

  function First(x: bv8): bv8 { x >> 2 }

  function Second(x: bv8, y: bv8): bv8 { ((x & 0x03) << 4) | (y >> 4) }

  function Third(y: bv8, z: bv8): bv8 { ((y & 0x0F) << 2) | (z >> 6) }

  function Fourth(z: bv8): bv8 { z & 0x3F }

  function Encode(s: Bytes): Bytes {
    if s == [] then []
    else if |s| == 1 then [Symbol(First(s[0])), Symbol(Second(s[0], 0)), PAD, PAD]
    else if |s| == 2 then [Symbol(First(s[0])), Symbol(Second(s[0], s[1])), Symbol(Third(s[1], 0)), PAD]
    else [Symbol(First(s[0])), Symbol(Second(s[0], s[1])), Symbol(Third(s[1], s[2])), Symbol(Fourth(s[2]))] + Encode(s[3..])
  }

  // ---------------------------------------------------------------- the decoder

  /** base64_value; None is its -1. */
  function Value(c: bv8): Option<bv8> {
    if 0x41 <= c <= 0x5A then Some(c - 0x41)
    else if 0x61 <= c <= 0x7A then Some(c - 0x61 + 26)
    else if 0x30 <= c <= 0x39 then Some(c - 0x30 + 52)
    else if c == 0x2B then Some(62)
    else if c == 0x2F then Some(63)
    else None
  }

  /** Four values side by side in one word. */
  function Word(a: bv8, b: bv8, c: bv8, d: bv8): bv32 {
    (a as bv32 << 18) | (b as bv32 << 12) | (c as bv32 << 6) | d as bv32
  }

  function High(w: bv32): bv8 { ((w >> 16) & 0xFF) as bv8 }

  function Middle(w: bv32): bv8 { ((w >> 8) & 0xFF) as bv8 }

  function Low(w: bv32): bv8 { (w & 0xFF) as bv8 }

  /** One group of four characters: one to three bytes, fewer than three only at the very end. */
  function Group(p: bv8, q: bv8, r: bv8, s: bv8, last: bool): Option<Bytes> {
    var a, b, c, d := Value(p), Value(q), Value(r), Value(s);
    if a.None? || b.None? || (c.None? && r != PAD) || (d.None? && s != PAD)
       || (!last && (r == PAD || s == PAD)) || (r == PAD && s != PAD)
    then None
    else
      var w := Word(a.value, b.value, if c.Some? then c.value else 0, if d.Some? then d.value else 0);
      Some(if c.None? then [High(w)] else if d.None? then [High(w), Middle(w)] else [High(w), Middle(w), Low(w)])
  }

  function Decoded(s: Bytes): Option<Bytes>
    decreases |s|
  {
    if s == [] then Some([])
    else if |s| < 4 then None
    else
      var group := Group(s[0], s[1], s[2], s[3], |s| == 4);
      var rest := Decoded(s[4..]);
      if group.None? || rest.None? then None else Some(group.value + rest.value)
  }

  lemma {:induction false} WholeGroups(s: Bytes)
    requires Decoded(s).Some?
    ensures |s| % 4 == 0
    decreases |s|
  {
    if s != [] { WholeGroups(s[4..]); }
  }

  lemma {:induction false} GroupSize(p: bv8, q: bv8, r: bv8, s: bv8, last: bool)
    requires Group(p, q, r, s, last).Some?
    ensures |Group(p, q, r, s, last).value| == (if s != PAD then 3 else if r != PAD then 2 else 1)
    ensures s != PAD ==> r != PAD
    ensures !last ==> s != PAD
  {}

  /** How many of the last two characters are padding. */
  function Padding(s: Bytes): nat {
    (if |s| > 0 && s[|s| - 1] == PAD then 1 else 0) + (if |s| > 1 && s[|s| - 2] == PAD then 1 else 0)
  }

  /** Write the bytes of a group behind the first `outLen`. */
  method Write(out: array<bv8>, outLen: nat, bytes: Bytes) returns (newLen: nat)
    requires 1 <= |bytes| <= 3 && outLen + |bytes| <= out.Length
    modifies out
    ensures newLen == outLen + |bytes| && out[..newLen] == old(out[..outLen]) + bytes
  {
    out[outLen] := bytes[0];
    if |bytes| > 1 { out[outLen + 1] := bytes[1]; }
    if |bytes| > 2 { out[outLen + 2] := bytes[2]; }
    newLen := outLen + |bytes|;
  }

  /**
   The buffer is exactly as long as the result and its terminating zero; the check after the
   loop never fails, so it does not show in `Decoded`.
   */
  method DecodeText(input: Bytes) returns (r: Option<Bytes>)
    ensures r == Decoded(input)
  {
    if input == [] { return Some([]); }
    if |input| % 4 != 0 {
      if Decoded(input).Some? { WholeGroups(input); }
      return None;
    }
    var capacity := |input| / 4 * 3 - Padding(input);
    var out := new bv8[capacity + 1];
    var outLen, i := 0, 0;
    ghost var n, g := |input| / 4, 0;
    assert input[0..] == input;
    PrependedNothing(out[..0], Decoded(input));
    while i < |input|
      invariant i == 4 * g && g <= n && |input| == 4 * n
      invariant outLen == if g < n then 3 * g else capacity
      invariant Decoded(input) == Prepended(out[..outLen], Decoded(input[i..]))
      decreases |input| - i
    {
      var last := i + 4 == |input|;
      var group := Group(input[i], input[i + 1], input[i + 2], input[i + 3], last);
      ghost var done := out[..outLen];
      assert input[i..][4..] == input[i + 4..];
      if group.None? { return None; }
      GroupSize(input[i], input[i + 1], input[i + 2], input[i + 3], last);
      PrependedTwice(done, group.value, Decoded(input[i + 4..]));
      outLen := Write(out, outLen, group.value);
      i, g := i + 4, g + 1;
    }
    if outLen != capacity { return None; }
    assert input[i..] == [];
    r := Some(out[..outLen]);
    assert r.value + [] == r.value;
    out[outLen] := 0;
  }

  function Prepended(done: Bytes, rest: Option<Bytes>): Option<Bytes> {
    if rest.None? then None else Some(done + rest.value)
  }

  lemma {:induction false} PrependedNothing(a: Bytes, rest: Option<Bytes>)
    requires a == []
    ensures Prepended(a, rest) == rest
  {
    if rest.Some? { assert a + rest.value == rest.value; }
  }

  lemma {:induction false} PrependedTwice(a: Bytes, b: Bytes, rest: Option<Bytes>)
    ensures Prepended(a, Prepended(b, rest)) == Prepended(a + b, rest)
  {
    if rest.Some? { assert a + (b + rest.value) == (a + b) + rest.value; }
  }

  // ---------------------------------------------------------------- round trips

  lemma {:induction false} ValueOfSymbol(v: bv8)
    requires v < 64
    ensures Value(Symbol(v)) == Some(v) && Symbol(v) != PAD
  {}

  lemma {:induction false} SymbolOfValue(c: bv8)
    requires Value(c).Some?
    ensures Value(c).value < 64 && Symbol(Value(c).value) == c && c != PAD
  {}

  lemma {:induction false} SixBits(x: bv8, y: bv8)
    ensures First(x) < 64 && Second(x, y) < 64 && Third(x, y) < 64 && Fourth(x) < 64
  {}

  lemma {:induction false} WordOfBytes(x: bv8, y: bv8, z: bv8)
    ensures var w := Word(First(x), Second(x, y), Third(y, z), Fourth(z)); High(w) == x && Middle(w) == y && Low(w) == z
  {}

  lemma {:induction false} BytesOfWord(a: bv8, b: bv8, c: bv8, d: bv8)
    requires a < 64 && b < 64 && c < 64 && d < 64
    ensures var w := Word(a, b, c, d);
            First(High(w)) == a && Second(High(w), Middle(w)) == b && Third(Middle(w), Low(w)) == c && Fourth(Low(w)) == d
  {}

  lemma {:induction false} GroupOfSymbols(x: bv8, y: bv8, z: bv8, last: bool)
    ensures Group(Symbol(First(x)), Symbol(Second(x, y)), Symbol(Third(y, z)), Symbol(Fourth(z)), last) == Some([x, y, z])
  {
    SixBits(x, y);
    SixBits(y, z);
    SixBits(z, z);
    ValueOfSymbol(First(x));
    ValueOfSymbol(Second(x, y));
    ValueOfSymbol(Third(y, z));
    ValueOfSymbol(Fourth(z));
    WordOfBytes(x, y, z);
  }

  /** Decoding inverts encoding. */
  lemma {:induction false} DecodesEncoding(s: Bytes)
    ensures Decoded(Encode(s)) == Some(s)
    decreases |s|
  {
    if |s| == 1 {
      GroupOfOne(s[0]);
      assert Encode(s)[4..] == [] && [s[0]] + [] == s;
    } else if |s| == 2 {
      GroupOfTwo(s[0], s[1]);
      assert Encode(s)[4..] == [] && [s[0], s[1]] + [] == s;
    } else if |s| >= 3 {
      DecodesEncoding(s[3..]);
      DecodesGroup(s[0], s[1], s[2], Encode(s[3..]), s[3..]);
      ThreeAndRest(s);
    }
  }

  lemma {:induction false} ThreeAndRest<T>(s: seq<T>)
    requires |s| >= 3
    ensures [s[0], s[1], s[2]] + s[3..] == s
  {}

  lemma {:induction false} DecodesGroup(x: bv8, y: bv8, z: bv8, rest: Bytes, bytes: Bytes)
    requires Decoded(rest) == Some(bytes)
    ensures Decoded([Symbol(First(x)), Symbol(Second(x, y)), Symbol(Third(y, z)), Symbol(Fourth(z))] + rest) == Some([x, y, z] + bytes)
  {
    var group := [Symbol(First(x)), Symbol(Second(x, y)), Symbol(Third(y, z)), Symbol(Fourth(z))];
    GroupOfSymbols(x, y, z, |group + rest| == 4);
    assert (group + rest)[4..] == rest;
  }

  lemma {:induction false} GroupOfOne(x: bv8)
    ensures Group(Symbol(First(x)), Symbol(Second(x, 0)), PAD, PAD, true) == Some([x])
  {
    SixBits(x, 0);
    ValueOfSymbol(First(x));
    ValueOfSymbol(Second(x, 0));
    WordOfOne(x);
  }

  lemma {:induction false} GroupOfTwo(x: bv8, y: bv8)
    ensures Group(Symbol(First(x)), Symbol(Second(x, y)), Symbol(Third(y, 0)), PAD, true) == Some([x, y])
  {
    SixBits(x, y);
    SixBits(y, 0);
    ValueOfSymbol(First(x));
    ValueOfSymbol(Second(x, y));
    ValueOfSymbol(Third(y, 0));
    WordOfTwo(x, y);
  }

  lemma {:induction false} WordOfOne(x: bv8)
    ensures High(Word(First(x), Second(x, 0), 0, 0)) == x
  {}

  lemma {:induction false} WordOfTwo(x: bv8, y: bv8)
    ensures var w := Word(First(x), Second(x, y), Third(y, 0), 0); High(w) == x && Middle(w) == y
  {}

  /** The bits of the last characters that no byte takes are zero. */
  predicate UnusedBitsZero(s: Bytes) {
    && (|s| >= 4 && s[|s| - 1] == PAD && s[|s| - 2] != PAD && Value(s[|s| - 2]).Some? ==> Value(s[|s| - 2]).value & 0x03 == 0)
    && (|s| >= 4 && s[|s| - 1] == PAD && s[|s| - 2] == PAD && Value(s[|s| - 3]).Some? ==> Value(s[|s| - 3]).value & 0x0F == 0)
  }

  lemma {:induction false} ThreeBytesBack(p: bv8, q: bv8, r: bv8, s: bv8, last: bool)
    requires Group(p, q, r, s, last).Some? && s != PAD
    ensures Encode(Group(p, q, r, s, last).value) == [p, q, r, s]
  {
    GroupSize(p, q, r, s, last);
    SymbolOfValue(p);
    SymbolOfValue(q);
    SymbolOfValue(r);
    SymbolOfValue(s);
    BytesOfWord(Value(p).value, Value(q).value, Value(r).value, Value(s).value);
  }

  lemma {:induction false} WordWithoutLast(a: bv8, b: bv8, c: bv8)
    requires a < 64 && b < 64 && c < 64
    ensures var w := Word(a, b, c, 0);
            First(High(w)) == a && Second(High(w), Middle(w)) == b && (Third(Middle(w), 0) == c <==> c & 0x03 == 0)
  {}

  lemma {:induction false} WordWithoutTwo(a: bv8, b: bv8)
    requires a < 64 && b < 64
    ensures var w := Word(a, b, 0, 0); First(High(w)) == a && (Second(High(w), 0) == b <==> b & 0x0F == 0)
  {}

  lemma {:induction false} SymbolInjective(v: bv8, c: bv8)
    requires v < 64 && Value(c).Some?
    ensures Symbol(v) == c <==> v == Value(c).value
  {
    ValueOfSymbol(v);
    SymbolOfValue(c);
  }

  lemma {:induction false} TwoBytesBack(p: bv8, q: bv8, r: bv8)
    requires Group(p, q, r, PAD, true).Some? && r != PAD
    ensures Encode(Group(p, q, r, PAD, true).value) == [p, q, r, PAD] <==> Value(r).value & 0x03 == 0
  {
    SymbolOfValue(p);
    SymbolOfValue(q);
    SymbolOfValue(r);
    var w := Word(Value(p).value, Value(q).value, Value(r).value, 0);
    WordWithoutLast(Value(p).value, Value(q).value, Value(r).value);
    SixBits(Middle(w), 0);
    SymbolInjective(Third(Middle(w), 0), r);
  }

  lemma {:induction false} OneByteBack(p: bv8, q: bv8)
    requires Group(p, q, PAD, PAD, true).Some?
    ensures Encode(Group(p, q, PAD, PAD, true).value) == [p, q, PAD, PAD] <==> Value(q).value & 0x0F == 0
  {
    SymbolOfValue(p);
    SymbolOfValue(q);
    var w := Word(Value(p).value, Value(q).value, 0, 0);
    WordWithoutTwo(Value(p).value, Value(q).value);
    SixBits(High(w), 0);
    SymbolInjective(Second(High(w), 0), q);
  }

  /** A decoded text encodes to the same characters exactly when the bits no byte takes are zero. */
  lemma {:induction false} EncodesDecoded(s: Bytes)
    requires Decoded(s).Some?
    ensures Encode(Decoded(s).value) == s <==> UnusedBitsZero(s)
    decreases |s|
  {
    if s != [] {
      var group := Group(s[0], s[1], s[2], s[3], |s| == 4);
      GroupSize(s[0], s[1], s[2], s[3], |s| == 4);
      if |s| > 4 {
        WholeGroups(s);
        EncodesDecoded(s[4..]);
        ThreeBytesBack(s[0], s[1], s[2], s[3], false);
        UnusedBitsAtTheEnd(s);
        PrefixBack(s, group.value, Decoded(s[4..]).value);
      } else {
        assert s[4..] == [] && group.value + [] == group.value && s == [s[0], s[1], s[2], s[3]];
        LastGroupBack(s[0], s[1], s[2], s[3]);
      }
    }
  }

  lemma {:induction false} FourAndRest<T(!new)>(s: seq<T>)
    requires |s| >= 4
    ensures forall t :: [s[0], s[1], s[2], s[3]] + t == s <==> t == s[4..]
  {
    assert [s[0], s[1], s[2], s[3]] + s[4..] == s;
    forall t | [s[0], s[1], s[2], s[3]] + t == s ensures t == s[4..] {
      assert ([s[0], s[1], s[2], s[3]] + t)[4..] == t;
    }
  }

  lemma {:induction false} UnusedBitsAtTheEnd(s: Bytes)
    requires |s| >= 8
    ensures UnusedBitsZero(s[4..]) == UnusedBitsZero(s)
  {}

  lemma {:induction false} PrefixBack(s: Bytes, group: Bytes, rest: Bytes)
    requires |s| >= 4 && |group| == 3 && Encode(group) == [s[0], s[1], s[2], s[3]]
    ensures Encode(group + rest) == s <==> Encode(rest) == s[4..]
  {
    EncodeOneMore(group, rest);
    FourAndRest(s);
  }

  lemma {:induction false} EncodeOneMore(group: Bytes, rest: Bytes)
    requires |group| == 3
    ensures Encode(group + rest) == Encode(group) + Encode(rest)
  {
    assert (group + rest)[3..] == rest && group[3..] == [] && Encode(group)[..4] + [] == Encode(group);
  }

  lemma {:induction false} LastGroupBack(p: bv8, q: bv8, r: bv8, s: bv8)
    requires Group(p, q, r, s, true).Some?
    ensures Encode(Group(p, q, r, s, true).value) == [p, q, r, s] <==> UnusedBitsZero([p, q, r, s])
  {
    GroupSize(p, q, r, s, true);
    if s != PAD {
      ThreeBytesBack(p, q, r, s, true);
    } else if r != PAD {
      TwoBytesBack(p, q, r);
    } else {
      OneByteBack(p, q);
    }
  }
}
