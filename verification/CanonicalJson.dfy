/**
 Canonical JSON: what the encoder writes, and that it writes the same text for two values
 exactly when they are the same JSON value, whatever the order of their members.
 */
module CanonicalJson {
  import opened CodeUnits
  import opened Wrappers

  /**
   A JavaScript value as the encoder meets it. An object lists its members in property order;
   a member or an item may be present with the value undefined. A number is given by the
   decimal text the host prints for it.
   */
  datatype Json =
    | Null
    | Bool(value: bool)
    | Number(text: Text)
    | Str(text: Text)
    | Arr(items: seq<Option<Json>>)
    | Obj(members: seq<Member>)

  datatype Member = Member(key: Text, value: Option<Json>)

  /** The JSON value meant: objects are maps, members that are undefined do not exist, items that are undefined do. */
  datatype Value =
    | VNull | VBool(value: bool) | VNumber(text: Text) | VStr(text: Text) | VArr(items: seq<Option<Value>>)
    | VObj(members: map<Text, Value>)

  predicate IsNumberUnit(u: CodeUnit) {
    IsDigit(u) || u == PLUS || u == MINUS || u == DOT || u == 0x45 || u == 0x65
  }

  predicate IsNumberText(t: Text) {
    t != [] && forall i | 0 <= i < |t| :: IsNumberUnit(t[i])
  }

  predicate DistinctKeys(members: seq<Member>) {
    forall i, j | 0 <= i < j < |members| :: members[i].key != members[j].key
  }

  /** What every JavaScript value of this shape satisfies. */
  predicate WellFormed(v: Json) {
    match v
    case Number(t) => IsNumberText(t)
    case Arr(items) => forall i | 0 <= i < |items| && items[i].Some? :: WellFormed(items[i].value)
    case Obj(members) =>
      DistinctKeys(members) &&
      forall i | 0 <= i < |members| && members[i].value.Some? :: WellFormed(members[i].value.value)
    case _ => true
  }

  // ---------------------------------------------------------------- strings

  predicate IsHigh(u: CodeUnit) { 0xD800 <= u <= 0xDBFF }

  predicate IsLow(u: CodeUnit) { 0xDC00 <= u <= 0xDFFF }

  function HexDigit(n: nat): CodeUnit
    requires n < 16
  {
    if n < 10 then 0x30 + n else 0x61 + (n - 10)
  }

  function HexValue(u: CodeUnit): (r: Option<nat>)
    ensures r.Some? ==> r.value < 16
  {
    if 0x30 <= u <= 0x39 then Some(u - 0x30)
    else if 0x61 <= u <= 0x66 then Some(u - 0x61 + 10)
    else if 0x41 <= u <= 0x46 then Some(u - 0x41 + 10)
    else None
  }

  function Hex4(u: CodeUnit): Text {
    [HexDigit(u / 4096), HexDigit(u / 256 % 16), HexDigit(u / 16 % 16), HexDigit(u % 16)]
  }

  /** The two-unit escapes: quote, backslash, and the five control characters that have a letter. */
  function ShortEscape(u: CodeUnit): (r: Option<CodeUnit>) {
    if u == QUOTE || u == BACKSLASH then Some(u)
    else if u == 0x08 then Some(0x62)
    else if u == 0x0C then Some(0x66)
    else if u == 0x0A then Some(0x6E)
    else if u == 0x0D then Some(0x72)
    else if u == 0x09 then Some(0x74)
    else None
  }

  function EscapeUnit(u: CodeUnit): Text {
    match ShortEscape(u)
    case Some(letter) => [BACKSLASH, letter]
    case None => if u < 0x20 || IsHigh(u) || IsLow(u) then [BACKSLASH, 0x75] + Hex4(u) else [u]
  }

  /** JSON.stringify of a text without its quotes: a surrogate pair is copied, a lone surrogate escaped. */
  function Escape(s: Text): Text {
    if s == [] then []
    else if |s| >= 2 && IsHigh(s[0]) && IsLow(s[1]) then [s[0], s[1]] + Escape(s[2..])
    else EscapeUnit(s[0]) + Escape(s[1..])
  }

  function Quoted(s: Text): Text {
    [QUOTE] + Escape(s) + [QUOTE]
  }

  /** The two-unit escapes of section 7 of RFC 8259. */
  function FromLetter(u: CodeUnit): Option<CodeUnit> {
    if u == QUOTE || u == BACKSLASH || u == SLASH then Some(u)
    else if u == 0x62 then Some(0x08)
    else if u == 0x66 then Some(0x0C)
    else if u == 0x6E then Some(0x0A)
    else if u == 0x72 then Some(0x0D)
    else if u == 0x74 then Some(0x09)
    else None
  }

  /** One unit read back from the front of an escaped text, and how much it took. */
  function ReadUnit(t: Text): (r: Option<(CodeUnit, nat)>)
    ensures r.Some? ==> 0 < r.value.1 <= |t|
  {
    if t == [] || t[0] == QUOTE || t[0] < 0x20 then None
    else if t[0] != BACKSLASH then Some((t[0], 1))
    else if |t| >= 2 && FromLetter(t[1]).Some? then Some((FromLetter(t[1]).value, 2))
    else if |t| >= 6 && t[1] == 0x75
         && HexValue(t[2]).Some? && HexValue(t[3]).Some? && HexValue(t[4]).Some? && HexValue(t[5]).Some?
    then Some((HexValue(t[2]).value * 4096 + HexValue(t[3]).value * 256 + HexValue(t[4]).value * 16 + HexValue(t[5]).value, 6))
    else None
  }

  /** The inverse: a text read back up to its closing quote, and what follows the quote. */
  function Unescape(t: Text): (r: Option<(Text, Text)>)
    ensures r.Some? ==> |r.value.1| < |t|
    decreases |t|
  {
    if t != [] && t[0] == QUOTE then Some(([], t[1..]))
    else match ReadUnit(t)
      case None => None
      case Some((u, n)) =>
        match Unescape(t[n..])
        case None => None
        case Some((s, rest)) => Some(([u] + s, rest))
  }

  lemma {:induction false} HexDigits(n: nat)
    requires n < 16
    ensures HexValue(HexDigit(n)) == Some(n)
  {}

  lemma {:induction false} HexParts(u: CodeUnit)
    ensures u / 4096 < 16
    ensures u / 4096 * 4096 + u / 256 % 16 * 256 + u / 16 % 16 * 16 + u % 16 == u
  {
    assert u == u / 16 * 16 + u % 16;
    assert u / 16 == u / 256 * 16 + u / 16 % 16;
    assert u / 256 == u / 4096 * 16 + u / 256 % 16;
  }

  lemma {:induction false} ReadLongEscape(u: CodeUnit, x: Text)
    ensures ReadUnit([BACKSLASH, 0x75] + Hex4(u) + x) == Some((u, 6))
  {
    var t := [BACKSLASH, 0x75] + Hex4(u) + x;
    HexParts(u);
    HexDigits(u / 4096);
    HexDigits(u / 256 % 16);
    HexDigits(u / 16 % 16);
    HexDigits(u % 16);
    assert t[0] == BACKSLASH && t[1] == 0x75;
    assert t[2] == Hex4(u)[0] && t[3] == Hex4(u)[1] && t[4] == Hex4(u)[2] && t[5] == Hex4(u)[3];
    assert FromLetter(t[1]) == None;
  }

  lemma {:induction false} ReadEscapedUnit(u: CodeUnit, x: Text)
    ensures ReadUnit(EscapeUnit(u) + x) == Some((u, |EscapeUnit(u)|))
    ensures EscapeUnit(u)[0] != QUOTE
  {
    if ShortEscape(u).Some? {
      var t := EscapeUnit(u) + x;
      assert t[0] == BACKSLASH && t[1] == ShortEscape(u).value;
    } else if u < 0x20 || IsHigh(u) || IsLow(u) {
      ReadLongEscape(u, x);
    } else {
      assert (EscapeUnit(u) + x)[0] == u;
    }
  }

  lemma {:induction false} UnescapeStep(u: CodeUnit, c: Text, t: Text)
    requires c != [] && c[0] != QUOTE && ReadUnit(c + t) == Some((u, |c|)) && Unescape(t).Some?
    ensures Unescape(c + t) == Some(([u] + Unescape(t).value.0, Unescape(t).value.1))
  {
    assert (c + t)[0] == c[0] && (c + t)[|c|..] == t;
  }

  lemma {:induction false} UnescapeUnit(u: CodeUnit, t: Text)
    requires Unescape(t).Some?
    ensures Unescape(EscapeUnit(u) + t) == Some(([u] + Unescape(t).value.0, Unescape(t).value.1))
  {
    ReadEscapedUnit(u, t);
    UnescapeStep(u, EscapeUnit(u), t);
  }

  lemma {:induction false} UnescapePlain(u: CodeUnit, t: Text)
    requires Unescape(t).Some? && u != QUOTE && u != BACKSLASH && u >= 0x20
    ensures Unescape([u] + t) == Some(([u] + Unescape(t).value.0, Unescape(t).value.1))
  {
    UnescapeStep(u, [u], t);
  }

  /** An escaped text, its closing quote, and what follows. */
  function Closed(s: Text, x: Text): Text {
    Escape(s) + [QUOTE] + x
  }

  lemma {:induction false} ClosedStep(s: Text, x: Text)
    requires s != []
    ensures if |s| >= 2 && IsHigh(s[0]) && IsLow(s[1])
            then Closed(s, x) == [s[0]] + ([s[1]] + Closed(s[2..], x))
            else Closed(s, x) == EscapeUnit(s[0]) + Closed(s[1..], x)
  {
    if |s| >= 2 && IsHigh(s[0]) && IsLow(s[1]) {
      PairInFront(s[0], s[1], Escape(s[2..]), x);
    } else {
      Enclosed(EscapeUnit(s[0]), Escape(s[1..]), x);
    }
  }

  lemma {:induction false} Enclosed(a: Text, e: Text, x: Text)
    ensures a + e + [QUOTE] + x == a + (e + [QUOTE] + x)
  {}

  lemma {:induction false} PairInFront(a: CodeUnit, b: CodeUnit, e: Text, x: Text)
    ensures [a, b] + e + [QUOTE] + x == [a] + ([b] + (e + [QUOTE] + x))
  {
    Enclosed([a, b], e, x);
    assert [a, b] == [a] + [b];
  }

  /** A quoted text can be read back, whatever follows it. */
  lemma {:induction false} UnescapeInverts(s: Text, x: Text)
    ensures Unescape(Closed(s, x)) == Some((s, x))
    decreases |s|
  {
    if s == [] {
      assert Closed(s, x) == [QUOTE] + x && ([QUOTE] + x)[1..] == x;
    } else {
      ClosedStep(s, x);
      if |s| >= 2 && IsHigh(s[0]) && IsLow(s[1]) {
        UnescapeInverts(s[2..], x);
        UnescapePlain(s[1], Closed(s[2..], x));
        UnescapePlain(s[0], [s[1]] + Closed(s[2..], x));
        assert s == [s[0]] + ([s[1]] + s[2..]);
      } else {
        UnescapeInverts(s[1..], x);
        UnescapeUnit(s[0], Closed(s[1..], x));
        assert s == [s[0]] + s[1..];
      }
    }
  }

  lemma {:induction false} QuotedIsClosed(s: Text, x: Text)
    ensures Quoted(s) + x == [QUOTE] + Closed(s, x)
  {}

  lemma {:induction false} QuotedSplits(s: Text, t: Text, x: Text, y: Text)
    requires Quoted(s) + x == Quoted(t) + y
    ensures s == t && x == y
  {
    QuotedIsClosed(s, x);
    QuotedIsClosed(t, y);
    var a, b := Closed(s, x), Closed(t, y);
    assert a == ([QUOTE] + a)[1..] && b == ([QUOTE] + b)[1..];
    UnescapeInverts(s, x);
    UnescapeInverts(t, y);
  }

  // ---------------------------------------------------------------- key order

  /** Before or equal in the order of code units, the order Array.prototype.sort uses. */
  predicate UpTo(a: Text, b: Text) {
    a == [] || (b != [] && (a[0] < b[0] || (a[0] == b[0] && UpTo(a[1..], b[1..]))))
  }

  lemma {:induction false} UpToTotal(a: Text, b: Text)
    ensures UpTo(a, b) || UpTo(b, a)
  {
    if a != [] && b != [] && a[0] == b[0] { UpToTotal(a[1..], b[1..]); }
  }

  lemma {:induction false} UpToAntisymmetric(a: Text, b: Text)
    requires UpTo(a, b) && UpTo(b, a)
    ensures a == b
  {
    if a != [] && b != [] {
      UpToAntisymmetric(a[1..], b[1..]);
      assert a == [a[0]] + a[1..] && b == [b[0]] + b[1..];
    }
  }

  lemma {:induction false} UpToTransitive(a: Text, b: Text, c: Text)
    requires UpTo(a, b) && UpTo(b, c)
    ensures UpTo(a, c)
  {
    if a != [] && a[0] == b[0] == c[0] { UpToTransitive(a[1..], b[1..], c[1..]); }
  }

  function Insert(m: Member, sorted: seq<Member>): (r: seq<Member>)
    ensures forall x :: x in r <==> x == m || x in sorted
  {
    if sorted == [] || UpTo(m.key, sorted[0].key) then [m] + sorted
    else
      var r := [sorted[0]] + Insert(m, sorted[1..]);
      assert forall x :: x in sorted <==> x == sorted[0] || x in sorted[1..];
      r
  }

  /** The members that are defined, sorted by key. */
  function SortedMembers(members: seq<Member>): (r: seq<Member>)
    ensures forall x :: x in r <==> x in members && x.value.Some?
  {
    if members == [] then []
    else
      var rest := SortedMembers(members[1..]);
      assert forall x :: x in members <==> x == members[0] || x in members[1..];
      if members[0].value.Some? then Insert(members[0], rest) else rest
  }

  predicate Sorted(ms: seq<Member>) {
    forall i, j | 0 <= i < j < |ms| :: UpTo(ms[i].key, ms[j].key) && ms[i].key != ms[j].key
  }

  lemma {:induction false} InsertSorts(m: Member, sorted: seq<Member>)
    requires Sorted(sorted) && forall x | x in sorted :: x.key != m.key
    ensures Sorted(Insert(m, sorted))
  {
    var r := Insert(m, sorted);
    if sorted != [] && !UpTo(m.key, sorted[0].key) {
      InsertSorts(m, sorted[1..]);
      UpToTotal(m.key, sorted[0].key);
      var rest := Insert(m, sorted[1..]);
      forall x | x in rest ensures UpTo(sorted[0].key, x.key) && sorted[0].key != x.key {
        if x != m { var i :| 0 <= i < |sorted[1..]| && sorted[1..][i] == x; assert sorted[i + 1] == x; }
      }
      assert forall j | 0 < j < |r| :: r[j] == rest[j - 1] && rest[j - 1] in rest;
    } else if sorted != [] {
      forall j | 0 <= j < |sorted| ensures UpTo(m.key, sorted[j].key) && m.key != sorted[j].key {
        if j > 0 { UpToTransitive(m.key, sorted[0].key, sorted[j].key); }
        assert sorted[j] in sorted;
      }
    }
  }

  lemma {:induction false} SortedMembersSorted(members: seq<Member>)
    requires DistinctKeys(members)
    ensures Sorted(SortedMembers(members))
  {
    if members != [] {
      SortedMembersSorted(members[1..]);
      if members[0].value.Some? { InsertSorts(members[0], SortedMembers(members[1..])); }
    }
  }

  /** A sorted list of members is determined by its keys. */
  lemma {:induction false} SameKeysSameOrder(a: seq<Member>, b: seq<Member>)
    requires Sorted(a) && Sorted(b)
    requires (set m | m in a :: m.key) == (set m | m in b :: m.key)
    ensures |a| == |b| && forall i | 0 <= i < |a| :: a[i].key == b[i].key
  {
    var ka, kb := set m | m in a :: m.key, set m | m in b :: m.key;
    if a != [] { assert a[0].key in ka; }
    if b != [] { assert b[0].key in kb; }
    if a != [] && b != [] {
      var i :| 0 <= i < |a| && a[i].key == b[0].key;
      var j :| 0 <= j < |b| && b[j].key == a[0].key;
      if i > 0 && j > 0 { UpToAntisymmetric(a[0].key, b[0].key); }
      TailKeys(a);
      TailKeys(b);
      SameKeysSameOrder(a[1..], b[1..]);
    }
  }

  lemma {:induction false} TailKeys(a: seq<Member>)
    requires a != [] && Sorted(a)
    ensures Sorted(a[1..])
    ensures (set m | m in a[1..] :: m.key) == (set m | m in a :: m.key) - {a[0].key}
  {
    var tail := a[1..];
    assert forall m :: m in a <==> m == a[0] || m in tail;
    forall m | m in tail ensures m.key != a[0].key { var i :| 0 <= i < |tail| && tail[i] == m; assert a[i + 1] == m; }
  }

  // ---------------------------------------------------------------- the encoder

  /** canonicalJson. */
  function Encode(v: Json): Text
    decreases v, 1, 0
  {
    match v
    case Null => Ascii("null")
    case Bool(b) => if b then Ascii("true") else Ascii("false")
    case Number(t) => t
    case Str(t) => Quoted(t)
    case Arr(items) => [LBRACKET] + EncodeItems(items) + [RBRACKET]
    case Obj(members) =>
      var sorted := SortedMembers(members);
      Subvalues(v, sorted);
      [LBRACE] + EncodeMembers(sorted, v) + [RBRACE]
  }

  lemma {:induction false} Subvalues(v: Json, sorted: seq<Member>)
    requires v.Obj? && sorted == SortedMembers(v.members)
    ensures forall m | m in sorted :: m.value.Some? && m.value.value < v
  {}

  /** The items, joined by commas; an item that is undefined is joined as the empty text. */
  function EncodeItems(items: seq<Option<Json>>): Text
    decreases items, 0, 0
  {
    if items == [] then []
    else EncodeItem(items[0]) + (if |items| == 1 then [] else [COMMA] + EncodeItems(items[1..]))
  }

  function EncodeItem(item: Option<Json>): Text
    decreases item, 2, 0
  {
    match item
    case Some(v) => Encode(v)
    case None => []
  }

  /** The members in the given order, each as its quoted key, a colon and its value, joined by commas. */
  function EncodeMembers(ms: seq<Member>, ghost parent: Json): Text
    requires forall m | m in ms :: m.value.Some? && m.value.value < parent
    decreases parent, 0, |ms|
  {
    if ms == [] then []
    else Quoted(ms[0].key) + [COLON] + Encode(ms[0].value.value)
         + (if |ms| == 1 then [] else [COMMA] + EncodeMembers(ms[1..], parent))
  }

  /**
   The JSON value a JavaScript value stands for. An array that holds nothing but one undefined
   item is the empty array here: the encoder does not tell them apart.
   */
  function Meaning(v: Json): Value {
    match v
    case Null => VNull
    case Bool(b) => VBool(b)
    case Number(t) => VNumber(t)
    case Str(t) => VStr(t)
    case Arr(items) => VArr(if LoneUndefined(items) then [] else MeaningItems(items))
    case Obj(members) => VObj(MeaningMembers(members))
  }

  predicate LoneUndefined(items: seq<Option<Json>>) {
    |items| == 1 && items[0].None?
  }

  function MeaningItem(item: Option<Json>): Option<Value> {
    if item.Some? then Some(Meaning(item.value)) else None
  }

  function MeaningItems(items: seq<Option<Json>>): (r: seq<Option<Value>>)
    ensures |r| == |items| && forall i | 0 <= i < |r| :: r[i] == MeaningItem(items[i])
  {
    if items == [] then [] else [MeaningItem(items[0])] + MeaningItems(items[1..])
  }

  function MeaningMembers(members: seq<Member>): map<Text, Value> {
    if members == [] then map[]
    else
      var rest := MeaningMembers(members[1..]);
      match members[0].value
      case None => rest
      case Some(w) => rest[members[0].key := Meaning(w)]
  }

  // ---------------------------------------------------------------- equal texts, equal values

  /** What can follow an encoded value. */
  predicate Terminator(x: Text) {
    x == [] || x[0] == COMMA || x[0] == RBRACKET || x[0] == RBRACE
  }

  /** The first unit tells the kind of value. */
  function Opening(v: Json): CodeUnit
    requires WellFormed(v)
  {
    match v
    case Null => 0x6E
    case Bool(b) => if b then 0x74 else 0x66
    case Number(t) => t[0]
    case Str(_) => QUOTE
    case Arr(_) => LBRACKET
    case Obj(_) => LBRACE
  }

  lemma {:induction false} FirstUnit(v: Json)
    requires WellFormed(v)
    ensures Encode(v) != [] && Encode(v)[0] == Opening(v)
  {}

  lemma {:induction false} NumberGoesOn(s: Text, x: Text)
    requires (forall i | 0 <= i < |s| :: IsNumberUnit(s[i])) && Terminator(x)
    ensures s != [] <==> s + x != [] && IsNumberUnit((s + x)[0])
  {}

  lemma {:induction false} NumberSplits(s: Text, t: Text, x: Text, y: Text)
    requires (forall i | 0 <= i < |s| :: IsNumberUnit(s[i])) && (forall i | 0 <= i < |t| :: IsNumberUnit(t[i]))
    requires Terminator(x) && Terminator(y) && s + x == t + y
    ensures s == t && x == y
  {
    NumberGoesOn(s, x);
    NumberGoesOn(t, y);
    if s == [] {
      assert s + x == x && t + y == y;
    } else {
      assert (s + x)[0] == s[0] && (t + y)[0] == t[0];
      assert (s + x)[1..] == s[1..] + x && (t + y)[1..] == t[1..] + y;
      NumberSplits(s[1..], t[1..], x, y);
      assert s == [s[0]] + s[1..] && t == [t[0]] + t[1..];
    }
  }

  /** The text of a value cannot be cut in two ways, and it determines the value. */
  lemma {:induction false} Splits(v: Json, w: Json, x: Text, y: Text)
    requires WellFormed(v) && WellFormed(w) && Terminator(x) && Terminator(y)
    requires Encode(v) + x == Encode(w) + y
    ensures Meaning(v) == Meaning(w) && x == y
    decreases v, 1, 0
  {
    FirstUnit(v);
    FirstUnit(w);
    assert Opening(v) == (Encode(v) + x)[0] && Opening(w) == (Encode(w) + y)[0];
    match v {
      case Number(s) =>
        NumberSplits(s, w.text, x, y);
      case Str(s) =>
        QuotedSplits(s, w.text, x, y);
      case Arr(items) =>
        var a, b := EncodeItems(items) + [RBRACKET] + x, EncodeItems(w.items) + [RBRACKET] + y;
        assert Encode(v) + x == [LBRACKET] + a && Encode(w) + y == [LBRACKET] + b;
        assert a == ([LBRACKET] + a)[1..] && b == ([LBRACKET] + b)[1..];
        SplitsItems(items, w.items, x, y);
      case Obj(members) =>
        SplitsObjects(v, w, x, y);
      case Null =>
        SplitsSame(Encode(v), x, y);
      case Bool(b) =>
        SplitsSame(Encode(v), x, y);
    }
  }

  lemma {:induction false} SplitsSame(t: Text, x: Text, y: Text)
    ensures t + x == t + y ==> x == y
  {
    assert (t + x)[|t|..] == x && (t + y)[|t|..] == y;
  }

  predicate ItemsWellFormed(items: seq<Option<Json>>) {
    forall i | 0 <= i < |items| && items[i].Some? :: WellFormed(items[i].value)
  }

  /** What follows the first of several items. */
  function AfterFirst(items: seq<Option<Json>>, x: Text): Text
    requires items != []
  {
    if |items| == 1 then [RBRACKET] + x else [COMMA] + (EncodeItems(items[1..]) + [RBRACKET] + x)
  }

  lemma {:induction false} ItemsUnfold(items: seq<Option<Json>>, x: Text)
    requires items != []
    ensures EncodeItems(items) + [RBRACKET] + x == EncodeItem(items[0]) + AfterFirst(items, x)
    ensures AfterFirst(items, x) != [] && Terminator(AfterFirst(items, x))
  {}

  /** The text of an item that is defined starts with a unit that ends no item. */
  lemma {:induction false} ItemOpening(item: Option<Json>, p: Text)
    requires p != [] && Terminator(p) && (item.Some? ==> WellFormed(item.value))
    ensures EncodeItem(item) + p != []
    ensures item.None? <==> Terminator(EncodeItem(item) + p)
  {
    if item.Some? {
      FirstUnit(item.value);
      assert (EncodeItem(item) + p)[0] == Opening(item.value);
    } else {
      assert EncodeItem(item) + p == p;
    }
  }

  /** The closing bracket comes first exactly for no items and for one undefined item. */
  lemma {:induction false} ItemsOpening(items: seq<Option<Json>>, x: Text)
    requires ItemsWellFormed(items)
    ensures (EncodeItems(items) + [RBRACKET] + x)[0] == RBRACKET <==> items == [] || LoneUndefined(items)
  {
    if items != [] {
      ItemsUnfold(items, x);
      ItemOpening(items[0], AfterFirst(items, x));
      if items[0].Some? { FirstUnit(items[0].value); } else { assert [] + AfterFirst(items, x) == AfterFirst(items, x); }
    }
  }

  lemma {:induction false} SplitsItems(a: seq<Option<Json>>, b: seq<Option<Json>>, x: Text, y: Text)
    requires ItemsWellFormed(a) && ItemsWellFormed(b)
    requires EncodeItems(a) + [RBRACKET] + x == EncodeItems(b) + [RBRACKET] + y
    ensures Meaning(Arr(a)) == Meaning(Arr(b)) && x == y
    decreases a, 1, 0
  {
    ItemsOpening(a, x);
    ItemsOpening(b, y);
    if a == [] || LoneUndefined(a) {
      SplitsSame([RBRACKET], x, y);
      NoItems(a, x);
      NoItems(b, y);
    } else {
      SplitsSomeItems(a, b, x, y);
    }
  }

  lemma {:induction false} NoItems(items: seq<Option<Json>>, x: Text)
    requires items == [] || LoneUndefined(items)
    ensures EncodeItems(items) == [] && EncodeItems(items) + [RBRACKET] + x == [RBRACKET] + x
  {}

  lemma {:induction false} SplitsItem(a: Option<Json>, b: Option<Json>, p: Text, q: Text)
    requires (a.Some? ==> WellFormed(a.value)) && (b.Some? ==> WellFormed(b.value))
    requires p != [] && q != [] && Terminator(p) && Terminator(q) && EncodeItem(a) + p == EncodeItem(b) + q
    ensures MeaningItem(a) == MeaningItem(b) && p == q
    decreases a, 2, 0
  {
    ItemOpening(a, p);
    ItemOpening(b, q);
    match a {
      case Some(v) => Splits(v, b.value, p, q);
      case None => assert [] + p == p && [] + q == q;
    }
  }

  /** Lists with at least one item, defined or not. */
  lemma {:induction false} SplitsSomeItems(a: seq<Option<Json>>, b: seq<Option<Json>>, x: Text, y: Text)
    requires a != [] && b != [] && ItemsWellFormed(a) && ItemsWellFormed(b)
    requires EncodeItems(a) + [RBRACKET] + x == EncodeItems(b) + [RBRACKET] + y
    ensures MeaningItems(a) == MeaningItems(b) && x == y
    decreases a, 0, 0
  {
    var p, q := AfterFirst(a, x), AfterFirst(b, y);
    ItemsUnfold(a, x);
    ItemsUnfold(b, y);
    SplitsItem(a[0], b[0], p, q);
    assert p[0] == q[0] && p[1..] == q[1..];
    if |a| > 1 { SplitsSomeItems(a[1..], b[1..], x, y); }
  }

  ghost predicate Parts(ms: seq<Member>, parent: Json) {
    forall m | m in ms :: m.value.Some? && m.value.value < parent && WellFormed(m.value.value)
  }

  function AfterMember(ms: seq<Member>, ghost parent: Json, x: Text): Text
    requires ms != [] && Parts(ms, parent)
  {
    if |ms| == 1 then [RBRACE] + x else [COMMA] + (EncodeMembers(ms[1..], parent) + [RBRACE] + x)
  }

  lemma {:induction false} MembersUnfold(ms: seq<Member>, parent: Json, x: Text)
    requires ms != [] && Parts(ms, parent)
    ensures EncodeMembers(ms, parent) + [RBRACE] + x
         == Quoted(ms[0].key) + ([COLON] + (Encode(ms[0].value.value) + AfterMember(ms, parent, x)))
    ensures Terminator(AfterMember(ms, parent, x))
  {
    var rest := if |ms| == 1 then [] else [COMMA] + EncodeMembers(ms[1..], parent);
    Chain(Quoted(ms[0].key), [COLON], Encode(ms[0].value.value), rest, [RBRACE], x);
    if |ms| == 1 {
      assert [] + [RBRACE] + x == [RBRACE] + x;
    } else {
      assert rest + [RBRACE] + x == [COMMA] + (EncodeMembers(ms[1..], parent) + [RBRACE] + x);
    }
  }

  lemma {:induction false} Chain(a: Text, b: Text, c: Text, d: Text, e: Text, f: Text)
    ensures a + b + c + d + e + f == a + (b + (c + (d + e + f)))
  {}

  lemma {:induction false} MembersOpening(ms: seq<Member>, parent: Json, x: Text)
    requires Parts(ms, parent)
    ensures (EncodeMembers(ms, parent) + [RBRACE] + x)[0] == RBRACE <==> ms == []
  {
    if ms != [] { MembersUnfold(ms, parent, x); }
  }

  ghost predicate SameMembers(ms: seq<Member>, ns: seq<Member>) {
    && |ms| == |ns|
    && forall i | 0 <= i < |ms| ::
         && ms[i].key == ns[i].key && ms[i].value.Some? && ns[i].value.Some?
         && Meaning(ms[i].value.value) == Meaning(ns[i].value.value)
  }

  lemma {:induction false} SplitsMembers(ms: seq<Member>, ns: seq<Member>, v: Json, w: Json, x: Text, y: Text)
    requires Parts(ms, v) && Parts(ns, w)
    requires EncodeMembers(ms, v) + [RBRACE] + x == EncodeMembers(ns, w) + [RBRACE] + y
    ensures SameMembers(ms, ns) && x == y
    decreases v, 0, |ms|
  {
    MembersOpening(ms, v, x);
    MembersOpening(ns, w, y);
    if ms == [] {
      SplitsSame([RBRACE], x, y);
      assert EncodeMembers(ms, v) + [RBRACE] + x == [RBRACE] + x && EncodeMembers(ns, w) + [RBRACE] + y == [RBRACE] + y;
    } else {
      MembersUnfold(ms, v, x);
      MembersUnfold(ns, w, y);
      var p, q := AfterMember(ms, v, x), AfterMember(ns, w, y);
      var e, f := Encode(ms[0].value.value) + p, Encode(ns[0].value.value) + q;
      QuotedSplits(ms[0].key, ns[0].key, [COLON] + e, [COLON] + f);
      SplitsSame([COLON], e, f);
      assert ms[0] in ms && ns[0] in ns;
      Splits(ms[0].value.value, ns[0].value.value, p, q);
      assert p[0] == q[0] && p[1..] == q[1..];
      if |ms| > 1 {
        assert forall m | m in ms[1..] :: m in ms;
        assert forall n | n in ns[1..] :: n in ns;
        SplitsMembers(ms[1..], ns[1..], v, w, x, y);
        forall i | 0 <= i < |ms| ensures ms[i].key == ns[i].key && ms[i].value.Some? && ns[i].value.Some?
            && Meaning(ms[i].value.value) == Meaning(ns[i].value.value) {
          if i > 0 { assert ms[i] == ms[1..][i - 1] && ns[i] == ns[1..][i - 1]; }
        }
      }
    }
  }

  lemma {:induction false} PartsOfSorted(v: Json)
    requires v.Obj? && WellFormed(v)
    ensures Parts(SortedMembers(v.members), v)
  {
    Subvalues(v, SortedMembers(v.members));
    forall m | m in SortedMembers(v.members) ensures WellFormed(m.value.value) {
      var i :| 0 <= i < |v.members| && v.members[i] == m;
    }
  }

  /** The map `p` holds exactly the meanings of the members in `a`. */
  ghost predicate Lists(a: seq<Member>, p: map<Text, Value>) {
    && (forall k | k in p :: exists m | m in a :: m.key == k)
    && (forall m | m in a :: m.value.Some? && m.key in p && p[m.key] == Meaning(m.value.value))
  }

  lemma {:induction false} ListsOneMore(head: Member, rest: seq<Member>, all: seq<Member>, p: map<Text, Value>)
    requires Lists(rest, p) && head.value.Some? && forall m | m in rest :: m.key != head.key
    requires forall m :: m in all <==> m == head || m in rest
    ensures Lists(all, p[head.key := Meaning(head.value.value)])
  {
    var p' := p[head.key := Meaning(head.value.value)];
    forall k | k in p' ensures exists m | m in all :: m.key == k {
      if k == head.key { assert head in all; } else { var m :| m in rest && m.key == k; assert m in all; }
    }
  }

  /** The meaning of an object, read off its defined members. */
  lemma {:induction false} MeaningByKey(members: seq<Member>)
    requires DistinctKeys(members)
    ensures Lists(SortedMembers(members), MeaningMembers(members))
  {
    if members != [] {
      var head, tail := members[0], members[1..];
      MeaningByKey(tail);
      var rest := SortedMembers(tail);
      if head.value.Some? {
        forall m | m in rest ensures m.key != head.key {
          var i :| 0 <= i < |tail| && tail[i] == m;
          assert members[i + 1] == m;
        }
        ListsOneMore(head, rest, SortedMembers(members), MeaningMembers(tail));
      }
    }
  }

  lemma {:induction false} ListedWithin(a: seq<Member>, b: seq<Member>, p: map<Text, Value>, q: map<Text, Value>)
    requires SameMembers(a, b) && Lists(a, p) && Lists(b, q)
    ensures forall k | k in p :: k in q && p[k] == q[k]
  {
    forall k | k in p ensures k in q && p[k] == q[k] {
      var m :| m in a && m.key == k;
      var i :| 0 <= i < |a| && a[i] == m;
      assert b[i] in b;
    }
  }

  lemma {:induction false} SameMembersSameMap(a: seq<Member>, b: seq<Member>, p: map<Text, Value>, q: map<Text, Value>)
    requires SameMembers(a, b) && Lists(a, p) && Lists(b, q)
    ensures p == q
  {
    ListedWithin(a, b, p, q);
    ListedWithin(b, a, q, p);
  }

  lemma {:induction false} SameMembersSameMeaning(v: Json, w: Json)
    requires v.Obj? && w.Obj? && DistinctKeys(v.members) && DistinctKeys(w.members)
    requires SameMembers(SortedMembers(v.members), SortedMembers(w.members))
    ensures Meaning(v) == Meaning(w)
  {
    MeaningByKey(v.members);
    MeaningByKey(w.members);
    SameMembersSameMap(SortedMembers(v.members), SortedMembers(w.members), MeaningMembers(v.members), MeaningMembers(w.members));
  }

  lemma {:induction false} SplitsObjects(v: Json, w: Json, x: Text, y: Text)
    requires v.Obj? && w.Obj? && WellFormed(v) && WellFormed(w)
    requires Encode(v) + x == Encode(w) + y
    ensures Meaning(v) == Meaning(w) && x == y
    decreases v, 0, |SortedMembers(v.members)| + 1
  {
    var ms, ns := SortedMembers(v.members), SortedMembers(w.members);
    PartsOfSorted(v);
    PartsOfSorted(w);
    var a, b := EncodeMembers(ms, v) + [RBRACE] + x, EncodeMembers(ns, w) + [RBRACE] + y;
    assert Encode(v) + x == [LBRACE] + a && Encode(w) + y == [LBRACE] + b;
    SplitsSame([LBRACE], a, b);
    SplitsMembers(ms, ns, v, w, x, y);
    SameMembersSameMeaning(v, w);
  }

  // ---------------------------------------------------------------- equal values, equal texts

  lemma {:induction false} SameItemsEncode(a: seq<Option<Json>>, b: seq<Option<Json>>)
    requires ItemsWellFormed(a) && ItemsWellFormed(b)
    requires MeaningItems(a) == MeaningItems(b)
    ensures EncodeItems(a) == EncodeItems(b)
    decreases a, 0, 0
  {
    if a != [] {
      assert MeaningItem(a[0]) == MeaningItems(a)[0] == MeaningItems(b)[0] == MeaningItem(b[0]);
      SameItemEncodes(a[0], b[0]);
      assert MeaningItems(a)[1..] == MeaningItems(a[1..]) && MeaningItems(b)[1..] == MeaningItems(b[1..]);
      SameItemsEncode(a[1..], b[1..]);
    }
  }

  lemma {:induction false} SameItemEncodes(a: Option<Json>, b: Option<Json>)
    requires (a.Some? ==> WellFormed(a.value)) && (b.Some? ==> WellFormed(b.value)) && MeaningItem(a) == MeaningItem(b)
    ensures EncodeItem(a) == EncodeItem(b)
    decreases a, 2, 0
  {
    match a {
      case Some(v) => SameMeaningEncodes(v, b.value);
      case None =>
    }
  }

  lemma {:induction false} SameArraysEncode(a: seq<Option<Json>>, b: seq<Option<Json>>)
    requires ItemsWellFormed(a) && ItemsWellFormed(b)
    requires Meaning(Arr(a)) == Meaning(Arr(b))
    ensures EncodeItems(a) == EncodeItems(b)
    decreases a, 1, 0
  {
    if a == [] || LoneUndefined(a) {
      NoItems(a, []);
      NoItems(b, []);
    } else {
      SameItemsEncode(a, b);
    }
  }

  lemma {:induction false} SameMembersEncode(ms: seq<Member>, ns: seq<Member>, v: Json, w: Json)
    requires Parts(ms, v) && Parts(ns, w) && SameMembers(ms, ns)
    ensures EncodeMembers(ms, v) == EncodeMembers(ns, w)
    decreases v, 0, |ms|
  {
    if ms != [] {
      assert ms[0] in ms && ns[0] in ns;
      SameMeaningEncodes(ms[0].value.value, ns[0].value.value);
      PartsTail(ms, v);
      PartsTail(ns, w);
      SameMembersTail(ms, ns);
      SameMembersEncode(ms[1..], ns[1..], v, w);
    }
  }

  lemma {:induction false} PartsTail(ms: seq<Member>, v: Json)
    requires Parts(ms, v) && ms != []
    ensures Parts(ms[1..], v)
  {
    assert forall m | m in ms[1..] :: m in ms;
  }

  lemma {:induction false} SameMembersTail(ms: seq<Member>, ns: seq<Member>)
    requires SameMembers(ms, ns) && ms != []
    ensures SameMembers(ms[1..], ns[1..])
  {}

  lemma {:induction false} SameMapSameMembers(a: seq<Member>, b: seq<Member>, p: map<Text, Value>)
    requires Sorted(a) && Sorted(b) && Lists(a, p) && Lists(b, p)
    ensures SameMembers(a, b)
  {
    assert (set m | m in a :: m.key) == p.Keys == (set m | m in b :: m.key);
    SameKeysSameOrder(a, b);
    forall i | 0 <= i < |a|
      ensures a[i].key == b[i].key && a[i].value.Some? && b[i].value.Some? && Meaning(a[i].value.value) == Meaning(b[i].value.value) {
      assert a[i] in a && b[i] in b;
    }
  }

  lemma {:induction false} SameMeaningSameMembers(v: Json, w: Json)
    requires v.Obj? && w.Obj? && DistinctKeys(v.members) && DistinctKeys(w.members)
    requires Meaning(v) == Meaning(w)
    ensures SameMembers(SortedMembers(v.members), SortedMembers(w.members))
  {
    MeaningByKey(v.members);
    MeaningByKey(w.members);
    SortedMembersSorted(v.members);
    SortedMembersSorted(w.members);
    SameMapSameMembers(SortedMembers(v.members), SortedMembers(w.members), MeaningMembers(v.members));
  }

  lemma {:induction false} SameMeaningEncodes(v: Json, w: Json)
    requires WellFormed(v) && WellFormed(w) && Meaning(v) == Meaning(w)
    ensures Encode(v) == Encode(w)
    decreases v, 1, 0
  {
    if v.Arr? {
      SameArraysEncode(v.items, w.items);
    } else if v.Obj? {
      PartsOfSorted(v);
      PartsOfSorted(w);
      SameMeaningSameMembers(v, w);
      SameMembersEncode(SortedMembers(v.members), SortedMembers(w.members), v, w);
    }
  }

  /** Two values have one canonical text exactly when they are the same JSON value. */
  lemma {:induction false} CanonicalExactly(v: Json, w: Json)
    requires WellFormed(v) && WellFormed(w)
    ensures Encode(v) == Encode(w) <==> Meaning(v) == Meaning(w)
  {
    if Encode(v) == Encode(w) { Splits(v, w, [], []); }
    if Meaning(v) == Meaning(w) { SameMeaningEncodes(v, w); }
  }

  /** Arrays collide in one case only: the empty array and the array whose one item is undefined. */
  lemma {:induction false} ArraysCollide(a: seq<Option<Json>>, b: seq<Option<Json>>)
    requires WellFormed(Arr(a)) && WellFormed(Arr(b))
    ensures Encode(Arr(a)) == Encode(Arr(b)) && MeaningItems(a) != MeaningItems(b)
       <==> (a == [] && b == [None]) || (a == [None] && b == [])
  {
    CanonicalExactly(Arr(a), Arr(b));
    assert LoneUndefined(a) <==> a == [None];
    assert LoneUndefined(b) <==> b == [None];
    assert MeaningItems([None]) == [None];
  }
}
