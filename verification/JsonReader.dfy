/**
 A reader of JSON texts by the grammar of RFC 8259, and the canonical encoder against it: the
 encoder's text is read back as the value meant exactly when there is a JSON text for the value.
 */
module JsonReader {
  import opened CanonicalJson
  import opened CodeUnits
  import opened Wrappers

  // ---------------------------------------------------------------- the grammar

  /** The white space of section 2. */
  predicate IsJsonSpace(u: CodeUnit) {
    u == 0x20 || u == 0x09 || u == 0x0A || u == 0x0D
  }

  function SkipSpace(t: Text): (r: Text)
    ensures |r| <= |t| && (r != [] ==> !IsJsonSpace(r[0]))
  {
    if t != [] && IsJsonSpace(t[0]) then SkipSpace(t[1..]) else t
  }

  function NumberRun(t: Text): (n: nat)
    ensures n <= |t|
  {
    if t == [] || !IsNumberUnit(t[0]) then 0 else 1 + NumberRun(t[1..])
  }

  /** Section 6: an integer part without leading zeros, perhaps a fraction, perhaps an exponent. */
  predicate IsJsonNumber(t: Text) {
    var body := if t != [] && t[0] == MINUS then t[1..] else t;
    var n := DigitRun(body);
    n > 0 && (body[0] == ZERO ==> n == 1) && FractionAndExponent(body[n..])
  }

  predicate FractionAndExponent(t: Text) {
    if t != [] && t[0] == DOT then
      var n := DigitRun(t[1..]);
      n > 0 && Exponent(t[1 + n..])
    else Exponent(t)
  }

  predicate Exponent(t: Text) {
    t == [] || (
      && (t[0] == 0x65 || t[0] == 0x45)
      && var digits := if |t| > 1 && (t[1] == PLUS || t[1] == MINUS) then t[2..] else t[1..];
         digits != [] && AllDigits(digits))
  }

  /** A value at the front of a text, and what follows it. */
  function ReadValue(text: Text): (r: Option<(Value, Text)>)
    ensures r.Some? ==> |r.value.1| < |text|
    decreases |text|, 0
  {
    var t := SkipSpace(text);
    if t == [] then None
    else if Ascii("null") <= t then Some((VNull, t[4..]))
    else if Ascii("true") <= t then Some((VBool(true), t[4..]))
    else if Ascii("false") <= t then Some((VBool(false), t[5..]))
    else if t[0] == QUOTE then ReadString(t)
    else if t[0] == LBRACKET then ReadArray(t[1..])
    else if t[0] == LBRACE then ReadObject(t[1..])
    else ReadNumber(t)
  }

  /** What follows an opening bracket. */
  function ReadArray(t: Text): (r: Option<(Value, Text)>)
    ensures r.Some? ==> |r.value.1| < |t|
    decreases |t|, 2
  {
    var inside := SkipSpace(t);
    if inside != [] && inside[0] == RBRACKET then Some((VArr([]), inside[1..]))
    else match ReadItems(t)
      case None => None
      case Some((items, rest)) => Some((VArr(items), rest))
  }

  /** What follows an opening brace. */
  function ReadObject(t: Text): (r: Option<(Value, Text)>)
    ensures r.Some? ==> |r.value.1| < |t|
    decreases |t|, 2
  {
    var inside := SkipSpace(t);
    if inside != [] && inside[0] == RBRACE then Some((VObj(map[]), inside[1..]))
    else match ReadMembers(t)
      case None => None
      case Some((members, rest)) => Some((VObj(members), rest))
  }

  function ReadString(t: Text): (r: Option<(Value, Text)>)
    requires t != []
    ensures r.Some? ==> |r.value.1| < |t|
  {
    match Unescape(t[1..])
    case None => None
    case Some((s, rest)) => Some((VStr(s), rest))
  }

  function ReadNumber(t: Text): (r: Option<(Value, Text)>)
    ensures r.Some? ==> |r.value.1| < |t|
  {
    var n := NumberRun(t);
    if IsJsonNumber(t[..n]) then Some((VNumber(t[..n]), t[n..])) else None
  }

  /** One or more values between commas, up to the closing bracket. */
  function ReadItems(t: Text): (r: Option<(seq<Option<Value>>, Text)>)
    ensures r.Some? ==> |r.value.1| < |t|
    decreases |t|, 1
  {
    match ReadValue(t)
    case None => None
    case Some((v, behind)) =>
      var u := SkipSpace(behind);
      if u == [] then None
      else if u[0] == RBRACKET then Some(([Some(v)], u[1..]))
      else if u[0] == COMMA then
        match ReadItems(u[1..])
        case None => None
        case Some((items, rest)) => Some(([Some(v)] + items, rest))
      else None
  }

  /** One or more members between commas, up to the closing brace; of equal names the last one counts. */
  function ReadMembers(text: Text): (r: Option<(map<Text, Value>, Text)>)
    ensures r.Some? ==> |r.value.1| < |text|
    decreases |text|, 1
  {
    var t := SkipSpace(text);
    if t == [] || t[0] != QUOTE then None
    else match Unescape(t[1..])
      case None => None
      case Some((key, behind)) =>
        var c := SkipSpace(behind);
        if c == [] || c[0] != COLON then None
        else match ReadValue(c[1..])
          case None => None
          case Some((v, after)) =>
            var u := SkipSpace(after);
            if u == [] then None
            else if u[0] == RBRACE then Some((map[key := v], u[1..]))
            else if u[0] == COMMA then
              match ReadMembers(u[1..])
              case None => None
              case Some((members, rest)) => Some((map[key := v] + members, rest))
            else None
  }

  /** A whole text: one value and white space. */
  function ReadText(t: Text): Option<Value> {
    match ReadValue(t)
    case None => None
    case Some((v, rest)) => if SkipSpace(rest) == [] then Some(v) else None
  }

  // ---------------------------------------------------------------- values that have a JSON text

  /** Nothing undefined among several items, and numbers in the form of section 6. */
  predicate HasJsonText(v: Json) {
    match v
    case Number(t) => IsJsonNumber(t)
    case Arr(items) => LoneUndefined(items) || forall i | 0 <= i < |items| :: items[i].Some? && HasJsonText(items[i].value)
    case Obj(members) => forall i | 0 <= i < |members| && members[i].value.Some? :: HasJsonText(members[i].value.value)
    case _ => true
  }

  // ---------------------------------------------------------------- reading back

  lemma {:induction false} NumberRunOf(s: Text, x: Text)
    requires (forall i | 0 <= i < |s| :: IsNumberUnit(s[i])) && Terminator(x)
    ensures NumberRun(s + x) == |s|
  {
    if s == [] {
      assert s + x == x;
    } else {
      assert (s + x)[1..] == s[1..] + x;
      NumberRunOf(s[1..], x);
    }
  }

  lemma {:induction false} ReadsNumber(s: Text, x: Text)
    requires IsNumberText(s) && Terminator(x)
    ensures ReadNumber(s + x) == if IsJsonNumber(s) then Some((VNumber(s), x)) else None
  {
    NumberRunOf(s, x);
    assert (s + x)[..|s|] == s && (s + x)[|s|..] == x;
  }

  lemma {:induction false} ReadsString(s: Text, x: Text)
    ensures ReadString(Quoted(s) + x) == Some((VStr(s), x))
  {
    QuotedIsClosed(s, x);
    assert ([QUOTE] + Closed(s, x))[1..] == Closed(s, x);
    UnescapeInverts(s, x);
  }

  /** No white space in front of the encoder's texts. */
  lemma {:induction false} NothingToSkip(v: Json, x: Text)
    requires WellFormed(v)
    ensures Encode(v) + x != [] && (Encode(v) + x)[0] == Opening(v) && SkipSpace(Encode(v) + x) == Encode(v) + x
  {
    FirstUnit(v);
  }

  /** The first unit of a text decides how it is read. */
  lemma {:induction false} ReadsByOpening(t: Text)
    requires t != []
    ensures t[0] == QUOTE ==> ReadValue(t) == ReadString(t)
    ensures IsNumberUnit(t[0]) ==> ReadValue(t) == ReadNumber(t)
    ensures t[0] == LBRACKET ==> ReadValue(t) == ReadArray(t[1..])
    ensures t[0] == LBRACE ==> ReadValue(t) == ReadObject(t[1..])
  {}

  lemma {:induction false} ReadsLiteral(v: Json, x: Text)
    requires v.Null? || v.Bool?
    ensures ReadValue(Encode(v) + x) == Some((Meaning(v), x))
  {
    var t := Encode(v) + x;
    assert t[|Encode(v)|..] == x && t[..|Encode(v)|] == Encode(v);
    assert t[0] == Encode(v)[0] && SkipSpace(t) == t;
  }

  ghost predicate AllHaveJsonText(items: seq<Option<Json>>) {
    forall i | 0 <= i < |items| :: items[i].Some? && WellFormed(items[i].value) && HasJsonText(items[i].value)
  }

  /** The text of a value is read back, whatever follows it. */
  lemma {:induction false} ReadsBack(v: Json, x: Text)
    requires WellFormed(v) && HasJsonText(v) && Terminator(x)
    ensures ReadValue(Encode(v) + x) == Some((Meaning(v), x))
    decreases v, 1, 0
  {
    NothingToSkip(v, x);
    ReadsByOpening(Encode(v) + x);
    match v {
      case Number(s) => ReadsNumber(s, x);
      case Str(s) => ReadsString(s, x);
      case Arr(items) => ReadsArray(items, x);
      case Obj(members) => ReadsObject(v, x);
      case _ => ReadsLiteral(v, x);
    }
  }

  lemma {:induction false} ReadsArray(items: seq<Option<Json>>, x: Text)
    requires WellFormed(Arr(items)) && HasJsonText(Arr(items))
    ensures Encode(Arr(items)) + x == [LBRACKET] + (EncodeItems(items) + [RBRACKET] + x)
    ensures (Encode(Arr(items)) + x)[1..] == EncodeItems(items) + [RBRACKET] + x
    ensures ReadArray(EncodeItems(items) + [RBRACKET] + x) == Some((Meaning(Arr(items)), x))
    decreases items, 1, 0
  {
    var t := EncodeItems(items) + [RBRACKET] + x;
    assert Encode(Arr(items)) + x == [LBRACKET] + t;
    ItemsOpening(items, x);
    if items == [] || LoneUndefined(items) {
      NoItems(items, x);
    } else {
      ReadsItems(items, x);
      ItemsUnfold(items, x);
      NothingToSkip(items[0].value, AfterFirst(items, x));
    }
  }

  lemma {:induction false} ReadsItems(items: seq<Option<Json>>, x: Text)
    requires items != [] && AllHaveJsonText(items)
    ensures ReadItems(EncodeItems(items) + [RBRACKET] + x) == Some((MeaningItems(items), x))
    decreases items, 0, 0
  {
    var after := AfterFirst(items, x);
    ItemsUnfold(items, x);
    ReadsItem(items[0], after);
    var v := MeaningItem(items[0]).value;
    ItemsStep(EncodeItem(items[0]) + after, v, after);
    if |items| == 1 {
      assert after[1..] == x;
      assert MeaningItems(items) == [Some(v)];
    } else {
      ReadsItems(items[1..], x);
      assert after[1..] == EncodeItems(items[1..]) + [RBRACKET] + x;
      assert MeaningItems(items) == [Some(v)] + MeaningItems(items[1..]);
    }
  }

  lemma {:induction false} ReadsItem(item: Option<Json>, x: Text)
    requires item.Some? && WellFormed(item.value) && HasJsonText(item.value) && Terminator(x)
    ensures MeaningItem(item).Some? && ReadValue(EncodeItem(item) + x) == Some((MeaningItem(item).value, x))
    decreases item, 2, 0
  {
    match item
    case Some(v) => ReadsBack(v, x);
  }

  lemma {:induction false} ItemsStep(t: Text, v: Value, after: Text)
    requires ReadValue(t) == Some((v, after)) && after != [] && !IsJsonSpace(after[0])
    ensures after[0] == RBRACKET ==> ReadItems(t) == Some(([Some(v)], after[1..]))
    ensures after[0] == COMMA && ReadItems(after[1..]).Some? ==>
              ReadItems(t) == Some(([Some(v)] + ReadItems(after[1..]).value.0, ReadItems(after[1..]).value.1))
  {}

  lemma {:induction false} ReadsObject(v: Json, x: Text)
    requires v.Obj? && WellFormed(v) && HasJsonText(v)
    ensures var t := EncodeMembers(SortedMembers(v.members), v) + [RBRACE] + x;
            && Encode(v) + x == [LBRACE] + t && (Encode(v) + x)[1..] == t
            && ReadObject(t) == Some((Meaning(v), x))
    decreases v, 0, |SortedMembers(v.members)| + 1
  {
    var ms := SortedMembers(v.members);
    PartsOfSorted(v);
    var t := EncodeMembers(ms, v) + [RBRACE] + x;
    assert Encode(v) + x == [LBRACE] + t;
    if ms == [] {
      assert t == [RBRACE] + x && t[1..] == x;
      ReadsAsMeant(v, map[]);
    } else {
      MembersHaveJsonText(v);
      SortedMembersSorted(v.members);
      var read := ReadsMembers(ms, v, x);
      ReadsAsMeant(v, read);
      ObjectStep(ms, v, x);
    }
  }

  lemma {:induction false} ReadsAsMeant(v: Json, read: map<Text, Value>)
    requires v.Obj? && WellFormed(v) && Lists(SortedMembers(v.members), read)
    ensures VObj(read) == Meaning(v)
  {
    var ms := SortedMembers(v.members);
    PartsOfSorted(v);
    MeaningByKey(v.members);
    SameMembersSameMap(ms, ms, read, MeaningMembers(v.members));
  }

  lemma {:induction false} ObjectStep(ms: seq<Member>, v: Json, x: Text)
    requires ms != [] && Parts(ms, v)
    ensures var t := EncodeMembers(ms, v) + [RBRACE] + x;
            ReadObject(t) == match ReadMembers(t) { case None => None case Some((members, rest)) => Some((VObj(members), rest)) }
  {
    MembersUnfold(ms, v, x);
  }

  ghost predicate MembersText(ms: seq<Member>) {
    forall m | m in ms :: m.value.Some? && HasJsonText(m.value.value)
  }

  lemma {:induction false} MembersHaveJsonText(v: Json)
    requires v.Obj? && HasJsonText(v)
    ensures MembersText(SortedMembers(v.members))
  {
    forall m | m in SortedMembers(v.members) ensures HasJsonText(m.value.value) {
      var i :| 0 <= i < |v.members| && v.members[i] == m;
    }
  }

  lemma {:induction false} MembersStep(t: Text, key: Text, w: Text, v: Value, after: Text)
    requires t == Quoted(key) + ([COLON] + w) && ReadValue(w) == Some((v, after)) && after != [] && !IsJsonSpace(after[0])
    ensures after[0] == RBRACE ==> ReadMembers(t) == Some((map[key := v], after[1..]))
    ensures after[0] == COMMA && ReadMembers(after[1..]).Some? ==>
              ReadMembers(t) == Some((map[key := v] + ReadMembers(after[1..]).value.0, ReadMembers(after[1..]).value.1))
  {
    ReadsKey(key, [COLON] + w);
    assert ([COLON] + w)[1..] == w && SkipSpace([COLON] + w) == [COLON] + w;
  }

  lemma {:induction false} ReadsMembers(ms: seq<Member>, v: Json, x: Text) returns (read: map<Text, Value>)
    requires ms != [] && Parts(ms, v) && Sorted(ms) && MembersText(ms)
    ensures ReadMembers(EncodeMembers(ms, v) + [RBRACE] + x) == Some((read, x)) && Lists(ms, read)
    decreases v, 0, |ms|
  {
    var key, value, after := ms[0].key, ms[0].value.value, AfterMember(ms, v, x);
    MembersUnfold(ms, v, x);
    assert ms[0] in ms;
    ReadsBack(value, after);
    MembersStep(EncodeMembers(ms, v) + [RBRACE] + x, key, Encode(value) + after, Meaning(value), after);
    if |ms| == 1 {
      assert after[1..] == x;
      read := map[key := Meaning(value)];
      assert ms == [ms[0]];
    } else {
      TailOfMembers(ms, v);
      var rest := ReadsMembers(ms[1..], v, x);
      assert after[1..] == EncodeMembers(ms[1..], v) + [RBRACE] + x;
      read := map[key := Meaning(value)] + rest;
      OneMoreRead(ms, rest, read, Meaning(value));
    }
  }

  lemma {:induction false} TailOfMembers(ms: seq<Member>, v: Json)
    requires |ms| > 1 && Parts(ms, v) && Sorted(ms) && MembersText(ms)
    ensures Parts(ms[1..], v) && Sorted(ms[1..]) && MembersText(ms[1..])
  {
    PartsTail(ms, v);
    assert forall m | m in ms[1..] :: m in ms;
  }

  lemma {:induction false} ReadsKey(key: Text, x: Text)
    ensures var t := Quoted(key) + x; SkipSpace(t) == t && t[0] == QUOTE && Unescape(t[1..]) == Some((key, x))
  {
    QuotedIsClosed(key, x);
    assert ([QUOTE] + Closed(key, x))[1..] == Closed(key, x);
    UnescapeInverts(key, x);
  }

  lemma {:induction false} OneMoreRead(ms: seq<Member>, rest: map<Text, Value>, read: map<Text, Value>, meant: Value)
    requires |ms| > 1 && Sorted(ms) && Lists(ms[1..], rest) && ms[0].value.Some? && meant == Meaning(ms[0].value.value)
    requires read == map[ms[0].key := meant] + rest
    ensures Lists(ms, read)
  {
    HeadKeyIsNew(ms, rest);
    ListsOneMore(ms[0], ms[1..], ms, rest);
    assert read == rest[ms[0].key := meant];
  }

  lemma {:induction false} HeadKeyIsNew(ms: seq<Member>, rest: map<Text, Value>)
    requires |ms| > 1 && Sorted(ms) && Lists(ms[1..], rest)
    ensures ms[0].key !in rest && forall m | m in ms[1..] :: m.key != ms[0].key
    ensures forall m :: m in ms <==> m == ms[0] || m in ms[1..]
  {
    forall m | m in ms[1..] ensures m.key != ms[0].key {
      var i :| 0 <= i < |ms[1..]| && ms[1..][i] == m;
      assert ms[i + 1] == m;
    }
  }

  // ---------------------------------------------------------------- what can be read

  /** Nothing undefined, and every number in the form of section 6. */
  ghost predicate IsJsonValue(v: Value) {
    match v
    case VNumber(t) => IsJsonNumber(t)
    case VArr(items) => forall i | 0 <= i < |items| :: items[i].Some? && IsJsonValue(items[i].value)
    case VObj(members) => forall k | k in members :: IsJsonValue(members[k])
    case _ => true
  }

  lemma {:induction false} ReadsJsonValues(t: Text)
    ensures ReadValue(t).Some? ==> IsJsonValue(ReadValue(t).value.0)
    decreases |t|, 0
  {
    var u := SkipSpace(t);
    if ReadValue(t).Some? && u[0] == LBRACKET {
      if ReadItems(u[1..]).Some? { ReadsJsonItems(u[1..]); }
    } else if ReadValue(t).Some? && u[0] == LBRACE {
      if ReadMembers(u[1..]).Some? { ReadsJsonMembers(u[1..]); }
    }
  }

  lemma {:induction false} ReadsJsonItems(t: Text)
    requires ReadItems(t).Some?
    ensures forall i | 0 <= i < |ReadItems(t).value.0| :: ReadItems(t).value.0[i].Some? && IsJsonValue(ReadItems(t).value.0[i].value)
    decreases |t|, 1
  {
    ReadsJsonValues(t);
    var u := SkipSpace(ReadValue(t).value.1);
    if u[0] == COMMA { ReadsJsonItems(u[1..]); }
  }

  lemma {:induction false} ReadsJsonMembers(t: Text)
    requires ReadMembers(t).Some?
    ensures forall k | k in ReadMembers(t).value.0 :: IsJsonValue(ReadMembers(t).value.0[k])
    decreases |t|, 1
  {
    var c := SkipSpace(Unescape(SkipSpace(t)[1..]).value.1);
    ReadsJsonValues(c[1..]);
    var u := SkipSpace(ReadValue(c[1..]).value.1);
    if u[0] == COMMA { ReadsJsonMembers(u[1..]); }
  }

  /** The values that have a JSON text are those whose meaning is a JSON value. */
  lemma {:induction false} MeansJsonValue(v: Json)
    requires WellFormed(v)
    ensures IsJsonValue(Meaning(v)) <==> HasJsonText(v)
    decreases v, 1
  {
    match v {
      case Arr(items) =>
        forall i | 0 <= i < |items| ensures items[i].Some? ==> (IsJsonValue(MeaningItem(items[i]).value) <==> HasJsonText(items[i].value)) {
          ItemMeansJsonValue(items[i]);
        }
      case Obj(members) => MembersMeanJsonValues(v);
      case _ =>
    }
  }

  lemma {:induction false} ItemMeansJsonValue(item: Option<Json>)
    requires item.Some? ==> WellFormed(item.value)
    ensures item.Some? ==> (IsJsonValue(MeaningItem(item).value) <==> HasJsonText(item.value))
    decreases item, 2
  {
    match item
    case Some(v) => MeansJsonValue(v);
    case None =>
  }

  lemma {:induction false} MembersMeanJsonValues(v: Json)
    requires v.Obj? && WellFormed(v)
    ensures IsJsonValue(Meaning(v)) <==> HasJsonText(v)
    decreases v, 0
  {
    var ms, meant := SortedMembers(v.members), MeaningMembers(v.members);
    MeaningByKey(v.members);
    PartsOfSorted(v);
    forall m | m in ms ensures m.key in meant && (IsJsonValue(meant[m.key]) <==> HasJsonText(m.value.value)) {
      MeansJsonValue(m.value.value);
    }
    if IsJsonValue(Meaning(v)) {
      forall i | 0 <= i < |v.members| && v.members[i].value.Some? ensures HasJsonText(v.members[i].value.value) {
        assert v.members[i] in ms;
      }
    }
    if HasJsonText(v) {
      MembersHaveJsonText(v);
      forall k | k in meant ensures IsJsonValue(meant[k]) {
        var m :| m in ms && m.key == k;
      }
    }
  }

  /**
   The canonical text of a value is a JSON text for that value exactly when the value has one: no
   array has an undefined item beside others, and the numbers are printed as JSON numbers.
   */
  lemma {:induction false} CanonicalIsJson(v: Json)
    requires WellFormed(v)
    ensures ReadText(Encode(v)) == Some(Meaning(v)) <==> HasJsonText(v)
  {
    assert Encode(v) + [] == Encode(v);
    if HasJsonText(v) { ReadsBack(v, []); }
    if ReadText(Encode(v)) == Some(Meaning(v)) {
      ReadsJsonValues(Encode(v));
      MeansJsonValue(v);
    }
  }
}
