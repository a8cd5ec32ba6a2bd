/**
 Parsing and printing Lisp symbols, and deciding whether one may replace another.
 `upper` stands for the host's upper-casing of a text; nothing is assumed about it.
 */
module SymbolSemantics {
  import opened CodeUnits
  import opened LispLexer
  import opened RenameLexing
  import opened Wrappers

  datatype Language = Generic | Elisp | Clojure | CommonLisp

  datatype Policy = Exact | PreserveQualification | LeafOnly

  datatype SymbolKind =
    | PlainSymbol | EscapedSymbol | Keyword | QualifiedKeyword | AutoResolvedKeyword | AutoResolvedQualifiedKeyword
    | ReaderSensitive | QualifiedSymbol | InvalidQualifiedSymbol | AutoGensym
    | UninternedSymbol | InvalidPackageSymbol | InternalSymbol | ExternalSymbol

  datatype Descriptor = Descriptor(
    raw: Text, kind: SymbolKind, qualifier: Option<Text>, separator: Option<Text>, name: Text,
    keyword: bool, renameable: bool, identity: Text)

  predicate StartsAt(t: Text, pattern: Text, i: nat) {
    i + |pattern| <= |t| && t[i..i + |pattern|] == pattern
  }

  /** The first position from `from` on where `pattern` stands. */
  function IndexOf(t: Text, pattern: Text, from: nat): (r: Option<nat>)
    requires from <= |t|
    ensures r.Some? ==> from <= r.value && StartsAt(t, pattern, r.value)
    ensures forall i | from <= i <= |t| && (r.Some? ==> i < r.value) :: !StartsAt(t, pattern, i)
    decreases |t| - from
  {
    if StartsAt(t, pattern, from) then Some(from)
    else if from == |t| then None
    else IndexOf(t, pattern, from + 1)
  }

  function LastIndexOf(t: Text, pattern: Text, from: nat): (r: Option<nat>)
    requires from <= |t|
    ensures r.Some? ==> r.value <= from && StartsAt(t, pattern, r.value)
    ensures forall i | (if r.Some? then r.value < i else 0 <= i) && i <= from :: !StartsAt(t, pattern, i)
  {
    if StartsAt(t, pattern, from) then Some(from)
    else if from == 0 then None
    else LastIndexOf(t, pattern, from - 1)
  }

  function Find(t: Text, pattern: Text): Option<nat> {
    IndexOf(t, pattern, 0)
  }

  function FindLast(t: Text, pattern: Text): Option<nat> {
    LastIndexOf(t, pattern, |t|)
  }

  function Fold(language: Language, t: Text, upper: Text -> Text): Text {
    if language == CommonLisp then upper(t) else t
  }

  /** The descriptor every other one is a variation of. */
  function Base(raw: Text, language: Language, upper: Text -> Text): Descriptor {
    Descriptor(raw, PlainSymbol, None, None, raw, false, true, Fold(language, raw, upper))
  }

  function DescribeKeyword(raw: Text, body: Text, plain: SymbolKind, qualified: SymbolKind, base: Descriptor): Descriptor {
    match Find(body, [SLASH])
    case None => base.(kind := plain, name := body, keyword := true, renameable := false)
    case Some(at) =>
      base.(kind := qualified, qualifier := Some(body[..at]), separator := Some([SLASH]), name := body[at + 1..],
            keyword := true, renameable := false)
  }

  function DescribeClojure(raw: Text, base: Descriptor): Descriptor {
    if StartsAt(raw, [COLON, COLON], 0) then
      DescribeKeyword(raw, raw[2..], AutoResolvedKeyword, AutoResolvedQualifiedKeyword, base)
    else if StartsAt(raw, [COLON], 0) then
      DescribeKeyword(raw, raw[1..], Keyword, QualifiedKeyword, base)
    else if StartsAt(raw, [HASH], 0) then base.(kind := ReaderSensitive, renameable := false)
    else if raw != [SLASH] && Find(raw, [SLASH]).Some? then
      var first := Find(raw, [SLASH]).value;
      if first == 0 || Some(first) != FindLast(raw, [SLASH]) || first == |raw| - 1 then
        base.(kind := InvalidQualifiedSymbol, renameable := false)
      else
        base.(kind := QualifiedSymbol, qualifier := Some(raw[..first]), separator := Some([SLASH]), name := raw[first + 1..])
    else if raw != [] && raw[|raw| - 1] == HASH then base.(kind := AutoGensym, renameable := false)
    else base
  }

  function DescribeCommonLisp(raw: Text, base: Descriptor, upper: Text -> Text): Descriptor {
    if StartsAt(raw, [HASH, COLON], 0) then base.(kind := UninternedSymbol, name := raw[2..], renameable := false)
    else if StartsAt(raw, [COLON], 0) then base.(kind := Keyword, name := raw[1..], keyword := true, renameable := false)
    else match Find(raw, [COLON, COLON])
      case Some(at) =>
        if at == 0 || Some(at) != FindLast(raw, [COLON, COLON]) || at + 2 >= |raw| || COLON in raw[at + 2..] then
          base.(kind := InvalidPackageSymbol, renameable := false)
        else
          base.(kind := InternalSymbol, qualifier := Some(raw[..at]), separator := Some([COLON, COLON]), name := raw[at + 2..],
                identity := upper(raw[..at]) + [COLON, COLON] + upper(raw[at + 2..]))
      case None =>
        match Find(raw, [COLON])
        case Some(at) =>
          if at == 0 || Some(at) != FindLast(raw, [COLON]) || at == |raw| - 1 then
            base.(kind := InvalidPackageSymbol, renameable := false)
          else
            base.(kind := ExternalSymbol, qualifier := Some(raw[..at]), separator := Some([COLON]), name := raw[at + 1..],
                  identity := upper(raw[..at]) + [COLON] + upper(raw[at + 1..]))
        case None => base
  }

  /** describeLispSymbol; None where the source throws because the text is no symbol. */
  function Describe(raw: Text, language: Language, upper: Text -> Text): (d: Option<Descriptor>)
    ensures d.Some? <==> ValidSymbol(raw)
    ensures d.Some? ==> d.value.raw == raw
    ensures d.Some? && d.value.renameable ==> BAR !in raw && BACKSLASH !in raw
  {
    if !ValidSymbol(raw) then None
    else
      var base := Base(raw, language, upper);
      if BAR in raw || BACKSLASH in raw then Some(base.(kind := EscapedSymbol, renameable := false))
      else match language
        case Generic => Some(DescribePlain(raw, base))
        case Elisp => Some(DescribePlain(raw, base))
        case Clojure => Some(DescribeClojure(raw, base))
        case CommonLisp => Some(DescribeCommonLisp(raw, base, upper))
  }

  function DescribePlain(raw: Text, base: Descriptor): Descriptor {
    if StartsAt(raw, [COLON], 0) then base.(kind := Keyword, name := raw[1..], keyword := true, renameable := false)
    else base
  }

  function Reconstruct(d: Descriptor, leaf: Text): Text {
    if d.separator.Some? && d.separator.value != [] && d.qualifier.Some? && d.qualifier.value != []
    then d.qualifier.value + d.separator.value + leaf
    else leaf
  }

  datatype RenameError = InvalidName | OldNotRenameable | NewNotRenameable | IdentityUnchanged | QualificationChange

  datatype Outcome =
    | Accepted(policy: Policy, current: Descriptor, requested: Descriptor, target: Descriptor, effective: Text)
    | Rejected(error: RenameError)

  function DefaultPolicy(language: Language): Policy {
    if language == Generic || language == Elisp then Exact else PreserveQualification
  }

  function FoldQualifier(language: Language, q: Option<Text>, upper: Text -> Text): Option<Text> {
    if q.Some? then Some(Fold(language, q.value, upper)) else None
  }

  /** The name that will really be written: under `leaf_only` a bare new name inherits the old qualification. */
  function EffectiveName(policy: Policy, current: Descriptor, requested: Descriptor): Text {
    if policy == LeafOnly && current.qualifier.Some? && current.qualifier.value != []
       && requested.qualifier.None? && requested.renameable
    then Reconstruct(current, requested.name)
    else requested.raw
  }

  /** What is decided about an old symbol, the requested one, and the one that would really be written. */
  function Decided(policy: Policy, current: Descriptor, requested: Descriptor, effective: Text, described: Option<Descriptor>,
                   language: Language, upper: Text -> Text): Outcome {
    match described
    case None => Rejected(InvalidName)
    case Some(target) =>
      if !target.renameable then Rejected(NewNotRenameable)
      else if current.identity == target.identity then Rejected(IdentityUnchanged)
      else if policy != Exact
           && (|| current.kind != target.kind
               || FoldQualifier(language, current.qualifier, upper) != FoldQualifier(language, target.qualifier, upper)
               || current.separator != target.separator)
      then Rejected(QualificationChange)
      else Accepted(policy, current, requested, target, effective)
  }

  function PrepareSymbolRename(oldSymbol: Text, newSymbol: Text, language: Language, asked: Option<Policy>,
                               upper: Text -> Text): Outcome {
    var policy := if asked.Some? then asked.value else DefaultPolicy(language);
    match (Describe(oldSymbol, language, upper), Describe(newSymbol, language, upper))
    case (Some(current), Some(requested)) =>
      if !current.renameable then Rejected(OldNotRenameable)
      else
        var effective := EffectiveName(policy, current, requested);
        Decided(policy, current, requested, effective, Describe(effective, language, upper), language, upper)
    case _ => Rejected(InvalidName)
  }

  // ---------------------------------------------------------------- parse and print

  lemma {:induction false} StartsAtUnit(t: Text, u: CodeUnit, i: nat)
    ensures StartsAt(t, [u], i) <==> i < |t| && t[i] == u
  {}

  lemma {:induction false} StartsAtPair(t: Text, a: CodeUnit, b: CodeUnit, i: nat)
    ensures StartsAt(t, [a, b], i) <==> i + 1 < |t| && t[i] == a && t[i + 1] == b
  {
    if i + 2 <= |t| { assert t[i..i + 2] == [t[i], t[i + 1]]; }
  }

  /** The text is its qualifier, its separator and its name, in this order. */
  ghost predicate Printed(d: Descriptor) {
    && (d.qualifier.Some? <==> d.separator.Some?)
    && (d.qualifier.None? ==> d.name == d.raw)
    && (d.qualifier.Some? ==>
          && d.qualifier.value != [] && d.separator.value != []
          && d.raw == d.qualifier.value + d.separator.value + d.name)
  }

  lemma {:induction false} CutAt(raw: Text, sep: Text, at: nat)
    requires StartsAt(raw, sep, at)
    ensures raw == raw[..at] + sep + raw[at + |sep|..]
  {
    assert raw == raw[..at] + raw[at..at + |sep|] + raw[at + |sep|..];
  }

  lemma {:induction false} ClojurePrinted(raw: Text, base: Descriptor)
    requires base.raw == base.name == raw && base.qualifier.None? && base.separator.None?
    requires DescribeClojure(raw, base).renameable
    ensures Printed(DescribeClojure(raw, base))
  {
    if raw != [SLASH] && Find(raw, [SLASH]).Some? { CutAt(raw, [SLASH], Find(raw, [SLASH]).value); }
  }

  lemma {:induction false} CommonLispPrinted(raw: Text, base: Descriptor, upper: Text -> Text)
    requires base.raw == base.name == raw && base.qualifier.None? && base.separator.None?
    requires DescribeCommonLisp(raw, base, upper).renameable
    ensures Printed(DescribeCommonLisp(raw, base, upper))
  {
    if Find(raw, [COLON, COLON]).Some? {
      CutAt(raw, [COLON, COLON], Find(raw, [COLON, COLON]).value);
    } else if Find(raw, [COLON]).Some? {
      CutAt(raw, [COLON], Find(raw, [COLON]).value);
    }
  }

  /** Printing what was parsed gives the symbol back. */
  lemma {:induction false} ReconstructDescribed(raw: Text, language: Language, upper: Text -> Text)
    requires ValidSymbol(raw) && Describe(raw, language, upper).value.renameable
    ensures var d := Describe(raw, language, upper).value;
            d.raw == raw && Printed(d) && Reconstruct(d, d.name) == raw
  {
    var base := Base(raw, language, upper);
    if language == Clojure {
      ClojurePrinted(raw, base);
    } else if language == CommonLisp {
      CommonLispPrinted(raw, base, upper);
    }
  }

  /** A numeral holds only digits, one dot and a sign. */
  lemma {:induction false} NumeralUnits(t: Text, i: nat)
    requires IsNumeral(t) && i < |t|
    ensures IsDigit(t[i]) || t[i] == DOT || t[i] == PLUS || t[i] == MINUS
  {
    var signed := t[0] == PLUS || t[0] == MINUS;
    var body := if signed then t[1..] else t;
    var n := DigitRun(body);
    DigitRunUnits(body);
    if !(signed && i == 0) {
      var j := if signed then i - 1 else i;
      assert body[j] == t[i];
      if j < n { assert body[..n][j] == body[j]; }
      if n == 0 {
        if j > 0 { assert body[1..][j - 1] == body[j]; }
      } else if j > n {
        assert body[n + 1..][j - n - 1] == body[j];
      }
    }
  }

  predicate IsSeparator(language: Language, kind: SymbolKind, sep: Text) {
    || (language == Clojure && kind == QualifiedSymbol && sep == [SLASH])
    || (language == CommonLisp && kind == InternalSymbol && sep == [COLON, COLON])
    || (language == CommonLisp && kind == ExternalSymbol && sep == [COLON])
  }

  /** Two valid names joined by a separator form a valid name, if it is not too long. */
  lemma {:induction false} JoinedValid(q: Text, sep: Text, leaf: Text)
    requires (sep == [SLASH] || sep == [COLON] || sep == [COLON, COLON]) && leaf != []
    requires (forall i | 0 <= i < |q| :: IsConstituent(q[i])) && (forall i | 0 <= i < |leaf| :: IsConstituent(leaf[i]))
    ensures ValidSymbol(q + sep + leaf) <==> |q + sep + leaf| <= 256
  {
    var joined := q + sep + leaf;
    assert joined[|q|] == sep[0];
    if IsNumeral(joined) { NumeralUnits(joined, |q|); }
    assert forall i | 0 <= i < |sep| :: IsConstituent(sep[i]);
  }

  /** What may stand in front of a separator. */
  ghost predicate GoodQualifier(q: Text, sep: Text) {
    && q != [] && q[0] != COLON
    && (sep == [SLASH] ==> q[0] != HASH && SLASH !in q)
    && (sep != [SLASH] ==> q != [HASH] && !StartsAt(q, [HASH, COLON], 0))
    && (sep == [COLON] ==> COLON !in q)
    && (sep == [COLON, COLON] ==> forall i | 0 <= i < |q| :: !StartsAt(q + sep, sep, i))
  }

  lemma {:induction false} NoUnitBefore(t: Text, u: CodeUnit, at: nat)
    requires at <= |t| && forall i | 0 <= i < at :: !StartsAt(t, [u], i)
    ensures u !in t[..at]
  {
    forall i | 0 <= i < at ensures t[i] != u { StartsAtUnit(t, u, i); }
  }

  lemma {:induction false} ClojureQualifier(raw: Text, base: Descriptor)
    requires base.qualifier.None?
    requires DescribeClojure(raw, base).renameable && DescribeClojure(raw, base).qualifier.Some?
    ensures var d := DescribeClojure(raw, base);
            d.kind == QualifiedSymbol && d.separator == Some([SLASH]) && GoodQualifier(d.qualifier.value, [SLASH])
            && d.name != [] && d.identity == base.identity
  {
    StartsAtUnit(raw, COLON, 0);
    StartsAtUnit(raw, HASH, 0);
    NoUnitBefore(raw, SLASH, Find(raw, [SLASH]).value);
  }

  lemma {:induction false} CommonLispQualifier(raw: Text, base: Descriptor, upper: Text -> Text)
    requires base.qualifier.None?
    requires var d := DescribeCommonLisp(raw, base, upper); d.renameable && d.qualifier.Some?
    ensures var d := DescribeCommonLisp(raw, base, upper);
            && d.separator.Some? && IsSeparator(CommonLisp, d.kind, d.separator.value)
            && GoodQualifier(d.qualifier.value, d.separator.value) && d.name != []
            && d.identity == upper(d.qualifier.value) + d.separator.value + upper(d.name)
  {
    var d := DescribeCommonLisp(raw, base, upper);
    var q, sep := d.qualifier.value, d.separator.value;
    CutAt(raw, sep, |q|);
    StartsAtUnit(raw, COLON, 0);
    assert raw[|q|] == COLON;
    StartsAtPair(q, HASH, COLON, 0);
    StartsAtPair(raw, HASH, COLON, 0);
    if sep == [COLON] {
      NoUnitBefore(raw, COLON, |q|);
    } else {
      NoPairBefore(raw, q);
    }
  }

  lemma {:induction false} NoPairBefore(raw: Text, q: Text)
    requires |q| < |raw| && raw[..|q|] == q && raw[|q|] == COLON
    requires forall i | 0 <= i < |q| :: !StartsAt(raw, [COLON, COLON], i)
    ensures forall i | 0 <= i < |q| :: !StartsAt(q + [COLON, COLON], [COLON, COLON], i)
  {
    var t := q + [COLON, COLON];
    forall i | 0 <= i < |q| ensures !StartsAt(t, [COLON, COLON], i) {
      StartsAtPair(t, COLON, COLON, i);
      StartsAtPair(raw, COLON, COLON, i);
      assert t[i] == raw[i] && t[i + 1] == raw[i + 1];
    }
  }

  /** What the qualified forms look like. */
  lemma {:induction false} QualifiedParts(raw: Text, language: Language, upper: Text -> Text)
    requires ValidSymbol(raw)
    requires var d := Describe(raw, language, upper).value; d.renameable && d.qualifier.Some?
    ensures var d := Describe(raw, language, upper).value;
            && d.separator.Some? && IsSeparator(language, d.kind, d.separator.value)
            && GoodQualifier(d.qualifier.value, d.separator.value) && d.name != []
            && d.identity == (if language == CommonLisp then upper(d.qualifier.value) + d.separator.value + upper(d.name) else raw)
  {
    var base := Base(raw, language, upper);
    if language == Clojure {
      ClojureQualifier(raw, base);
    } else if language == CommonLisp {
      CommonLispQualifier(raw, base, upper);
    }
  }

  lemma {:induction false} PlainUnits(leaf: Text, language: Language, upper: Text -> Text)
    requires ValidSymbol(leaf) && (language == Clojure || language == CommonLisp)
    requires var d := Describe(leaf, language, upper).value; d.renameable && d.qualifier.None?
    ensures language == Clojure ==> leaf == [SLASH] || SLASH !in leaf
    ensures language == CommonLisp ==> COLON !in leaf
  {
    if SLASH in leaf {
      var i :| 0 <= i < |leaf| && leaf[i] == SLASH;
      StartsAtUnit(leaf, SLASH, i);
    }
    if COLON in leaf {
      var i :| 0 <= i < |leaf| && leaf[i] == COLON;
      StartsAtUnit(leaf, COLON, i);
    }
  }

  /** A pattern with a single place is found there, from either end. */
  lemma {:induction false} OnlyPlace(t: Text, pattern: Text, at: nat)
    requires at <= |t| && forall i | 0 <= i <= |t| :: StartsAt(t, pattern, i) <==> i == at
    ensures Find(t, pattern) == Some(at) && FindLast(t, pattern) == Some(at)
  {
    assert StartsAt(t, pattern, at);
  }

  lemma {:induction false} ClojureJoined(q: Text, leaf: Text, base: Descriptor)
    requires GoodQualifier(q, [SLASH]) && leaf != [] && SLASH !in leaf
    ensures DescribeClojure(q + [SLASH] + leaf, base)
         == base.(kind := QualifiedSymbol, qualifier := Some(q), separator := Some([SLASH]), name := leaf)
  {
    var raw := q + [SLASH] + leaf;
    assert raw[0] == q[0];
    forall i | 0 <= i <= |raw| ensures StartsAt(raw, [SLASH], i) <==> i == |q| {
      StartsAtUnit(raw, SLASH, i);
    }
    OnlyPlace(raw, [SLASH], |q|);
    StartsAtUnit(raw, COLON, 0);
    StartsAtUnit(raw, HASH, 0);
    StartsAtPair(raw, COLON, COLON, 0);
    assert raw[..|q|] == q && raw[|q| + 1..] == leaf;
  }

  lemma {:induction false} NotUninterned(q: Text, sep: Text, leaf: Text)
    requires GoodQualifier(q, sep) && sep != [SLASH]
    ensures !StartsAt(q + sep + leaf, [HASH, COLON], 0) && !StartsAt(q + sep + leaf, [COLON], 0)
  {
    var raw := q + sep + leaf;
    StartsAtUnit(raw, COLON, 0);
    assert raw[0] == q[0];
    StartsAtPair(raw, HASH, COLON, 0);
    StartsAtPair(q, HASH, COLON, 0);
  }

  lemma {:induction false} InternalJoined(q: Text, leaf: Text, base: Descriptor, upper: Text -> Text)
    requires GoodQualifier(q, [COLON, COLON]) && leaf != [] && COLON !in leaf
    ensures DescribeCommonLisp(q + [COLON, COLON] + leaf, base, upper)
         == base.(kind := InternalSymbol, qualifier := Some(q), separator := Some([COLON, COLON]), name := leaf,
                  identity := upper(q) + [COLON, COLON] + upper(leaf))
  {
    var sep := [COLON, COLON];
    var raw := q + sep + leaf;
    NotUninterned(q, sep, leaf);
    assert raw[|q|..|q| + 2] == sep;
    forall i | 0 <= i <= |raw| ensures StartsAt(raw, sep, i) <==> i == |q| {
      StartsAtPair(raw, COLON, COLON, i);
      if i < |q| {
        StartsAtPair(q + sep, COLON, COLON, i);
        assert !StartsAt(q + sep, sep, i);
      } else if i > |q| && i + 1 < |raw| {
        assert raw[i + 1] == leaf[i - 1 - |q|];
      }
    }
    OnlyPlace(raw, sep, |q|);
    assert raw[..|q|] == q && raw[|q| + 2..] == leaf;
  }

  lemma {:induction false} ExternalJoined(q: Text, leaf: Text, base: Descriptor, upper: Text -> Text)
    requires GoodQualifier(q, [COLON]) && leaf != [] && COLON !in leaf
    ensures DescribeCommonLisp(q + [COLON] + leaf, base, upper)
         == base.(kind := ExternalSymbol, qualifier := Some(q), separator := Some([COLON]), name := leaf,
                  identity := upper(q) + [COLON] + upper(leaf))
  {
    var raw := q + [COLON] + leaf;
    NotUninterned(q, [COLON], leaf);
    forall i | 0 <= i <= |raw| ensures StartsAt(raw, [COLON], i) <==> i == |q| {
      StartsAtUnit(raw, COLON, i);
    }
    OnlyPlace(raw, [COLON], |q|);
    forall i | 0 <= i <= |raw| ensures !StartsAt(raw, [COLON, COLON], i) {
      StartsAtPair(raw, COLON, COLON, i);
      StartsAtUnit(raw, COLON, i);
      StartsAtUnit(raw, COLON, i + 1);
    }
    assert raw[..|q|] == q && raw[|q| + 1..] == leaf;
  }

  /** A qualified descriptor differs from the plain one in its kind, its parts and its identity only. */
  lemma {:induction false} QualifiedShape(raw: Text, language: Language, upper: Text -> Text)
    requires ValidSymbol(raw)
    requires var d := Describe(raw, language, upper).value; d.renameable && d.qualifier.Some?
    ensures var d := Describe(raw, language, upper).value;
            d == Descriptor(raw, d.kind, d.qualifier, d.separator, d.name, false, true, d.identity)
  {}

  lemma {:induction false} JoinedDescribed(q: Text, sep: Text, kind: SymbolKind, leaf: Text, joined: Text, language: Language,
                                           upper: Text -> Text)
    requires IsSeparator(language, kind, sep) && GoodQualifier(q, sep) && leaf != []
    requires (language == Clojure ==> SLASH !in leaf) && (language == CommonLisp ==> COLON !in leaf)
    requires joined == q + sep + leaf && ValidSymbol(joined) && BAR !in joined && BACKSLASH !in joined
    ensures Describe(joined, language, upper)
         == Some(Descriptor(joined, kind, Some(q), Some(sep), leaf, false, true,
                            if language == CommonLisp then upper(q) + sep + upper(leaf) else joined))
  {
    var base := Base(joined, language, upper);
    if language == Clojure {
      ClojureJoined(q, leaf, base);
    } else if kind == InternalSymbol {
      InternalJoined(q, leaf, base, upper);
    } else {
      ExternalJoined(q, leaf, base, upper);
    }
  }

  /** Parsing what was printed: the qualification comes back, with the new leaf. */
  lemma {:induction false} DescribeReconstructed(raw: Text, leaf: Text, language: Language, upper: Text -> Text)
    requires ValidSymbol(raw) && ValidSymbol(leaf)
    requires var d := Describe(raw, language, upper).value; d.renameable && d.qualifier.Some?
    requires var d := Describe(leaf, language, upper).value; d.renameable && d.qualifier.None?
    requires leaf != [SLASH] || language != Clojure
    ensures var d := Describe(raw, language, upper).value;
            var joined := Reconstruct(d, leaf);
            && joined == d.qualifier.value + d.separator.value + leaf
            && (ValidSymbol(joined) <==> |joined| <= 256)
            && (ValidSymbol(joined) ==>
                  Describe(joined, language, upper)
                  == Some(d.(raw := joined, name := leaf,
                             identity := if language == CommonLisp
                                         then upper(d.qualifier.value) + d.separator.value + upper(leaf) else joined)))
  {
    var d := Describe(raw, language, upper).value;
    QualifiedParts(raw, language, upper);
    QualifiedShape(raw, language, upper);
    ReconstructDescribed(raw, language, upper);
    var q, sep := d.qualifier.value, d.separator.value;
    var joined := q + sep + leaf;
    assert forall i | 0 <= i < |q| :: q[i] == raw[i];
    JoinedValid(q, sep, leaf);
    PlainUnits(leaf, language, upper);
    assert BAR !in joined && BACKSLASH !in joined;
    if ValidSymbol(joined) { JoinedDescribed(q, sep, d.kind, leaf, joined, language, upper); }
  }

  // ---------------------------------------------------------------- what acceptance promises

  /** An accepted rename writes a name that is safe to print and to look for. */
  lemma {:induction false} AcceptedNames(oldSymbol: Text, newSymbol: Text, language: Language, asked: Option<Policy>,
                                         upper: Text -> Text)
    requires PrepareSymbolRename(oldSymbol, newSymbol, language, asked, upper).Accepted?
    ensures var r := PrepareSymbolRename(oldSymbol, newSymbol, language, asked, upper);
            && ValidTarget(oldSymbol) && ValidTarget(r.effective) && r.effective != oldSymbol
            && r.target.identity != r.current.identity
            && Describe(oldSymbol, language, upper) == Some(r.current) && Describe(r.effective, language, upper) == Some(r.target)
            && (r.policy != Exact ==>
                  && r.target.kind == r.current.kind && r.target.separator == r.current.separator
                  && FoldQualifier(language, r.target.qualifier, upper) == FoldQualifier(language, r.current.qualifier, upper)
                  && Reconstruct(r.target, r.target.name) == r.effective
                  && Reconstruct(r.current, r.current.name) == oldSymbol)
  {
    var r := PrepareSymbolRename(oldSymbol, newSymbol, language, asked, upper);
    ReconstructDescribed(oldSymbol, language, upper);
    ReconstructDescribed(r.effective, language, upper);
  }

  /** The policy that applies when none is asked for. */
  lemma {:induction false} Unasked(oldSymbol: Text, newSymbol: Text, language: Language, upper: Text -> Text)
    ensures PrepareSymbolRename(oldSymbol, newSymbol, language, None, upper)
         == PrepareSymbolRename(oldSymbol, newSymbol, language,
                                Some(if language == Clojure || language == CommonLisp then PreserveQualification else Exact), upper)
  {}

  lemma {:induction false} NameAsGiven(oldSymbol: Text, newSymbol: Text, language: Language, policy: Policy, upper: Text -> Text,
                                       r: Outcome)
    requires policy != LeafOnly && r == PrepareSymbolRename(oldSymbol, newSymbol, language, Some(policy), upper) && r.Accepted?
    ensures r.policy == policy && r.effective == newSymbol && r.target == r.requested
  {
    var current, requested := Describe(oldSymbol, language, upper), Describe(newSymbol, language, upper);
    assert requested.Some? && current.Some? && EffectiveName(policy, current.value, requested.value) == newSymbol;
  }

  lemma {:induction false} PlainIsRenameable(raw: Text, language: Language, upper: Text -> Text)
    requires language == Generic || language == Elisp
    ensures ValidTarget(raw) && BACKSLASH !in raw && raw[0] != COLON
            <==> Describe(raw, language, upper).Some? && Describe(raw, language, upper).value.renameable
    ensures Describe(raw, language, upper).Some? ==> Describe(raw, language, upper).value.identity == raw
  {
    StartsAtUnit(raw, COLON, 0);
  }

  /** Without packages or namespaces every pair of different plain names is accepted, and the new one is written as given. */
  lemma {:induction false} UnaskedIsExact(oldSymbol: Text, newSymbol: Text, language: Language, upper: Text -> Text)
    requires language == Generic || language == Elisp
    ensures var r := PrepareSymbolRename(oldSymbol, newSymbol, language, None, upper);
            && (r.Accepted? <==>
                  && ValidTarget(oldSymbol) && BACKSLASH !in oldSymbol && oldSymbol[0] != COLON
                  && ValidTarget(newSymbol) && BACKSLASH !in newSymbol && newSymbol[0] != COLON && oldSymbol != newSymbol)
            && (r.Accepted? ==> r.effective == newSymbol)
  {
    PlainIsRenameable(oldSymbol, language, upper);
    PlainIsRenameable(newSymbol, language, upper);
  }

  /** In the other languages the package or namespace stays unless something else is asked for, and the name is as given. */
  lemma {:induction false} UnaskedPreserves(oldSymbol: Text, newSymbol: Text, language: Language, upper: Text -> Text)
    requires language == Clojure || language == CommonLisp
    requires PrepareSymbolRename(oldSymbol, newSymbol, language, None, upper).Accepted?
    ensures var r := PrepareSymbolRename(oldSymbol, newSymbol, language, None, upper);
            && r.effective == newSymbol && r.target == r.requested
            && r.target.kind == r.current.kind && r.target.separator == r.current.separator
            && FoldQualifier(language, r.target.qualifier, upper) == FoldQualifier(language, r.current.qualifier, upper)
  {
    Unasked(oldSymbol, newSymbol, language, upper);
    NameAsGiven(oldSymbol, newSymbol, language, PreserveQualification, upper,
                PrepareSymbolRename(oldSymbol, newSymbol, language, None, upper));
    AcceptedNames(oldSymbol, newSymbol, language, Some(PreserveQualification), upper);
  }

  /** What happens to a bare leaf under `leaf_only`, in terms of the joined name. */
  lemma {:induction false} LeafOnlyOutcome(oldSymbol: Text, leaf: Text, language: Language, upper: Text -> Text)
    requires (language == Clojure || language == CommonLisp) && ValidSymbol(oldSymbol) && ValidSymbol(leaf)
    requires var d := Describe(oldSymbol, language, upper).value; d.renameable && d.qualifier.Some?
    requires var d := Describe(leaf, language, upper).value; d.renameable && d.qualifier.None?
    ensures var d := Describe(oldSymbol, language, upper).value;
            var joined := Reconstruct(d, leaf);
            var e := Describe(joined, language, upper);
            EffectiveName(LeafOnly, d, Describe(leaf, language, upper).value) == joined
            && PrepareSymbolRename(oldSymbol, leaf, language, Some(LeafOnly), upper)
               == (match e
                   case None => Rejected(InvalidName)
                   case Some(target) =>
                     if !target.renameable then Rejected(NewNotRenameable)
                     else if d.identity == target.identity then Rejected(IdentityUnchanged)
                     else if d.kind != target.kind || d.separator != target.separator
                             || FoldQualifier(language, d.qualifier, upper) != FoldQualifier(language, target.qualifier, upper)
                     then Rejected(QualificationChange)
                     else Accepted(LeafOnly, d, Describe(leaf, language, upper).value, target, joined))
  {
    ReconstructDescribed(oldSymbol, language, upper);
    ReconstructDescribed(leaf, language, upper);
  }

  lemma {:induction false} SlashLeafRejected(oldSymbol: Text, upper: Text -> Text)
    requires ValidSymbol(oldSymbol)
    requires var d := Describe(oldSymbol, Clojure, upper).value; d.renameable && d.qualifier.Some?
    ensures var d := Describe(oldSymbol, Clojure, upper).value;
            var e := Describe(Reconstruct(d, [SLASH]), Clojure, upper);
            e.None? || !e.value.renameable
  {
    var d := Describe(oldSymbol, Clojure, upper).value;
    QualifiedParts(oldSymbol, Clojure, upper);
    var joined := d.qualifier.value + [SLASH] + [SLASH];
    SlashLeafInvalid(d.qualifier.value, Base(joined, Clojure, upper));
  }

  /**
   Under `leaf_only` a bare new name replaces the leaf of a qualified symbol exactly when the
   result is short enough and, up to the language's idea of case, another leaf.
   */
  lemma {:induction false} LeafOnlyAccepts(oldSymbol: Text, leaf: Text, language: Language, upper: Text -> Text)
    requires (language == Clojure || language == CommonLisp) && ValidSymbol(oldSymbol) && ValidSymbol(leaf)
    requires var d := Describe(oldSymbol, language, upper).value; d.renameable && d.qualifier.Some?
    requires var d := Describe(leaf, language, upper).value; d.renameable && d.qualifier.None?
    ensures var d := Describe(oldSymbol, language, upper).value;
            var joined := d.qualifier.value + d.separator.value + leaf;
            var r := PrepareSymbolRename(oldSymbol, leaf, language, Some(LeafOnly), upper);
            && (r.Accepted? <==>
                  && |joined| <= 256
                  && (language == Clojure ==> leaf != [SLASH])
                  && Fold(language, leaf, upper) != Fold(language, d.name, upper))
            && (r.Accepted? ==> r.effective == joined && r.target.qualifier == r.current.qualifier && r.target.name == leaf)
  {
    var d := Describe(oldSymbol, language, upper).value;
    LeafOnlyOutcome(oldSymbol, leaf, language, upper);
    QualifiedParts(oldSymbol, language, upper);
    ReconstructDescribed(oldSymbol, language, upper);
    if language == Clojure && leaf == [SLASH] {
      SlashLeafRejected(oldSymbol, upper);
    } else {
      DescribeReconstructed(oldSymbol, leaf, language, upper);
      var q := if language == CommonLisp then upper(d.qualifier.value) else d.qualifier.value;
      SamePrefix(q + d.separator.value, Fold(language, d.name, upper), Fold(language, leaf, upper));
    }
  }

  lemma {:induction false} SamePrefix(p: Text, a: Text, b: Text)
    ensures p + a == p + b <==> a == b
  {
    assert (p + a)[|p|..] == a && (p + b)[|p|..] == b;
  }

  lemma {:induction false} SlashLeafInvalid(q: Text, base: Descriptor)
    requires GoodQualifier(q, [SLASH])
    ensures DescribeClojure(q + [SLASH] + [SLASH], base) == base.(kind := InvalidQualifiedSymbol, renameable := false)
  {
    var raw := q + [SLASH] + [SLASH];
    StartsAtUnit(raw, COLON, 0);
    StartsAtUnit(raw, HASH, 0);
    StartsAtPair(raw, COLON, COLON, 0);
    assert raw[0] == q[0];
    assert StartsAt(raw, [SLASH], |q|) && StartsAt(raw, [SLASH], |q| + 1) by {
      StartsAtUnit(raw, SLASH, |q|);
      StartsAtUnit(raw, SLASH, |q| + 1);
    }
  }
}
