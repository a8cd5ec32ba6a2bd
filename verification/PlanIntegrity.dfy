/**
 A plan id fixes the plan: the body is hashed in canonical JSON, and canonical JSON is
 unambiguous.
 */
module PlanIntegrity {
  import opened CodeUnits
  import opened Decimal
  import opened CanonicalJson
  import LispLexer
  import opened ProjectRename
  import opened RenameLexing
  import RenameText
  import opened SymbolSemantics
  import opened Wrappers

  // ---------------------------------------------------------------- texts of names and numbers

  function Int(n: int): Json { Number(IntText(n)) }

  function Optional(t: Option<Text>): Json { if t.Some? then Str(t.value) else Null }

  function LanguageName(language: Language): Text {
    match language
    case Generic => Ascii("generic")
    case Elisp => Ascii("elisp")
    case Clojure => Ascii("clojure")
    case CommonLisp => Ascii("common_lisp")
  }

  function PolicyName(policy: Policy): Text {
    match policy
    case Exact => Ascii("exact")
    case PreserveQualification => Ascii("preserve_qualification")
    case LeafOnly => Ascii("leaf_only")
  }

  function KindName(kind: SymbolKind): (t: Text)
    ensures |t| == KindLength(kind)
  {
    match kind
    case PlainSymbol => Ascii("plain_symbol")
    case EscapedSymbol => Ascii("escaped_or_reader_sensitive")
    case Keyword => Ascii("keyword")
    case QualifiedKeyword => Ascii("qualified_keyword")
    case ReaderSensitive => Ascii("reader_sensitive")
    case QualifiedSymbol => Ascii("qualified_symbol")
    case AutoGensym => Ascii("auto_gensym_symbol")
    case _ => LongKindName(kind)
  }

  function LongKindName(kind: SymbolKind): Text {
    match kind
    case AutoResolvedKeyword => Ascii("auto_resolved_") + Ascii("keyword")
    case AutoResolvedQualifiedKeyword => Ascii("auto_resolved_") + Ascii("qualified_keyword")
    case InvalidQualifiedSymbol => Ascii("invalid_") + Ascii("qualified_symbol")
    case UninternedSymbol => Ascii("uninterned_symbol")
    case _ => PackageKindName(kind)
  }

  function PackageKindName(kind: SymbolKind): Text {
    match kind
    case InvalidPackageSymbol => Ascii("invalid_") + Ascii("package_symbol")
    case InternalSymbol => Ascii("package_") + Ascii("internal_symbol")
    case _ => Ascii("package_") + Ascii("external_symbol")
  }

  function KindLength(kind: SymbolKind): nat {
    match kind
    case PlainSymbol => 12
    case EscapedSymbol => 27
    case Keyword => 7
    case QualifiedKeyword => 17
    case AutoResolvedKeyword => 21
    case AutoResolvedQualifiedKeyword => 31
    case ReaderSensitive => 16
    case QualifiedSymbol => 16
    case InvalidQualifiedSymbol => 24
    case AutoGensym => 18
    case UninternedSymbol => 17
    case InvalidPackageSymbol => 22
    case InternalSymbol => 23
    case ExternalSymbol => 23
  }

  function DiagnosticCode(d: LispLexer.Diagnostic): Text {
    match d
    case UnterminatedBlockComment(_) => Ascii("unterminated_block_comment")
    case UnterminatedString(_) => Ascii("unterminated_string")
    case ReaderDiscardFound(_) => Ascii("reader_discard_requires_") + Ascii("conservative_analysis")
  }

  // ---------------------------------------------------------------- the body as JSON

  /** An object with the given keys and values, in this order. */
  function Object(keys: seq<Text>, values: seq<Json>): Json
    requires |keys| == |values|
  {
    Obj(Fields(keys, values))
  }

  function Fields(keys: seq<Text>, values: seq<Json>): (ms: seq<Member>)
    requires |keys| == |values|
    ensures |ms| == |keys| && forall i | 0 <= i < |ms| :: ms[i] == Member(keys[i], Some(values[i]))
  {
    if keys == [] then [] else [Member(keys[0], Some(values[0]))] + Fields(keys[1..], values[1..])
  }

  function EditKeys(): (r: seq<Text>)
    ensures |r| == 6
  {
    [Ascii("start"), Ascii("end"), Ascii("line"), Ascii("column"), Ascii("old_text"), Ascii("new_text")]
  }

  function EditValues(e: Edit): seq<Json> {
    [Int(e.start), Int(e.end), Int(e.line), Int(e.column), Str(e.oldText), Str(e.newText)]
  }

  function EditJson(e: Edit): Json { Object(EditKeys(), EditValues(e)) }

  function EditsJson(es: seq<Edit>): (r: seq<Option<Json>>)
    ensures |r| == |es| && forall i | 0 <= i < |r| :: r[i] == Some(EditJson(es[i]))
  {
    if es == [] then [] else [Some(EditJson(es[0]))] + EditsJson(es[1..])
  }

  function DiagnosticKeys(): (r: seq<Text>)
    ensures |r| == 2
  {
    [Ascii("code"), Ascii("offset")]
  }

  function DiagnosticJson(d: LispLexer.Diagnostic): Json {
    Object(DiagnosticKeys(), [Str(DiagnosticCode(d)), Int(d.offset)])
  }

  function DiagnosticsJson(ds: seq<LispLexer.Diagnostic>): (r: seq<Option<Json>>)
    ensures |r| == |ds| && forall i | 0 <= i < |r| :: r[i] == Some(DiagnosticJson(ds[i]))
  {
    if ds == [] then [] else [Some(DiagnosticJson(ds[0]))] + DiagnosticsJson(ds[1..])
  }

  function FileKeys(): (r: seq<Text>)
    ensures |r| == 5
  {
    [Ascii("path"), Ascii("sha256"), Ascii("bytes"), Ascii("edits"), Ascii("diagnostics")]
  }

  function FileValues(f: FileEdits): seq<Json> {
    [Str(f.path), Str(f.digest), Int(f.bytes), Arr(EditsJson(f.edits)), Arr(DiagnosticsJson(f.diagnostics))]
  }

  function FileJson(f: FileEdits): Json { Object(FileKeys(), FileValues(f)) }

  function FilesJson(fs: seq<FileEdits>): (r: seq<Option<Json>>)
    ensures |r| == |fs| && forall i | 0 <= i < |r| :: r[i] == Some(FileJson(fs[i]))
  {
    if fs == [] then [] else [Some(FileJson(fs[0]))] + FilesJson(fs[1..])
  }

  /** The reason why a symbol cannot be renamed, which its kind tells. */
  function Reason(d: Descriptor): Json {
    if d.renameable then Null else Str(ReasonText(d.kind))
  }

  function ReasonText(kind: SymbolKind): Text {
    match kind
    case EscapedSymbol => Ascii("escaped_symbol_requires_") + Ascii("reader_aware_backend")
    case ReaderSensitive => Ascii("reader_prefixed_symbol_") + Ascii("requires_clojure_reader")
    case AutoGensym => Ascii("auto_gensym_is_reader_scoped")
    case InvalidQualifiedSymbol => QualificationReason(true)
    case InvalidPackageSymbol => QualificationReason(false)
    case UninternedSymbol => UninternedReason()
    case AutoResolvedKeyword => KeywordReason(true)
    case AutoResolvedQualifiedKeyword => KeywordReason(true)
    case _ => KeywordReason(false)
  }

  function QualificationReason(clojure: bool): Text {
    (if clojure then Ascii("invalid_clojure_namespace_") else Ascii("invalid_common_lisp_package_")) + Ascii("qualification")
  }

  function UninternedReason(): Text {
    Ascii("uninterned_symbol_has_no_") + Ascii("stable_project_identity")
  }

  function KeywordReason(autoResolved: bool): Text {
    if autoResolved then Ascii("auto_resolved_keyword_") + Ascii("depends_on_namespace_context")
    else Ascii("keyword_rename_requires_") + Ascii("explicit_data_migration")
  }

  function SymbolKeys(): (r: seq<Text>)
    ensures |r| == 10
  {
    [Ascii("raw"), Ascii("language"), Ascii("kind"), Ascii("qualifier"), Ascii("separator")]
    + [Ascii("name"), Ascii("keyword"), Ascii("renameable"), Ascii("reason"), Ascii("normalized_identity")]
  }

  function SymbolValues(d: Descriptor, language: Language): seq<Json> {
    [Str(d.raw), Str(LanguageName(language)), Str(KindName(d.kind)), Optional(d.qualifier), Optional(d.separator),
     Str(d.name), Bool(d.keyword), Bool(d.renameable), Reason(d), Str(d.identity)]
  }

  function SymbolJson(d: Descriptor, language: Language): Json { Object(SymbolKeys(), SymbolValues(d, language)) }

  function SemanticsKeys(): (r: seq<Text>)
    ensures |r| == 2
  {
    [Ascii("old"), Ascii("new")]
  }

  function SemanticsJson(current: Descriptor, target: Descriptor, language: Language): Json {
    Object(SemanticsKeys(), [SymbolJson(current, language), SymbolJson(target, language)])
  }

  function LimitsKeys(): (r: seq<Text>)
    ensures |r| == 3
  {
    [Ascii("max_files"), Ascii("max_bytes"), Ascii("max_edits")]
  }

  function LimitsJson(l: Limits): Json {
    Object(LimitsKeys(), [Int(l.maxFiles), Int(l.maxBytes), Int(l.maxEdits)])
  }

  function FirstBodyKeys(): (r: seq<Text>)
    ensures |r| == 6
  {
    [Ascii("version"), Ascii("kind"), Ascii("root"), Ascii("language"), Ascii("qualification_policy"), Ascii("old_symbol")]
  }

  function LastBodyKeys(): (r: seq<Text>)
    ensures |r| == 6
  {
    [Ascii("requested_new_symbol"), Ascii("new_symbol"), Ascii("symbol_semantics"), Ascii("files"), Ascii("total_edits"), Ascii("limits")]
  }

  function BodyKeys(): (r: seq<Text>)
    ensures |r| == 12
  {
    FirstBodyKeys() + LastBodyKeys()
  }

  function BodyValues(b: PlanBody): seq<Json> {
    [Int(b.version), Str(b.kind), Str(b.root), Str(LanguageName(b.language)), Str(PolicyName(b.policy)), Str(b.oldSymbol),
     Str(b.requestedNewSymbol), Str(b.newSymbol), SemanticsJson(b.current, b.target, b.language), Arr(FilesJson(b.files)),
     Int(b.totalEdits), LimitsJson(b.limits)]
  }

  function BodyJson(b: PlanBody): Json { Object(BodyKeys(), BodyValues(b)) }

  // ---------------------------------------------------------------- well-formedness

  lemma {:induction false} IntWellFormed(n: int)
    ensures WellFormed(Int(n))
  {
    var t := IntText(n);
    forall i | 0 <= i < |t| ensures IsNumberUnit(t[i]) {
      if n < 0 && i > 0 { assert t[i] == Digits(-n)[i - 1]; }
    }
  }

  ghost predicate Apart(keys: seq<Text>) {
    forall i, j | 0 <= i < j < |keys| :: keys[i] != keys[j]
  }

  ghost predicate AllWellFormed(values: seq<Json>) {
    forall i | 0 <= i < |values| :: WellFormed(values[i])
  }

  lemma {:induction false} ObjectWellFormed(keys: seq<Text>, values: seq<Json>)
    requires |keys| == |values| && Apart(keys) && AllWellFormed(values)
    ensures WellFormed(Object(keys, values))
  {}

  lemma {:induction false} EditKeysApart()
    ensures Apart(EditKeys())
  {
    var k := EditKeys();
    assert |k[0]| == 5 && |k[1]| == 3 && |k[2]| == 4 && |k[3]| == 6 && |k[4]| == 8 && |k[5]| == 8 && k[4][0] != k[5][0];
  }

  lemma {:induction false} EditWellFormed(e: Edit)
    ensures AllWellFormed(EditValues(e)) && WellFormed(EditJson(e))
  {
    IntWellFormed(e.start);
    IntWellFormed(e.end);
    IntWellFormed(e.line);
    IntWellFormed(e.column);
    EditKeysApart();
    ObjectWellFormed(EditKeys(), EditValues(e));
  }

  lemma {:induction false} DiagnosticKeysApart()
    ensures Apart(DiagnosticKeys())
  {
    assert |DiagnosticKeys()[0]| == 4 && |DiagnosticKeys()[1]| == 6;
  }

  lemma {:induction false} DiagnosticWellFormed(d: LispLexer.Diagnostic)
    ensures WellFormed(DiagnosticJson(d))
  {
    IntWellFormed(d.offset);
    DiagnosticKeysApart();
    ObjectWellFormed(DiagnosticKeys(), [Str(DiagnosticCode(d)), Int(d.offset)]);
  }

  lemma {:induction false} FileKeysApart()
    ensures Apart(FileKeys())
  {
    var k := FileKeys();
    assert |k[0]| == 4 && |k[1]| == 6 && |k[2]| == 5 && |k[3]| == 5 && |k[4]| == 11 && k[2][0] != k[3][0];
  }

  lemma {:induction false} FileWellFormed(f: FileEdits)
    ensures AllWellFormed(FileValues(f)) && WellFormed(FileJson(f))
  {
    IntWellFormed(f.bytes);
    forall i | 0 <= i < |f.edits| ensures WellFormed(EditsJson(f.edits)[i].value) { EditWellFormed(f.edits[i]); }
    forall i | 0 <= i < |f.diagnostics| ensures WellFormed(DiagnosticsJson(f.diagnostics)[i].value) {
      DiagnosticWellFormed(f.diagnostics[i]);
    }
    assert WellFormed(Arr(EditsJson(f.edits))) && WellFormed(Arr(DiagnosticsJson(f.diagnostics)));
    FileKeysApart();
    ObjectWellFormed(FileKeys(), FileValues(f));
  }

  lemma {:induction false} SymbolKeysApart()
    ensures Apart(SymbolKeys())
  {
    var k := SymbolKeys();
    assert |k[0]| == 3 && |k[1]| == 8 && |k[2]| == 4 && |k[3]| == 9 && |k[4]| == 9;
    assert |k[5]| == 4 && |k[6]| == 7 && |k[7]| == 10 && |k[8]| == 6 && |k[9]| == 19;
    assert k[2][0] != k[5][0] && k[3][0] != k[4][0];
  }

  lemma {:induction false} SymbolWellFormed(d: Descriptor, language: Language)
    ensures AllWellFormed(SymbolValues(d, language)) && WellFormed(SymbolJson(d, language))
  {
    SymbolKeysApart();
    ObjectWellFormed(SymbolKeys(), SymbolValues(d, language));
  }

  lemma {:induction false} SemanticsWellFormed(current: Descriptor, target: Descriptor, language: Language)
    ensures Apart(SemanticsKeys()) && WellFormed(SemanticsJson(current, target, language))
  {
    SymbolWellFormed(current, language);
    SymbolWellFormed(target, language);
    assert SemanticsKeys()[0][0] != SemanticsKeys()[1][0];
    ObjectWellFormed(SemanticsKeys(), [SymbolJson(current, language), SymbolJson(target, language)]);
  }

  lemma {:induction false} LimitsWellFormed(l: Limits)
    ensures Apart(LimitsKeys()) && WellFormed(LimitsJson(l))
  {
    IntWellFormed(l.maxFiles);
    IntWellFormed(l.maxBytes);
    IntWellFormed(l.maxEdits);
    var k := LimitsKeys();
    assert k[0][4] != k[1][4] && k[0][4] != k[2][4] && k[1][4] != k[2][4];
    ObjectWellFormed(k, [Int(l.maxFiles), Int(l.maxBytes), Int(l.maxEdits)]);
  }

  lemma {:induction false} BodyKeysApart()
    ensures Apart(BodyKeys())
  {
    var k := BodyKeys();
    assert |k[0]| == 7 && |k[1]| == 4 && |k[2]| == 4 && |k[3]| == 8 && |k[4]| == 20 && |k[5]| == 10;
    assert |k[6]| == 20 && |k[7]| == 10 && |k[8]| == 16 && |k[9]| == 5 && |k[10]| == 11 && |k[11]| == 6;
    assert k[1][0] != k[2][0] && k[4][0] != k[6][0] && k[5][0] != k[7][0];
  }

  lemma {:induction false} FilesWellFormed(files: seq<FileEdits>)
    ensures WellFormed(Arr(FilesJson(files)))
  {
    forall i | 0 <= i < |files| ensures WellFormed(FilesJson(files)[i].value) { FileWellFormed(files[i]); }
  }

  lemma {:induction false} BodyWellFormed(b: PlanBody)
    ensures AllWellFormed(BodyValues(b)) && WellFormed(BodyJson(b))
  {
    IntWellFormed(b.version);
    IntWellFormed(b.totalEdits);
    SemanticsWellFormed(b.current, b.target, b.language);
    LimitsWellFormed(b.limits);
    FilesWellFormed(b.files);
    BodyKeysApart();
    ObjectWellFormed(BodyKeys(), BodyValues(b));
  }

  // ---------------------------------------------------------------- equal meanings, equal plans

  ghost predicate SameAt(v: seq<Json>, w: seq<Json>, i: nat) {
    i < |v| && i < |w| && Meaning(v[i]) == Meaning(w[i])
  }

  /** Objects with the same keys and the same meaning have the same meaning under every key. */
  lemma {:induction false} SameFields(keys: seq<Text>, v: seq<Json>, w: seq<Json>)
    requires |keys| == |v| == |w| && Apart(keys) && AllWellFormed(v) && AllWellFormed(w)
    requires Meaning(Object(keys, v)) == Meaning(Object(keys, w))
    ensures forall i | 0 <= i < |keys| :: SameAt(v, w, i)
  {
    var p := MeaningMembers(Fields(keys, v));
    forall i | 0 <= i < |keys| ensures SameAt(v, w, i) {
      FieldMeans(keys, v, p, i);
      FieldMeans(keys, w, p, i);
    }
  }

  lemma {:induction false} FieldMeans(keys: seq<Text>, values: seq<Json>, p: map<Text, Value>, i: nat)
    requires |keys| == |values| && Apart(keys) && i < |keys| && p == MeaningMembers(Fields(keys, values))
    ensures keys[i] in p && p[keys[i]] == Meaning(values[i])
  {
    var ms := Fields(keys, values);
    MeaningByKey(ms);
    assert ms[i] in SortedMembers(ms);
  }

  lemma {:induction false} LanguageInjective(a: Language, b: Language)
    requires LanguageName(a) == LanguageName(b)
    ensures a == b
  {
    assert |LanguageName(a)| == |LanguageName(b)| && LanguageName(a)[0] == LanguageName(b)[0];
  }

  lemma {:induction false} PolicyInjective(a: Policy, b: Policy)
    requires PolicyName(a) == PolicyName(b)
    ensures a == b
  {
    assert |PolicyName(a)| == |PolicyName(b)|;
  }

  /** The names of the kinds differ in length, in their first unit, or in their ninth. */
  lemma {:induction false} KindInjective(a: SymbolKind, b: SymbolKind)
    requires KindName(a) == KindName(b)
    ensures a == b
  {
    assert KindLength(a) == KindLength(b);
    assert KindName(QualifiedKeyword)[0] != KindName(UninternedSymbol)[0];
    assert KindName(ReaderSensitive)[0] != KindName(QualifiedSymbol)[0];
    assert KindName(InternalSymbol)[8] != KindName(ExternalSymbol)[8];
  }

  lemma {:induction false} EditInjective(a: Edit, b: Edit)
    requires Meaning(EditJson(a)) == Meaning(EditJson(b))
    ensures a == b
  {
    EditWellFormed(a);
    EditWellFormed(b);
    EditKeysApart();
    var v, w := EditValues(a), EditValues(b);
    SameFields(EditKeys(), v, w);
    assert SameAt(v, w, 0) && SameAt(v, w, 1) && SameAt(v, w, 2) && SameAt(v, w, 3) && SameAt(v, w, 4) && SameAt(v, w, 5);
    IntTextInjective(a.start, b.start);
    IntTextInjective(a.end, b.end);
    IntTextInjective(a.line, b.line);
    IntTextInjective(a.column, b.column);
  }

  lemma {:induction false} DiagnosticInjective(a: LispLexer.Diagnostic, b: LispLexer.Diagnostic)
    requires Meaning(DiagnosticJson(a)) == Meaning(DiagnosticJson(b))
    ensures a == b
  {
    IntWellFormed(a.offset);
    IntWellFormed(b.offset);
    DiagnosticKeysApart();
    var v, w := [Str(DiagnosticCode(a)), Int(a.offset)], [Str(DiagnosticCode(b)), Int(b.offset)];
    SameFields(DiagnosticKeys(), v, w);
    assert SameAt(v, w, 0) && SameAt(v, w, 1);
    IntTextInjective(a.offset, b.offset);
    assert |DiagnosticCode(a)| == |DiagnosticCode(b)|;
  }

  lemma {:induction false} SameEdits(a: seq<Edit>, b: seq<Edit>)
    requires Meaning(Arr(EditsJson(a))) == Meaning(Arr(EditsJson(b)))
    ensures a == b
  {
    var p, q := MeaningItems(EditsJson(a)), MeaningItems(EditsJson(b));
    assert p == q;
    forall i | 0 <= i < |a| ensures a[i] == b[i] {
      assert p[i] == q[i];
      EditInjective(a[i], b[i]);
    }
  }

  lemma {:induction false} SameDiagnostics(a: seq<LispLexer.Diagnostic>, b: seq<LispLexer.Diagnostic>)
    requires Meaning(Arr(DiagnosticsJson(a))) == Meaning(Arr(DiagnosticsJson(b)))
    ensures a == b
  {
    var p, q := MeaningItems(DiagnosticsJson(a)), MeaningItems(DiagnosticsJson(b));
    assert p == q;
    forall i | 0 <= i < |a| ensures a[i] == b[i] {
      assert p[i] == q[i];
      DiagnosticInjective(a[i], b[i]);
    }
  }

  lemma {:induction false} FileInjective(a: FileEdits, b: FileEdits)
    requires Meaning(FileJson(a)) == Meaning(FileJson(b))
    ensures a == b
  {
    FileWellFormed(a);
    FileWellFormed(b);
    FileKeysApart();
    var v, w := FileValues(a), FileValues(b);
    SameFields(FileKeys(), v, w);
    assert SameAt(v, w, 0) && SameAt(v, w, 1) && SameAt(v, w, 2) && SameAt(v, w, 3) && SameAt(v, w, 4);
    IntTextInjective(a.bytes, b.bytes);
    SameEdits(a.edits, b.edits);
    SameDiagnostics(a.diagnostics, b.diagnostics);
  }

  lemma {:induction false} SameFiles(a: seq<FileEdits>, b: seq<FileEdits>)
    requires Meaning(Arr(FilesJson(a))) == Meaning(Arr(FilesJson(b)))
    ensures a == b
  {
    var p, q := MeaningItems(FilesJson(a)), MeaningItems(FilesJson(b));
    assert p == q;
    forall i | 0 <= i < |a| ensures a[i] == b[i] {
      assert p[i] == q[i];
      FileInjective(a[i], b[i]);
    }
  }

  lemma {:induction false} SymbolInjective(a: Descriptor, b: Descriptor, l: Language, m: Language)
    requires Meaning(SymbolJson(a, l)) == Meaning(SymbolJson(b, m))
    ensures a == b
  {
    SymbolWellFormed(a, l);
    SymbolWellFormed(b, m);
    SymbolKeysApart();
    var v, w := SymbolValues(a, l), SymbolValues(b, m);
    SameFields(SymbolKeys(), v, w);
    SymbolAt(a, l, v);
    SymbolAt(b, m, w);
    assert SameAt(v, w, 0) && SameAt(v, w, 2) && SameAt(v, w, 3) && SameAt(v, w, 4);
    FirstOfSymbol(a, b, v, w);
    assert SameAt(v, w, 5) && SameAt(v, w, 6) && SameAt(v, w, 7) && SameAt(v, w, 9);
    LastOfSymbol(a, b, v, w);
  }

  ghost predicate FirstValues(d: Descriptor, v: seq<Json>) {
    |v| == 10 && v[0] == Str(d.raw) && v[2] == Str(KindName(d.kind)) && v[3] == Optional(d.qualifier) && v[4] == Optional(d.separator)
  }

  ghost predicate LastValues(d: Descriptor, v: seq<Json>) {
    |v| == 10 && v[5] == Str(d.name) && v[6] == Bool(d.keyword) && v[7] == Bool(d.renameable) && v[9] == Str(d.identity)
  }

  lemma {:induction false} SymbolAt(d: Descriptor, language: Language, v: seq<Json>)
    requires v == SymbolValues(d, language)
    ensures FirstValues(d, v) && LastValues(d, v)
  {}

  lemma {:induction false} FirstOfSymbol(a: Descriptor, b: Descriptor, v: seq<Json>, w: seq<Json>)
    requires FirstValues(a, v) && FirstValues(b, w)
    requires SameAt(v, w, 0) && SameAt(v, w, 2) && SameAt(v, w, 3) && SameAt(v, w, 4)
    ensures a.raw == b.raw && a.kind == b.kind && a.qualifier == b.qualifier && a.separator == b.separator
  {
    KindInjective(a.kind, b.kind);
  }

  lemma {:induction false} LastOfSymbol(a: Descriptor, b: Descriptor, v: seq<Json>, w: seq<Json>)
    requires LastValues(a, v) && LastValues(b, w)
    requires SameAt(v, w, 5) && SameAt(v, w, 6) && SameAt(v, w, 7) && SameAt(v, w, 9)
    ensures a.name == b.name && a.keyword == b.keyword && a.renameable == b.renameable && a.identity == b.identity
  {}

  lemma {:induction false} SemanticsInjective(a: PlanBody, b: PlanBody)
    requires Meaning(SemanticsJson(a.current, a.target, a.language)) == Meaning(SemanticsJson(b.current, b.target, b.language))
    ensures a.current == b.current && a.target == b.target
  {
    SymbolWellFormed(a.current, a.language);
    SymbolWellFormed(a.target, a.language);
    SymbolWellFormed(b.current, b.language);
    SymbolWellFormed(b.target, b.language);
    SemanticsWellFormed(a.current, a.target, a.language);
    var v, w := [SymbolJson(a.current, a.language), SymbolJson(a.target, a.language)],
                [SymbolJson(b.current, b.language), SymbolJson(b.target, b.language)];
    SameFields(SemanticsKeys(), v, w);
    assert SameAt(v, w, 0) && SameAt(v, w, 1);
    SymbolInjective(a.current, b.current, a.language, b.language);
    SymbolInjective(a.target, b.target, a.language, b.language);
  }

  lemma {:induction false} LimitsInjective(a: Limits, b: Limits)
    requires Meaning(LimitsJson(a)) == Meaning(LimitsJson(b))
    ensures a == b
  {
    LimitsWellFormed(a);
    LimitsWellFormed(b);
    var v, w := [Int(a.maxFiles), Int(a.maxBytes), Int(a.maxEdits)], [Int(b.maxFiles), Int(b.maxBytes), Int(b.maxEdits)];
    IntWellFormed(a.maxFiles);
    IntWellFormed(a.maxBytes);
    IntWellFormed(a.maxEdits);
    IntWellFormed(b.maxFiles);
    IntWellFormed(b.maxBytes);
    IntWellFormed(b.maxEdits);
    SameFields(LimitsKeys(), v, w);
    assert SameAt(v, w, 0) && SameAt(v, w, 1) && SameAt(v, w, 2);
    IntTextInjective(a.maxFiles, b.maxFiles);
    IntTextInjective(a.maxBytes, b.maxBytes);
    IntTextInjective(a.maxEdits, b.maxEdits);
  }

  /** The values of two bodies with the same meaning have the same meaning, one by one. */
  lemma {:induction false} SameBodies(a: PlanBody, b: PlanBody) returns (v: seq<Json>, w: seq<Json>)
    requires Meaning(BodyJson(a)) == Meaning(BodyJson(b))
    ensures v == BodyValues(a) && w == BodyValues(b) && forall i | 0 <= i < 12 :: SameAt(v, w, i)
  {
    v, w := BodyValues(a), BodyValues(b);
    BodyWellFormed(a);
    BodyWellFormed(b);
    BodyKeysApart();
    SameFields(BodyKeys(), v, w);
  }

  lemma {:induction false} FirstInjective(a: PlanBody, b: PlanBody, v: seq<Json>, w: seq<Json>)
    requires v == BodyValues(a) && w == BodyValues(b)
    requires SameAt(v, w, 0) && SameAt(v, w, 1) && SameAt(v, w, 2) && SameAt(v, w, 3) && SameAt(v, w, 4) && SameAt(v, w, 5)
    ensures a.version == b.version && a.kind == b.kind && a.root == b.root && a.language == b.language
    ensures a.policy == b.policy && a.oldSymbol == b.oldSymbol
  {
    IntTextInjective(a.version, b.version);
    LanguageInjective(a.language, b.language);
    PolicyInjective(a.policy, b.policy);
  }

  lemma {:induction false} LastInjective(a: PlanBody, b: PlanBody, v: seq<Json>, w: seq<Json>)
    requires v == BodyValues(a) && w == BodyValues(b)
    requires SameAt(v, w, 6) && SameAt(v, w, 7) && SameAt(v, w, 8) && SameAt(v, w, 9) && SameAt(v, w, 10) && SameAt(v, w, 11)
    ensures a.requestedNewSymbol == b.requestedNewSymbol && a.newSymbol == b.newSymbol && a.current == b.current && a.target == b.target
    ensures a.files == b.files && a.totalEdits == b.totalEdits && a.limits == b.limits
  {
    SemanticsInjective(a, b);
    SameFiles(a.files, b.files);
    IntTextInjective(a.totalEdits, b.totalEdits);
    LimitsInjective(a.limits, b.limits);
  }

  lemma {:induction false} BodyInjective(a: PlanBody, b: PlanBody)
    requires Meaning(BodyJson(a)) == Meaning(BodyJson(b))
    ensures a == b
  {
    var v, w := SameBodies(a, b);
    assert SameAt(v, w, 0) && SameAt(v, w, 1) && SameAt(v, w, 2) && SameAt(v, w, 3) && SameAt(v, w, 4) && SameAt(v, w, 5);
    FirstInjective(a, b, v, w);
    assert SameAt(v, w, 6) && SameAt(v, w, 7) && SameAt(v, w, 8) && SameAt(v, w, 9) && SameAt(v, w, 10) && SameAt(v, w, 11);
    LastInjective(a, b, v, w);
  }

  /** The seal of a plan body: the hash of its canonical JSON. */
  function Seal(hash: Text -> Text, body: PlanBody): Text {
    hash(Encode(BodyJson(body)))
  }

  ghost predicate CollisionFree(hash: Text -> Text) {
    forall x, y :: hash(x) == hash(y) ==> x == y
  }

  /** With a collision-free hash a plan id belongs to one body only. */
  lemma {:induction false} SealFixesBody(hash: Text -> Text, a: PlanBody, b: PlanBody)
    requires CollisionFree(hash)
    ensures Seal(hash, a) == Seal(hash, b) <==> a == b
  {
    if Seal(hash, a) == Seal(hash, b) {
      BodyWellFormed(a);
      BodyWellFormed(b);
      CanonicalExactly(BodyJson(a), BodyJson(b));
      BodyInjective(a, b);
    }
  }

  /** The host seals plan bodies with the hash of their canonical JSON. */
  ghost predicate SealsWith(host: Host, hash: Text -> Text) {
    forall body :: host.seal(body) == Seal(hash, body)
  }

  /** Validation accepts an id for one body only. */
  lemma {:induction false} IdFixesValidPlan(hash: Text -> Text, host: Host, p: Plan, q: Plan)
    requires CollisionFree(hash) && SealsWith(host, hash)
    requires ValidPlan(p, host)
    ensures ValidPlan(q, host) && q.planId == p.planId <==> q == p
  {
    SealFixesBody(hash, p.body, q.body);
  }

  /**
   From plan to result: the plan made for an accepted renaming is valid, whatever valid plan
   comes back under its id is that plan, and on contents that have not changed it renames
   every file.
   */
  lemma {:induction false} PlanIsCarriedOut(hash: Text -> Text, host: Host, root: Text, files: seq<SourceFile>, oldSymbol: Text,
                                            requested: Text, language: Language, asked: Option<Policy>, limits: Limits, q: Plan,
                                            contents: map<Text, Text>)
    requires CollisionFree(hash) && SealsWith(host, hash)
    requires PrepareSymbolRename(oldSymbol, requested, language, asked, host.upper).Accepted?
    ensures var accepted := PrepareSymbolRename(oldSymbol, requested, language, asked, host.upper);
            var ren := Renaming(oldSymbol, accepted.effective);
            var made := FreshPlan(root, files, oldSymbol, requested, language, accepted, limits, host);
            && ValidPlan(made, host)
            && (ValidPlan(q, host) && q.planId == made.planId && Unchanged(root, files, host, contents) ==>
                  ApplyAll(q.body.files, contents, host.digest) == Some(RenamedContents(root, files, ren, host, contents)))
  {
    var accepted := PrepareSymbolRename(oldSymbol, requested, language, asked, host.upper);
    var made := FreshPlan(root, files, oldSymbol, requested, language, accepted, limits, host);
    AcceptedNames(oldSymbol, requested, language, asked, host.upper);
    FreshPlanValid(root, files, oldSymbol, requested, language, accepted, limits, host);
    if ValidPlan(q, host) && q.planId == made.planId && Unchanged(root, files, host, contents) {
      IdFixesValidPlan(hash, host, made, q);
      FreshPlanApplies(root, files, Renaming(oldSymbol, accepted.effective), host, contents);
    }
  }

  /** `text` is the renamed source, and reads as it if and only if the source has no hazardous occurrence. */
  ghost predicate RenamedWell(source: Text, text: Text, ren: Renaming, trivia: bool) {
    && text == RenameText.Renamed(source, ren)
    && (RenameText.PreservesLexing(source, ren, trivia) <==> !RenameText.Hazardous(source, ren))
  }

  /**
   From plan to tokens: applying a valid plan under the id of the made one leaves, at the place
   of every file, its renamed text, which scans to the renamed tokens and diagnostics exactly
   when no occurrence in the file is hazardous; all other contents stay.
   */
  lemma {:induction false} CarriedOutLexes(hash: Text -> Text, host: Host, root: Text, files: seq<SourceFile>, oldSymbol: Text,
                                           requested: Text, language: Language, asked: Option<Policy>, limits: Limits, q: Plan,
                                           contents: map<Text, Text>, trivia: bool) returns (out: map<Text, Text>)
    requires CollisionFree(hash) && SealsWith(host, hash) && Unchanged(root, files, host, contents)
    requires PrepareSymbolRename(oldSymbol, requested, language, asked, host.upper).Accepted? && ValidPlan(q, host)
    requires var accepted := PrepareSymbolRename(oldSymbol, requested, language, asked, host.upper);
             q.planId == FreshPlan(root, files, oldSymbol, requested, language, accepted, limits, host).planId
    ensures var accepted := PrepareSymbolRename(oldSymbol, requested, language, asked, host.upper);
            var ren := Renaming(oldSymbol, accepted.effective);
            && ApplyAll(q.body.files, contents, host.digest) == Some(out)
            && (forall k | 0 <= k < |files| ::
                  && host.relative(root, files[k].path).value in out
                  && RenamedWell(files[k].content, out[host.relative(root, files[k].path).value], ren, trivia))
            && (forall p | p in contents && (forall k | 0 <= k < |files| :: host.relative(root, files[k].path).value != p) ::
                  p in out && out[p] == contents[p])
  {
    var accepted := PrepareSymbolRename(oldSymbol, requested, language, asked, host.upper);
    var ren := Renaming(oldSymbol, accepted.effective);
    AcceptedNames(oldSymbol, requested, language, asked, host.upper);
    PlanIsCarriedOut(hash, host, root, files, oldSymbol, requested, language, asked, limits, q, contents);
    out := RenamedContents(root, files, ren, host, contents);
    forall k | 0 <= k < |files|
      ensures host.relative(root, files[k].path).value in out
      ensures RenamedWell(files[k].content, out[host.relative(root, files[k].path).value], ren, trivia) {
      RenamedAt(root, files, ren, host, contents, k);
      RenameText.RenamePreservesLexing(files[k].content, ren, trivia);
    }
    forall p | p in contents && (forall k | 0 <= k < |files| :: host.relative(root, files[k].path).value != p)
      ensures p in out && out[p] == contents[p] {
      OtherPlaces(root, files, ren, host, contents, p);
    }
  }
}
