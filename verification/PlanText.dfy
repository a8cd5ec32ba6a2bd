/**
 The text that is hashed for a plan id is JSON: read by the grammar of RFC 8259 it gives the
 plan's body back.
 */
module PlanText {
  import opened CanonicalJson
  import opened CodeUnits
  import opened Decimal
  import opened JsonReader
  import LispLexer
  import opened PlanIntegrity
  import opened ProjectRename
  import opened SymbolSemantics
  import opened Wrappers

  lemma {:induction false} AllDigitsRun(t: Text)
    requires AllDigits(t)
    ensures DigitRun(t) == |t|
  {
    if t != [] { AllDigitsRun(t[1..]); }
  }

  lemma {:induction false} NoLeadingZero(n: nat)
    ensures |Digits(n)| > 1 ==> Digits(n)[0] != ZERO
  {
    if n >= 10 {
      NoLeadingZero(n / 10);
      if n / 10 < 10 { assert Digits(n / 10) == [ZERO + n / 10]; }
    }
  }

  lemma {:induction false} IntHasJsonText(n: int)
    ensures HasJsonText(Int(n))
  {
    var digits := Digits(if n < 0 then -n else n);
    AllDigitsRun(digits);
    NoLeadingZero(if n < 0 then -n else n);
    assert n < 0 ==> IntText(n)[1..] == digits;
    assert digits[|digits|..] == [];
  }

  ghost predicate AllHaveText(values: seq<Json>) {
    forall i | 0 <= i < |values| :: HasJsonText(values[i])
  }

  lemma {:induction false} ObjectHasText(keys: seq<Text>, values: seq<Json>)
    requires |keys| == |values| && AllHaveText(values)
    ensures HasJsonText(Object(keys, values))
  {}

  lemma {:induction false} EditHasText(e: Edit)
    ensures HasJsonText(EditJson(e))
  {
    IntHasJsonText(e.start);
    IntHasJsonText(e.end);
    IntHasJsonText(e.line);
    IntHasJsonText(e.column);
    ObjectHasText(EditKeys(), EditValues(e));
  }

  lemma {:induction false} DiagnosticHasText(d: LispLexer.Diagnostic)
    ensures HasJsonText(DiagnosticJson(d))
  {
    IntHasJsonText(d.offset);
    ObjectHasText(DiagnosticKeys(), [Str(DiagnosticCode(d)), Int(d.offset)]);
  }

  lemma {:induction false} FileHasText(f: FileEdits)
    ensures HasJsonText(FileJson(f))
  {
    IntHasJsonText(f.bytes);
    forall i | 0 <= i < |f.edits| ensures HasJsonText(EditsJson(f.edits)[i].value) { EditHasText(f.edits[i]); }
    forall i | 0 <= i < |f.diagnostics| ensures HasJsonText(DiagnosticsJson(f.diagnostics)[i].value) {
      DiagnosticHasText(f.diagnostics[i]);
    }
    assert HasJsonText(Arr(EditsJson(f.edits))) && HasJsonText(Arr(DiagnosticsJson(f.diagnostics)));
    ObjectHasText(FileKeys(), FileValues(f));
  }

  lemma {:induction false} SymbolHasText(d: Descriptor, language: Language)
    ensures HasJsonText(SymbolJson(d, language))
  {
    ObjectHasText(SymbolKeys(), SymbolValues(d, language));
  }

  lemma {:induction false} SemanticsHasText(current: Descriptor, target: Descriptor, language: Language)
    ensures HasJsonText(SemanticsJson(current, target, language))
  {
    SymbolHasText(current, language);
    SymbolHasText(target, language);
    ObjectHasText(SemanticsKeys(), [SymbolJson(current, language), SymbolJson(target, language)]);
  }

  lemma {:induction false} LimitsHaveText(l: Limits)
    ensures HasJsonText(LimitsJson(l))
  {
    IntHasJsonText(l.maxFiles);
    IntHasJsonText(l.maxBytes);
    IntHasJsonText(l.maxEdits);
    ObjectHasText(LimitsKeys(), [Int(l.maxFiles), Int(l.maxBytes), Int(l.maxEdits)]);
  }

  lemma {:induction false} FilesHaveText(files: seq<FileEdits>)
    ensures HasJsonText(Arr(FilesJson(files)))
  {
    forall i | 0 <= i < |files| ensures HasJsonText(FilesJson(files)[i].value) { FileHasText(files[i]); }
  }

  lemma {:induction false} BodyHasText(b: PlanBody)
    ensures HasJsonText(BodyJson(b))
  {
    IntHasJsonText(b.version);
    IntHasJsonText(b.totalEdits);
    SemanticsHasText(b.current, b.target, b.language);
    LimitsHaveText(b.limits);
    FilesHaveText(b.files);
    ObjectHasText(BodyKeys(), BodyValues(b));
  }

  /** The hashed text of a plan body is read back as that body. */
  lemma {:induction false} PlanTextIsJson(b: PlanBody)
    ensures ReadText(Encode(BodyJson(b))) == Some(Meaning(BodyJson(b)))
  {
    var v := BodyJson(b);
    BodyHasText(b);
    BodyWellFormed(b);
    CanonicalIsJson(v);
  }
}
