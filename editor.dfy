/**
 * The three-step editor workflow: a step index in 0..2, the gates that must
 * pass before leaving step 0 (both stored text drafts non-blank) and step 1
 * (every manifest field filled in), and the error dialog they raise. The
 * gates read the durable store, not the components' in-memory values. The
 * step-0 gate is kept twice: as the page runs it, on the raw stored text,
 * and corrected, on the decoded drafts.
 */
module Editor {
  import opened Wrappers
  import opened JsText
  import opened JsonString
  import opened Json
  import opened LocalStorage
  import opened PersistentSlot
  import opened Drafts
  import opened Packager

  datatype Gate = Pass | Fail(message: string)

  const FillDraftsMessage: string := "请先填写文档和模板内容，才能进入下一步。"
  const MissingFieldsPrefix: string := "请完整填写索引信息，缺少："
  const ManifestFormatMessage: string := "索引数据格式错误，请检查 Step2 表单。"

  /** The manifest fields every index entry needs, in the order the message lists them. */
  const RequiredFields: seq<string> := ["name", "description", "os", "version", "variant", "release", "author", "contact"]

  /** `localStorage.getItem(key) || ''`. */
  function StoredOrEmpty(entries: map<string, string>, key: string): string
  {
    if key in entries then entries[key] else ""
  }

  /** The text draft a slot at `key` would show: the decoded stored text, '' when absent or unreadable. */
  function DraftText(entries: map<string, string>, key: string): string
  {
    InitialValue(entries, key, "", ParseStringLiteral)
  }

  /**
   * The step-0 gate as written: it trims the raw stored text, which is the
   * JSON encoding of the draft. An empty draft is stored as `""`, two quote
   * characters, so it is never blank here.
   */
  function Step0GateAsWritten(entries: map<string, string>): Gate
  {
    if Trim(StoredOrEmpty(entries, MarkdownKey)) == [] || Trim(StoredOrEmpty(entries, TemplateKey)) == [] then
      Fail(FillDraftsMessage)
    else Pass
  }

  /**
   * The gate as written passes exactly when neither raw stored text (an
   * absent key read as '') is blank, and fails with the fixed message otherwise.
   */
  lemma Step0GateAsWrittenPassIff(entries: map<string, string>)
    ensures Step0GateAsWritten(entries) == Pass <==>
      !IsBlank(StoredOrEmpty(entries, MarkdownKey)) && !IsBlank(StoredOrEmpty(entries, TemplateKey))
    ensures Step0GateAsWritten(entries) != Pass ==> Step0GateAsWritten(entries) == Fail(FillDraftsMessage)
  {
    TrimEmptyIffBlank(StoredOrEmpty(entries, MarkdownKey));
    TrimEmptyIffBlank(StoredOrEmpty(entries, TemplateKey));
  }

  /** The step-0 gate on the drafts themselves: both must hold something besides white space. */
  function Step0Gate(entries: map<string, string>): Gate
  {
    if Trim(DraftText(entries, MarkdownKey)) == [] || Trim(DraftText(entries, TemplateKey)) == [] then
      Fail(FillDraftsMessage)
    else Pass
  }

  /** The step-0 gate passes exactly when neither draft is blank. */
  lemma Step0GatePassIff(entries: map<string, string>)
    ensures Step0Gate(entries) == Pass <==> !IsBlank(DraftText(entries, MarkdownKey)) && !IsBlank(DraftText(entries, TemplateKey))
    ensures Step0Gate(entries) != Pass ==> Step0Gate(entries) == Fail(FillDraftsMessage)
  {
    TrimEmptyIffBlank(DraftText(entries, MarkdownKey));
    TrimEmptyIffBlank(DraftText(entries, TemplateKey));
  }

  /** Once both slots have flushed, the gate decides on the drafts' contents. */
  lemma Step0GateOnFlushedDrafts(entries: map<string, string>, m: string, t: string)
    ensures Step0Gate(entries[MarkdownKey := Quote(m)][TemplateKey := Quote(t)]) == Pass <==> !IsBlank(m) && !IsBlank(t)
  {
    var e := entries[MarkdownKey := Quote(m)][TemplateKey := Quote(t)];
    TextSlotRemountRestores(entries[MarkdownKey := Quote(m)], TemplateKey, t, "");
    TextSlotRemountRestores(entries[TemplateKey := Quote(t)], MarkdownKey, m, "");
    assert e == entries[TemplateKey := Quote(t)][MarkdownKey := Quote(m)];
    Step0GatePassIff(e);
  }

  lemma QuoteNotBlank(s: string)
    ensures Trim(Quote(s)) != []
  {
    TrimEmptyIffBlank(Quote(s));
    assert !IsWhitespace(Quote(s)[0]);
  }

  /** As written, the gate lets any pair of flushed drafts through, however blank. */
  lemma Step0GateAsWrittenPassesFlushed(entries: map<string, string>, m: string, t: string)
    ensures Step0GateAsWritten(entries[MarkdownKey := Quote(m)][TemplateKey := Quote(t)]) == Pass
  {
    QuoteNotBlank(m);
    QuoteNotBlank(t);
  }

  /** The discrepancy: two empty flushed drafts pass the gate as written and fail the corrected one. */
  lemma EmptyDraftsDiscrepancy(entries: map<string, string>)
    ensures var e := entries[MarkdownKey := Quote("")][TemplateKey := Quote("")];
      Step0GateAsWritten(e) == Pass && Step0Gate(e) == Fail(FillDraftsMessage)
  {
    Step0GateAsWrittenPassesFlushed(entries, "", "");
    Step0GateOnFlushedDrafts(entries, "", "");
    Step0GatePassIff(entries[MarkdownKey := Quote("")][TemplateKey := Quote("")]);
  }

  /**
   * The discrepancy in the running page: on a store with no drafts, mounting
   * both text editors and letting their first flush fire writes `""` under
   * both keys; the gate as written then passes, the corrected one does not.
   */
  method EmptyEditorsPassGateAsWritten(storage: Storage) returns (asWritten: Gate, corrected: Gate)
    requires MarkdownKey !in storage.entries && TemplateKey !in storage.entries
    modifies storage
    ensures storage.entries == old(storage.entries)[MarkdownKey := Quote("")][TemplateKey := Quote("")]
    ensures asWritten == Step0GateAsWritten(storage.entries) == Pass
    ensures corrected == Step0Gate(storage.entries) == Fail(FillDraftsMessage)
  {
    var md := MountText(storage, MarkdownKey, 500);
    var tpl := MountText(storage, TemplateKey, 500);
    assert md.state == "" && tpl.state == "";
    md.Fire(false);
    tpl.Fire(false);
    assert storage.entries == old(storage.entries)[MarkdownKey := Quote("")][TemplateKey := Quote("")];
    asWritten := Step0GateAsWritten(storage.entries);
    corrected := Step0Gate(storage.entries);
    EmptyDraftsDiscrepancy(old(storage.entries));
  }

  /** `localStorage.getItem(key) || '{}'`. */
  function ManifestText(entries: map<string, string>): string
  {
    if BrickKey in entries && entries[BrickKey] != [] then entries[BrickKey] else "{}"
  }

  /** `!brick || !String(brick[k] || '').trim()`. */
  predicate FieldMissing(brick: Json, k: string)
  {
    !Truthy(brick) || Trim(FieldText(brick, k)) == []
  }

  /** The fields of `ks` that are missing, in the order of `ks`. */
  function MissingAmong(brick: Json, ks: seq<string>): seq<string>
  {
    if ks == [] then []
    else if FieldMissing(brick, ks[0]) then [ks[0]] + MissingAmong(brick, ks[1..])
    else MissingAmong(brick, ks[1..])
  }

  function Missing(brick: Json): seq<string>
  {
    MissingAmong(brick, RequiredFields)
  }

  /** A field is reported exactly when it is listed and missing. */
  lemma {:induction false} MissingAmongMembers(brick: Json, ks: seq<string>, k: string)
    ensures k in MissingAmong(brick, ks) <==> k in ks && FieldMissing(brick, k)
  {
    if ks != [] {
      MissingAmongMembers(brick, ks[1..], k);
      assert k in ks <==> k == ks[0] || k in ks[1..];
    }
  }

  /** The report keeps the listed order: it is `ks` with the present fields dropped. */
  lemma {:induction false} MissingAmongAll(brick: Json, ks: seq<string>)
    ensures (forall i :: 0 <= i < |ks| ==> FieldMissing(brick, ks[i])) ==> MissingAmong(brick, ks) == ks
    ensures (forall i :: 0 <= i < |ks| ==> !FieldMissing(brick, ks[i])) ==> MissingAmong(brick, ks) == []
  {
    if ks != [] {
      MissingAmongAll(brick, ks[1..]);
      assert forall i :: 0 <= i < |ks[1..]| ==> ks[1..][i] == ks[i + 1];
    }
  }

  /** A field is reported missing exactly when it is required and its value trims to nothing (or there is no manifest). */
  lemma MissingMembers(brick: Json, k: string)
    ensures k in Missing(brick) <==> k in RequiredFields && (!Truthy(brick) || IsBlank(FieldText(brick, k)))
  {
    MissingAmongMembers(brick, RequiredFields, k);
    TrimEmptyIffBlank(FieldText(brick, k));
  }

  /** A falsy manifest (`null`, `0`, `""`, `false`) lacks every field, reported in the required order. */
  lemma FalsyManifestMissesAll(brick: Json)
    requires !Truthy(brick)
    ensures Missing(brick) == RequiredFields
  {
    MissingAmongAll(brick, RequiredFields);
  }

  /** A manifest with only a name lacks the other seven fields, listed in the required order. */
  lemma OnlyNameFilled(v: string)
    requires !IsBlank(v)
    ensures Missing(JObject([("name", JString(v))])) == RequiredFields[1..]
  {
    var b := JObject([("name", JString(v))]);
    var rest := RequiredFields[1..];
    assert RequiredFields == ["name"] + rest;
    TrimEmptyIffBlank(v);
    assert FieldText(b, "name") == v;
    assert !FieldMissing(b, "name");
    assert b.members[1..] == [];
    forall i | 0 <= i < |rest| ensures FieldMissing(b, rest[i]) {
      var k := rest[i];
      assert k != "name";
      assert b.members[0].0 == "name";
      assert Lookup(b.members, k) == Lookup(b.members[1..], k);
      assert Get(b, k) == None;
    }
    MissingAmongAll(b, rest);
  }

  /**
   * The step-1 gate. The stored manifest text (or `{}`) is parsed by
   * `parse`, which stands for `JSON.parse`: a parse failure is reported as a
   * format error, otherwise the missing fields are listed comma-separated.
   */
  function Step1Gate(entries: map<string, string>, parse: string -> Option<Json>): Gate
  {
    match parse(ManifestText(entries))
    case None => Fail(ManifestFormatMessage)
    case Some(brick) =>
      var missing := Missing(brick);
      if missing == [] then Pass else Fail(MissingFieldsPrefix + Join(missing, ", "))
  }

  /** The step-1 gate passes exactly when the manifest parses and has every required field. */
  lemma Step1GatePassIff(entries: map<string, string>, parse: string -> Option<Json>)
    ensures Step1Gate(entries, parse) == Pass <==>
      (parse(ManifestText(entries)).Some? &&
       forall k :: k in RequiredFields ==> !FieldMissing(parse(ManifestText(entries)).value, k))
  {
    var o := parse(ManifestText(entries));
    if o.Some? {
      if Missing(o.value) == [] {
        forall k | k in RequiredFields ensures !FieldMissing(o.value, k) {
          MissingAmongMembers(o.value, RequiredFields, k);
        }
      } else {
        MissingAmongMembers(o.value, RequiredFields, Missing(o.value)[0]);
      }
    }
  }

  /** A manifest text that does not parse fails with the format message. */
  lemma Step1GateUnparsable(entries: map<string, string>, parse: string -> Option<Json>)
    requires parse(ManifestText(entries)) == None
    ensures Step1Gate(entries, parse) == Fail(ManifestFormatMessage)
  {
  }

  /** No stored manifest reads as `{}`, which lacks all eight fields. */
  lemma Step1GateNoManifest(entries: map<string, string>, parse: string -> Option<Json>)
    requires BrickKey !in entries
    requires parse("{}") == Some(EmptyObject)
    ensures Step1Gate(entries, parse) == Fail(MissingFieldsPrefix + Join(RequiredFields, ", "))
  {
    forall i | 0 <= i < |RequiredFields| ensures FieldMissing(EmptyObject, RequiredFields[i]) {
      assert FieldText(EmptyObject, RequiredFields[i]) == "";
    }
    MissingAmongAll(EmptyObject, RequiredFields);
  }

  /** A stored `null` manifest lacks all eight fields too. */
  lemma Step1GateNullManifest(entries: map<string, string>, parse: string -> Option<Json>)
    requires parse(ManifestText(entries)) == Some(JNull)
    ensures Step1Gate(entries, parse) == Fail(MissingFieldsPrefix + Join(RequiredFields, ", "))
  {
    FalsyManifestMissesAll(JNull);
  }

  /** The gate that guards leaving `step`, as the page runs it; the last step has none. */
  function GateAt(step: nat, entries: map<string, string>, parse: string -> Option<Json>): Gate
  {
    if step == 0 then Step0GateAsWritten(entries)
    else if step == 1 then Step1Gate(entries, parse)
    else Pass
  }

  /** The same gates with the step-0 check on the decoded drafts. */
  function GateAtCorrected(step: nat, entries: map<string, string>, parse: string -> Option<Json>): Gate
  {
    if step == 0 then Step0Gate(entries)
    else GateAt(step, entries, parse)
  }

  const StepCount: nat := 3

  class Workflow {
    var currentStep: nat
    var errOpen: bool
    var errMessage: string

    predicate Valid()
      reads this
    {
      currentStep < StepCount
    }

    constructor ()
      ensures Valid() && currentStep == 0 && !errOpen && errMessage == ""
    {
      currentStep := 0;
      errOpen := false;
      errMessage := "";
    }

    /**
     * The "next" button. A failing gate opens the error dialog with its
     * message and stays; otherwise the step advances, or on the last step the
     * download is requested (`download`).
     */
    method NextStep(storage: Storage, parse: string -> Option<Json>) returns (download: bool)
      requires Valid()
      modifies this
      ensures Valid()
      ensures var g := GateAt(old(currentStep), storage.entries, parse);
        if g.Fail? then
          currentStep == old(currentStep) && errOpen && errMessage == g.message && !download
        else
          errOpen == old(errOpen) && errMessage == old(errMessage) &&
          if old(currentStep) < StepCount - 1 then currentStep == old(currentStep) + 1 && !download
          else currentStep == old(currentStep) && download
    {
      download := Advance(GateAt(currentStep, storage.entries, parse));
    }

    /** The "next" button with the corrected step-0 gate. */
    method NextStepCorrected(storage: Storage, parse: string -> Option<Json>) returns (download: bool)
      requires Valid()
      modifies this
      ensures Valid()
      ensures var g := GateAtCorrected(old(currentStep), storage.entries, parse);
        if g.Fail? then
          currentStep == old(currentStep) && errOpen && errMessage == g.message && !download
        else
          errOpen == old(errOpen) && errMessage == old(errMessage) &&
          if old(currentStep) < StepCount - 1 then currentStep == old(currentStep) + 1 && !download
          else currentStep == old(currentStep) && download
    {
      download := Advance(GateAtCorrected(currentStep, storage.entries, parse));
    }

    /** What the button does once the gate of the current step is known. */
    method Advance(g: Gate) returns (download: bool)
      requires Valid()
      modifies this
      ensures Valid()
      ensures if g.Fail? then
          currentStep == old(currentStep) && errOpen && errMessage == g.message && !download
        else
          errOpen == old(errOpen) && errMessage == old(errMessage) &&
          if old(currentStep) < StepCount - 1 then currentStep == old(currentStep) + 1 && !download
          else currentStep == old(currentStep) && download
    {
      download := false;
      if g.Fail? {
        errMessage := g.message;
        errOpen := true;
        return;
      }
      if currentStep < StepCount - 1 {
        currentStep := currentStep + 1;
        return;
      }
      download := true;
    }

    /** The "previous" button: back one step, never below the first. */
    method PrevStep()
      requires Valid()
      modifies this`currentStep
      ensures Valid()
      ensures currentStep == if old(currentStep) > 0 then old(currentStep) - 1 else 0
    {
      if currentStep > 0 {
        currentStep := currentStep - 1;
      }
    }

    /** Dismissing the error dialog. */
    method CloseError()
      modifies this`errOpen
      ensures !errOpen
    {
      errOpen := false;
    }
  }

  /**
   * One press of "next" with the export step mounted: on the last step the
   * `download:build` event makes the export step deliver its package.
   */
  method PressNext(w: Workflow, step3: Step3, storage: Storage, parse: string -> Option<Json>, archiveOk: bool)
    returns (d: Delivery)
    requires w.Valid()
    modifies w, step3`openAfter
    ensures w.Valid()
    ensures old(w.currentStep) == StepCount - 1 ==>
      d == Package(step3.mode, step3.template.state, step3.markdown.state, step3.brick.state, archiveOk)
    ensures old(w.currentStep) < StepCount - 1 ==> d == NoDelivery
  {
    var download := w.NextStep(storage, parse);
    if download {
      d := step3.HandleDownload(archiveOk);
    } else {
      d := NoDelivery;
    }
  }

  /**
   * Reaching the export step needs both gates to have passed on the way: as
   * the page runs them, that guarantees non-blank stored texts (not drafts)
   * and a manifest with every field.
   */
  lemma ReachingExportNeedsGates(entries: map<string, string>, parse: string -> Option<Json>)
    requires GateAt(0, entries, parse) == Pass && GateAt(1, entries, parse) == Pass
    ensures !IsBlank(StoredOrEmpty(entries, MarkdownKey)) && !IsBlank(StoredOrEmpty(entries, TemplateKey))
    ensures parse(ManifestText(entries)).Some?
    ensures forall k :: k in RequiredFields ==> !FieldMissing(parse(ManifestText(entries)).value, k)
  {
    Step0GateAsWrittenPassIff(entries);
    Step1GatePassIff(entries, parse);
  }

  /** With the corrected gates, reaching the export step guarantees non-blank drafts. */
  lemma ReachingExportNeedsGatesCorrected(entries: map<string, string>, parse: string -> Option<Json>)
    requires GateAtCorrected(0, entries, parse) == Pass && GateAtCorrected(1, entries, parse) == Pass
    ensures !IsBlank(DraftText(entries, MarkdownKey)) && !IsBlank(DraftText(entries, TemplateKey))
    ensures parse(ManifestText(entries)).Some?
    ensures forall k :: k in RequiredFields ==> !FieldMissing(parse(ManifestText(entries)).value, k)
  {
    Step0GatePassIff(entries);
    Step1GatePassIff(entries, parse);
  }

  /**
   * The discrepancy in the workflow: on a store with no drafts, once both
   * text editors have mounted and flushed, "next" on step 0 moves to step 1
   * with both drafts empty; the corrected button stays and shows the message.
   */
  method EmptyDraftsAdvance(storage: Storage, parse: string -> Option<Json>) returns (w: Workflow, c: Workflow)
    requires MarkdownKey !in storage.entries && TemplateKey !in storage.entries
    modifies storage
    ensures w.currentStep == 1 && !w.errOpen
    ensures c.currentStep == 0 && c.errOpen && c.errMessage == FillDraftsMessage
  {
    var asWritten, corrected := EmptyEditorsPassGateAsWritten(storage);
    w := new Workflow();
    var _ := w.NextStep(storage, parse);
    c := new Workflow();
    var _ := c.NextStepCorrected(storage, parse);
  }
}
