/**
 * The manifest form of the editor's second step: eight text fields bound to
 * the manifest draft slot, a live pretty-printed preview, and a confirmed
 * "clear draft" action.
 */
module ManifestForm {
  import opened Wrappers
  import opened JsText
  import opened Json
  import opened LocalStorage
  import opened PersistentSlot
  import opened Drafts
  import opened Editor
  import opened JsonString

  /** `{...(prev || {}), [key]: val}`: the draft after one field edit. */
  function Updated(prev: Json, key: string, val: string): Json
  {
    JObject(SetMember(Spread(OrEmpty(prev)), key, JString(val)))
  }

  /** The text a field shows: `brick?.[key] || ''`. */
  function FieldValue(brick: Json, key: string): string
  {
    FieldText(brick, key)
  }

  /** The preview: `JSON.stringify(brick || {}, null, 2)` (it cannot throw on a JSON value). */
  function Preview(brick: Json): string
  {
    Pretty(OrEmpty(brick))
  }

  /** A missing draft, like an empty one, previews as `{}`. */
  lemma PreviewOfNothing(b: Json)
    requires !Truthy(b) || b == EmptyObject
    ensures Preview(b) == "{}"
  {
  }

  /** The members of a top-level object laid out with `gap`, one text per member. */
  function MemberTexts(ms: seq<(string, Json)>, gap: string): seq<string>
  {
    seq(|ms|, n requires 0 <= n < |ms| => MemberText(ms[n].0, Serialize(ms[n].1, gap, "" + gap), gap))
  }

  /** A non-empty top-level object laid out with a non-empty `gap`: one member per line. */
  lemma ObjectLayout(ms: seq<(string, Json)>, gap: string)
    requires ms != [] && gap != []
    ensures Serialize(JObject(ms), gap, "") ==
      "{" + ("\n" + "" + gap) + Join(MemberTexts(ms, gap), "," + ("\n" + "" + gap)) + ("\n" + "" + "}")
  {
    assert Serialize(JObject(ms), gap, "") == Wrap("{", "}", MemberTexts(ms, gap), gap, "");
  }

  /** A text member of an object is shown on its own line of the pretty-printed object. */
  lemma PrettyShowsMember(ms: seq<(string, Json)>, i: nat)
    requires i < |ms| && ms[i].1.JString?
    ensures Includes(Pretty(JObject(ms)), "\n" + Indent + (Quote(ms[i].0) + ":" + " " + Quote(ms[i].1.s)))
  {
    var lead := "\n" + Indent;
    assert "\n" + "" + Indent == lead;
    var parts := MemberTexts(ms, Indent);
    assert parts[i] == Quote(ms[i].0) + ":" + " " + Quote(ms[i].1.s);
    var body := lead + Join(parts, "," + lead);
    ObjectLayout(ms, Indent);
    assert Pretty(JObject(ms)) == "{" + body + ("\n" + "}");
    JoinShowsPart(parts, ",", lead, i);
    var j: nat :| OccursAt(body, lead + parts[i], j);
    OccursAtExtend("{", body, "\n" + "}", lead + parts[i], j);
    IncludesIffOccurs(Pretty(JObject(ms)), lead + parts[i]);
  }

  /** After an edit, the preview shows the field and its typed text on a line of their own. */
  lemma PreviewShowsEdit(prev: Json, key: string, val: string)
    ensures Includes(Preview(Updated(prev, key, val)), "\n" + Indent + (Quote(key) + ":" + " " + Quote(val)))
  {
    var ms := SetMember(Spread(OrEmpty(prev)), key, JString(val));
    SetMemberLookupSame(Spread(OrEmpty(prev)), key, JString(val));
    LookupFound(ms, key);
    var i :| 0 <= i < |ms| && ms[i] == (key, JString(val));
    assert Preview(Updated(prev, key, val)) == Pretty(JObject(ms));
    PrettyShowsMember(ms, i);
  }

  /** A first edit of a missing draft previews as a one-member object. */
  lemma PreviewFirstEdit(prev: Json, key: string, val: string)
    requires !Truthy(prev)
    ensures Preview(Updated(prev, key, val)) == "{\n  " + Quote(key) + ": " + Quote(val) + "\n}"
  {
    UpdatedFromNothing(prev, key, val);
  }

  /** After an edit the field shows exactly what was typed, the empty text included. */
  lemma UpdatedShowsValue(prev: Json, key: string, val: string)
    ensures FieldValue(Updated(prev, key, val), key) == val
  {
    SetMemberLookupSame(Spread(OrEmpty(prev)), key, JString(val));
  }

  /** An edit leaves every other field of an object draft as it was. */
  lemma UpdatedKeepsOthers(prev: Json, key: string, val: string, other: string)
    requires prev.JObject? && other != key
    ensures Get(Updated(prev, key, val), other) == Get(prev, other)
    ensures FieldValue(Updated(prev, key, val), other) == FieldValue(prev, other)
  {
    SetMemberLookupOther(prev.members, key, JString(val), other);
  }

  /** Editing a missing (falsy) draft starts a one-field object. */
  lemma UpdatedFromNothing(prev: Json, key: string, val: string)
    requires !Truthy(prev)
    ensures Updated(prev, key, val) == JObject([(key, JString(val))])
  {
  }

  /** An edit of a present field keeps the member order; a new field goes last. */
  lemma UpdatedKeyOrder(prev: Json, key: string, val: string)
    requires prev.JObject?
    ensures key in Keys(prev.members) ==> Keys(Updated(prev, key, val).members) == Keys(prev.members)
    ensures key !in Keys(prev.members) ==> Keys(Updated(prev, key, val).members) == Keys(prev.members) + [key]
    ensures DistinctKeys(prev.members) ==> DistinctKeys(Updated(prev, key, val).members)
  {
    SetMemberKeys(prev.members, key, JString(val));
    if DistinctKeys(prev.members) {
      SetMemberDistinct(prev.members, key, JString(val));
    }
  }

  /** Typing `vals[i]` into field `ks[i]`, one field after the other. */
  function FillAll(prev: Json, ks: seq<string>, vals: seq<string>): Json
    requires |ks| == |vals|
    decreases ks
  {
    if ks == [] then prev else FillAll(Updated(prev, ks[0], vals[0]), ks[1..], vals[1..])
  }

  /** Filling other fields leaves a field of an object draft alone. */
  lemma {:induction false} FillAllKeepsOthers(prev: Json, ks: seq<string>, vals: seq<string>, k: string)
    requires |ks| == |vals| && prev.JObject? && k !in ks
    ensures FillAll(prev, ks, vals).JObject?
    ensures Get(FillAll(prev, ks, vals), k) == Get(prev, k)
    decreases ks
  {
    if ks != [] {
      UpdatedKeepsOthers(prev, ks[0], vals[0], k);
      FillAllKeepsOthers(Updated(prev, ks[0], vals[0]), ks[1..], vals[1..], k);
    }
  }

  /** After filling distinct fields, each shows the text typed into it. */
  lemma {:induction false} FillAllShows(prev: Json, ks: seq<string>, vals: seq<string>, i: nat)
    requires |ks| == |vals| && i < |ks|
    requires forall a, b :: 0 <= a < b < |ks| ==> ks[a] != ks[b]
    ensures FieldValue(FillAll(prev, ks, vals), ks[i]) == vals[i]
    decreases ks
  {
    var next := Updated(prev, ks[0], vals[0]);
    if i == 0 {
      UpdatedShowsValue(prev, ks[0], vals[0]);
      assert ks[0] !in ks[1..];
      FillAllKeepsOthers(next, ks[1..], vals[1..], ks[0]);
    } else {
      FillAllShows(next, ks[1..], vals[1..], i - 1);
    }
  }

  lemma RequiredFieldsDistinct()
    ensures forall a, b :: 0 <= a < b < |RequiredFields| ==> RequiredFields[a] != RequiredFields[b]
  {
  }

  /** Filling distinct fields with non-blank text leaves none of them missing. */
  lemma FillAllMissesNothing(prev: Json, ks: seq<string>, vals: seq<string>)
    requires |ks| == |vals| && ks != []
    requires forall a, b :: 0 <= a < b < |ks| ==> ks[a] != ks[b]
    requires forall i :: 0 <= i < |vals| ==> !IsBlank(vals[i])
    ensures MissingAmong(FillAll(prev, ks, vals), ks) == []
  {
    var b := FillAll(prev, ks, vals);
    assert ks[0] !in ks[1..] by {
      forall k | 0 <= k < |ks[1..]| ensures ks[1..][k] != ks[0] {
        assert ks[1..][k] == ks[k + 1];
      }
    }
    FillAllKeepsOthers(Updated(prev, ks[0], vals[0]), ks[1..], vals[1..], ks[0]);
    forall i | 0 <= i < |ks| ensures !FieldMissing(b, ks[i]) {
      FillAllShows(prev, ks, vals, i);
      TrimEmptyIffBlank(vals[i]);
    }
    MissingAmongAll(b, ks);
  }

  /** Filling all eight fields with non-blank text, from any draft, satisfies the manifest gate. */
  lemma FilledFormMissesNothing(prev: Json, vals: seq<string>)
    requires |vals| == |RequiredFields|
    requires forall i :: 0 <= i < |vals| ==> !IsBlank(vals[i])
    ensures Missing(FillAll(prev, RequiredFields, vals)) == []
  {
    RequiredFieldsDistinct();
    FillAllMissesNothing(prev, RequiredFields, vals);
  }

  /** The form: the manifest draft slot and the clear-confirmation dialog. */
  class Form {
    const brick: Slot<Json>
    var clearDialogOpen: bool

    /** The form always addresses the manifest draft key. */
    predicate Valid()
      reads this, brick
    {
      brick.key == BrickKey
    }

    /** `useLocalStorage<Brick>('editor:brick:draft', {}, 300)`; `parse` stands for `JSON.parse`. */
    constructor Mount(storage: Storage, parse: string -> Option<Json>)
      ensures fresh(brick) && brick.storage == storage && brick.key == BrickKey
      ensures brick.initial == EmptyObject && brick.debounce == 300
      ensures brick.encode == Stringify && brick.decode == parse
      ensures brick.state == InitialValue(storage.entries, BrickKey, EmptyObject, parse) && brick.pending
      ensures Valid() && !clearDialogOpen
    {
      brick := new Slot.Mount(storage, BrickKey, EmptyObject, 300, Stringify, parse);
      clearDialogOpen := false;
    }

    /** Typing into the field `key`: the draft becomes `Updated`, and a flush is scheduled. */
    method Update(key: string, val: string)
      modifies brick`state, brick`pending
      ensures brick.state == Updated(old(brick.state), key, val) && brick.pending
      ensures brick.storage.entries == old(brick.storage.entries)
    {
      brick.SetNew(Updated(brick.state, key, val));
    }

    method OpenClearDialog()
      modifies this`clearDialogOpen
      ensures clearDialogOpen
    {
      clearDialogOpen := true;
    }

    /**
     * Confirming the dialog: `clear()` removes the stored draft, then
     * `setBrick({})` empties the form and, being a new object, schedules a
     * flush. The dialog closes.
     */
    method ConfirmClear()
      requires Valid()
      modifies this`clearDialogOpen, brick`state, brick`pending, brick.storage
      ensures brick.storage.entries == old(brick.storage.entries) - {BrickKey}
      ensures brick.state == EmptyObject && brick.pending && !clearDialogOpen && Valid()
    {
      brick.Clear();
      brick.SetNew(EmptyObject);
      clearDialogOpen := false;
    }
  }

  /**
   * Clearing does not leave the key absent: once the flush scheduled by
   * `setBrick({})` fires, the store holds `{}` under the manifest key.
   */
  method ClearThenFlush(form: Form)
    requires form.Valid() && form.brick.encode == Stringify
    modifies form`clearDialogOpen, form.brick`state, form.brick`pending, form.brick.storage
    ensures form.brick.storage.entries == old(form.brick.storage.entries)[BrickKey := "{}"]
    ensures form.brick.state == EmptyObject && !form.brick.pending
  {
    form.ConfirmClear();
    form.brick.Fire(false);
    assert form.brick.storage.entries == old(form.brick.storage.entries)[BrickKey := Stringify(EmptyObject)];
  }
}
