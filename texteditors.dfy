/**
 * The document editor of the editor's first step: a text draft slot, a
 * formatting toolbar that splices syntax around the textarea selection, and
 * a confirmed "clear draft" action.
 */
module TextEditors {
  import opened Wrappers
  import opened JsText
  import opened JsonString
  import opened LocalStorage
  import opened PersistentSlot
  import opened Drafts

  /** A textarea selection: `selectionStart`, `selectionEnd`. */
  datatype Selection = Selection(start: nat, end: nat)

  /** An edit of the document text and the selection to set afterwards. */
  datatype Edit = Edit(text: string, selection: Selection)

  /**
   * The toolbar's inline formatting: the selected text is surrounded by
   * `syntax` on both sides, and the selection moves onto the original text.
   * Positions follow `String.prototype.substring`, which clamps to the text.
   */
  function WrapSelection(value: string, sel: Selection, syntax: string): Edit
  {
    var selected := Substring(value, sel.start, sel.end);
    Edit(Substring(value, 0, sel.start) + syntax + selected + syntax + SubstringFrom(value, sel.end),
         Selection(sel.start + |syntax|, sel.start + |syntax| + |selected|))
  }

  /** For a selection inside the text, wrapping is a splice that adds two copies of the syntax. */
  lemma WrapSelectionSplice(value: string, sel: Selection, syntax: string)
    requires sel.start <= sel.end <= |value|
    ensures var e := WrapSelection(value, sel, syntax);
      && e.text == value[..sel.start] + syntax + value[sel.start..sel.end] + syntax + value[sel.end..]
      && |e.text| == |value| + 2 * |syntax|
  {
  }

  /**
   * The new selection covers exactly the originally selected text, and
   * removing the two inserted copies of the syntax gives the old text back.
   */
  lemma WrapSelectionRestores(value: string, sel: Selection, syntax: string)
    requires sel.start <= sel.end <= |value|
    ensures var e := WrapSelection(value, sel, syntax);
      && e.selection.end <= |e.text| - |syntax|
      && e.text[e.selection.start..e.selection.end] == value[sel.start..sel.end]
      && e.text[sel.start..e.selection.start] == syntax
      && e.text[e.selection.end..e.selection.end + |syntax|] == syntax
      && e.text[..sel.start] + e.text[e.selection.start..e.selection.end] + e.text[e.selection.end + |syntax|..] == value
  {
    var e := WrapSelection(value, sel, syntax);
    var a := value[..sel.start];
    var m := value[sel.start..sel.end];
    var z := value[sel.end..];
    assert e.text == a + syntax + m + syntax + z;
    assert e.text[..sel.start] == a;
    assert e.text[e.selection.start..e.selection.end] == m;
    assert e.text[sel.start..e.selection.start] == syntax;
    assert e.text[e.selection.end..e.selection.end + |syntax|] == syntax;
    assert e.text[e.selection.end + |syntax|..] == z;
    assert a + m + z == value;
  }

  /** A caret past the end of the text (both ends clamped) appends the syntax twice and selects nothing. */
  lemma WrapSelectionPastEnd(value: string, sel: Selection, syntax: string)
    requires sel.start >= |value| && sel.end >= |value|
    ensures var e := WrapSelection(value, sel, syntax);
      e.text == value + syntax + syntax && e.selection.start == e.selection.end
  {
  }

  /** The heading button: `# ` inserted at the caret, and the caret placed after it. */
  function HeadingEdit(value: string, caret: nat): Edit
  {
    Edit(Substring(value, 0, caret) + "# " + SubstringFrom(value, caret), Selection(caret + 2, caret + 2))
  }

  /** Inside the text, the heading marker is inserted at the caret and the caret lands right after it. */
  lemma HeadingEditInserts(value: string, caret: nat)
    requires caret <= |value|
    ensures var e := HeadingEdit(value, caret);
      && e.text == value[..caret] + "# " + value[caret..]
      && e.text[caret..e.selection.start] == "# "
      && e.text[..caret] + e.text[e.selection.start..] == value
  {
    var e := HeadingEdit(value, caret);
    assert e.text[..caret] == value[..caret];
    assert e.text[caret + 2..] == value[caret..];
  }

  /** The code-block button: the block goes on its own lines at the end, wherever the caret is. */
  function AppendBlock(value: string, block: string): (r: string)
    ensures |r| == |value| + |block| + 2
    ensures r[..|value|] == value && r[|value|] == '\n'
    ensures r[|value| + 1..|r| - 1] == block && r[|r| - 1] == '\n'
  {
    value + "\n" + block + "\n"
  }

  /** The toolbar's syntaxes. */
  const BoldSyntax: string := "**"
  const ItalicSyntax: string := "*"
  const CodeSyntax: string := "`"
  const ListSyntax: string := "- "
  const CodeBlock: string := "```\n\n```"

  /** The document editor: its slot, the textarea selection when it is mounted, the preview and dialog flags. */
  class MarkdownEditor {
    const slot: Slot<string>
    var textarea: Option<Selection>
    var isPreview: bool
    var clearDialogOpen: bool

    ghost predicate Valid()
      reads this, slot
    {
      slot.key == MarkdownKey && slot.encode == Quote
    }

    /** `useLocalStorage<string>('editor:markdown:draft', '', 500)`. */
    constructor Mount(storage: Storage, textarea: Option<Selection>)
      ensures Valid() && fresh(slot) && slot.storage == storage
      ensures slot.initial == "" && slot.debounce == 500 && slot.decode == ParseStringLiteral
      ensures slot.state == InitialValue(storage.entries, MarkdownKey, "", ParseStringLiteral) && slot.pending
      ensures this.textarea == textarea && !isPreview && !clearDialogOpen
    {
      var s := MountText(storage, MarkdownKey, 500);
      slot := s;
      this.textarea := textarea;
      isPreview := false;
      clearDialogOpen := false;
    }

    /** Inline formatting; without a mounted textarea nothing happens. The toolbar exists only in edit mode. */
    method InsertMarkdown(syntax: string)
      requires !isPreview
      modifies slot`state, slot`pending, this`textarea
      ensures old(textarea).None? ==> slot.state == old(slot.state) && textarea == old(textarea) && slot.pending == old(slot.pending)
      ensures old(textarea).Some? ==>
        var e := WrapSelection(old(slot.state), old(textarea).value, syntax);
        slot.state == e.text && textarea == Some(e.selection)
        && slot.pending == (old(slot.pending) || slot.state != old(slot.state))
      ensures slot.storage.entries == old(slot.storage.entries)
    {
      if textarea.Some? {
        var e := WrapSelection(slot.state, textarea.value, syntax);
        slot.Set(e.text);
        textarea := Some(e.selection);
      }
    }

    /** The heading button; without a mounted textarea nothing happens. The toolbar exists only in edit mode. */
    method InsertHeading()
      requires !isPreview
      modifies slot`state, slot`pending, this`textarea
      ensures old(textarea).None? ==> slot.state == old(slot.state) && textarea == old(textarea) && slot.pending == old(slot.pending)
      ensures old(textarea).Some? ==>
        var e := HeadingEdit(old(slot.state), old(textarea).value.start);
        slot.state == e.text && textarea == Some(e.selection)
        && slot.pending == (old(slot.pending) || slot.state != old(slot.state))
      ensures slot.storage.entries == old(slot.storage.entries)
    {
      if textarea.Some? {
        var e := HeadingEdit(slot.state, textarea.value.start);
        slot.Set(e.text);
        textarea := Some(e.selection);
      }
    }

    /** The code-block button. The toolbar exists only in edit mode. */
    method InsertBlock(block: string)
      requires !isPreview
      modifies slot`state, slot`pending
      ensures slot.state == AppendBlock(old(slot.state), block) && slot.pending
      ensures slot.storage.entries == old(slot.storage.entries)
    {
      slot.Set(AppendBlock(slot.state, block));
    }

    /** The editor reports a change; an absent value reads as ''. */
    method OnChange(v: Option<string>)
      modifies slot`state, slot`pending
      ensures slot.state == v.GetOr("")
      ensures slot.pending == (old(slot.pending) || slot.state != old(slot.state))
      ensures slot.storage.entries == old(slot.storage.entries)
    {
      slot.Set(v.GetOr(""));
    }

    method SetPreview(on: bool)
      modifies this`isPreview
      ensures isPreview == on
    {
      isPreview := on;
    }

    /**
     * Confirming the clear dialog: `clear()` then `setValue('')`. The stored
     * entry is removed; a flush is pending afterwards exactly when one was or
     * the draft was not already empty, and that flush writes `""` back.
     */
    method ConfirmClear()
      requires Valid()
      modifies this`clearDialogOpen, slot`state, slot`pending, slot.storage
      ensures Valid() && !clearDialogOpen
      ensures slot.storage.entries == old(slot.storage.entries) - {MarkdownKey}
      ensures slot.state == "" && slot.pending == (old(slot.pending) || old(slot.state) != "")
    {
      slot.Clear();
      slot.Set("");
      clearDialogOpen := false;
    }
  }

  /**
   * Clearing an empty draft with no flush pending leaves the key absent; any
   * other clear is followed by a flush that stores `""` again.
   */
  method ClearThenTimer(editor: MarkdownEditor)
    requires editor.Valid()
    modifies editor`clearDialogOpen, editor.slot`state, editor.slot`pending, editor.slot.storage
    ensures old(editor.slot.pending) || old(editor.slot.state) != "" ==>
      editor.slot.storage.entries == old(editor.slot.storage.entries)[MarkdownKey := Quote("")]
    ensures !old(editor.slot.pending) && old(editor.slot.state) == "" ==>
      editor.slot.storage.entries == old(editor.slot.storage.entries) - {MarkdownKey}
  {
    editor.ConfirmClear();
    if editor.slot.pending {
      editor.slot.Fire(false);
    }
  }
}
