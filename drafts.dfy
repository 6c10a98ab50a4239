/**
 * The draft store of the editor page: three persistent slots at fixed keys,
 * the two text drafts stored as JSON string literals and the manifest as a
 * JSON object.
 */
module Drafts {
  import opened Wrappers
  import opened LocalStorage
  import opened PersistentSlot
  import opened JsonString

  const MarkdownKey: string := "editor:markdown:draft"
  const TemplateKey: string := "editor:template:draft"
  const BrickKey: string := "editor:brick:draft"

  /** `useLocalStorage<string>(key, '', debounce)`: a text draft slot. */
  method MountText(storage: Storage, key: string, debounce: nat) returns (slot: Slot<string>)
    ensures fresh(slot) && slot.storage == storage && slot.key == key
    ensures slot.initial == "" && slot.debounce == debounce
    ensures slot.encode == Quote && slot.decode == ParseStringLiteral
    ensures slot.state == InitialValue(storage.entries, key, "", ParseStringLiteral) && slot.pending
  {
    slot := new Slot.Mount(storage, key, "", debounce, Quote, ParseStringLiteral);
  }
}
