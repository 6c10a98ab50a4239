/**
 * The debounced persistent slot of `useLocalStorage`: an in-memory value, the
 * shared durable store, and one pending flush timer. Timer expiry is the
 * explicit step `Fire`; mounting is the constructor, unmounting `Unmount`.
 */
module PersistentSlot {
  import opened Wrappers
  import opened LocalStorage
  import opened JsonString

  /**
   * The value a slot starts with: the decoded stored text when the key holds a
   * non-empty text that decodes, the caller's initial value otherwise (absent
   * key, empty text, or a parse failure, which is caught).
   */
  function InitialValue<T>(entries: map<string, string>, key: string, initial: T, decode: string -> Option<T>): T
  {
    if key in entries && entries[key] != [] then
      match decode(entries[key])
      case Some(v) => v
      case None => initial
    else initial
  }

  class Slot<T(==)> {
    const storage: Storage
    var key: string
    const initial: T
    /** The debounce window in milliseconds; time itself is not modelled. */
    const debounce: nat
    /** `JSON.stringify` for the slot's value type. */
    const encode: T -> string
    /** `JSON.parse` for the slot's value type; `None` when it throws. */
    const decode: string -> Option<T>
    /** The in-memory value the component renders. */
    var state: T
    /** Whether a flush timer is scheduled. */
    var pending: bool

    /**
     * Mounting: the lazy initial read, then the effect's first run, which
     * schedules a flush of that value. The store is only read.
     */
    constructor Mount(storage: Storage, key: string, initial: T, debounce: nat,
                      encode: T -> string, decode: string -> Option<T>)
      ensures this.storage == storage && this.key == key && this.initial == initial
      ensures this.debounce == debounce && this.encode == encode && this.decode == decode
      ensures state == InitialValue(storage.entries, key, initial, decode)
      ensures pending
    {
      this.storage := storage;
      this.key := key;
      this.initial := initial;
      this.debounce := debounce;
      this.encode := encode;
      this.decode := decode;
      state := InitialValue(storage.entries, key, initial, decode);
      pending := true;
    }

    /**
     * The setter. The new value is visible at once; the store is not touched.
     * A value different from the current one re-runs the effect, which
     * cancels the pending timer and schedules a new one; an equal value does
     * not re-render, so the timer is left as it was.
     */
    method Set(v: T)
      modifies this`state, this`pending
      ensures state == v
      ensures pending == (old(pending) || v != old(state))
      ensures storage.entries == old(storage.entries)
    {
      if v != state {
        state := v;
        pending := true;
      }
    }

    /**
     * The setter called with a freshly built object (`{...prev, [k]: v}`,
     * `{}`). React compares by reference, so a new object always re-runs
     * the effect and reschedules the flush, even when its contents are equal.
     */
    method SetNew(v: T)
      modifies this`state, this`pending
      ensures state == v && pending
      ensures storage.entries == old(storage.entries)
    {
      state := v;
      pending := true;
    }

    /**
     * The timer expires: `setItem(key, JSON.stringify(state))` under this
     * slot's key only. A refused write is swallowed and changes nothing.
     */
    method Fire(quotaExceeded: bool)
      requires pending
      modifies this`pending, storage
      ensures !pending && state == old(state) && key == old(key)
      ensures storage.entries == if quotaExceeded then old(storage.entries)
                                 else old(storage.entries)[key := encode(state)]
    {
      pending := false;
      var _ := storage.SetItem(key, encode(state), quotaExceeded);
    }

    /**
     * `clear`: removes this slot's key and nothing else. The in-memory value
     * and a pending flush are left alone, so a later `Fire` writes the entry
     * again.
     */
    method Clear()
      modifies storage
      ensures storage.entries == old(storage.entries) - {key}
      ensures state == old(state) && pending == old(pending)
    {
      storage.RemoveItem(key);
    }

    /** Unmounting: the effect's cleanup cancels the pending flush. */
    method Unmount()
      modifies this`pending
      ensures !pending && state == old(state)
      ensures storage.entries == old(storage.entries)
    {
      pending := false;
    }

    /**
     * The caller passes a different key: the cleanup cancels the flush for the
     * old key and the effect schedules one for the new key. The in-memory
     * value is kept (the initial read does not run again).
     */
    method Rekey(newKey: string)
      modifies this`key, this`pending
      ensures key == newKey && state == old(state)
      ensures pending == (old(pending) || newKey != old(key))
      ensures storage.entries == old(storage.entries)
    {
      if newKey != key {
        key := newKey;
        pending := true;
      }
    }
  }

  /** The last element of a non-empty sequence. */
  function Last<T>(s: seq<T>): T
    requires s != []
  {
    s[|s| - 1]
  }

  /**
   * A burst of writes inside one debounce window: the slot ends up holding
   * the last value, the store is untouched, and a flush is pending whenever
   * one was, or the burst ended on a new value.
   */
  method SetAll<T(==)>(slot: Slot<T>, values: seq<T>)
    modifies slot`state, slot`pending
    ensures values != [] ==> slot.state == Last(values)
    ensures values == [] ==> slot.state == old(slot.state)
    ensures old(slot.pending) || (values != [] && Last(values) != old(slot.state)) ==> slot.pending
    ensures slot.storage.entries == old(slot.storage.entries)
  {
    var i := 0;
    while i < |values|
      invariant 0 <= i <= |values|
      invariant i > 0 ==> slot.state == values[i - 1]
      invariant i == 0 ==> slot.state == old(slot.state)
      invariant old(slot.pending) ==> slot.pending
      invariant i > 0 && values[i - 1] != old(slot.state) ==> slot.pending
      invariant slot.storage.entries == old(slot.storage.entries)
    {
      slot.Set(values[i]);
      i := i + 1;
    }
  }

  /**
   * The debounce coalesces: after a burst and the one timer expiry, the store
   * holds the encoding of the last value under the slot's key, every other
   * key as before.
   */
  method BurstThenFlush<T(==)>(slot: Slot<T>, values: seq<T>)
    requires values != [] && (slot.pending || Last(values) != slot.state)
    modifies slot`state, slot`pending, slot.storage
    ensures slot.storage.entries == old(slot.storage.entries)[slot.key := slot.encode(Last(values))]
    ensures slot.state == Last(values) && !slot.pending
  {
    SetAll(slot, values);
    slot.Fire(false);
  }

  /**
   * Write after clear: a change followed by `clear` before the timer expires
   * leaves the key present again once the timer fires.
   */
  method ClearThenFlush<T(==)>(slot: Slot<T>, v: T)
    requires slot.pending || v != slot.state
    modifies slot`state, slot`pending, slot.storage
    ensures slot.storage.entries == old(slot.storage.entries)[slot.key := slot.encode(v)]
  {
    slot.Set(v);
    slot.Clear();
    slot.Fire(false);
  }

  /** A text slot that flushed `s` reads `s` back when it is mounted again. */
  lemma TextSlotRemountRestores(entries: map<string, string>, key: string, s: string, initial: string)
    ensures InitialValue(entries[key := Quote(s)], key, initial, ParseStringLiteral) == s
  {
    QuoteRoundTrip(s);
  }

  /** Once its key is cleared, a slot mounts with its initial value. */
  lemma ClearedSlotMountsInitial<T>(entries: map<string, string>, key: string, initial: T, decode: string -> Option<T>)
    ensures InitialValue(entries - {key}, key, initial, decode) == initial
  {
  }
}
