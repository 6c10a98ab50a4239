/**
 * The browser's durable key-value store (`localStorage`): one map from string
 * keys to string values, shared by every component of the page.
 */
module LocalStorage {
  import opened Wrappers

  class Storage {
    var entries: map<string, string>

    constructor (initial: map<string, string>)
      ensures entries == initial
    {
      entries := initial;
    }

    /** `getItem(k)`: the stored text, or `null` (`None`) when the key is absent. */
    function GetItem(k: string): Option<string>
      reads this
    {
      if k in entries then Some(entries[k]) else None
    }

    /**
     * `setItem(k, v)`. The browser may refuse the write (its quota is
     * exceeded); `quotaExceeded` stands for that outcome, in which case the
     * call throws and nothing is stored.
     */
    method SetItem(k: string, v: string, quotaExceeded: bool) returns (ok: bool)
      modifies this
      ensures ok == !quotaExceeded
      ensures entries == if ok then old(entries)[k := v] else old(entries)
    {
      ok := !quotaExceeded;
      if ok {
        entries := entries[k := v];
      }
    }

    /** `removeItem(k)`: removing an absent key changes nothing. */
    method RemoveItem(k: string)
      modifies this
      ensures entries == old(entries) - {k}
    {
      entries := entries - {k};
    }
  }
}
