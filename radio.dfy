/**
 * The radio-group UI component (src/components/ui/radio.tsx); no page of the
 * application mounts it. Items register their value with the group, the
 * selected item is the one tab stop, and the keyboard selects with Space or
 * Enter and moves, wrapping around, with the arrows.
 */
module Radio {
  import opened Wrappers

  /** A registered item: its value and its element (an opaque element id). */
  type Entry = (string, nat)

  /** `items.filter(i => i.val !== val)`. */
  function Without(items: seq<Entry>, val: string): seq<Entry>
  {
    if items == [] then []
    else if items[0].0 != val then [items[0]] + Without(items[1..], val)
    else Without(items[1..], val)
  }

  /** No two entries share a value. */
  predicate DistinctValues(items: seq<Entry>)
  {
    forall i, j :: 0 <= i < j < |items| ==> items[i].0 != items[j].0
  }

  /** The entries left are exactly those of another value, in their order. */
  lemma {:induction false} WithoutMembers(items: seq<Entry>, val: string, e: Entry)
    ensures e in Without(items, val) <==> e in items && e.0 != val
    ensures |Without(items, val)| <= |items|
  {
    if items != [] {
      WithoutMembers(items[1..], val, e);
      assert e in items <==> e == items[0] || e in items[1..];
    }
  }

  lemma {:induction false} WithoutDistinct(items: seq<Entry>, val: string)
    requires DistinctValues(items)
    ensures DistinctValues(Without(items, val))
  {
    if items != [] {
      WithoutDistinct(items[1..], val);
      if items[0].0 != val {
        var r := Without(items[1..], val);
        forall e | e in r ensures e.0 != items[0].0 {
          WithoutMembers(items[1..], val, e);
          var k :| 0 <= k < |items[1..]| && items[1..][k] == e;
          assert items[k + 1] == e;
        }
        var w := [items[0]] + r;
        forall i, j | 0 <= i < j < |w| ensures w[i].0 != w[j].0 {
          if i == 0 {
            assert w[j] == r[j - 1];
            assert r[j - 1] in r;
          } else {
            assert w[i] == r[i - 1] && w[j] == r[j - 1];
          }
        }
      }
    }
  }

  /** The group's registry of items. */
  class RadioGroup {
    var items: seq<Entry>

    constructor ()
      ensures items == []
    {
      items := [];
    }

    /** An item registers: any entry with its value is replaced by a new one at the end. */
    method Register(val: string, elem: nat)
      modifies this
      ensures items == Without(old(items), val) + [(val, elem)]
    {
      items := Without(items, val) + [(val, elem)];
    }

    /** An item unregisters: every entry with its value goes. */
    method Unregister(val: string)
      modifies this
      ensures items == Without(old(items), val)
    {
      items := Without(items, val);
    }
  }

  /** Registering keeps the values distinct, and the registered value maps to its latest element. */
  lemma RegisterKeepsDistinct(items: seq<Entry>, val: string, elem: nat)
    requires DistinctValues(items)
    ensures var r := Without(items, val) + [(val, elem)];
      && DistinctValues(r)
      && (forall e :: e in r && e.0 == val ==> e == (val, elem))
      && (forall e :: e in items && e.0 != val ==> e in r)
  {
    WithoutDistinct(items, val);
    var w := Without(items, val);
    var r := w + [(val, elem)];
    forall e | e in w ensures e.0 != val {
      WithoutMembers(items, val, e);
    }
    forall i, j | 0 <= i < j < |r| ensures r[i].0 != r[j].0 {
      if j == |r| - 1 {
        assert r[i] == w[i] && w[i] in w;
      } else {
        assert r[i] == w[i] && r[j] == w[j];
      }
    }
    forall e | e in r && e.0 == val ensures e == (val, elem) {
      if e in w {
        WithoutMembers(items, val, e);
      }
    }
    forall e | e in items && e.0 != val ensures e in r {
      WithoutMembers(items, val, e);
    }
  }

  /** After unregistering, no entry has the value. */
  lemma UnregisterRemoves(items: seq<Entry>, val: string)
    ensures forall e :: e in Without(items, val) ==> e.0 != val
    ensures forall e :: e in items && e.0 != val ==> e in Without(items, val)
  {
    forall e | e in Without(items, val) ensures e.0 != val {
      WithoutMembers(items, val, e);
    }
    forall e | e in items && e.0 != val ensures e in Without(items, val) {
      WithoutMembers(items, val, e);
    }
  }

  /** `aria-checked`: the item's value is the group's value (`null` selects none). */
  predicate IsSelected(selected: Option<string>, value: string)
  {
    selected == Some(value)
  }

  /** The roving tab stop: the selected item is in the tab order, the others are not. */
  function TabIndex(selected: Option<string>, value: string): int
  {
    if IsSelected(selected, value) then 0 else -1
  }

  /** The values of the items in a group (in document order) that are tab stops. */
  function TabStops(values: seq<string>, selected: Option<string>): nat
  {
    if values == [] then 0
    else (if TabIndex(selected, values[0]) == 0 then 1 else 0) + TabStops(values[1..], selected)
  }

  /**
   * With distinct values there is exactly one tab stop when the selected
   * value is among the items and none otherwise (nothing selected included).
   */
  lemma {:induction false} TabStopsCount(values: seq<string>, selected: Option<string>)
    requires forall i, j :: 0 <= i < j < |values| ==> values[i] != values[j]
    ensures TabStops(values, selected) == if selected.Some? && selected.value in values then 1 else 0
  {
    if values != [] {
      TabStopsCount(values[1..], selected);
      assert values == [values[0]] + values[1..];
      if selected == Some(values[0]) {
        assert values[0] !in values[1..] by {
          forall k | 0 <= k < |values[1..]| ensures values[1..][k] != values[0] {
            assert values[1..][k] == values[k + 1];
          }
        }
      }
    }
  }

  /** An element found by querying the group: its id and its `data-value` attribute. */
  datatype RadioElement = RadioElement(id: nat, dataValue: Option<string>)

  /** `arr.indexOf(el)`: the first position of the element, -1 when absent. */
  function IndexOf(arr: seq<RadioElement>, id: nat): (r: int)
    ensures -1 <= r < |arr|
    ensures r >= 0 ==> arr[r].id == id && forall k :: 0 <= k < r ==> arr[k].id != id
    ensures r == -1 <==> forall k :: 0 <= k < |arr| ==> arr[k].id != id
  {
    if arr == [] then -1
    else if arr[0].id == id then 0
    else var r := IndexOf(arr[1..], id);
      if r == -1 then -1 else r + 1
  }

  /** The arrow keys: forward is Right and Down, backward Left and Up. */
  predicate IsForward(key: string)
  {
    key == "ArrowRight" || key == "ArrowDown"
  }

  predicate IsBackward(key: string)
  {
    key == "ArrowLeft" || key == "ArrowUp"
  }

  function NextIndex(idx: nat, n: nat): nat
    requires idx < n
  {
    (idx + 1) % n
  }

  function PrevIndex(idx: nat, n: nat): nat
    requires idx < n
  {
    (idx - 1 + n) % n
  }

  /** Euclidean remainder of a value below twice the modulus: at most one subtraction. */
  lemma ModBelowTwice(a: int, n: int)
    requires n > 0 && 0 <= a < 2 * n
    ensures a % n == if a < n then a else a - n
  {
    var q := a / n;
    var r := a % n;
    assert a == q * n + r && 0 <= r < n;
    assert 0 <= q < 2;
    if q == 0 {
      assert a == r;
    } else {
      assert a == n + r;
    }
  }

  /** The neighbours' positions: one on, wrapping from the last to the first, and one back, wrapping the other way. */
  lemma NeighbourIndex(idx: nat, n: nat)
    requires idx < n
    ensures NextIndex(idx, n) == if idx + 1 < n then idx + 1 else 0
    ensures PrevIndex(idx, n) == if idx > 0 then idx - 1 else n - 1
  {
    ModBelowTwice(idx + 1, n);
    ModBelowTwice(idx - 1 + n, n);
  }

  /** Moving forward then back, or back then forward, returns to the same item. */
  lemma NextPrevInverse(idx: nat, n: nat)
    requires idx < n
    ensures NextIndex(idx, n) < n && PrevIndex(idx, n) < n
    ensures PrevIndex(NextIndex(idx, n), n) == idx
    ensures NextIndex(PrevIndex(idx, n), n) == idx
    ensures n > 1 ==> NextIndex(idx, n) != idx
  {
    NeighbourIndex(idx, n);
    NeighbourIndex(NextIndex(idx, n), n);
    NeighbourIndex(PrevIndex(idx, n), n);
  }

  /** What a key press does: the element to focus, the value to select, whether the default is prevented. */
  datatype KeyEffect = KeyEffect(focus: Option<nat>, change: Option<string>, preventDefault: bool)

  /**
   * The item's key handler. `value` is the item's value, `self` its element,
   * and `group` the radio elements the enclosing group holds in document
   * order (`None` when the element has no enclosing group). Space and Enter
   * select the item; an arrow focuses the next or previous element, wrapping
   * around, and selects its `data-value` when that is non-empty.
   */
  function KeyDown(key: string, value: string, self: nat, group: Option<seq<RadioElement>>): KeyEffect
  {
    if key == " " || key == "Enter" then KeyEffect(None, Some(value), true)
    else if !(IsForward(key) || IsBackward(key)) then KeyEffect(None, None, false)
    else if group.None? then KeyEffect(None, None, true)
    else
      var arr := group.value;
      var idx := IndexOf(arr, self);
      if idx == -1 then KeyEffect(None, None, true)
      else
        var next := if IsForward(key) then NextIndex(idx, |arr|) else PrevIndex(idx, |arr|);
        var nextVal := arr[next].dataValue;
        KeyEffect(Some(arr[next].id), if nextVal.Some? && nextVal.value != [] then nextVal else None, true)
  }

  /**
   * An arrow press inside a group moves the focus to the neighbour in that
   * direction, wrapping at both ends, and selects the neighbour's value when
   * it has one; Space and Enter select the pressed item itself.
   */
  lemma KeyDownMoves(key: string, value: string, self: nat, arr: seq<RadioElement>, idx: nat)
    requires idx < |arr| && arr[idx].id == self && forall k :: 0 <= k < idx ==> arr[k].id != self
    ensures (key == " " || key == "Enter") ==> KeyDown(key, value, self, Some(arr)).change == Some(value)
    ensures IsForward(key) ==>
      var e := if idx + 1 < |arr| then arr[idx + 1] else arr[0];
      KeyDown(key, value, self, Some(arr)).focus == Some(e.id)
      && (KeyDown(key, value, self, Some(arr)).change.Some? <==> e.dataValue.Some? && e.dataValue.value != [])
    ensures IsBackward(key) ==>
      var e := if idx > 0 then arr[idx - 1] else arr[|arr| - 1];
      KeyDown(key, value, self, Some(arr)).focus == Some(e.id)
      && (KeyDown(key, value, self, Some(arr)).change.Some? <==> e.dataValue.Some? && e.dataValue.value != [])
  {
    assert IndexOf(arr, self) == idx;
    NeighbourIndex(idx, |arr|);
  }

  /** A key press outside a group, or by an element the group does not hold, selects nothing. */
  lemma KeyDownOutsideGroup(key: string, value: string, self: nat, group: Option<seq<RadioElement>>)
    requires key != " " && key != "Enter"
    requires group.None? || forall k :: 0 <= k < |group.value| ==> group.value[k].id != self
    ensures KeyDown(key, value, self, group).change.None? && KeyDown(key, value, self, group).focus.None?
  {
  }
}
