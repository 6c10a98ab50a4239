/**
 * JSON values as the application sees them after `JSON.parse`, with the
 * JavaScript operations it applies to them: truthiness, `String(v)`, member
 * lookup, object spread with one member set (`{...prev, [k]: v}`), and
 * `JSON.stringify` both compact and with a two-space indent.
 */
module Json {
  import opened Wrappers
  import opened JsText
  import opened JsonString

  /**
   * A JSON value. A number is carried by its `String()` rendering (`"0"`,
   * `"22.04"`, `"1e+21"`), which is also how `JSON.stringify` writes it.
   * Object members keep their order.
   */
  datatype Json =
    | JNull
    | JBool(b: bool)
    | JNumber(text: string)
    | JString(s: string)
    | JArray(items: seq<Json>)
    | JObject(members: seq<(string, Json)>)

  const EmptyObject: Json := JObject([])

  /** ECMAScript ToBoolean. */
  predicate Truthy(v: Json)
  {
    match v
    case JNull => false
    case JBool(b) => b
    case JNumber(t) => t != "0" && t != "NaN"
    case JString(s) => s != []
    case JArray(_) => true
    case JObject(_) => true
  }

  /** ToBoolean of a value that may be `undefined` (`None`). */
  predicate TruthyOpt(o: Option<Json>)
  {
    o.Some? && Truthy(o.value)
  }

  /** `x || {}`. */
  function OrEmpty(v: Json): Json
  {
    if Truthy(v) then v else EmptyObject
  }

  /** `String(v)`; an array is the comma-join of its elements, `null` elements giving ''. */
  function ToText(v: Json): string
  {
    match v
    case JNull => "null"
    case JBool(b) => if b then "true" else "false"
    case JNumber(t) => t
    case JString(s) => s
    case JArray(items) =>
      Join(seq(|items|, i requires 0 <= i < |items| => if items[i].JNull? then "" else ToText(items[i])), ",")
    case JObject(_) => "[object Object]"
  }

  /** A value interpolated into a template literal: `undefined` when absent. */
  function OptText(o: Option<Json>): string
  {
    match o
    case None => "undefined"
    case Some(v) => ToText(v)
  }

  /** The value of the first member named `k`. */
  function Lookup(ms: seq<(string, Json)>, k: string): Option<Json>
  {
    if ms == [] then None
    else if ms[0].0 == k then Some(ms[0].1)
    else Lookup(ms[1..], k)
  }

  /**
   * `v[k]` for a field name `k`: an own member of an object, `undefined`
   * otherwise (strings, arrays and primitives have no such field).
   */
  function Get(v: Json, k: string): Option<Json>
  {
    if v.JObject? then Lookup(v.members, k) else None
  }

  /** `String(v[k] || '')`: the text of a field, '' when it is absent or falsy. */
  function FieldText(v: Json, k: string): string
  {
    var f := Get(v, k);
    if TruthyOpt(f) then ToText(f.value) else ""
  }

  /** The member names of `ms`, in order. */
  function Keys(ms: seq<(string, Json)>): seq<string>
  {
    seq(|ms|, i requires 0 <= i < |ms| => ms[i].0)
  }

  /** The own enumerable members `{...v}` copies: an object's members, the indexed characters of a string, the indexed items of an array. */
  function Spread(v: Json): seq<(string, Json)>
  {
    match v
    case JObject(ms) => ms
    case JString(s) => seq(|s|, i requires 0 <= i < |s| => (NatToString(i), JString([s[i]])))
    case JArray(items) => seq(|items|, i requires 0 <= i < |items| => (NatToString(i), items[i]))
    case _ => []
  }

  /**
   * `{...ms, [k]: x}` for a key that is not an array index (JavaScript lists
   * integer-like keys first): an existing member keeps its place and takes the
   * new value, a new one goes last.
   */
  function SetMember(ms: seq<(string, Json)>, k: string, x: Json): seq<(string, Json)>
  {
    if ms == [] then [(k, x)]
    else if ms[0].0 == k then [(k, x)] + ms[1..]
    else [ms[0]] + SetMember(ms[1..], k, x)
  }

  /** After setting `k`, looking `k` up gives the new value. */
  lemma {:induction false} SetMemberLookupSame(ms: seq<(string, Json)>, k: string, x: Json)
    ensures Lookup(SetMember(ms, k, x), k) == Some(x)
  {
    if ms != [] && ms[0].0 != k {
      SetMemberLookupSame(ms[1..], k, x);
    }
  }

  /** Setting `k` leaves every other member's value as it was. */
  lemma {:induction false} SetMemberLookupOther(ms: seq<(string, Json)>, k: string, x: Json, j: string)
    requires j != k
    ensures Lookup(SetMember(ms, k, x), j) == Lookup(ms, j)
  {
    if ms != [] && ms[0].0 != k {
      SetMemberLookupOther(ms[1..], k, x, j);
    }
  }

  /** Setting a present member keeps the member order; setting an absent one appends its name (for keys that are not array indices). */
  lemma {:induction false} SetMemberKeys(ms: seq<(string, Json)>, k: string, x: Json)
    ensures k in Keys(ms) ==> Keys(SetMember(ms, k, x)) == Keys(ms)
    ensures k !in Keys(ms) ==> Keys(SetMember(ms, k, x)) == Keys(ms) + [k]
  {
    if ms != [] {
      assert Keys(ms) == [ms[0].0] + Keys(ms[1..]);
      if ms[0].0 != k {
        SetMemberKeys(ms[1..], k, x);
        assert Keys(SetMember(ms, k, x)) == [ms[0].0] + Keys(SetMember(ms[1..], k, x));
      } else {
        assert Keys(SetMember(ms, k, x)) == [k] + Keys(ms[1..]);
      }
    }
  }

  /** `{...ms, [k]: x}` never holds two members of the same name when `ms` did not. */
  predicate DistinctKeys(ms: seq<(string, Json)>)
  {
    forall i, j :: 0 <= i < j < |ms| ==> ms[i].0 != ms[j].0
  }

  lemma SetMemberDistinct(ms: seq<(string, Json)>, k: string, x: Json)
    requires DistinctKeys(ms)
    ensures DistinctKeys(SetMember(ms, k, x))
  {
    SetMemberKeys(ms, k, x);
    var r := SetMember(ms, k, x);
    assert forall i :: 0 <= i < |r| ==> r[i].0 == Keys(r)[i];
    assert forall i :: 0 <= i < |ms| ==> ms[i].0 == Keys(ms)[i];
  }

  /** A member found by name is one of the members. */
  lemma {:induction false} LookupFound(ms: seq<(string, Json)>, k: string)
    requires Lookup(ms, k).Some?
    ensures exists i :: 0 <= i < |ms| && ms[i] == (k, Lookup(ms, k).value)
  {
    if ms[0].0 != k {
      LookupFound(ms[1..], k);
      var i :| 0 <= i < |ms[1..]| && ms[1..][i] == (k, Lookup(ms, k).value);
      assert ms[i + 1] == ms[1..][i];
    } else {
      assert ms[0] == (k, Lookup(ms, k).value);
    }
  }

  /** The separator-joined body of an array or object, laid out as `JSON.stringify` does for the given gap. */
  function Wrap(open: string, close: string, parts: seq<string>, gap: string, indent: string): string
  {
    if gap == [] then open + Join(parts, ",") + close
    else
      var lead := "\n" + indent + gap;
      open + lead + Join(parts, "," + lead) + ("\n" + indent + close)
  }

  /**
   * `JSON.stringify(v, null, gap)` at nesting `indent`: compact when `gap` is
   * empty, otherwise one member per line indented by `gap` per level.
   */
  function Serialize(v: Json, gap: string, indent: string): string
  {
    match v
    case JNull => "null"
    case JBool(b) => if b then "true" else "false"
    case JNumber(t) => t
    case JString(s) => Quote(s)
    case JArray(items) =>
      if items == [] then "[]"
      else Wrap("[", "]", seq(|items|, i requires 0 <= i < |items| => Serialize(items[i], gap, indent + gap)), gap, indent)
    case JObject(ms) =>
      if ms == [] then "{}"
      else Wrap("{", "}", seq(|ms|, i requires 0 <= i < |ms| => MemberText(ms[i].0, Serialize(ms[i].1, gap, indent + gap), gap)), gap, indent)
  }

  function MemberText(k: string, value: string, gap: string): string
  {
    Quote(k) + ":" + (if gap == [] then "" else " ") + value
  }

  /** `JSON.stringify(v)`. */
  function Stringify(v: Json): string
  {
    Serialize(v, "", "")
  }

  /** The two-space gap of `JSON.stringify(v, null, 2)`. */
  const Indent: string := "  "

  /** `JSON.stringify(v, null, 2)`. */
  function Pretty(v: Json): string
  {
    Serialize(v, Indent, "")
  }
}
