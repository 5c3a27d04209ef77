/**
 * The JSON-shaped values the application stores in IndexedDB and reads back
 * from export files, with the JavaScript operators it applies to them:
 * truthiness, `||`, property access, object spread and conversion to text.
 */
module Json {
  import opened Wrappers
  import opened Text

  /** A stored value; numbers are integers (dates and ids are the only numbers stored). */
  datatype Json =
    | JNull
    | JBool(b: bool)
    | JNum(n: int)
    | JStr(s: string)
    | JArr(items: seq<Json>)
    | JObj(fields: map<string, Json>)

  /** A plain object: the records of every store. */
  type Record = map<string, Json>

  /** JavaScript truthiness; `undefined` is modelled by the absence of a value. */
  predicate Truthy(j: Json) {
    match j
    case JNull => false
    case JBool(b) => b
    case JNum(n) => n != 0
    case JStr(s) => s != []
    case _ => true
  }

  /** A property read that is defined and truthy. */
  predicate Present(o: Option<Json>) {
    o.Some? && Truthy(o.value)
  }

  /** `r[k]`, `None` standing for `undefined`. */
  function Get(r: Record, k: string): (o: Option<Json>)
    ensures o.Some? <==> k in r
  {
    if k in r then Some(r[k]) else None
  }

  /**
   * The properties every plain object inherits from `Object.prototype`.
   * Reading one of them on an object without an own property of that name
   * finds a truthy function, or the prototype itself for `__proto__`.
   */
  const ObjectMembers: seq<string> := [
    "constructor", "hasOwnProperty", "isPrototypeOf", "propertyIsEnumerable",
    "toLocaleString", "toString", "valueOf", "__proto__",
    "__defineGetter__", "__defineSetter__", "__lookupGetter__", "__lookupSetter__"]

  /** `k` is one of `names`. */
  predicate Listed(k: string, names: seq<string>) {
    names != [] && (names[0] == k || Listed(k, names[1..]))
  }

  /** `r[k]` finds a member `r` inherits rather than one of its own values. */
  predicate FindsInherited(r: Record, k: string) {
    k !in r && Listed(k, ObjectMembers)
  }

  /** `j[k]` on a value that may not be an object: only objects have the keys read here. */
  function Prop(j: Json, k: string): Option<Json> {
    if j.JObj? then Get(j.fields, k) else None
  }

  /** `a || b`: the left value when it is truthy, the right one otherwise. */
  function Or(a: Option<Json>, b: Json): (r: Json)
    ensures Present(a) ==> r == a.value
    ensures !Present(a) ==> r == b
  {
    if Present(a) then a.value else b
  }

  /** `{...o}` for an object or `undefined`/`null`: its own fields, or none. */
  function Spread(o: Option<Json>): Record {
    if o.Some? && o.value.JObj? then o.value.fields else map[]
  }

  /** `String(j)`, as a template literal renders it; arrays join their elements with commas. */
  function ToText(j: Json): string {
    match j
    case JNull => "null"
    case JBool(b) => if b then "true" else "false"
    case JNum(n) => IntToString(n)
    case JStr(s) => s
    case JArr(items) => ItemsText(items)
    case JObj(_) => "[object Object]"
  }

  /** `items.join(',')`, where `null` elements render as the empty string. */
  function ItemsText(items: seq<Json>): string
    decreases items
  {
    if items == [] then []
    else
      var head := if items[0].JNull? then [] else ToText(items[0]);
      if |items| == 1 then head else head + "," + ItemsText(items[1..])
  }

  /** `String(o)` of a possibly undefined value. */
  function OptText(o: Option<Json>): string {
    if o.Some? then ToText(o.value) else "undefined"
  }

  /** The string inside a value, when it is one. */
  function AsString(o: Option<Json>): Option<string> {
    if o.Some? && o.value.JStr? then Some(o.value.s) else None
  }

  /** A sequence of strings as a JSON array. */
  function Strings(xs: seq<string>): (j: Json)
    ensures j.JArr? && |j.items| == |xs|
    ensures forall i :: 0 <= i < |xs| ==> j.items[i] == JStr(xs[i])
  {
    JArr(seq(|xs|, i requires 0 <= i < |xs| => JStr(xs[i])))
  }

  /** The strings of a stored list; entries that are not strings are not kept. */
  function Names(j: Json): seq<string> {
    if j.JArr? then NamesOf(j.items) else []
  }

  function NamesOf(items: seq<Json>): (r: seq<string>)
    ensures |r| <= |items|
  {
    if items == [] then []
    else (if items[0].JStr? then [items[0].s] else []) + NamesOf(items[1..])
  }

  /** A list saved as strings reads back unchanged. */
  lemma {:induction false} NamesOfStrings(xs: seq<string>)
    ensures Names(Strings(xs)) == xs
  {
    if xs != [] {
      var items := Strings(xs).items;
      assert items[1..] == Strings(xs[1..]).items;
      NamesOfStrings(xs[1..]);
    }
  }
}
