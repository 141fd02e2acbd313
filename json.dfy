/** JSON values as the extractor sees them after `r.json()`, together with the
    few JavaScript semantics the extractor relies on: truthiness, `typeof`,
    `Object.keys` enumeration, optional property access and string conversion. */
module JsonValue {
  import opened Wrappers

  /** A parsed JSON document. A number carries its canonical JavaScript
      rendering (the text `String(n)` gives), so truthiness and string
      conversion need no floating point. An object's entries are its own
      keys, distinct, in enumeration order. */
  datatype Json =
    | JNull
    | JBool(b: bool)
    | JNum(rendered: string)
    | JStr(s: string)
    | JArr(items: seq<Json>)
    | JObj(entries: seq<(string, Json)>)

  /** JavaScript truthiness: `null`, `false`, zero and the empty string are
      falsy; every array and object (even an empty one) is truthy. Both +0 and
      -0 render as "0"; JSON parsing never yields NaN. */
  predicate Truthy(j: Json) {
    match j
    case JNull => false
    case JBool(b) => b
    case JNum(r) => r != "0"
    case JStr(s) => s != ""
    case JArr(_) => true
    case JObj(_) => true
  }

  /** Truthiness of a value that may be `undefined`. */
  predicate TruthyOpt(v: Option<Json>) {
    v.Some? && Truthy(v.value)
  }

  /** `x != null` in JavaScript: false for both `undefined` and `null`. */
  predicate NotNullish(v: Option<Json>) {
    v.Some? && !v.value.JNull?
  }

  /** `typeof j === "object"`: null, arrays and objects. */
  predicate IsObject(j: Json) {
    j.JNull? || j.JArr? || j.JObj?
  }

  /** The number of keys `Object.keys(j)` enumerates. */
  function Count(j: Json): nat {
    match j
    case JArr(items) => |items|
    case JObj(es) => |es|
    case _ => 0
  }

  predicate IsDigit(c: char) {
    '0' <= c <= '9'
  }

  /** The decimal text of an array index, as `Object.keys` yields it. */
  function IndexKey(i: nat): string {
    var d := ['0', '1', '2', '3', '4', '5', '6', '7', '8', '9'][i % 10];
    if i < 10 then [d] else IndexKey(i / 10) + [d]
  }

  /** An index key is a non-empty run of decimal digits. */
  lemma {:induction false} IndexKeyDigits(i: nat)
    ensures |IndexKey(i)| > 0
    ensures forall m :: 0 <= m < |IndexKey(i)| ==> IsDigit(IndexKey(i)[m])
  {
    if i >= 10 {
      IndexKeyDigits(i / 10);
    }
  }

  /** The i-th key `Object.keys(j)` enumerates: an index for an array, the
      entry's own key for an object. */
  function KeyAt(j: Json, i: nat): string
    requires i < Count(j)
  {
    if j.JArr? then IndexKey(i) else j.entries[i].0
  }

  /** A measure on JSON trees that every child is strictly below. */
  function Size(j: Json): nat
    decreases j, Count(j) + 1
  {
    1 + ChildSizes(j, 0)
  }

  function ChildSizes(j: Json, i: nat): nat
    decreases j, Count(j) - i
  {
    if i >= Count(j) then 0
    else
      match j
      case JArr(items) => Size(items[i]) + ChildSizes(j, i + 1)
      case JObj(es) => Size(es[i].1) + ChildSizes(j, i + 1)
  }

  lemma {:induction false} ChildSizesBound(j: Json, from: nat, i: nat)
    requires from <= i < Count(j)
    ensures Size(if j.JArr? then j.items[i] else j.entries[i].1) <= ChildSizes(j, from)
    decreases i - from
  {
    if from < i {
      ChildSizesBound(j, from + 1, i);
    }
  }

  /** `j[KeyAt(j, i)]`: the value stored under the i-th key. */
  function ValAt(j: Json, i: nat): (v: Json)
    requires i < Count(j)
    ensures Size(v) < Size(j)
  {
    ChildSizesBound(j, 0, i);
    if j.JArr? then j.items[i] else j.entries[i].1
  }

  /** Value of the first entry of `es` whose key is `name`. */
  function Lookup(es: seq<(string, Json)>, name: string): (r: Option<Json>)
    ensures r.Some? <==> exists i :: 0 <= i < |es| && es[i].0 == name
    ensures r.Some? ==> exists i :: 0 <= i < |es| && es[i] == (name, r.value)
  {
    if es == [] then None
    else if es[0].0 == name then Some(es[0].1)
    else
      var r := Lookup(es[1..], name);
      assert r.Some? ==> exists i :: 0 <= i < |es| - 1 && es[1..][i] == (name, r.value);
      r
  }

  /** `v?.name` for one of the plain property names the extractor reads
      (`pageProps`, `data`, `props`, `name`, `teamName`): an own key of an
      object; `undefined` for null, `undefined`, primitives and arrays. */
  function Prop(v: Option<Json>, name: string): Option<Json> {
    if v.Some? && v.value.JObj? then Lookup(v.value.entries, name) else None
  }

  /** JavaScript `a || b` on values that may be `undefined`. */
  function Or(a: Option<Json>, b: Option<Json>): Option<Json> {
    if TruthyOpt(a) then a else b
  }

  /** The string JavaScript's `String(v)` (and a template literal) gives. For
      arrays and objects this is supplied as `objectText`. */
  function Render(v: Json, objectText: Json -> string): string {
    match v
    case JNull => "null"
    case JBool(b) => if b then "true" else "false"
    case JNum(r) => r
    case JStr(s) => s
    case JArr(_) => objectText(v)
    case JObj(_) => objectText(v)
  }
}
