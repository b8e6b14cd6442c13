/** JSON values as JavaScript sees them after `JSON.parse`, and the handful
    of JavaScript operations the importers apply to them: truthiness,
    property access, `Object.entries`, object spread and `String(x)`. */
module Json {
  import opened Wrappers
  import opened Strings

  /** An object is the sequence of its properties in enumeration order
      (the order `Object.keys` reports). Numbers are integers. */
  datatype Json =
    | JNull
    | JBool(b: bool)
    | JNum(n: int)
    | JStr(s: string)
    | JArr(items: seq<Json>)
    | JObj(fields: seq<(string, Json)>)

  /** JavaScript truthiness: `null`, `false`, `0` and `""` are falsy. */
  predicate Truthy(j: Json) {
    match j
    case JNull => false
    case JBool(b) => b
    case JNum(n) => n != 0
    case JStr(s) => s != ""
    case _ => true
  }

  /** Truthiness of a property read that may give `undefined` (None). */
  predicate Present(o: Option<Json>) {
    o.Some? && Truthy(o.value)
  }

  function Keys(fields: seq<(string, Json)>): (r: seq<string>)
    ensures |r| == |fields| && forall i :: 0 <= i < |fields| ==> r[i] == fields[i].0
  {
    seq(|fields|, i requires 0 <= i < |fields| => fields[i].0)
  }

  lemma KeysCons(fields: seq<(string, Json)>)
    requires fields != []
    ensures Keys(fields) == [fields[0].0] + Keys(fields[1..])
  {
  }

  /** The value bound to `key`, or None when `key` is not a property. */
  function Lookup(fields: seq<(string, Json)>, key: string): (r: Option<Json>)
    ensures r.Some? <==> key in Keys(fields)
    ensures r.Some? ==> exists i :: 0 <= i < |fields| && fields[i] == (key, r.value)
  {
    if fields == [] then None
    else if fields[0].0 == key then Some(fields[0].1)
    else
      assert Keys(fields) == [fields[0].0] + Keys(fields[1..]);
      var r := Lookup(fields[1..], key);
      assert r.Some? ==> exists i :: 0 <= i < |fields[1..]| && fields[1..][i] == (key, r.value);
      r
  }

  /** Property access `j[key]`: a named property of an object, an element
      of an array or a one-character string of a string under a canonical
      index key, the `length` of an array or a string, and `undefined`
      (None) otherwise. */
  function Get(j: Json, key: string): (r: Option<Json>)
    ensures r.Some? && !j.JStr? && !(j.JArr? && key == "length") ==> r.value < j
    ensures r.Some? && (j.JStr? || j.JArr?) ==> ParseIndex(key).Some? || key == "length"
  {
    match j
    case JObj(fields) =>
      var r := Lookup(fields, key);
      if r.Some? then
        var i :| 0 <= i < |fields| && fields[i] == (key, r.value);
        assert fields[i].1 < j;
        r
      else r
    case JArr(items) =>
      var ix := ParseIndex(key);
      if ix.Some? && ix.value < |items| then Some(items[ix.value])
      else if key == "length" then Some(JNum(|items|)) else None
    case JStr(s) =>
      var ix := ParseIndex(key);
      if ix.Some? && ix.value < |s| then Some(JStr([s[ix.value]]))
      else if key == "length" then Some(JNum(|s|)) else None
    case _ => None
  }

  /** The `length` of an array or a string is a property that reads as
      the number of its elements or characters. */
  lemma GetLength(j: Json)
    requires j.JArr? || j.JStr?
    ensures Get(j, "length") == Some(JNum(if j.JArr? then |j.items| else |j.s|))
  {
    assert !IsDigit("length"[0]);
  }

  /** `j?.[key]`: property access that gives `undefined` on `undefined`. */
  function Path(o: Option<Json>, key: string): Option<Json> {
    if o.None? then None else Get(o.value, key)
  }

  /** `Object.entries(j)` for a non-null `j`: the properties of an object,
      the index/element pairs of an array or of a string, and nothing for
      a number or a boolean. */
  function Entries(j: Json): (r: seq<(string, Json)>)
    ensures j.JObj? ==> r == j.fields
    ensures j.JArr? ==> |r| == |j.items| && forall i :: 0 <= i < |r| ==> r[i] == (NatToString(i), j.items[i])
  {
    match j
    case JObj(fields) => fields
    case JArr(items) => seq(|items|, i requires 0 <= i < |items| => (NatToString(i), items[i]))
    case JStr(s) => seq(|s|, i requires 0 <= i < |s| => (NatToString(i), JStr([s[i]])))
    case _ => []
  }

  /** `obj[key] = v`: an existing property keeps its place and takes the new
      value, a new one is added last (see AssignLookup and AssignKeys). */
  function Assign(fields: seq<(string, Json)>, key: string, v: Json): seq<(string, Json)> {
    if fields == [] then [(key, v)]
    else if fields[0].0 == key then [(key, v)] + fields[1..]
    else [fields[0]] + Assign(fields[1..], key, v)
  }

  /** After `obj[key] = v`, `obj[key]` is `v` and every other property reads
      as before. */
  lemma {:induction false} AssignLookup(fields: seq<(string, Json)>, key: string, v: Json, k: string)
    ensures Lookup(Assign(fields, key, v), k) == if k == key then Some(v) else Lookup(fields, k)
  {
    if fields != [] && fields[0].0 != key {
      AssignLookup(fields[1..], key, v, k);
    }
  }

  /** `obj[key] = v` keeps the key order and appends a key that is new. */
  lemma {:induction false} AssignKeys(fields: seq<(string, Json)>, key: string, v: Json)
    ensures Keys(Assign(fields, key, v)) == if key in Keys(fields) then Keys(fields) else Keys(fields) + [key]
  {
    if fields == [] {
      assert Keys([(key, v)]) == [key];
    } else if fields[0].0 == key {
      var r := [(key, v)] + fields[1..];
      KeysCons(fields);
      KeysCons(r);
      assert r[1..] == fields[1..];
    } else {
      var tail := Assign(fields[1..], key, v);
      var r := [fields[0]] + tail;
      AssignKeys(fields[1..], key, v);
      KeysCons(fields);
      KeysCons(r);
      assert r[1..] == tail;
      assert key in Keys(fields) <==> key in Keys(fields[1..]);
    }
  }

  /** `{ ...obj, ...other }` where `other` has the entries `es`. */
  function Spread(fields: seq<(string, Json)>, es: seq<(string, Json)>): seq<(string, Json)>
    decreases |es|
  {
    if es == [] then fields else Spread(Assign(fields, es[0].0, es[0].1), es[1..])
  }

  /** The value of the LAST entry of `es` named `key`. */
  function LastBinding(es: seq<(string, Json)>, key: string): (r: Option<Json>)
    ensures r.Some? <==> key in Keys(es)
  {
    if es == [] then None
    else
      assert Keys(es) == [es[0].0] + Keys(es[1..]);
      var t := LastBinding(es[1..], key);
      if t.Some? then t else if es[0].0 == key then Some(es[0].1) else None
  }

  /** Spreading `es` over an object: a key `es` names takes the value of
      its last entry there (later keys win), every other key keeps its
      value, and no key is lost. */
  lemma {:induction false} SpreadLookup(fields: seq<(string, Json)>, es: seq<(string, Json)>, key: string)
    ensures Lookup(Spread(fields, es), key) ==
      if key in Keys(es) then LastBinding(es, key) else Lookup(fields, key)
    decreases |es|
  {
    if es != [] {
      assert Keys(es) == [es[0].0] + Keys(es[1..]);
      SpreadLookup(Assign(fields, es[0].0, es[0].1), es[1..], key);
      AssignLookup(fields, es[0].0, es[0].1, key);
    }
  }

  /** `String(j)`; an array is joined with commas, `null` elements giving
      the empty string. */
  function ToJsString(j: Json): string
    decreases j, 1
  {
    match j
    case JNull => "null"
    case JBool(b) => if b then "true" else "false"
    case JNum(n) => IntToString(n)
    case JStr(s) => s
    case JArr(items) => JoinElements(items)
    case JObj(_) => "[object Object]"
  }

  function JoinElements(items: seq<Json>): string
    decreases items, 0
  {
    if items == [] then ""
    else
      var first := if items[0].JNull? then "" else ToJsString(items[0]);
      if |items| == 1 then first else first + "," + JoinElements(items[1..])
  }

  /** A property that the source stores into a string field: a string as
      is, another value in its `String()` form, `undefined` as "". */
  function TextOf(o: Option<Json>): string {
    if o.None? then "" else ToJsString(o.value)
  }

  /** `x || fallback` where the result is used as a string. */
  function TextOr(o: Option<Json>, fallback: string): string {
    if Present(o) then ToJsString(o.value) else fallback
  }

  /** The JSON library as a pair of opaque operations: `JSON.parse` (None
      when it throws) and `JSON.stringify(x, null, 2)`. */
  datatype JsonCodec = JsonCodec(parse: string -> Option<Json>, stringify: Json -> string)
}
