/** `$ref` resolution and example-payload synthesis for the OpenAPI
    importer: a restricted form of the references of RFC 6901 (`#/a/b/c`, no `~0`/`~1` escapes)
    and a depth-bounded interpreter over JSON-Schema-like values. */
module Schema {
  import opened Wrappers
  import opened Seqs
  import opened Strings
  import opened Json

  /** The value reached by following `parts` from `current`, or None as soon
      as a step gives a missing or falsy value. */
  function Walk(parts: seq<string>, current: Json): (r: Option<Json>)
    ensures r.Some? && parts != [] ==> Truthy(r.value)
  {
    if parts == [] then Some(current)
    else
      var next := Get(current, parts[0]);
      if !Present(next) then None else Walk(parts[1..], next.value)
  }

  /** What `resolveRef(ref, root)` returns, None standing for `null`: only
      references that start with `#/` are followed, one `/`-separated step
      at a time. */
  function Resolve(ref: string, root: Json): (r: Option<Json>)
    ensures !("#/" <= ref) ==> r == None
    ensures r.Some? ==> Truthy(r.value)
  {
    if "#/" <= ref then Walk(Split(ref[2..], '/'), root) else None
  }

  /** Following `p + q` is following `p`, then `q` from where `p` ended. */
  lemma {:induction false} WalkAppend(p: seq<string>, q: seq<string>, x: Json)
    ensures Walk(p + q, x) == if Walk(p, x).None? then None else Walk(q, Walk(p, x).value)
  {
    if p == [] {
      assert p + q == q;
    } else {
      assert (p + q)[0] == p[0] && (p + q)[1..] == p[1..] + q;
      var next := Get(x, p[0]);
      if Present(next) {
        WalkAppend(p[1..], q, next.value);
      }
    }
  }

  /** Resolution stops with None at the first missing or falsy step, whatever
      the later steps are. */
  lemma WalkStopsAtMissingStep(parts: seq<string>, x: Json, i: nat)
    requires i < |parts| && Walk(parts[..i], x).Some?
    requires !Present(Get(Walk(parts[..i], x).value, parts[i]))
    ensures Walk(parts, x) == None
  {
    WalkAppend(parts[..i], parts[i..], x);
    assert parts[..i] + parts[i..] == parts;
  }

  /** One step of the walk along a suffix of the path. */
  lemma WalkSuffixStep(parts: seq<string>, i: nat, current: Json)
    requires i < |parts|
    ensures var next := Get(current, parts[i]);
      Walk(parts[i..], current) == if !Present(next) then None else Walk(parts[i + 1..], next.value)
  {
    assert parts[i..][0] == parts[i] && parts[i..][1..] == parts[i + 1..];
  }

  /** `resolveRef`: a loop that moves `current` one step per path segment. */
  method ResolveRef(ref: string, root: Json) returns (r: Option<Json>)
    ensures r == Resolve(ref, root)
  {
    if !("#/" <= ref) {
      return None;
    }
    var parts := Split(ref[2..], '/');
    var current := root;
    var i := 0;
    while i < |parts|
      invariant 0 <= i <= |parts|
      invariant Walk(parts[i..], current) == Walk(parts, root)
    {
      var next := Get(current, parts[i]);
      WalkSuffixStep(parts, i, current);
      if !Present(next) {
        return None;
      }
      current := next.value;
      i := i + 1;
    }
    return Some(current);
  }

  /** Recursion below this depth gives `null` (the guard against `$ref` cycles). */
  const MaxDepth: nat := 8

  const SampleEmail := "user@example.com"
  const SampleUuid := "3fa85f64-5717-4562-b3fc-2c963f66afa6"

  /** Termination measure: the calls left before the depth guard fires. */
  function Budget(depth: nat): nat {
    if depth <= MaxDepth + 1 then MaxDepth + 2 - depth else 0
  }

  predicate HasType(schema: Json, t: string) {
    Get(schema, "type") == Some(JStr(t))
  }

  predicate IsNonEmptyArray(o: Option<Json>) {
    o.Some? && o.value.JArr? && |o.value.items| > 0
  }

  /** The sample string for a `type: "string"` schema with format `format`;
      `now` is the ISO-8601 timestamp `new Date().toISOString()` gives. */
  function StringExample(format: Option<Json>, now: string): string {
    if format == Some(JStr("date-time")) then now
    else if format == Some(JStr("date")) then Split(now, 'T')[0]
    else if format == Some(JStr("email")) then SampleEmail
    else if format == Some(JStr("uuid")) then SampleUuid
    else "string"
  }

  /** `generateExampleFromSchema(schema, root, depth)`. Threw stands for the
      `TypeError` of `allOf.forEach` on a truthy `allOf` that is not an
      array. */
  function Example(schema: Json, root: Json, depth: nat, now: string): Outcome<Json>
    decreases Budget(depth), 0
  {
    if depth > MaxDepth || !Truthy(schema) then Done(JNull)
    else if Present(Get(schema, "$ref")) then
      var ref := Get(schema, "$ref").value;
      var resolved := if ref.JStr? then Resolve(ref.s, root) else None;
      if resolved.Some? then Example(resolved.value, root, depth + 1, now) else Done(JNull)
    else if Present(Get(schema, "allOf")) then
      var members := Get(schema, "allOf").value;
      if members.JArr? then MergeExamples(members.items, root, depth + 1, now, []) else Threw
    else if Get(schema, "example").Some? then Done(Get(schema, "example").value)
    else if Get(schema, "default").Some? then Done(Get(schema, "default").value)
    else if IsNonEmptyArray(Get(schema, "enum")) then Done(Get(schema, "enum").value.items[0])
    else if HasType(schema, "object") || Present(Get(schema, "properties")) then
      var props := Get(schema, "properties");
      if Present(props) then ObjectExample(Entries(props.value), root, depth + 1, now, []) else Done(JObj([]))
    else if HasType(schema, "array") then ArrayExample(Get(schema, "items"), root, depth + 1, now)
    else if HasType(schema, "string") then Done(JStr(StringExample(Get(schema, "format"), now)))
    else if HasType(schema, "integer") || HasType(schema, "number") then Done(JNum(0))
    else if HasType(schema, "boolean") then Done(JBool(true))
    else Done(JNull)
  }

  /** The `array` branch: no `items` gives an empty array, a tuple of item
      schemas one example each, a single item schema a one-element array. */
  function ArrayExample(items: Option<Json>, root: Json, depth: nat, now: string): Outcome<Json>
    decreases Budget(depth), if items.Some? && items.value.JArr? then |items.value.items| + 2 else 1
  {
    if !Present(items) then Done(JArr([]))
    else if items.value.JArr? then
      match ItemsExample(items.value.items, root, depth, now)
      case Done(es) => Done(JArr(es))
      case Threw => Threw
    else
      match Example(items.value, root, depth, now)
      case Done(e) => Done(JArr([e]))
      case Threw => Threw
  }

  /** The `allOf` loop: each member's example, when it is an object (arrays
      included, as `typeof` says), is spread over `merged`. */
  function MergeExamples(members: seq<Json>, root: Json, depth: nat, now: string, merged: seq<(string, Json)>): Outcome<Json>
    decreases Budget(depth), |members| + 1
  {
    if members == [] then Done(JObj(merged))
    else
      match Example(members[0], root, depth, now)
      case Threw => Threw
      case Done(e) => MergeExamples(members[1..], root, depth, now, Absorb(merged, e))
  }

  /** `Object.assign`-style merge of one member's example: objects (arrays
      included, as `typeof` says) are spread, anything else is ignored. */
  function Absorb(merged: seq<(string, Json)>, e: Json): seq<(string, Json)> {
    if e.JObj? || e.JArr? then Spread(merged, Entries(e)) else merged
  }

  /** One step of the `allOf` loop. */
  lemma MergeStep(members: seq<Json>, root: Json, depth: nat, now: string, merged: seq<(string, Json)>)
    requires members != [] && MergeExamples(members, root, depth, now, merged).Done?
    ensures Example(members[0], root, depth, now).Done?
    ensures MergeExamples(members, root, depth, now, merged)
         == MergeExamples(members[1..], root, depth, now, Absorb(merged, Example(members[0], root, depth, now).value))
  {
  }

  /** The `properties` loop: `obj[key] = example of the property's schema`. */
  function ObjectExample(props: seq<(string, Json)>, root: Json, depth: nat, now: string, obj: seq<(string, Json)>): Outcome<Json>
    decreases Budget(depth), |props| + 1
  {
    if props == [] then Done(JObj(obj))
    else
      match Example(props[0].1, root, depth, now)
      case Threw => Threw
      case Done(e) => ObjectExample(props[1..], root, depth, now, Assign(obj, props[0].0, e))
  }

  /** The tuple form of `items`: one example per item schema. */
  function ItemsExample(items: seq<Json>, root: Json, depth: nat, now: string): Outcome<seq<Json>>
    decreases Budget(depth), |items| + 1
  {
    if items == [] then Done([])
    else
      match Example(items[0], root, depth, now)
      case Threw => Threw
      case Done(e) =>
        match ItemsExample(items[1..], root, depth, now)
        case Threw => Threw
        case Done(es) => Done([e] + es)
  }

  /** A schema that reaches the type-based branches: truthy, and without
      `$ref`, `allOf`, `example`, `default` or a non-empty `enum`. */
  predicate Plain(schema: Json) {
    && Truthy(schema)
    && !Present(Get(schema, "$ref"))
    && !Present(Get(schema, "allOf"))
    && Get(schema, "example").None?
    && Get(schema, "default").None?
    && !IsNonEmptyArray(Get(schema, "enum"))
  }

  /** Past the maximum depth the generator stops with `null`. */
  lemma DepthGuard(schema: Json, root: Json, depth: nat, now: string)
    requires depth > MaxDepth
    ensures Example(schema, root, depth, now) == Done(JNull)
  {
  }

  /** The branches are tried in a fixed order: `$ref`, then `allOf`, then
      `example`, then `default`, then the first `enum` value; a field of a
      later branch is ignored when an earlier one applies. */
  lemma Precedence(schema: Json, root: Json, depth: nat, now: string)
    requires depth <= MaxDepth && Truthy(schema)
    ensures var r := Example(schema, root, depth, now);
      && (Present(Get(schema, "$ref")) ==>
            var ref := Get(schema, "$ref").value;
            r == if ref.JStr? && Resolve(ref.s, root).Some?
                 then Example(Resolve(ref.s, root).value, root, depth + 1, now) else Done(JNull))
      && (!Present(Get(schema, "$ref")) && Present(Get(schema, "allOf")) ==>
            var members := Get(schema, "allOf").value;
            r == if members.JArr? then MergeExamples(members.items, root, depth + 1, now, []) else Threw)
      && (!Present(Get(schema, "$ref")) && !Present(Get(schema, "allOf")) && Get(schema, "example").Some? ==>
            r == Done(Get(schema, "example").value))
      && (!Present(Get(schema, "$ref")) && !Present(Get(schema, "allOf")) && Get(schema, "example").None?
          && Get(schema, "default").Some? ==>
            r == Done(Get(schema, "default").value))
      && (!Present(Get(schema, "$ref")) && !Present(Get(schema, "allOf")) && Get(schema, "example").None?
          && Get(schema, "default").None? && IsNonEmptyArray(Get(schema, "enum")) ==>
            r == Done(Get(schema, "enum").value.items[0]))
  {
  }

  /** A cycle of `$ref`s (each schema's reference resolves to the next, the
      last to the first) terminates and yields `null` from any member. */
  lemma {:induction false} RefCycleIsNull(cycle: seq<Json>, root: Json, i: nat, depth: nat, now: string)
    requires i < |cycle|
    requires forall k :: 0 <= k < |cycle| ==>
      && Present(Get(cycle[k], "$ref")) && Get(cycle[k], "$ref").value.JStr? && Truthy(cycle[k])
      && Resolve(Get(cycle[k], "$ref").value.s, root) == Some(cycle[(k + 1) % |cycle|])
    ensures Example(cycle[i], root, depth, now) == Done(JNull)
    decreases Budget(depth)
  {
    if depth <= MaxDepth {
      RefCycleIsNull(cycle, root, (i + 1) % |cycle|, depth + 1, now);
    }
  }

  predicate DistinctKeys(fields: seq<(string, Json)>) {
    forall i, j :: 0 <= i < j < |fields| ==> fields[i].0 != fields[j].0
  }

  /** One step of the `properties` loop. */
  lemma ObjectStep(props: seq<(string, Json)>, root: Json, depth: nat, now: string, obj: seq<(string, Json)>)
    requires props != [] && ObjectExample(props, root, depth, now, obj).Done?
    ensures Example(props[0].1, root, depth, now).Done?
    ensures ObjectExample(props, root, depth, now, obj)
         == ObjectExample(props[1..], root, depth, now, Assign(obj, props[0].0, Example(props[0].1, root, depth, now).value))
  {
  }

  /** Once the first property is assigned, the remaining ones are still new. */
  lemma TailStaysFresh(props: seq<(string, Json)>, obj: seq<(string, Json)>, next: seq<(string, Json)>)
    requires props != [] && DistinctKeys(props)
    requires forall i :: 0 <= i < |props| ==> props[i].0 !in Keys(obj)
    requires Keys(next) == Keys(obj) + [props[0].0]
    ensures DistinctKeys(props[1..])
    ensures forall i :: 0 <= i < |props[1..]| ==> props[1..][i].0 !in Keys(next)
  {
    forall i | 0 <= i < |props[1..]| ensures props[1..][i].0 !in Keys(next) {
      assert props[1..][i] == props[i + 1];
    }
  }

  /** The object built from `properties` has exactly their keys, in order. */
  lemma {:induction false} ObjectExampleKeys(props: seq<(string, Json)>, root: Json, depth: nat, now: string, obj: seq<(string, Json)>)
    requires DistinctKeys(props)
    requires forall i :: 0 <= i < |props| ==> props[i].0 !in Keys(obj)
    requires ObjectExample(props, root, depth, now, obj).Done?
    ensures ObjectExample(props, root, depth, now, obj).value.JObj?
    ensures Keys(ObjectExample(props, root, depth, now, obj).value.fields) == Keys(obj) + Keys(props)
    decreases |props|
  {
    if props != [] {
      ObjectStep(props, root, depth, now, obj);
      var next := Assign(obj, props[0].0, Example(props[0].1, root, depth, now).value);
      KeysCons(props);
      AssignKeys(obj, props[0].0, Example(props[0].1, root, depth, now).value);
      TailStaysFresh(props, obj, next);
      ObjectExampleKeys(props[1..], root, depth, now, next);
      ConcatAssoc(Keys(obj), [props[0].0], Keys(props[1..]));
    }
  }

  /** In the object built from `properties`, each key is bound to the
      example of its own schema. */
  lemma {:induction false} ObjectExampleValues(props: seq<(string, Json)>, root: Json, depth: nat, now: string, obj: seq<(string, Json)>, i: nat)
    requires DistinctKeys(props) && i < |props|
    requires ObjectExample(props, root, depth, now, obj).Done?
    ensures Example(props[i].1, root, depth, now).Done?
    ensures ObjectExample(props, root, depth, now, obj).value.JObj?
    ensures Lookup(ObjectExample(props, root, depth, now, obj).value.fields, props[i].0) == Some(Example(props[i].1, root, depth, now).value)
    decreases |props|
  {
    var e := Example(props[0].1, root, depth, now).value;
    var next := Assign(obj, props[0].0, e);
    assert ObjectExample(props, root, depth, now, obj) == ObjectExample(props[1..], root, depth, now, next);
    if i == 0 {
      forall k | 0 <= k < |props[1..]| ensures props[1..][k].0 != props[0].0 {
        assert props[1..][k] == props[k + 1];
      }
      ObjectExampleKeepsKeys(props[1..], root, depth, now, next, props[0].0);
      AssignLookup(obj, props[0].0, e, props[0].0);
    } else {
      assert props[1..][i - 1] == props[i];
      ObjectExampleValues(props[1..], root, depth, now, next, i - 1);
    }
  }

  /** A key that no later property names keeps its value while the object is built. */
  lemma {:induction false} ObjectExampleKeepsKeys(props: seq<(string, Json)>, root: Json, depth: nat, now: string, obj: seq<(string, Json)>, k: string)
    requires forall i :: 0 <= i < |props| ==> props[i].0 != k
    requires ObjectExample(props, root, depth, now, obj).Done?
    ensures ObjectExample(props, root, depth, now, obj).value.JObj?
    ensures Lookup(ObjectExample(props, root, depth, now, obj).value.fields, k) == Lookup(obj, k)
    decreases |props|
  {
    if props != [] {
      var e := Example(props[0].1, root, depth, now).value;
      AssignLookup(obj, props[0].0, e, k);
      ObjectExampleKeepsKeys(props[1..], root, depth, now, Assign(obj, props[0].0, e), k);
    }
  }

  /** The tuple form gives one example per item schema, in order. */
  lemma {:induction false} ItemsExampleElements(items: seq<Json>, root: Json, depth: nat, now: string)
    requires ItemsExample(items, root, depth, now).Done?
    ensures var es := ItemsExample(items, root, depth, now).value;
      && |es| == |items|
      && forall i :: 0 <= i < |items| ==> Example(items[i], root, depth, now) == Done(es[i])
    decreases |items|
  {
    if items != [] {
      ItemsExampleElements(items[1..], root, depth, now);
      var es := ItemsExample(items, root, depth, now).value;
      forall i | 0 <= i < |items| ensures Example(items[i], root, depth, now) == Done(es[i]) {
        if i > 0 {
          assert items[1..][i - 1] == items[i];
        }
      }
    }
  }

  /** An object schema gives an object with exactly the keys of its
      `properties`, or `{}` without them. */
  lemma ObjectShape(schema: Json, root: Json, depth: nat, now: string)
    requires depth <= MaxDepth && Plain(schema)
    requires HasType(schema, "object") || Present(Get(schema, "properties"))
    requires Present(Get(schema, "properties")) ==> Get(schema, "properties").value.JObj? && DistinctKeys(Get(schema, "properties").value.fields)
    requires Example(schema, root, depth, now).Done?
    ensures var v := Example(schema, root, depth, now).value;
      && v.JObj?
      && Keys(v.fields) == if Present(Get(schema, "properties")) then Keys(Get(schema, "properties").value.fields) else []
  {
    var props := Get(schema, "properties");
    if Present(props) {
      ObjectExampleKeys(props.value.fields, root, depth + 1, now, []);
      assert Keys([]) + Keys(props.value.fields) == Keys(props.value.fields);
    }
  }

  /** An array schema (without `properties`) gives as many elements as the
      tuple has schemas, one for a single `items` schema, none without
      `items`. */
  lemma ArrayShape(schema: Json, root: Json, depth: nat, now: string)
    requires depth <= MaxDepth && Plain(schema)
    requires HasType(schema, "array") && !Present(Get(schema, "properties"))
    requires Example(schema, root, depth, now).Done?
    ensures var v := Example(schema, root, depth, now).value;
      var items := Get(schema, "items");
      && v.JArr?
      && |v.items| == if !Present(items) then 0 else if items.value.JArr? then |items.value.items| else 1
  {
    var items := Get(schema, "items");
    if Present(items) && items.value.JArr? {
      ItemsExampleElements(items.value.items, root, depth + 1, now);
    }
  }

  predicate KnownPrimitive(schema: Json) {
    HasType(schema, "string") || HasType(schema, "integer") || HasType(schema, "number") || HasType(schema, "boolean")
  }

  /** The primitive types: a sample string, 0 for integers and numbers,
      `true` for booleans and `null` for anything else. */
  lemma PrimitiveShape(schema: Json, root: Json, depth: nat, now: string)
    requires depth <= MaxDepth && Plain(schema)
    requires !HasType(schema, "object") && !HasType(schema, "array") && !Present(Get(schema, "properties"))
    ensures var r := Example(schema, root, depth, now);
      && (HasType(schema, "string") ==> r == Done(JStr(StringExample(Get(schema, "format"), now))))
      && (HasType(schema, "integer") || HasType(schema, "number") ==> r == Done(JNum(0)))
      && (HasType(schema, "boolean") ==> r == Done(JBool(true)))
      && (!KnownPrimitive(schema) ==> r == Done(JNull))
  {
  }

  /** Whatever `allOf` produces is an object. */
  lemma {:induction false} MergeIsObject(members: seq<Json>, root: Json, depth: nat, now: string, merged: seq<(string, Json)>)
    requires MergeExamples(members, root, depth, now, merged).Done?
    ensures MergeExamples(members, root, depth, now, merged).value.JObj?
    decreases |members|
  {
    if members != [] {
      MergeStep(members, root, depth, now, merged);
      MergeIsObject(members[1..], root, depth, now, Absorb(merged, Example(members[0], root, depth, now).value));
    }
  }

  /** In `allOf`, the keys of the last member's object example win: each of
      them carries the value that member gives it. */
  lemma {:induction false} AllOfLastMemberWins(members: seq<Json>, root: Json, depth: nat, now: string, merged: seq<(string, Json)>, key: string)
    requires |members| >= 1
    requires MergeExamples(members, root, depth, now, merged).Done?
    requires var last := Example(members[|members| - 1], root, depth, now);
      last.Done? && (last.value.JObj? || last.value.JArr?) && key in Keys(Entries(last.value))
    ensures var v := MergeExamples(members, root, depth, now, merged).value;
      v.JObj? && Lookup(v.fields, key) == LastBinding(Entries(Example(members[|members| - 1], root, depth, now).value), key)
    decreases |members|
  {
    if |members| == 1 {
      assert members == [members[0]];
      LastMemberAlone(members[0], root, depth, now, merged, key);
    } else {
      MergeStep(members, root, depth, now, merged);
      var next := Absorb(merged, Example(members[0], root, depth, now).value);
      var rest := members[1..];
      Seqs.LastOfTail(members);
      assert rest[|rest| - 1] == members[|members| - 1];
      AllOfLastMemberWins(rest, root, depth, now, next, key);
    }
  }

  /** Where `allOf` takes a key's value from: the last member whose
      example is an object (arrays included) naming the key gives its
      binding there; string, number, boolean and `null` examples are
      passed over; with no such member the key keeps its value in
      `merged`. */
  function Latest(members: seq<Json>, root: Json, depth: nat, now: string, merged: seq<(string, Json)>, key: string): Option<Json>
    decreases |members|
  {
    if members == [] then Lookup(merged, key)
    else
      var e := Example(members[|members| - 1], root, depth, now);
      if Names(e, key) then LastBinding(Entries(e.value), key)
      else Latest(members[..|members| - 1], root, depth, now, merged, key)
  }

  /** A member's example is an object (or array) with a property `key`. */
  predicate Names(e: Outcome<Json>, key: string) {
    e.Done? && (e.value.JObj? || e.value.JArr?) && key in Keys(Entries(e.value))
  }

  /** In `allOf` every key takes its value from the latest member whose
      object example names it, or else keeps the value it had in
      `merged`; members whose example is not an object change nothing. */
  lemma {:induction false} AllOfLatestWins(members: seq<Json>, root: Json, depth: nat, now: string, merged: seq<(string, Json)>, key: string)
    requires MergeExamples(members, root, depth, now, merged).Done?
    ensures var v := MergeExamples(members, root, depth, now, merged).value;
      v.JObj? && Lookup(v.fields, key) == Latest(members, root, depth, now, merged, key)
    decreases |members|
  {
    if members != [] {
      MergeStep(members, root, depth, now, merged);
      var next := Absorb(merged, Example(members[0], root, depth, now).value);
      AllOfLatestWins(members[1..], root, depth, now, next, key);
      LatestFront(members, root, depth, now, merged, key);
    }
  }

  /** `Latest` read from the front: absorbing the first member's example
      into `merged` and looking through the rest gives the same value. */
  lemma {:induction false} LatestFront(members: seq<Json>, root: Json, depth: nat, now: string, merged: seq<(string, Json)>, key: string)
    requires members != [] && Example(members[0], root, depth, now).Done?
    ensures Latest(members, root, depth, now, merged, key)
         == Latest(members[1..], root, depth, now, Absorb(merged, Example(members[0], root, depth, now).value), key)
    decreases |members|
  {
    if |members| == 1 {
      assert members == [members[0]];
      LatestSingle(members[0], root, depth, now, merged, key);
    } else {
      var n := |members|;
      var init := members[..n - 1];
      var rest := members[1..];
      assert rest[|rest| - 1] == members[n - 1];
      if !Names(Example(members[n - 1], root, depth, now), key) {
        assert init[0] == members[0];
        assert rest[..|rest| - 1] == init[1..];
        LatestFront(init, root, depth, now, merged, key);
      }
    }
  }

  /** `Latest` of a single member: its object example, spread over
      `merged`, gives the value. */
  lemma LatestSingle(member: Json, root: Json, depth: nat, now: string, merged: seq<(string, Json)>, key: string)
    requires Example(member, root, depth, now).Done?
    ensures Latest([member], root, depth, now, merged, key)
         == Lookup(Absorb(merged, Example(member, root, depth, now).value), key)
  {
    var e := Example(member, root, depth, now).value;
    assert [member][..0] == [];
    if e.JObj? || e.JArr? {
      SpreadLookup(merged, Entries(e), key);
    }
  }

  /** The base case: merging a single object example. */
  lemma LastMemberAlone(member: Json, root: Json, depth: nat, now: string, merged: seq<(string, Json)>, key: string)
    requires var e := Example(member, root, depth, now);
      e.Done? && (e.value.JObj? || e.value.JArr?) && key in Keys(Entries(e.value))
    ensures MergeExamples([member], root, depth, now, merged).Done?
    ensures var v := MergeExamples([member], root, depth, now, merged).value;
      v.JObj? && Lookup(v.fields, key) == LastBinding(Entries(Example(member, root, depth, now).value), key)
  {
    var e := Example(member, root, depth, now).value;
    MergeOne(member, root, depth, now, merged);
    assert Absorb(merged, e) == Spread(merged, Entries(e));
    SpreadLookup(merged, Entries(e), key);
  }

  /** Merging a single member absorbs its example into what was merged. */
  lemma MergeOne(member: Json, root: Json, depth: nat, now: string, merged: seq<(string, Json)>)
    requires Example(member, root, depth, now).Done?
    ensures MergeExamples([member], root, depth, now, merged)
         == Done(JObj(Absorb(merged, Example(member, root, depth, now).value)))
  {
    assert [member][0] == member && [member][1..] == [];
  }
}
