/** The Swagger/OpenAPI importer: every operation of every path becomes a
    request, grouped into one collection per first tag. */
module Swagger {
  import opened Wrappers
  import opened Seqs
  import opened Strings
  import opened Json
  import opened Types
  import Schema

  // ----- Slash normalisation -------------------------------------------

  /** `s.replace(/(?<!:)\/\//g, '/')` where `afterColon` says whether the
      character before `s` in the whole string is a colon. Matches are found
      left to right and do not overlap. */
  function CollapseFrom(s: string, afterColon: bool): string
    decreases |s|
  {
    if |s| >= 2 && s[0] == '/' && s[1] == '/' && !afterColon then "/" + CollapseFrom(s[2..], false)
    else if s == [] then []
    else [s[0]] + CollapseFrom(s[1..], s[0] == ':')
  }

  function CollapseSlashes(s: string): string {
    CollapseFrom(s, false)
  }

  /** `s` contains no run of three slashes. */
  predicate NoTripleSlash(s: string) {
    forall i :: 0 <= i < |s| - 2 ==> !(s[i] == '/' && s[i + 1] == '/' && s[i + 2] == '/')
  }

  /** Every double slash of `r` comes right after a colon (or, with
      `afterColon`, at the very start). */
  predicate OnlyAfterColon(r: string, afterColon: bool) {
    forall i :: 0 <= i < |r| - 1 && r[i] == '/' && r[i + 1] == '/' ==> (if i == 0 then afterColon else r[i - 1] == ':')
  }

  predicate NotSlash(c: char) {
    c != '/'
  }

  function WithoutSlashes(s: string): string {
    Filter(s, NotSlash)
  }

  /** Normalisation only ever deletes slashes. */
  lemma {:induction false} CollapseDeletesOnlySlashes(s: string, afterColon: bool)
    ensures WithoutSlashes(CollapseFrom(s, afterColon)) == WithoutSlashes(s)
    decreases |s|
  {
    if |s| >= 2 && s[0] == '/' && s[1] == '/' && !afterColon {
      CollapseDeletesOnlySlashes(s[2..], false);
      assert s == "/" + ("/" + s[2..]);
      FilterAppend("/", CollapseFrom(s[2..], false), NotSlash);
      FilterAppend("/", "/" + s[2..], NotSlash);
      FilterAppend("/", s[2..], NotSlash);
    } else if s != [] {
      CollapseDeletesOnlySlashes(s[1..], s[0] == ':');
      assert s == [s[0]] + s[1..];
      FilterAppend([s[0]], CollapseFrom(s[1..], s[0] == ':'), NotSlash);
      FilterAppend([s[0]], s[1..], NotSlash);
    }
  }

  /** A string with no double slash is left as it is. */
  lemma {:induction false} CollapseFixesPlain(s: string, afterColon: bool)
    requires forall i :: 0 <= i < |s| - 1 ==> !(s[i] == '/' && s[i + 1] == '/')
    ensures CollapseFrom(s, afterColon) == s
    decreases |s|
  {
    if s != [] {
      CollapseFixesPlain(s[1..], s[0] == ':');
    }
  }

  /** Normalisation keeps the first character. */
  lemma CollapseFirst(s: string, afterColon: bool)
    ensures CollapseFrom(s, afterColon) != [] <==> s != []
    ensures s != [] ==> CollapseFrom(s, afterColon)[0] == s[0]
  {
  }

  /** Without runs of three slashes, the only double slashes left are the
      ones after a colon, such as the one in `https://`. */
  lemma {:induction false} CollapseKeepsOnlyProtocolSlashes(s: string, afterColon: bool)
    requires NoTripleSlash(s)
    ensures OnlyAfterColon(CollapseFrom(s, afterColon), afterColon)
    decreases |s|
  {
    var r := CollapseFrom(s, afterColon);
    if |s| >= 2 && s[0] == '/' && s[1] == '/' && !afterColon {
      var rest := CollapseFrom(s[2..], false);
      assert NoTripleSlash(s[2..]) by {
        forall i | 0 <= i < |s[2..]| - 2 ensures !(s[2..][i] == '/' && s[2..][i + 1] == '/' && s[2..][i + 2] == '/') {
          assert s[2..][i] == s[i + 2] && s[2..][i + 1] == s[i + 3] && s[2..][i + 2] == s[i + 4];
        }
      }
      CollapseKeepsOnlyProtocolSlashes(s[2..], false);
      CollapseFirst(s[2..], false);
      assert r == "/" + rest;
      if |rest| > 0 {
        assert rest[0] == s[2];
        assert r[1] != '/';
      }
      forall i | 0 <= i < |r| - 1 && r[i] == '/' && r[i + 1] == '/'
        ensures (if i == 0 then afterColon else r[i - 1] == ':')
      {
        assert r[i] == rest[i - 1] && r[i + 1] == rest[i];
      }
    } else if s != [] {
      var rest := CollapseFrom(s[1..], s[0] == ':');
      assert NoTripleSlash(s[1..]) by {
        forall i | 0 <= i < |s[1..]| - 2 ensures !(s[1..][i] == '/' && s[1..][i + 1] == '/' && s[1..][i + 2] == '/') {
          assert s[1..][i] == s[i + 1] && s[1..][i + 1] == s[i + 2] && s[1..][i + 2] == s[i + 3];
        }
      }
      CollapseKeepsOnlyProtocolSlashes(s[1..], s[0] == ':');
      CollapseFirst(s[1..], s[0] == ':');
      assert r == [s[0]] + rest;
      if !afterColon && |rest| > 0 {
        assert rest[0] == s[1];
        assert !(r[0] == '/' && r[1] == '/');
      }
      forall i | 0 <= i < |r| - 1 && r[i] == '/' && r[i + 1] == '/'
        ensures (if i == 0 then afterColon else r[i - 1] == ':')
      {
        if i > 0 {
          assert r[i] == rest[i - 1] && r[i + 1] == rest[i];
        }
      }
    }
  }

  // ----- Base URL and tags ---------------------------------------------

  /** The base URL: the first server's `url`, else the origin of the address
      the document came from (`origin` is `new URL(u).origin`, None when the
      constructor throws), else "". */
  function BaseUrl(data: Json, sourceUrl: Option<string>, origin: string -> Option<string>): (r: string)
    ensures Present(Path(Path(Get(data, "servers"), "0"), "url")) ==> r == ToJsString(Path(Path(Get(data, "servers"), "0"), "url").value)
    ensures !Present(Path(Path(Get(data, "servers"), "0"), "url")) && (sourceUrl.None? || sourceUrl.value == "") ==> r == ""
  {
    var server := Path(Path(Get(data, "servers"), "0"), "url");
    if Present(server) then ToJsString(server.value)
    else if sourceUrl.Some? && sourceUrl.value != "" then
      match origin(sourceUrl.value)
      case Some(o) => o
      case None => ""
    else ""
  }

  /** `op.tags?.[0] || 'Default'`. */
  function TagOf(op: Json): string {
    TextOr(Path(Get(op, "tags"), "0"), "Default")
  }

  // ----- Operations ----------------------------------------------------

  /** One operation: its path, its method key as written, and its object. */
  datatype Operation = Operation(path: string, methodKey: string, op: Json)

  const AcceptedMethods: seq<string> := ["get", "post", "put", "delete", "patch"]

  predicate Accepted(methodKey: string) {
    Lower(methodKey) in AcceptedMethods
  }

  /** The operations of one path item, in key order; a `null` operation
      whose key is accepted throws when its tags are read. */
  function PathOperations(path: string, es: seq<(string, Json)>): (r: Outcome<seq<Operation>>)
    ensures r.Done? ==> forall o :: o in r.value ==> o.path == path && Accepted(o.methodKey) && !o.op.JNull?
  {
    if es == [] then Done([])
    else if !Accepted(es[0].0) then PathOperations(path, es[1..])
    else if es[0].1.JNull? then Threw
    else
      match PathOperations(path, es[1..])
      case Threw => Threw
      case Done(rest) => Done([Operation(path, es[0].0, es[0].1)] + rest)
  }

  /** The nested enumeration `Object.entries(paths)` / `Object.entries(methods)`
      with the method filter; `Object.entries(null)` throws. */
  function PathsOperations(es: seq<(string, Json)>): (r: Outcome<seq<Operation>>)
    ensures r.Done? ==> forall o :: o in r.value ==> Accepted(o.methodKey) && !o.op.JNull?
  {
    if es == [] then Done([])
    else if es[0].1.JNull? then Threw
    else
      match (PathOperations(es[0].0, Entries(es[0].1)), PathsOperations(es[1..]))
      case (Done(first), Done(rest)) => Done(first + rest)
      case _ => Threw
  }

  function OperationsOf(data: Json): Outcome<seq<Operation>> {
    if data.JNull? then Threw
    else if Present(Get(data, "paths")) then PathsOperations(Entries(Get(data, "paths").value))
    else Done([])
  }

  // ----- One operation as a request ------------------------------------

  /** What every operation of one document is converted with: the base
      URL, the example generator applied to a schema of this document, and
      the JSON library. */
  datatype Context = Context(baseUrl: string, example: Json -> Outcome<Json>, codec: JsonCodec)

  /** `generateExampleFromSchema(schema, data)` for the document `data`. */
  function ContextOf(data: Json, sourceUrl: Option<string>, origin: string -> Option<string>, codec: JsonCodec, now: string): Context {
    Context(BaseUrl(data, sourceUrl, origin), schema => Schema.Example(schema, data, 0, now), codec)
  }

  /** A table row without its id. */
  datatype Row = Row(key: string, value: string, enabled: bool)

  const SeedRow := Row("", "", true)

  function RowsOf(items: seq<KeyValueItem>): (r: seq<Row>)
    ensures |r| == |items|
  {
    seq(|items|, i requires 0 <= i < |items| => Row(items[i].key, items[i].value, items[i].enabled))
  }

  /** Everything about a request except the ids it was given. */
  datatype Shape = Shape(
    name: string, httpMethod: HttpMethod, url: string, params: seq<Row>, headers: seq<Row>,
    bodyType: BodyType, bodyContent: string, auth: AuthConfig)

  function ShapeOf(rq: ApiRequest): Shape {
    Shape(rq.name, rq.httpMethod, rq.url, RowsOf(rq.params), RowsOf(rq.headers), rq.bodyType, rq.bodyContent, rq.auth)
  }

  /** A parameter's value: the `default`, else the `example`, of its
      `schema` (or of the parameter itself when it has none), else "". */
  function ParamDefault(p: Json): string {
    var schema := if Present(Get(p, "schema")) then Get(p, "schema").value else p;
    if Get(schema, "default").Some? then ToJsString(Get(schema, "default").value)
    else if Get(schema, "example").Some? then ToJsString(Get(schema, "example").value)
    else ""
  }

  /** The row a parameter becomes: enabled exactly when it is required. */
  function ParamRow(p: Json): Row {
    Row(TextOf(Get(p, "name")), ParamDefault(p), Present(Get(p, "required")))
  }

  /** The rows of the first `n` parameters that sit in `place`, in order. */
  function RowsIn(ps: seq<Json>, n: nat, place: string): (r: seq<Row>)
    requires n <= |ps|
    ensures |r| <= n
  {
    if n == 0 then []
    else RowsIn(ps, n - 1, place) + (if Get(ps[n - 1], "in") == Some(JStr(place)) then [ParamRow(ps[n - 1])] else [])
  }

  predicate HasNull(ps: seq<Json>) {
    exists i :: 0 <= i < |ps| && ps[i].JNull?
  }

  lemma RowsOfAppend(items: seq<KeyValueItem>, x: KeyValueItem)
    ensures RowsOf(items + [x]) == RowsOf(items) + [Row(x.key, x.value, x.enabled)]
  {
  }

  /** A parameter in `place` appends its row to that table. */
  lemma PushAppends(items: seq<KeyValueItem>, base: seq<Row>, ps: seq<Json>, i: nat, place: string, item: KeyValueItem)
    requires i < |ps| && RowsOf(items) == base + RowsIn(ps, i, place)
    requires Get(ps[i], "in") == Some(JStr(place)) && Row(item.key, item.value, item.enabled) == ParamRow(ps[i])
    ensures RowsOf(items + [item]) == base + RowsIn(ps, i + 1, place)
  {
    RowsOfAppend(items, item);
    assert base + RowsIn(ps, i + 1, place) == (base + RowsIn(ps, i, place)) + [ParamRow(ps[i])];
  }

  /** A parameter elsewhere leaves that table as it is. */
  lemma PushSkips(items: seq<KeyValueItem>, base: seq<Row>, ps: seq<Json>, i: nat, place: string)
    requires i < |ps| && RowsOf(items) == base + RowsIn(ps, i, place)
    requires Get(ps[i], "in") != Some(JStr(place))
    ensures RowsOf(items) == base + RowsIn(ps, i + 1, place)
  {
    assert RowsIn(ps, i + 1, place) == RowsIn(ps, i, place) + [];
  }

  /** Moving the seed row from the front to the back. */
  lemma Rotate(items: seq<KeyValueItem>, rows: seq<Row>)
    requires RowsOf(items) == [SeedRow] + rows
    ensures |items| > 1 ==> RowsOf(items[1..] + [items[0]]) == rows + [SeedRow]
    ensures |items| <= 1 ==> RowsOf(items) == rows + [SeedRow] && IsEmptyRow(items[0])
    ensures IsEmptyRow(items[0])
  {
    assert RowsOf(items)[0] == SeedRow;
    if |items| > 1 {
      assert RowsOf(items[1..]) == rows by {
        assert forall j :: 0 <= j < |rows| ==> RowsOf(items)[j + 1] == rows[j];
      }
      RowsOfAppend(items[1..], items[0]);
    }
  }

  function ParameterList(op: Json): seq<Json> {
    var ps := Get(op, "parameters");
    if Present(ps) && ps.value.JArr? then ps.value.items else []
  }

  /** The request name: the summary, else the operation id, else
      "`METHOD path`". */
  function NameOf(o: Operation): string {
    TextOr(Get(o.op, "summary"), TextOr(Get(o.op, "operationId"), Upper(o.methodKey) + " " + o.path))
  }

  /** The body: an example generated from the JSON request schema and
      pretty-printed, "{}" when generation throws, "" without such a schema. */
  function BodyOf(op: Json, ctx: Context): string {
    var content := Path(Get(op, "requestBody"), "content");
    if !Present(Get(op, "requestBody")) || !Present(content) then ""
    else
      var media := Get(content.value, "application/json");
      if !Present(media) || !Present(Get(media.value, "schema")) then ""
      else
        match ctx.example(Get(media.value, "schema").value)
        case Threw => "{}"
        case Done(v) => ctx.codec.stringify(v)
  }

  /** What an operation becomes, ids aside: query and header parameters in
      order, each table ending with the empty row; reading a `null`
      parameter throws. */
  function Expected(o: Operation, ctx: Context): Outcome<Shape> {
    var ps := ParameterList(o.op);
    if HasNull(ps) then Threw
    else Done(Shape(
      NameOf(o), Upper(o.methodKey), CollapseSlashes(ctx.baseUrl + o.path),
      RowsIn(ps, |ps|, "query") + [SeedRow], RowsIn(ps, |ps|, "header") + [SeedRow],
      JsonBody, BodyOf(o.op, ctx), EmptyAuth))
  }

  /** `op.parameters.forEach(...)`: query parameters pushed onto the
      parameter table, header parameters onto the header table, others
      skipped; a `null` parameter throws. */
  method PushParameters(ps: seq<Json>, params0: seq<KeyValueItem>, headers0: seq<KeyValueItem>, mint: nat -> string, k: nat)
    returns (r: Outcome<(seq<KeyValueItem>, seq<KeyValueItem>)>, next: nat)
    ensures r.Done? <==> !HasNull(ps)
    ensures r.Done? ==> RowsOf(r.value.0) == RowsOf(params0) + RowsIn(ps, |ps|, "query")
    ensures r.Done? ==> RowsOf(r.value.1) == RowsOf(headers0) + RowsIn(ps, |ps|, "header")
    ensures k <= next
  {
    var params, headers := params0, headers0;
    ghost var queryBase, headerBase := RowsOf(params0), RowsOf(headers0);
    next := k;
    var i := 0;
    while i < |ps|
      invariant 0 <= i <= |ps| && k <= next
      invariant forall j :: 0 <= j < i ==> !ps[j].JNull?
      invariant RowsOf(params) == queryBase + RowsIn(ps, i, "query")
      invariant RowsOf(headers) == headerBase + RowsIn(ps, i, "header")
    {
      if ps[i].JNull? {
        assert HasNull(ps);
        return Threw, next;
      }
      params, headers, next := PushParameter(ps, i, params, headers, queryBase, headerBase, mint, next);
      i := i + 1;
    }
    r := Done((params, headers));
  }

  /** One parameter of the `forEach`: a query parameter goes onto the
      parameter table, a header parameter onto the header table, under the
      next fresh id. */
  method PushParameter(ps: seq<Json>, i: nat, params: seq<KeyValueItem>, headers: seq<KeyValueItem>,
                       ghost queryBase: seq<Row>, ghost headerBase: seq<Row>, mint: nat -> string, next: nat)
    returns (params': seq<KeyValueItem>, headers': seq<KeyValueItem>, next': nat)
    requires i < |ps|
    requires RowsOf(params) == queryBase + RowsIn(ps, i, "query")
    requires RowsOf(headers) == headerBase + RowsIn(ps, i, "header")
    ensures RowsOf(params') == queryBase + RowsIn(ps, i + 1, "query")
    ensures RowsOf(headers') == headerBase + RowsIn(ps, i + 1, "header")
    ensures next <= next'
  {
    var p := ps[i];
    var row := ParamRow(p);
    var item := KeyValueItem(mint(next), row.key, row.value, row.enabled);
    params', headers', next' := params, headers, next;
    if Get(p, "in") == Some(JStr("query")) {
      PushAppends(params, queryBase, ps, i, "query", item);
      PushSkips(headers, headerBase, ps, i, "header");
      params' := params + [item];
      next' := next + 1;
    } else if Get(p, "in") == Some(JStr("header")) {
      PushSkips(params, queryBase, ps, i, "query");
      PushAppends(headers, headerBase, ps, i, "header", item);
      headers' := headers + [item];
      next' := next + 1;
    } else {
      PushSkips(params, queryBase, ps, i, "query");
      PushSkips(headers, headerBase, ps, i, "header");
    }
  }

  /** The request for one operation: seeded tables, parameters pushed in
      order, then each seed row moved behind the parameters. */
  method ConvertOperation(o: Operation, ctx: Context, cid: string, mint: nat -> string, k: nat)
    returns (r: Outcome<ApiRequest>, next: nat)
    ensures r.Done? <==> Expected(o, ctx).Done?
    ensures r.Done? ==> ShapeOf(r.value) == Expected(o, ctx).value
    ensures r.Done? ==> r.value.id == mint(k) && r.value.collectionId == Some(cid)
    ensures r.Done? ==> IsEmptyRow(Last(r.value.params)) && IsEmptyRow(Last(r.value.headers))
  {
    var ps := ParameterList(o.op);
    var seeded := [EmptyRow(mint(k + 1))];
    var pushed;
    pushed, next := PushParameters(ps, seeded, [EmptyRow(mint(k + 2))], mint, k + 3);
    if pushed.Threw? {
      return Threw, next;
    }
    var params, headers := pushed.value.0, pushed.value.1;
    Rotate(params, RowsIn(ps, |ps|, "query"));
    Rotate(headers, RowsIn(ps, |ps|, "header"));
    if |params| > 1 {
      var empty := params[0];
      params := params[1..] + [empty];
    }
    if |headers| > 1 {
      var empty := headers[0];
      headers := headers[1..] + [empty];
    }
    var rq := ApiRequest(
      mint(k), NameOf(o), Upper(o.methodKey), CollapseSlashes(ctx.baseUrl + o.path),
      params, headers, JsonBody, BodyOf(o.op, ctx), Some(cid), EmptyAuth);
    return Done(rq), next;
  }

  function Last(items: seq<KeyValueItem>): KeyValueItem
    requires items != []
  {
    items[|items| - 1]
  }

  // ----- Grouping by tag -----------------------------------------------

  /** The tags of `ops` in order of first appearance: the collections, in
      the order the importer creates them. */
  function Tags(ops: seq<Operation>): seq<string> {
    if ops == [] then []
    else
      var before := Tags(ops[..|ops| - 1]);
      var t := TagOf(ops[|ops| - 1].op);
      if t in before then before else before + [t]
  }

  /** A tag is a collection name exactly when some operation carries it. */
  lemma {:induction false} TagsAreTheTags(ops: seq<Operation>, t: string)
    ensures t in Tags(ops) <==> exists o :: o in ops && TagOf(o.op) == t
  {
    if ops != [] {
      var init := ops[..|ops| - 1];
      TagsAreTheTags(init, t);
      assert ops == init + [ops[|ops| - 1]];
      if exists o :: o in ops && TagOf(o.op) == t {
        var o :| o in ops && TagOf(o.op) == t;
        if o != ops[|ops| - 1] {
          assert o in init;
        }
      }
    }
  }

  /** The operations with tag `t`, in order. */
  function WithTag(ops: seq<Operation>, t: string): seq<Operation> {
    if ops == [] then []
    else WithTag(ops[..|ops| - 1], t) + (if TagOf(ops[|ops| - 1].op) == t then [ops[|ops| - 1]] else [])
  }

  predicate Distinct(names: seq<string>) {
    forall i, j :: 0 <= i < j < |names| ==> names[i] != names[j]
  }

  /** No collection name is repeated. */
  lemma {:induction false} TagsDistinct(ops: seq<Operation>)
    ensures Distinct(Tags(ops))
  {
    if ops != [] {
      TagsDistinct(ops[..|ops| - 1]);
    }
  }

  /** A tag that has not appeared yet has no operations. */
  lemma {:induction false} WithTagAbsent(ops: seq<Operation>, t: string)
    requires t !in Tags(ops)
    ensures WithTag(ops, t) == []
  {
    if ops != [] {
      assert TagOf(ops[|ops| - 1].op) in Tags(ops);
      WithTagAbsent(ops[..|ops| - 1], t);
    }
  }

  function Names(cols: seq<Collection>): (r: seq<string>)
    ensures |r| == |cols| && forall i :: 0 <= i < |cols| ==> r[i] == cols[i].name
  {
    seq(|cols|, i requires 0 <= i < |cols| => cols[i].name)
  }

  /** The collection's requests are the conversions of its tag's operations,
      in order, and all carry its id. */
  ghost predicate Grouped(c: Collection, ops: seq<Operation>, ctx: Context) {
    var mine := WithTag(ops, c.name);
    && c.isOpen
    && |c.requests| == |mine|
    && forall j :: 0 <= j < |mine| ==>
         Expected(mine[j], ctx).Done? &&
         ShapeOf(c.requests[j]) == Expected(mine[j], ctx).value &&
         c.requests[j].collectionId == Some(c.id)
  }

  function FindCollection(cols: seq<Collection>, tag: string): (r: int)
    ensures -1 <= r < |cols|
    ensures r >= 0 ==> cols[r].name == tag
    ensures r < 0 ==> forall i :: 0 <= i < |cols| ==> cols[i].name != tag
  {
    if cols == [] then -1
    else if cols[|cols| - 1].name == tag then |cols| - 1
    else FindCollection(cols[..|cols| - 1], tag)
  }

  ghost predicate AllGrouped(cols: seq<Collection>, ops: seq<Operation>, ctx: Context) {
    forall c :: c in cols ==> Grouped(c, ops, ctx)
  }

  lemma TagsStep(ops: seq<Operation>, o: Operation)
    ensures Tags(ops + [o]) == if TagOf(o.op) in Tags(ops) then Tags(ops) else Tags(ops) + [TagOf(o.op)]
  {
    assert (ops + [o])[..|ops|] == ops;
  }

  /** `getCollection` for a tag not seen before: a new, empty, open
      collection at the end. */
  lemma NewGroup(cols: seq<Collection>, ops: seq<Operation>, o: Operation, id: string,
                 ctx: Context)
    requires AllGrouped(cols, ops, ctx) && Names(cols) == Tags(ops)
    requires TagOf(o.op) !in Tags(ops)
    ensures AllGrouped(cols + [Collection(id, TagOf(o.op), [], true)], ops, ctx)
    ensures Names(cols + [Collection(id, TagOf(o.op), [], true)]) == Tags(ops + [o])
  {
    WithTagAbsent(ops, TagOf(o.op));
    TagsStep(ops, o);
  }

  /** Pushing the converted request onto its tag's collection. */
  lemma PushGroup(cols: seq<Collection>, idx: nat, ops: seq<Operation>, o: Operation, rq: ApiRequest,
                  ctx: Context)
    requires AllGrouped(cols, ops, ctx)
    requires idx < |cols| && cols[idx].name == TagOf(o.op) && Distinct(Names(cols))
    requires Expected(o, ctx).Done?
    requires ShapeOf(rq) == Expected(o, ctx).value && rq.collectionId == Some(cols[idx].id)
    ensures AllGrouped(cols[idx := cols[idx].(requests := cols[idx].requests + [rq])], ops + [o], ctx)
    ensures Names(cols[idx := cols[idx].(requests := cols[idx].requests + [rq])]) == Names(cols)
  {
    var cols' := cols[idx := cols[idx].(requests := cols[idx].requests + [rq])];
    forall c | c in cols' ensures Grouped(c, ops + [o], ctx) {
      var j :| 0 <= j < |cols'| && cols'[j] == c;
      if j == idx {
        GroupedStep(cols[idx], c, ops, o, ctx, rq);
      } else {
        assert c == cols[j] && Names(cols)[j] != Names(cols)[idx];
        GroupedOther(c, ops, o, ctx);
      }
    }
  }

  /** Extending the grouping by one operation. */
  lemma GroupedStep(c: Collection, c': Collection, ops: seq<Operation>, o: Operation,
                    ctx: Context, rq: ApiRequest)
    requires Grouped(c, ops, ctx)
    requires TagOf(o.op) == c.name && c' == c.(requests := c.requests + [rq])
    requires Expected(o, ctx).Done?
    requires ShapeOf(rq) == Expected(o, ctx).value && rq.collectionId == Some(c.id)
    ensures Grouped(c', ops + [o], ctx)
  {
    assert (ops + [o])[..|ops + [o]| - 1] == ops;
  }

  lemma GroupedOther(c: Collection, ops: seq<Operation>, o: Operation, ctx: Context)
    requires Grouped(c, ops, ctx) && TagOf(o.op) != c.name
    ensures Grouped(c, ops + [o], ctx)
  {
    assert (ops + [o])[..|ops + [o]| - 1] == ops;
  }

  /** Every operation in `ops` converts without throwing. */
  ghost predicate AllConvert(ops: seq<Operation>, ctx: Context) {
    forall j :: 0 <= j < |ops| ==> Expected(ops[j], ctx).Done?
  }

  lemma AllConvertStep(ops: seq<Operation>, o: Operation, ctx: Context)
    requires AllConvert(ops, ctx) && Expected(o, ctx).Done?
    ensures AllConvert(ops + [o], ctx)
  {
  }

  /** One step of the operation loop: `getCollection(tag)`, the conversion,
      and the push onto that collection's requests. */
  method AddOperation(cols: seq<Collection>, ops: seq<Operation>, o: Operation, ctx: Context, mint: nat -> string, k: nat)
    returns (r: Outcome<seq<Collection>>, next: nat)
    requires Names(cols) == Tags(ops) && AllGrouped(cols, ops, ctx)
    ensures r.Done? <==> Expected(o, ctx).Done?
    ensures r.Done? ==> Names(r.value) == Tags(ops + [o]) && AllGrouped(r.value, ops + [o], ctx)
  {
    next := k;
    var tag := TagOf(o.op);
    var idx := FindCollection(cols, tag);
    var grown := cols;
    if idx < 0 {
      NewGroup(cols, ops, o, mint(next), ctx);
      grown := cols + [Collection(mint(next), tag, [], true)];
      idx := |grown| - 1;
      next := next + 1;
    } else {
      TagsStep(ops, o);
    }
    TagsDistinct(ops + [o]);
    var rq;
    rq, next := ConvertOperation(o, ctx, grown[idx].id, mint, next);
    if rq.Threw? {
      return Threw, next;
    }
    PushGroup(grown, idx, ops, o, rq.value, ctx);
    return Done(grown[idx := grown[idx].(requests := grown[idx].requests + [rq.value])]), next;
  }

  /** The operation loop: each operation's request pushed onto the
      collection of its tag, collections created on first use. */
  method GroupOperations(ops: seq<Operation>, ctx: Context, mint: nat -> string, k: nat)
    returns (r: Outcome<seq<Collection>>, next: nat)
    ensures r.Done? <==> AllConvert(ops, ctx)
    ensures r.Done? ==> Names(r.value) == Tags(ops) && AllGrouped(r.value, ops, ctx)
  {
    next := k;
    var cols: seq<Collection> := [];
    var i := 0;
    while i < |ops|
      invariant 0 <= i <= |ops|
      invariant AllConvert(ops[..i], ctx)
      invariant Names(cols) == Tags(ops[..i])
      invariant AllGrouped(cols, ops[..i], ctx)
    {
      PrefixStep(ops, i);
      var added;
      added, next := AddOperation(cols, ops[..i], ops[i], ctx, mint, next);
      if added.Threw? {
        return Threw, next;
      }
      AllConvertStep(ops[..i], ops[i], ctx);
      cols := added.value;
      i := i + 1;
    }
    PrefixAll(ops);
    return Done(cols), next;
  }

  /** `parseSwagger`: one collection per tag, in order of first appearance,
      each holding the conversions of exactly that tag's operations. */
  method ParseSwagger(data: Json, sourceUrl: Option<string>, origin: string -> Option<string>,
                      codec: JsonCodec, now: string, mint: nat -> string, k: nat)
    returns (r: Outcome<seq<Collection>>, next: nat)
    ensures r.Done? <==> OperationsOf(data).Done? && AllConvert(OperationsOf(data).value, ContextOf(data, sourceUrl, origin, codec, now))
    ensures r.Done? ==> Names(r.value) == Tags(OperationsOf(data).value) && Distinct(Names(r.value))
    ensures r.Done? ==> AllGrouped(r.value, OperationsOf(data).value, ContextOf(data, sourceUrl, origin, codec, now))
  {
    next := k;
    if data.JNull? {
      return Threw, next;
    }
    var ctx := ContextOf(data, sourceUrl, origin, codec, now);
    var enumerated := OperationsOf(data);
    if enumerated.Threw? {
      return Threw, next;
    }
    r, next := GroupOperations(enumerated.value, ctx, mint, next);
    TagsDistinct(enumerated.value);
  }
}
