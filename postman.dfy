/** The Postman collection importer: a Postman v2.1 export, whose `item`
    tree nests folders, becomes one flat collection of requests. */
module Postman {
  import opened Wrappers
  import opened Seqs
  import opened Strings
  import opened Json
  import opened Types

  /** `item.request.method?.toUpperCase() || GET`; a method that is not a
      string has no `toUpperCase` and throws. */
  function MethodOf(m: Option<Json>): (r: Outcome<HttpMethod>)
    ensures r.Done? ==> r.value != ""
    ensures m.Some? && m.value.JStr? && m.value.s != "" ==> r == Done(Upper(m.value.s))
  {
    if m.None? || m.value.JNull? then Done(GET)
    else if m.value.JStr? then (if m.value.s == "" then Done(GET) else Done(Upper(m.value.s)))
    else Threw
  }

  /** The URL: a string as is, otherwise its `raw` form, otherwise "". */
  function UrlOf(u: Option<Json>): string {
    if u.Some? && u.value.JStr? then u.value.s
    else if Present(Path(u, "raw")) then ToJsString(Path(u, "raw").value)
    else ""
  }

  /** The row a header entry becomes: `enabled` is the negation of `disabled`. */
  function HeaderRow(id: string, h: Json): KeyValueItem {
    KeyValueItem(id, TextOf(Get(h, "key")), TextOf(Get(h, "value")), !Present(Get(h, "disabled")))
  }

  /** The header entries mapped to rows; reading `key` of a `null` entry
      throws. */
  function HeaderRows(hs: seq<Json>, mint: nat -> string, k: nat): (r: Outcome<seq<KeyValueItem>>)
    ensures r.Done? ==> |r.value| == |hs|
  {
    if hs == [] then Done([])
    else if hs[0].JNull? then Threw
    else
      match HeaderRows(hs[1..], mint, k + 1)
      case Threw => Threw
      case Done(rows) => Done([HeaderRow(mint(k), hs[0])] + rows)
  }

  /** Each entry becomes its own row, with the k-th fresh id onwards. */
  lemma {:induction false} HeaderRowsContent(hs: seq<Json>, mint: nat -> string, k: nat)
    requires HeaderRows(hs, mint, k).Done?
    ensures forall i :: 0 <= i < |hs| ==> HeaderRows(hs, mint, k).value[i] == HeaderRow(mint(k + i), hs[i])
    decreases |hs|
  {
    if hs != [] {
      HeaderRowsContent(hs[1..], mint, k + 1);
      var rows := HeaderRows(hs[1..], mint, k + 1).value;
      assert HeaderRows(hs, mint, k).value == [HeaderRow(mint(k), hs[0])] + rows;
      forall i | 1 <= i < |hs| ensures HeaderRows(hs, mint, k).value[i] == HeaderRow(mint(k + i), hs[i]) {
        assert hs[1..][i - 1] == hs[i] && HeaderRows(hs, mint, k).value[i] == rows[i - 1];
      }
    }
  }

  /** Mapping the headers throws exactly when one entry is `null`. */
  lemma {:induction false} HeaderRowsThrow(hs: seq<Json>, mint: nat -> string, k: nat)
    ensures HeaderRows(hs, mint, k).Threw? <==> exists i :: 0 <= i < |hs| && hs[i].JNull?
    decreases |hs|
  {
    if hs != [] {
      HeaderRowsThrow(hs[1..], mint, k + 1);
      if exists i :: 0 <= i < |hs[1..]| && hs[1..][i].JNull? {
        var i :| 0 <= i < |hs[1..]| && hs[1..][i].JNull?;
        assert hs[i + 1].JNull?;
      }
      if exists i :: 0 <= i < |hs| && hs[i].JNull? {
        var i :| 0 <= i < |hs| && hs[i].JNull?;
        if i > 0 {
          assert hs[1..][i - 1].JNull?;
        }
      }
    }
  }

  /** `list?.find(x => x.key === key)?.value`: None for `undefined`; calling
      `find` on anything but an array, or reading `key` of a `null` entry
      before the match, throws. */
  function FindValue(list: Option<Json>, key: string): Outcome<Option<Json>> {
    if list.None? || list.value.JNull? then Done(None)
    else if !list.value.JArr? then Threw
    else FindIn(list.value.items, key)
  }

  function FindIn(xs: seq<Json>, key: string): Outcome<Option<Json>> {
    if xs == [] then Done(None)
    else if xs[0].JNull? then Threw
    else if Get(xs[0], "key") == Some(JStr(key)) then Done(Get(xs[0], "value"))
    else FindIn(xs[1..], key)
  }

  /** The auth type a Postman `type` string selects. */
  function KindOf(t: Option<Json>): AuthType {
    if t == Some(JStr("bearer")) then BearerAuth
    else if t == Some(JStr("basic")) then BasicAuth
    else if t == Some(JStr("apikey")) then ApiKeyAuth
    else NoAuth
  }

  /** The `auth` block: bearer, basic and API-key settings; any other type
      leaves the empty configuration. */
  function AuthOf(a: Option<Json>): (r: Outcome<AuthConfig>)
    ensures !Present(a) ==> r == Done(EmptyAuth)
    ensures r.Done? && Present(a) ==> r.value.authType == KindOf(Get(a.value, "type"))
    ensures r.Done? && r.value.authType == BearerAuth ==>
      r.value.bearerToken == TextOr(Path(Path(Get(a.value, "bearer"), "0"), "value"), "")
    ensures Present(a) && Get(a.value, "type") == Some(JStr("bearer")) ==> r.Done?
  {
    if !Present(a) then Done(EmptyAuth)
    else
      var t := Get(a.value, "type");
      if t == Some(JStr("bearer")) then
        var token := Path(Path(Get(a.value, "bearer"), "0"), "value");
        Done(EmptyAuth.(authType := BearerAuth, bearerToken := TextOr(token, "")))
      else if t == Some(JStr("basic")) then
        var basic := Get(a.value, "basic");
        match (FindValue(basic, "username"), FindValue(basic, "password"))
        case (Done(user), Done(pass)) =>
          Done(EmptyAuth.(authType := BasicAuth, basicUsername := TextOr(user, ""), basicPassword := TextOr(pass, "")))
        case _ => Threw
      else if t == Some(JStr("apikey")) then
        var list := Get(a.value, "apikey");
        match (FindValue(list, "key"), FindValue(list, "value"), FindValue(list, "in"))
        case (Done(key), Done(value), Done(loc)) =>
          Done(EmptyAuth.(authType := ApiKeyAuth, apiKeyKey := TextOr(key, ""), apiKeyValue := TextOr(value, ""),
                          apiKeyLocation := if loc == Some(JStr("query")) then InQuery else InHeader))
        case _ => Threw
      else Done(EmptyAuth)
  }

  /** A raw body and its type: `text` only when the raw language says so. */
  function BodyOf(b: Option<Json>): Option<(string, BodyType)> {
    if Path(b, "mode") == Some(JStr("raw")) then
      var lang := Path(Path(Path(b, "options"), "raw"), "language");
      Some((TextOf(Path(b, "raw")), if lang == Some(JStr("text")) then TextBody else JsonBody))
    else None
  }

  /** The request a leaf `item` becomes, and the next unused id number. Ids
      are drawn in the order of the source: request, seed parameter row,
      seed header row, then one per imported header and the trailing row. */
  function LeafRequest(item: Json, cid: string, mint: nat -> string, k: nat): (r: Outcome<(ApiRequest, nat)>)
    requires Present(Get(item, "request"))
    ensures r.Done? ==> k + 3 <= r.value.1
    ensures r.Done? ==> var rq := r.value.0;
      && rq.id == mint(k)
      && rq.collectionId == Some(cid)
      && rq.name == TextOr(Get(item, "name"), "Untitled Request")
      && rq.httpMethod != ""
      && rq.params == [EmptyRow(mint(k + 1))]
      && |rq.headers| >= 1 && IsEmptyRow(rq.headers[|rq.headers| - 1])
  {
    var request := Get(item, "request").value;
    var name := TextOr(Get(item, "name"), "Untitled Request");
    var hs := Get(request, "header");
    var rows: Outcome<(seq<KeyValueItem>, nat)> :=
      if hs.Some? && hs.value.JArr? then
        match HeaderRows(hs.value.items, mint, k + 3)
        case Threw => Threw
        case Done(rows) =>
          var n := k + 3 + |rows|;
          Done((rows + [EmptyRow(mint(n))], n + 1))
      else Done(([EmptyRow(mint(k + 2))], k + 3));
    match (MethodOf(Get(request, "method")), rows, AuthOf(Get(request, "auth")))
    case (Done(m), Done((headers, next)), Done(auth)) =>
      var body := BodyOf(Get(request, "body"));
      var rq := ApiRequest(
        mint(k), name, m, UrlOf(Get(request, "url")), [EmptyRow(mint(k + 1))], headers,
        if body.Some? then body.value.1 else JsonBody,
        if body.Some? then body.value.0 else "",
        Some(cid), auth);
      Done((rq, next))
    case _ => Threw
  }

  /** An imported header array gives one row per entry, in order, with
      `enabled` the negation of `disabled`, then the empty row. */
  lemma LeafHeaders(item: Json, cid: string, mint: nat -> string, k: nat)
    requires Present(Get(item, "request")) && LeafRequest(item, cid, mint, k).Done?
    requires Get(Get(item, "request").value, "header").Some? && Get(Get(item, "request").value, "header").value.JArr?
    ensures var rq := LeafRequest(item, cid, mint, k).value.0; var hs := Get(Get(item, "request").value, "header").value.items;
      && |rq.headers| == |hs| + 1
      && (forall i :: 0 <= i < |hs| ==>
           rq.headers[i].key == TextOf(Get(hs[i], "key")) &&
           rq.headers[i].value == TextOf(Get(hs[i], "value")) &&
           rq.headers[i].enabled == !Present(Get(hs[i], "disabled")))
      && IsEmptyRow(rq.headers[|hs|])
  {
    var hs := Get(Get(item, "request").value, "header").value.items;
    HeaderRowsContent(hs, mint, k + 3);
  }

  function Prepend(done: seq<ApiRequest>, o: Outcome<(seq<ApiRequest>, nat)>): Outcome<(seq<ApiRequest>, nat)> {
    match o
    case Threw => Threw
    case Done((rs, n)) => Done((done + rs, n))
  }

  /** `processItems(items)`: `forEach` throws on a non-array. */
  function Flatten(items: Json, cid: string, mint: nat -> string, k: nat): Outcome<(seq<ApiRequest>, nat)>
    decreases items, 1
  {
    if items.JArr? then FlattenList(items.items, cid, mint, k) else Threw
  }

  /** The items in order: a node with `request` is a leaf and is never
      descended into, a node with `item` is a folder whose leaves take its
      place, anything else is skipped; reading a `null` node throws. */
  function FlattenList(xs: seq<Json>, cid: string, mint: nat -> string, k: nat): Outcome<(seq<ApiRequest>, nat)>
    decreases xs, 0
  {
    if xs == [] then Done(([], k))
    else if xs[0].JNull? then Threw
    else if Present(Get(xs[0], "request")) then
      match LeafRequest(xs[0], cid, mint, k)
      case Threw => Threw
      case Done((rq, n)) => Prepend([rq], FlattenList(xs[1..], cid, mint, n))
    else if Present(Get(xs[0], "item")) then
      assert !IsDigit("item"[0]);
      match Flatten(Get(xs[0], "item").value, cid, mint, k)
      case Threw => Threw
      case Done((rs, n)) => Prepend(rs, FlattenList(xs[1..], cid, mint, n))
    else FlattenList(xs[1..], cid, mint, k)
  }

  /** The leaves of the item tree in depth-first document order: the
      reference the importer's output is compared with. */
  function Leaves(xs: seq<Json>): seq<Json>
    decreases xs
  {
    if xs == [] then []
    else if Present(Get(xs[0], "request")) then [xs[0]] + Leaves(xs[1..])
    else if Present(Get(xs[0], "item")) && Get(xs[0], "item").value.JArr? then
      assert !IsDigit("item"[0]);
      Leaves(Get(xs[0], "item").value.items) + Leaves(xs[1..])
    else Leaves(xs[1..])
  }

  /** The reference conversion: the leaves converted one after another,
      each drawing its ids after the previous one's. */
  function ConvertLeaves(leaves: seq<Json>, cid: string, mint: nat -> string, k: nat): Outcome<(seq<ApiRequest>, nat)> {
    if leaves == [] then Done(([], k))
    else if !Present(Get(leaves[0], "request")) then Threw
    else
      match LeafRequest(leaves[0], cid, mint, k)
      case Threw => Threw
      case Done((rq, n)) => Prepend([rq], ConvertLeaves(leaves[1..], cid, mint, n))
  }

  /** Running the first half and then the rest from where it stopped. */
  function Then(o: Outcome<(seq<ApiRequest>, nat)>, rest: seq<Json>, cid: string, mint: nat -> string): Outcome<(seq<ApiRequest>, nat)> {
    match o
    case Threw => Threw
    case Done((rs, n)) => Prepend(rs, ConvertLeaves(rest, cid, mint, n))
  }

  lemma PrependAssoc(a: seq<ApiRequest>, b: seq<ApiRequest>, o: Outcome<(seq<ApiRequest>, nat)>)
    ensures Prepend(a, Prepend(b, o)) == Prepend(a + b, o)
  {
    if o.Done? {
      assert a + (b + o.value.0) == (a + b) + o.value.0;
    }
  }

  lemma {:induction false} ConvertLeavesAppend(a: seq<Json>, b: seq<Json>, cid: string, mint: nat -> string, k: nat)
    ensures ConvertLeaves(a + b, cid, mint, k) == Then(ConvertLeaves(a, cid, mint, k), b, cid, mint)
    decreases a
  {
    if a == [] {
      assert a + b == b;
      var o := ConvertLeaves(b, cid, mint, k);
      if o.Done? { assert [] + o.value.0 == o.value.0; }
    } else {
      assert (a + b)[0] == a[0] && (a + b)[1..] == a[1..] + b;
      if Present(Get(a[0], "request")) {
        var leaf := LeafRequest(a[0], cid, mint, k);
        if leaf.Done? {
          ConvertLeavesAppend(a[1..], b, cid, mint, leaf.value.1);
          var o := ConvertLeaves(a[1..], cid, mint, leaf.value.1);
          if o.Done? {
            PrependAssoc([leaf.value.0], o.value.0, ConvertLeaves(b, cid, mint, o.value.1));
          }
        }
      }
    }
  }

  /** Whenever the importer does not throw, it emits exactly the leaves of the
      item tree, in depth-first document order, converted one after another. */
  lemma {:induction false} FlattenListIsLeaves(xs: seq<Json>, cid: string, mint: nat -> string, k: nat)
    requires FlattenList(xs, cid, mint, k).Done?
    ensures FlattenList(xs, cid, mint, k) == ConvertLeaves(Leaves(xs), cid, mint, k)
    decreases xs
  {
    if xs == [] {
    } else if Present(Get(xs[0], "request")) {
      var leaf := LeafRequest(xs[0], cid, mint, k);
      FlattenListIsLeaves(xs[1..], cid, mint, leaf.value.1);
      assert ([xs[0]] + Leaves(xs[1..]))[1..] == Leaves(xs[1..]);
    } else if Present(Get(xs[0], "item")) {
      assert !IsDigit("item"[0]);
      var sub := Get(xs[0], "item").value;
      var flat := Flatten(sub, cid, mint, k);
      FlattenListIsLeaves(sub.items, cid, mint, k);
      FlattenListIsLeaves(xs[1..], cid, mint, flat.value.1);
      ConvertLeavesAppend(Leaves(sub.items), Leaves(xs[1..]), cid, mint, k);
    } else {
      FlattenListIsLeaves(xs[1..], cid, mint, k);
    }
  }

  /** Every conversion of a list of leaves tags each request with the id. */
  lemma {:induction false} ConvertLeavesTags(leaves: seq<Json>, cid: string, mint: nat -> string, k: nat)
    requires ConvertLeaves(leaves, cid, mint, k).Done?
    ensures |ConvertLeaves(leaves, cid, mint, k).value.0| == |leaves|
    ensures forall rq :: rq in ConvertLeaves(leaves, cid, mint, k).value.0 ==> rq.collectionId == Some(cid)
    decreases leaves
  {
    if leaves != [] {
      var leaf := LeafRequest(leaves[0], cid, mint, k);
      ConvertLeavesTags(leaves[1..], cid, mint, leaf.value.1);
    }
  }

  /** Every flattened request is tagged with the collection's id. */
  lemma {:induction false} FlattenListTagsCollection(xs: seq<Json>, cid: string, mint: nat -> string, k: nat)
    requires FlattenList(xs, cid, mint, k).Done?
    ensures forall rq :: rq in FlattenList(xs, cid, mint, k).value.0 ==> rq.collectionId == Some(cid)
  {
    FlattenListIsLeaves(xs, cid, mint, k);
    ConvertLeavesTags(Leaves(xs), cid, mint, k);
  }

  /** `parsePostmanCollection(data)` as a value, with the next unused id
      number; reading `item` of a `null` document throws. */
  function ImportPostman(data: Json, mint: nat -> string, k: nat): Outcome<(Collection, nat)> {
    if data.JNull? then Threw
    else
      var cid := mint(k);
      var items := Get(data, "item");
      var flat := if Present(items) then Flatten(items.value, cid, mint, k + 1) else Done(([], k + 1));
      match flat
      case Threw => Threw
      case Done((rs, n)) =>
        Done((Collection(cid, TextOr(Path(Get(data, "info"), "name"), "Imported Collection"), rs, true), n))
  }

  /** The recursive `processItems`: walks `items`, pushing each leaf's request
      onto `acc` and descending into folders. */
  method ProcessItems(items: Json, cid: string, mint: nat -> string, k: nat, acc: seq<ApiRequest>)
    returns (r: Outcome<seq<ApiRequest>>, next: nat)
    ensures r.Done? <==> Flatten(items, cid, mint, k).Done?
    ensures r.Done? ==> r.value == acc + Flatten(items, cid, mint, k).value.0 && next == Flatten(items, cid, mint, k).value.1
    decreases items
  {
    if !items.JArr? {
      return Threw, k;
    }
    var xs := items.items;
    var requests := acc;
    ghost var done: seq<ApiRequest> := [];
    next := k;
    var i := 0;
    SuffixAll(xs);
    assert Prepend([], FlattenList(xs, cid, mint, k)) == FlattenList(xs, cid, mint, k) by {
      var o := FlattenList(xs, cid, mint, k);
      if o.Done? { assert [] + o.value.0 == o.value.0; }
    }
    while i < |xs|
      invariant 0 <= i <= |xs|
      invariant requests == acc + done
      invariant FlattenList(xs, cid, mint, k) == Prepend(done, FlattenList(xs[i..], cid, mint, next))
    {
      var item := xs[i];
      SuffixStep(xs, i);
      if item.JNull? {
        return Threw, next;
      }
      if Present(Get(item, "request")) {
        var leaf := LeafRequest(item, cid, mint, next);
        if leaf.Threw? {
          return Threw, next;
        }
        var rq := leaf.value.0;
        PrependAssoc(done, [rq], FlattenList(xs[i + 1..], cid, mint, leaf.value.1));
        requests := requests + [rq];
        done := done + [rq];
        next := leaf.value.1;
      } else if Present(Get(item, "item")) {
        assert !IsDigit("item"[0]) && "item" != "length";
        var sub := Get(item, "item").value;
        var r', n' := ProcessItems(sub, cid, mint, next, requests);
        if r'.Threw? {
          return Threw, n';
        }
        ghost var rs := Flatten(sub, cid, mint, next).value.0;
        PrependAssoc(done, rs, FlattenList(xs[i + 1..], cid, mint, n'));
        requests := r'.value;
        done := done + rs;
        next := n';
      }
      i := i + 1;
    }
    assert done == FlattenList(xs, cid, mint, k).value.0;
    return Done(requests), next;
  }

  /** `parsePostmanCollection`: one collection, open, whose id is drawn first
      and carried by every imported request. */
  method ParsePostmanCollection(data: Json, mint: nat -> string, k: nat) returns (r: Outcome<Collection>, next: nat)
    ensures r.Done? <==> ImportPostman(data, mint, k).Done?
    ensures r.Done? ==> r.value == ImportPostman(data, mint, k).value.0 && next == ImportPostman(data, mint, k).value.1
    ensures r.Done? ==> r.value.id == mint(k) && r.value.isOpen
    ensures r.Done? ==> forall rq :: rq in r.value.requests ==> rq.collectionId == Some(r.value.id)
  {
    if data.JNull? {
      return Threw, k;
    }
    var collectionId := mint(k);
    var requests: seq<ApiRequest> := [];
    next := k + 1;
    var items := Get(data, "item");
    if Present(items) {
      var out;
      out, next := ProcessItems(items.value, collectionId, mint, k + 1, requests);
      if out.Threw? {
        return Threw, next;
      }
      FlattenListTagsCollection(items.value.items, collectionId, mint, k + 1);
      requests := out.value;
    }
    r := Done(Collection(collectionId, TextOr(Path(Get(data, "info"), "name"), "Imported Collection"), requests, true));
  }
}
