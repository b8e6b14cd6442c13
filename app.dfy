/** The top-level component of the workbench: how the active request is
    turned into an outgoing call (address, header record, body), the
    history list, saving a request into a collection, opening and closing
    collections, and the workspace state its handlers update. */
module App {
  import opened Wrappers
  import opened Seqs
  import opened Types
  import opened Json

  // ---------------------------------------------------------------------
  // Requests by id

  /** Some request of `rs` has id `id`. */
  predicate HasId(rs: seq<ApiRequest>, id: string) {
    exists i :: 0 <= i < |rs| && rs[i].id == id
  }

  predicate DistinctRequestIds(rs: seq<ApiRequest>) {
    forall i, j :: 0 <= i < j < |rs| ==> rs[i].id != rs[j].id
  }

  /** The first request of `rs` with id `id`: `find(r => r.id === id)`,
      and the lookup `requests[id]` in the request record. */
  function FindRequest(rs: seq<ApiRequest>, id: string): (r: Option<ApiRequest>)
    ensures r.Some? <==> HasId(rs, id)
    ensures r.Some? ==> exists i :: 0 <= i < |rs| && rs[i].id == id && rs[i] == r.value && forall j :: 0 <= j < i ==> rs[j].id != id
  {
    if rs == [] then None
    else if rs[0].id == id then Some(rs[0])
    else
      var r := FindRequest(rs[1..], id);
      if r.Some? then
        var i :| 0 <= i < |rs[1..]| && rs[1..][i].id == id && rs[1..][i] == r.value && forall j :: 0 <= j < i ==> rs[1..][j].id != id;
        assert rs[i + 1] == rs[1..][i];
        assert forall j :: 0 <= j < i + 1 ==> rs[j].id != id by {
          forall j | 0 <= j < i + 1 ensures rs[j].id != id {
            if j > 0 {
              assert rs[j] == rs[1..][j - 1];
            }
          }
        }
        r
      else
        assert !HasId(rs, id) by {
          forall i | 0 <= i < |rs| ensures rs[i].id != id {
            if i > 0 {
              assert rs[i] == rs[1..][i - 1];
            }
          }
        }
        r
  }

  /** Insert-or-replace by id. This is `{ ...record, [r.id]: r }` on the
      request record, whose keys are the ids of the requests it holds, and
      the `find` then `map` or append of App.tsx:154-164 on a collection's
      list: every request with `r`'s id is replaced where it stands, and
      `r` is appended when there is none. */
  function Upsert(rs: seq<ApiRequest>, r: ApiRequest): (out: seq<ApiRequest>)
    ensures |out| == if HasId(rs, r.id) then |rs| else |rs| + 1
  {
    if HasId(rs, r.id) then seq(|rs|, i requires 0 <= i < |rs| => if rs[i].id == r.id then r else rs[i])
    else rs + [r]
  }

  /** Upserting replaces in place when the id is present: positions and
      ids stay, the requests with that id become `r`, the others stay. */
  lemma UpsertReplaces(rs: seq<ApiRequest>, r: ApiRequest)
    requires HasId(rs, r.id)
    ensures |Upsert(rs, r)| == |rs|
    ensures forall i :: 0 <= i < |rs| ==> Upsert(rs, r)[i].id == rs[i].id
    ensures forall i :: 0 <= i < |rs| && rs[i].id == r.id ==> Upsert(rs, r)[i] == r
    ensures forall i :: 0 <= i < |rs| && rs[i].id != r.id ==> Upsert(rs, r)[i] == rs[i]
  {
  }

  /** Upserting a request whose id is absent appends it at the end. */
  lemma UpsertAppends(rs: seq<ApiRequest>, r: ApiRequest)
    requires !HasId(rs, r.id)
    ensures Upsert(rs, r) == rs + [r]
  {
  }

  /** Reading back after an upsert: the id written gives `r`, every other
      id gives what it gave before. */
  lemma UpsertLookup(rs: seq<ApiRequest>, r: ApiRequest, id: string)
    ensures FindRequest(Upsert(rs, r), id) == if id == r.id then Some(r) else FindRequest(rs, id)
  {
    var out := Upsert(rs, r);
    if HasId(rs, r.id) {
      UpsertReplaces(rs, r);
      FindSameIds(rs, out, id, r);
    } else {
      FindAppended(rs, r, id);
    }
  }

  /** Two lists with the same ids position by position give the same
      answer to a search by id, up to replacing requests with id `r.id`
      by `r`. */
  lemma {:induction false} FindSameIds(rs: seq<ApiRequest>, out: seq<ApiRequest>, id: string, r: ApiRequest)
    requires |out| == |rs|
    requires forall i :: 0 <= i < |rs| ==> out[i].id == rs[i].id
    requires forall i :: 0 <= i < |rs| ==> out[i] == if rs[i].id == r.id then r else rs[i]
    requires HasId(rs, r.id) || id != r.id
    ensures FindRequest(out, id) == if id == r.id then Some(r) else FindRequest(rs, id)
  {
    if rs != [] {
      if rs[0].id != id {
        if id == r.id {
          var i :| 0 <= i < |rs| && rs[i].id == r.id;
          assert rs[1..][i - 1].id == r.id;
        }
        FindSameIds(rs[1..], out[1..], id, r);
      }
    }
  }

  lemma {:induction false} FindAppended(rs: seq<ApiRequest>, r: ApiRequest, id: string)
    requires !HasId(rs, r.id)
    ensures FindRequest(rs + [r], id) == if id == r.id then Some(r) else FindRequest(rs, id)
  {
    if rs == [] {
    } else {
      assert (rs + [r])[1..] == rs[1..] + [r];
      assert !HasId(rs[1..], r.id) by {
        forall i | 0 <= i < |rs[1..]| ensures rs[1..][i].id != r.id {
          assert rs[1..][i] == rs[i + 1];
        }
      }
      FindAppended(rs[1..], r, id);
    }
  }

  /** Upserting keeps the ids distinct. */
  lemma UpsertKeepsDistinct(rs: seq<ApiRequest>, r: ApiRequest)
    requires DistinctRequestIds(rs)
    ensures DistinctRequestIds(Upsert(rs, r))
  {
    if HasId(rs, r.id) {
      UpsertReplaces(rs, r);
    }
  }

  // ---------------------------------------------------------------------
  // The outgoing call

  /** The rows a call sends, `p.enabled && p.key` (App.tsx:181, 218). */
  predicate Sendable(row: KeyValueItem) {
    row.enabled && row.key != ""
  }

  /** The rows that send `key`. */
  predicate SentUnder(row: KeyValueItem, key: string) {
    Sendable(row) && row.key == key
  }

  function Pairs(rows: seq<KeyValueItem>): (r: seq<(string, string)>)
    ensures |r| == |rows| && forall i :: 0 <= i < |rows| ==> r[i] == (rows[i].key, rows[i].value)
  {
    seq(|rows|, i requires 0 <= i < |rows| => (rows[i].key, rows[i].value))
  }

  /** The name/value pairs `constructUrl` appends to the query, one per
      sendable parameter row, in list order. */
  function QueryPairs(rows: seq<KeyValueItem>): (r: seq<(string, string)>)
    ensures |r| <= |rows|
    decreases |rows|
  {
    if rows == [] then []
    else
      var last := rows[|rows| - 1];
      QueryPairs(rows[..|rows| - 1]) + if Sendable(last) then [(last.key, last.value)] else []
  }

  /** The query pairs are the pairs of the rows `filter` keeps, in the
      same order: exactly the enabled rows with a key. */
  lemma {:induction false} QueryPairsOfFilter(rows: seq<KeyValueItem>)
    ensures QueryPairs(rows) == Pairs(Filter(rows, Sendable))
    decreases |rows|
  {
    if rows != [] {
      var init, last := rows[..|rows| - 1], rows[|rows| - 1];
      QueryPairsOfFilter(init);
      assert rows == init + [last];
      FilterAppend(init, [last], Sendable);
      var a, b := Filter(init, Sendable), Filter([last], Sendable);
      PairsAppend(a, b);
      assert Pairs(b) == if Sendable(last) then [(last.key, last.value)] else [] by {
        assert [last][1..] == [];
      }
    }
  }

  lemma PairsAppend(a: seq<KeyValueItem>, b: seq<KeyValueItem>)
    ensures Pairs(a + b) == Pairs(a) + Pairs(b)
  {
    assert forall i :: 0 <= i < |a + b| ==> Pairs(a + b)[i] == (Pairs(a) + Pairs(b))[i];
  }

  /** A parsed URL as the component uses it: everything but the query,
      and the query's name/value pairs in order. */
  datatype UrlRecord = UrlRecord(rest: string, query: seq<(string, string)>)

  /** The WHATWG URL library: `new URL(s)` (None where the constructor
      throws) and `toString()`. */
  datatype UrlLib = UrlLib(parse: string -> Option<UrlRecord>, serialize: UrlRecord -> string)

  /** The address `constructUrl` computes. */
  function ConstructedUrl(url: string, params: seq<KeyValueItem>, lib: UrlLib): string {
    match lib.parse(url)
    case None => url
    case Some(u) => lib.serialize(u.(query := u.query + QueryPairs(params)))
  }

  /** `constructUrl`: each sendable parameter is appended to the parsed
      address's query in list order; an address the URL constructor
      rejects is returned as it was typed. */
  method ConstructUrl(req: ApiRequest, lib: UrlLib) returns (url: string)
    ensures url == ConstructedUrl(req.url, req.params, lib)
    ensures lib.parse(req.url).None? ==> url == req.url
  {
    var parsed := lib.parse(req.url);
    if parsed.None? {
      return req.url;
    }
    var u := parsed.value;
    var query := u.query;
    var i := 0;
    while i < |req.params|
      invariant 0 <= i <= |req.params|
      invariant query == u.query + QueryPairs(req.params[..i])
    {
      var p := req.params[i];
      assert req.params[..i + 1][..i] == req.params[..i];
      if Sendable(p) {
        ConcatAssoc(u.query, QueryPairs(req.params[..i]), [(p.key, p.value)]);
        query := query + [(p.key, p.value)];
      }
      i := i + 1;
    }
    assert req.params[..i] == req.params;
    url := lib.serialize(u.(query := query));
  }

  /** The header record the `forEach` of App.tsx:218 builds: each sendable
      row writes its value under its key, a later row overwriting an
      earlier one. */
  function HeaderMap(rows: seq<KeyValueItem>): map<string, string>
    decreases |rows|
  {
    if rows == [] then map[]
    else
      var last := rows[|rows| - 1];
      var m := HeaderMap(rows[..|rows| - 1]);
      if Sendable(last) then m[last.key := last.value] else m
  }

  /** The index of the last row that sends `key`. */
  function LastRowFor(rows: seq<KeyValueItem>, key: string): (r: Option<nat>)
    ensures r.Some? ==> r.value < |rows| && SentUnder(rows[r.value], key)
    ensures r.Some? ==> forall j :: r.value < j < |rows| ==> !SentUnder(rows[j], key)
    ensures r.None? ==> forall j :: 0 <= j < |rows| ==> !SentUnder(rows[j], key)
    decreases |rows|
  {
    if rows == [] then None
    else if SentUnder(rows[|rows| - 1], key) then Some(|rows| - 1)
    else
      var r := LastRowFor(rows[..|rows| - 1], key);
      assert forall j :: 0 <= j < |rows| - 1 ==> rows[..|rows| - 1][j] == rows[j];
      r
  }

  /** A key is in the header record exactly when some row sends it, and
      it holds the value of the last such row. */
  lemma {:induction false} HeaderMapLast(rows: seq<KeyValueItem>, key: string)
    ensures key in HeaderMap(rows) <==> LastRowFor(rows, key).Some?
    ensures key in HeaderMap(rows) ==> HeaderMap(rows)[key] == rows[LastRowFor(rows, key).value].value
    decreases |rows|
  {
    if rows != [] {
      HeaderMapLast(rows[..|rows| - 1], key);
    }
  }

  /** The header-building loop of `executeRequest`. */
  method CollectHeaders(rows: seq<KeyValueItem>) returns (headers: map<string, string>)
    ensures headers == HeaderMap(rows)
  {
    headers := map[];
    var i := 0;
    while i < |rows|
      invariant 0 <= i <= |rows|
      invariant headers == HeaderMap(rows[..i])
    {
      assert rows[..i + 1][..i] == rows[..i];
      var h := rows[i];
      if Sendable(h) {
        headers := headers[h.key := h.value];
      }
      i := i + 1;
    }
    assert rows[..i] == rows;
  }

  const ContentType: string := "Content-Type"
  const JsonMediaType: string := "application/json"
  const NoSchema: string := "No explicit schema"

  /** Methods other than GET and DELETE carry the body. */
  predicate CarriesBody(m: HttpMethod) {
    m != GET && m != DELETE
  }

  /** The call is declared JSON: a body is sent, the body type is JSON and
      the text parses. */
  predicate DeclaresJson(req: ApiRequest, codec: JsonCodec) {
    CarriesBody(req.httpMethod) && req.bodyType == JsonBody && codec.parse(req.bodyContent).Some?
  }

  /** The header record sent with `req`. */
  function OutgoingHeaders(req: ApiRequest, codec: JsonCodec): map<string, string> {
    var m := HeaderMap(req.headers);
    if DeclaresJson(req, codec) then m[ContentType := JsonMediaType] else m
  }

  /** Each outgoing header comes from the last row that sends it, except
      that a JSON declaration sets `Content-Type`, over a row that sends
      the same key; nothing else is added. */
  lemma OutgoingHeaderLookup(req: ApiRequest, codec: JsonCodec, key: string)
    ensures key in OutgoingHeaders(req, codec) <==>
      (key == ContentType && DeclaresJson(req, codec)) || LastRowFor(req.headers, key).Some?
    ensures key == ContentType && DeclaresJson(req, codec) ==> OutgoingHeaders(req, codec)[key] == JsonMediaType
    ensures !(key == ContentType && DeclaresJson(req, codec)) && key in OutgoingHeaders(req, codec) ==>
      OutgoingHeaders(req, codec)[key] == req.headers[LastRowFor(req.headers, key).value].value
  {
    HeaderMapLast(req.headers, key);
  }

  /** What `executeRequest` does before any network traffic: nothing, a
      call to the mock generator, or a `fetch`. */
  datatype Dispatch =
    | Skipped
    | MockCall(schema: string, url: string, httpMethod: HttpMethod)
    | Fetch(url: string, httpMethod: HttpMethod, headers: map<string, string>, body: Option<string>)

  /** `executeRequest` up to the call it makes. A real send of a request
      without an address does nothing. A mock send passes the schema (a
      schema body, or a fixed placeholder), the address and the method. A
      real send goes to the constructed address with the header record,
      and the body verbatim unless the method is GET or DELETE. */
  method PrepareSend(req: ApiRequest, mockMode: bool, lib: UrlLib, codec: JsonCodec) returns (d: Dispatch)
    ensures d.Skipped? <==> req.url == "" && !mockMode
    ensures d.MockCall? <==> mockMode
    ensures d.MockCall? ==> d.url == req.url && d.httpMethod == req.httpMethod
    ensures d.MockCall? ==> d.schema == if req.bodyType == SchemaBody && req.bodyContent != "" then req.bodyContent else NoSchema
    ensures d.Fetch? ==> d.url == ConstructedUrl(req.url, req.params, lib) && d.httpMethod == req.httpMethod
    ensures d.Fetch? ==> d.headers == OutgoingHeaders(req, codec)
    ensures d.Fetch? ==> (d.body.Some? <==> CarriesBody(req.httpMethod))
    ensures d.Fetch? && d.body.Some? ==> d.body.value == req.bodyContent
  {
    if req.url == "" && !mockMode {
      return Skipped;
    }
    if mockMode {
      var schema := if req.bodyType == SchemaBody then req.bodyContent else "";
      return MockCall(if schema != "" then schema else NoSchema, req.url, req.httpMethod);
    }
    var finalUrl := ConstructUrl(req, lib);
    var headers := CollectHeaders(req.headers);
    var body: Option<string> := None;
    if req.httpMethod != GET && req.httpMethod != DELETE {
      if req.bodyType == JsonBody {
        if codec.parse(req.bodyContent).Some? {
          headers := headers[ContentType := JsonMediaType];
          body := Some(req.bodyContent);
        } else {
          body := Some(req.bodyContent);
        }
      } else {
        body := Some(req.bodyContent);
      }
    }
    d := Fetch(finalUrl, req.httpMethod, headers, body);
  }

  // ---------------------------------------------------------------------
  // History

  const HistoryLimit: nat := 20

  /** The entry recorded for a call to `req` answered with `status` at
      time `now` (`Date.now()`). */
  function HistoryEntry(req: ApiRequest, status: int, now: int): HistoryItem {
    HistoryItem(req.id, req.httpMethod, req.url, now, Some(status))
  }

  function OtherRequest(id: string): HistoryItem -> bool {
    (h: HistoryItem) => h.id != id
  }

  /** The older entries that survive: those of other requests, in order. */
  function Others(prev: seq<HistoryItem>, id: string): seq<HistoryItem> {
    Filter(prev, OtherRequest(id))
  }

  /** `addToHistory`: the entry for `req` goes first, the older entry of
      the same request is dropped, the others keep their order, and the
      list is cut to the 20 most recent. */
  function AddToHistory(prev: seq<HistoryItem>, req: ApiRequest, status: int, now: int): (r: seq<HistoryItem>)
    ensures 1 <= |r| <= HistoryLimit
    ensures r[0] == HistoryEntry(req, status, now)
    ensures forall i :: 1 <= i < |r| ==> r[i].id != req.id
    ensures IsSubsequence(r[1..], prev)
    ensures r[1..] <= Others(prev, req.id)
    ensures |r| == if |Others(prev, req.id)| < HistoryLimit then |Others(prev, req.id)| + 1 else HistoryLimit
  {
    var kept := Others(prev, req.id);
    var n := if |kept| < HistoryLimit then |kept| + 1 else HistoryLimit;
    var r := ([HistoryEntry(req, status, now)] + kept)[..n];
    assert r[1..] == kept[..n - 1];
    PrefixIsSubsequence(kept, prev, n - 1);
    r
  }

  /** An entry of another request survives while fewer than 20 remain. */
  lemma HistoryKeepsRecent(prev: seq<HistoryItem>, req: ApiRequest, status: int, now: int, h: HistoryItem)
    requires h in prev && h.id != req.id
    requires |Others(prev, req.id)| < HistoryLimit
    ensures h in AddToHistory(prev, req, status, now)
  {
    var i :| 0 <= i < |prev| && prev[i] == h;
    assert OtherRequest(req.id)(prev[i]);
    var r := AddToHistory(prev, req, status, now);
    assert r[1..] == Others(prev, req.id);
    assert h in r[1..];
  }

  // ---------------------------------------------------------------------
  // Collections

  /** `handleToggleCollection`: the collections with id `id` flip between
      open and closed; nothing else changes. */
  function ToggleCollection(cols: seq<Collection>, id: string): (r: seq<Collection>)
    ensures |r| == |cols|
    ensures forall i :: 0 <= i < |r| ==> r[i].isOpen == (cols[i].isOpen != (cols[i].id == id))
    ensures forall i :: 0 <= i < |r| ==> r[i].(isOpen := cols[i].isOpen) == cols[i]
  {
    seq(|cols|, i requires 0 <= i < |cols| => if cols[i].id == id then cols[i].(isOpen := !cols[i].isOpen) else cols[i])
  }

  /** Toggling twice restores the collections. */
  lemma ToggleTwice(cols: seq<Collection>, id: string)
    ensures ToggleCollection(ToggleCollection(cols, id), id) == cols
  {
    var r := ToggleCollection(ToggleCollection(cols, id), id);
    assert forall i :: 0 <= i < |cols| ==> r[i] == cols[i];
  }

  /** The `map` of App.tsx:152-168: the request is upserted into the
      collections with id `target`. */
  function PutInto(cols: seq<Collection>, target: string, req: ApiRequest): (r: seq<Collection>)
    ensures |r| == |cols|
    ensures forall i :: 0 <= i < |r| ==> r[i].id == cols[i].id && r[i].name == cols[i].name && r[i].isOpen == cols[i].isOpen
    ensures forall i :: 0 <= i < |r| && cols[i].id != target ==> r[i] == cols[i]
    ensures forall i :: 0 <= i < |r| && cols[i].id == target ==> r[i].requests == Upsert(cols[i].requests, req)
  {
    seq(|cols|, i requires 0 <= i < |cols| =>
      if cols[i].id == target then cols[i].(requests := Upsert(cols[i].requests, req)) else cols[i])
  }

  datatype Saved = Saved(collections: seq<Collection>, request: ApiRequest)

  /** `handleSaveRequest` on the collections and on the request it stores.
      `newId` is the id drawn for a new collection. The request object is
      stored in the request record before the collection update sets its
      `collectionId` to a new collection's id; both see the final object. */
  function Save(cols: seq<Collection>, active: ApiRequest, name: string, collectionId: Option<string>,
                newCollectionName: Option<string>, newId: string): (r: Saved)
    ensures r.request.id == active.id && r.request.name == name
    ensures r.request == active.(name := name, collectionId := r.request.collectionId)
    ensures r.request.collectionId ==
      if Given(newCollectionName) then Some(newId) else if Given(collectionId) then collectionId else None
  {
    var updated := active.(name := name, collectionId := if Given(collectionId) then collectionId else None);
    var withNew := if Given(newCollectionName) then cols + [Collection(newId, newCollectionName.value, [], true)] else cols;
    var target := if Given(newCollectionName) then Some(newId) else collectionId;
    var saved := if Given(newCollectionName) then updated.(collectionId := Some(newId)) else updated;
    if Given(target) then Saved(PutInto(withNew, target.value, saved), saved) else Saved(withNew, saved)
  }

  /** Saving into an existing collection: the collections keep count and
      order; the target collection receives the request (replaced where
      it stands if present, appended if not); the others are unchanged. */
  lemma SaveIntoExisting(cols: seq<Collection>, active: ApiRequest, name: string, target: string,
                         newCollectionName: Option<string>, newId: string)
    requires !Given(newCollectionName) && target != ""
    ensures var r := Save(cols, active, name, Some(target), newCollectionName, newId);
      && r.request.collectionId == Some(target)
      && r.collections == PutInto(cols, target, r.request)
  {
  }

  /** Saving into a new collection appends exactly one collection, open,
      holding only the request, whose `collectionId` names it; the others
      are unchanged. */
  lemma SaveIntoNew(cols: seq<Collection>, active: ApiRequest, name: string, collectionId: Option<string>,
                    newCollectionName: Option<string>, newId: string)
    requires Given(newCollectionName) && newId != ""
    requires forall i :: 0 <= i < |cols| ==> cols[i].id != newId
    ensures var r := Save(cols, active, name, collectionId, newCollectionName, newId);
      && r.request.collectionId == Some(newId)
      && r.collections == cols + [Collection(newId, newCollectionName.value, [r.request], true)]
  {
    var r := Save(cols, active, name, collectionId, newCollectionName, newId);
    var withNew := cols + [Collection(newId, newCollectionName.value, [], true)];
    var put := PutInto(withNew, newId, r.request);
    assert r.collections == put;
    assert Upsert([], r.request) == [r.request];
    assert put[|cols|] == Collection(newId, newCollectionName.value, [r.request], true);
    assert forall i :: 0 <= i < |cols| ==> put[i] == withNew[i] == cols[i];
  }

  /** With neither a target nor a new name the collections are unchanged
      and the request belongs to none. */
  lemma SaveNowhere(cols: seq<Collection>, active: ApiRequest, name: string, collectionId: Option<string>,
                    newCollectionName: Option<string>, newId: string)
    requires !Given(newCollectionName) && !Given(collectionId)
    ensures var r := Save(cols, active, name, collectionId, newCollectionName, newId);
      && r.collections == cols && r.request.collectionId == None
  {
  }

  // ---------------------------------------------------------------------
  // The workspace

  /** `DEFAULT_REQUEST` with the given ids: a GET of an empty address with
      one empty parameter row, one empty header row and an empty JSON
      body. */
  function DefaultRequest(id: string, paramId: string, headerId: string): (r: ApiRequest)
    ensures r.id == id && r.url == "" && r.httpMethod == GET
    ensures r.params == [EmptyRow(paramId)] && r.headers == [EmptyRow(headerId)]
  {
    ApiRequest(id, "New Request", GET, "", [EmptyRow(paramId)], [EmptyRow(headerId)], JsonBody, "", None, EmptyAuth)
  }

  /** The component's state: the request record (in key order, each
      request under its own id), the active id, the history and the
      collections; `drawn` counts the ids drawn from `mint`. */
  class Workspace {
    var requests: seq<ApiRequest>
    var activeRequestId: string
    var history: seq<HistoryItem>
    var collections: seq<Collection>
    var drawn: nat
    const mint: nat -> string

    /** The component renders only with some request to show, and a
        record never holds two requests under one key. */
    ghost predicate Valid()
      reads this
    {
      requests != [] && DistinctRequestIds(requests)
    }

    /** The state with nothing stored: the default request alone, active. */
    constructor (mint: nat -> string)
      ensures Valid() && this.mint == mint
      ensures requests == [DefaultRequest(mint(0), mint(1), mint(2))] && activeRequestId == mint(0)
      ensures history == [] && collections == [] && drawn == 3
    {
      this.mint := mint;
      requests := [DefaultRequest(mint(0), mint(1), mint(2))];
      activeRequestId := mint(0);
      history := [];
      collections := [];
      drawn := 3;
    }

    /** `activeRequest`: the request under the active id, or the first
        stored request when there is none. */
    function ActiveRequest(): (r: ApiRequest)
      reads this
      requires Valid()
      ensures HasId(requests, activeRequestId) ==> r.id == activeRequestId && r in requests
      ensures !HasId(requests, activeRequestId) ==> r == requests[0]
    {
      var found := FindRequest(requests, activeRequestId);
      if found.Some? then found.value else requests[0]
    }

    /** `handleUpdateRequest`. */
    method UpdateRequest(updated: ApiRequest)
      requires Valid()
      modifies this
      ensures Valid()
      ensures requests == Upsert(old(requests), updated)
      ensures activeRequestId == old(activeRequestId) && history == old(history)
      ensures collections == old(collections) && drawn == old(drawn)
    {
      UpsertKeepsDistinct(requests, updated);
      requests := Upsert(requests, updated);
    }

    /** `handleNewRequest`: a default request with three fresh ids is
        stored and becomes active. */
    method NewRequest()
      requires Valid()
      modifies this
      ensures Valid()
      ensures var r := DefaultRequest(mint(old(drawn)), mint(old(drawn) + 1), mint(old(drawn) + 2));
        requests == Upsert(old(requests), r) && ActiveRequest() == r
      ensures activeRequestId == mint(old(drawn))
      ensures drawn == old(drawn) + 3
      ensures history == old(history) && collections == old(collections)
    {
      var r := DefaultRequest(mint(drawn), mint(drawn + 1), mint(drawn + 2));
      drawn := drawn + 3;
      UpsertKeepsDistinct(requests, r);
      UpsertLookup(requests, r, r.id);
      requests := Upsert(requests, r);
      activeRequestId := r.id;
    }

    /** `handleSelectCollectionRequest`: a request not open yet is added;
        one already open keeps its edited copy; either becomes active. */
    method SelectCollectionRequest(req: ApiRequest)
      requires Valid()
      modifies this
      ensures Valid()
      ensures old(HasId(requests, req.id)) ==> requests == old(requests)
      ensures !old(HasId(requests, req.id)) ==> requests == old(requests) + [req]
      ensures ActiveRequest() == if old(HasId(requests, req.id)) then old(FindRequest(requests, req.id)).value else req
      ensures activeRequestId == req.id
      ensures history == old(history) && collections == old(collections) && drawn == old(drawn)
    {
      if !HasId(requests, req.id) {
        UpsertKeepsDistinct(requests, req);
        UpsertAppends(requests, req);
        UpsertLookup(requests, req, req.id);
        requests := requests + [req];
      }
      activeRequestId := req.id;
    }

    /** `handleSelectHistory`: an entry whose request is still stored
        becomes active; otherwise nothing changes. */
    method SelectHistory(id: string)
      requires Valid()
      modifies this
      ensures Valid()
      ensures activeRequestId == if HasId(requests, id) then id else old(activeRequestId)
      ensures requests == old(requests) && history == old(history)
      ensures collections == old(collections) && drawn == old(drawn)
    {
      if HasId(requests, id) {
        activeRequestId := id;
      }
    }

    /** `addToHistory` on the state. */
    method AddHistory(req: ApiRequest, status: int, now: int)
      requires Valid()
      modifies this
      ensures Valid()
      ensures history == AddToHistory(old(history), req, status, now)
      ensures requests == old(requests) && activeRequestId == old(activeRequestId)
      ensures collections == old(collections) && drawn == old(drawn)
    {
      history := AddToHistory(history, req, status, now);
    }

    /** `handleSaveRequest`: the active request, renamed and filed, is
        stored under its own id and filed into the collections; a new
        collection draws one id. The active request is then the saved one. */
    method SaveRequest(name: string, collectionId: Option<string>, newCollectionName: Option<string>)
      requires Valid()
      modifies this
      ensures Valid()
      ensures var s := Save(old(collections), old(ActiveRequest()), name, collectionId, newCollectionName, mint(old(drawn)));
        && requests == Upsert(old(requests), s.request)
        && collections == s.collections
        && ActiveRequest() == s.request
      ensures drawn == if Given(newCollectionName) then old(drawn) + 1 else old(drawn)
      ensures activeRequestId == old(activeRequestId) && history == old(history)
    {
      var active := ActiveRequest();
      var s := Save(collections, active, name, collectionId, newCollectionName, mint(drawn));
      if Given(newCollectionName) {
        drawn := drawn + 1;
      }
      assert HasId(requests, s.request.id) by {
        if HasId(requests, activeRequestId) {
          var i :| 0 <= i < |requests| && requests[i] == active;
        } else {
          assert requests[0].id == s.request.id;
        }
      }
      UpsertKeepsDistinct(requests, s.request);
      UpsertLookup(requests, s.request, activeRequestId);
      UpsertReplaces(requests, s.request);
      requests := Upsert(requests, s.request);
      collections := s.collections;
    }

    /** `handleToggleCollection` on the state. */
    method ToggleCollections(id: string)
      requires Valid()
      modifies this
      ensures Valid()
      ensures collections == ToggleCollection(old(collections), id)
      ensures requests == old(requests) && activeRequestId == old(activeRequestId)
      ensures history == old(history) && drawn == old(drawn)
    {
      collections := ToggleCollection(collections, id);
    }
  }
}
