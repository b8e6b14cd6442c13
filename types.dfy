/** The workbench's data model: key/value rows, authentication settings,
    requests, collections, history entries and environments. */
module Types {
  import opened Wrappers

  /** `HttpMethod` is a string enumeration whose values are only asserted by
      a cast, so importers can store any upper-case verb: it is a string
      here, with the five named values as constants. */
  type HttpMethod = string

  const GET: HttpMethod := "GET"
  const POST: HttpMethod := "POST"
  const PUT: HttpMethod := "PUT"
  const DELETE: HttpMethod := "DELETE"
  const PATCH: HttpMethod := "PATCH"

  /** One row of a parameter, header or variable table. */
  datatype KeyValueItem = KeyValueItem(id: string, key: string, value: string, enabled: bool)

  datatype BodyType = JsonBody | TextBody | SchemaBody

  datatype AuthType = NoAuth | BearerAuth | BasicAuth | ApiKeyAuth

  datatype ApiKeyLocation = InHeader | InQuery

  /** Every field of every scheme is kept, whatever `authType` says. */
  datatype AuthConfig = AuthConfig(
    authType: AuthType,
    bearerToken: string,
    basicUsername: string,
    basicPassword: string,
    apiKeyKey: string,
    apiKeyValue: string,
    apiKeyLocation: ApiKeyLocation)

  datatype ApiRequest = ApiRequest(
    id: string,
    name: string,
    httpMethod: HttpMethod,
    url: string,
    params: seq<KeyValueItem>,
    headers: seq<KeyValueItem>,
    bodyType: BodyType,
    bodyContent: string,
    collectionId: Option<string>,
    auth: AuthConfig)

  datatype Collection = Collection(id: string, name: string, requests: seq<ApiRequest>, isOpen: bool)

  datatype HistoryItem = HistoryItem(id: string, httpMethod: HttpMethod, url: string, timestamp: int, status: Option<int>)

  datatype Environment = Environment(id: string, name: string, variables: seq<KeyValueItem>)

  /** `createEmptyAuth()`: no scheme, every field empty, API keys in a header. */
  const EmptyAuth: AuthConfig := AuthConfig(NoAuth, "", "", "", "", "", InHeader)

  /** The editable placeholder row every table carries at its end. */
  function EmptyRow(id: string): KeyValueItem {
    KeyValueItem(id, "", "", true)
  }

  predicate IsEmptyRow(item: KeyValueItem) {
    item.key == "" && item.value == "" && item.enabled
  }

  /** An optional string argument that JavaScript treats as true: present
      and not empty. */
  predicate Given(s: Option<string>) {
    s.Some? && s.value != ""
  }

  /** No two rows share an id. */
  predicate DistinctIds(rows: seq<KeyValueItem>) {
    forall i, j :: 0 <= i < j < |rows| ==> rows[i].id != rows[j].id
  }

  /** Fresh ids (`crypto.randomUUID()`): the n-th id drawn during an
      operation is `mint(n)`, and no two draws give the same id. */
  ghost predicate Injective(mint: nat -> string) {
    forall m, n :: mint(m) == mint(n) ==> m == n
  }
}
