# Thunder-Post core, modelled in Dafny

Thunder-Post is a browser-based HTTP workbench. You edit a request (method,
address, query parameters, headers, body), send it, and file it into
collections. It also keeps a history of the calls made and a set of
environments whose variables can be typed into any field as `{{name}}`.
Requests can be imported from a Postman v2.1 collection, from a
Swagger/OpenAPI document or from a cURL command line.

This project models the logic behind those features:

- **The importers** (`utils/importers.ts`):
  - `$ref` resolution and example-payload generation from a schema (module `Schema`);
  - the Postman flattening of nested folders (module `Postman`);
  - the OpenAPI grouping of operations by tag, with parameters and a generated body (module `Swagger`);
  - the regular-expression reading of a cURL command (module `Curl`). Each regular expression is written out as a scanner with the backtracking behaviour it has.
- **The top-level component** (`App.tsx`, module `App`):
  - how the active request becomes an address, a header record and a body;
  - the 20-entry history;
  - saving into an existing or a new collection;
  - opening and closing a collection;
  - the request record with its fallback for the active request.
  - The component's state is the class `App.Workspace`; each handler is a method on it, specified by pure functions.
- **The key/value table editor** (`components/KeyValueEditor.tsx`, module `KeyValueEditor`): editing a cell while keeping an empty row at the end, toggling a row, and deleting a row while never losing the last one.
- **The variable-suggestion field** (`components/SuggestionInput.tsx`, module `SuggestionInput`):
  - the `{{word` trigger before the cursor;
  - case-insensitive filtering;
  - splicing the chosen placeholder;
  - the cyclic focus arithmetic of the arrow keys, including JavaScript's `%` and the NaN it gives on an empty list.
  - The component's state is the class `SuggestionInput.SuggestionBox`.
- **The environment dialog** (`components/EnvironmentManager.tsx`, module `EnvironmentManager`): adding, deleting, renaming and replacing the variables of environments, and the initial selection. The dialog's state is the class `EnvironmentManager.EnvironmentPanel`.

Supporting modules give the JavaScript semantics these rely on:

- `Wrappers`: `Option`, and `Outcome`, where `Threw` is a thrown `TypeError`.
- `Seqs`: `filter` and subsequences.
- `Strings`: `trim`, ASCII case mapping, `includes`, `split`/`join` and decimal keys.
- `Json`: parsed JSON values with JavaScript's property access, `Object.entries`, spread, assignment and `String()`.
- `Types`: the data model.

Some parts of the environment are not modelled directly:

- **Fresh ids** (`crypto.randomUUID()`) come from an injective `mint: nat -> string` and a counter of ids drawn.
- **The clock** (`Date.now()`, `new Date().toISOString()`) is a parameter.
- **`JSON.parse`/`JSON.stringify` and the WHATWG `URL` class** are parameters (`Json.JsonCodec`, `App.UrlLib`).

## Model

| member | source | states |
|---|---|---|
| Seqs.Filter | App.tsx:126 | `filter` keeps exactly the elements satisfying the predicate, in order, as a subsequence |
| Seqs.FilterCounts | App.tsx:126 | `filter` keeps every copy of an element that satisfies the predicate and none of one that does not |
| Seqs.FilterAppend | App.tsx:181 | filtering distributes over concatenation |
| Strings.Trim | utils/importers.ts:345 | the result is `s` with only white space removed at both ends, and it neither starts nor ends with white space |
| Strings.Lower | components/SuggestionInput.tsx:77 | ASCII lower-casing keeps the length and maps each character |
| Strings.Split | utils/importers.ts:342-343 | `split` on one character gives pieces without the separator that `join` reassembles into the input |
| Strings.SplitFirst | utils/importers.ts:389 | the first piece of `split` is everything before the first separator |
| Strings.ContainsAt | components/SuggestionInput.tsx:77 | an occurrence of the needle at some index makes `includes` true |
| Strings.ContainsOccurs | components/SuggestionInput.tsx:77 | `includes` holds only when the needle occurs at some index |
| Strings.ParseIndexOfNatToString | utils/importers.ts:150 | the property key `String(n)` reads back as array index `n` |
| Json.Get | utils/importers.ts:21 | a property read of an object, or an element read of an array, gives a smaller value; a read into a string or an array succeeds only under a canonical index key or `length` |
| Json.GetLength | utils/importers.ts:21 | `length` of an array or a string reads as its number of elements or characters |
| Json.AssignLookup | utils/importers.ts:65 | after `obj[key] = v`, `key` reads `v` and every other key reads as before |
| Json.AssignKeys | utils/importers.ts:65 | assignment keeps the key order and appends a new key |
| Json.SpreadLookup | utils/importers.ts:45 | after `{...obj, ...other}` the keys of `other` carry its last value, every other key keeps its value, and no key is lost |
| Schema.Resolve | utils/importers.ts:16-25 | a reference that does not start with `#/` gives `null`; whatever is found is truthy |
| Schema.WalkAppend | utils/importers.ts:20-23 | following `p + q` is following `p` and then `q` from where it ended |
| Schema.WalkStopsAtMissingStep | utils/importers.ts:22 | once a step is missing or falsy, resolution gives `null` whatever follows |
| Schema.ResolveRef | utils/importers.ts:16-25 | the reference-walking loop returns exactly `Resolve(ref, root)` |
| Schema.DepthGuard | utils/importers.ts:29 | past depth 8 the generator returns `null` |
| Schema.Precedence | utils/importers.ts:31-58 | for a truthy schema within the depth: `$ref` first (a dangling reference gives `null`), then `allOf` (throwing on a non-array), then `example`, `default` and the first `enum` value |
| Schema.RefCycleIsNull | utils/importers.ts:29-37 | a cycle of `$ref`s terminates with `null` |
| Schema.MergeIsObject | utils/importers.ts:40-49 | whatever the `allOf` merge produces is an object |
| Schema.AllOfLastMemberWins | utils/importers.ts:40-49 | each key of the last member's object example carries that member's value |
| Schema.AllOfLatestWins | utils/importers.ts:40-49 | every key of the merged example takes its value from the latest member whose object (or array) example names it, or else keeps its value from before; string, number, boolean and `null` examples change nothing |
| Schema.LastMemberAlone | utils/importers.ts:40-49 | base case: one object example alone is the result |
| Schema.ObjectExampleKeys | utils/importers.ts:61-69 | the generated object has exactly the keys of `properties`, in order |
| Schema.ObjectExampleValues | utils/importers.ts:61-69 | each key is bound to the example of its own property schema |
| Schema.ObjectExampleKeepsKeys | utils/importers.ts:64-66 | a key no later property names keeps its value while the object is built |
| Schema.ItemsExampleElements | utils/importers.ts:75-77 | a tuple `items` gives one example per item schema, in order |
| Schema.ObjectShape | utils/importers.ts:61-69 | an object schema gives an object with exactly the keys of `properties`, or `{}` |
| Schema.ArrayShape | utils/importers.ts:72-81 | an array schema gives as many elements as tuple schemas, one for a single `items`, none without `items` |
| Schema.PrimitiveShape | utils/importers.ts:84-94 | the date-time, date, email and uuid samples, "string", 0, `true`, and `null` for anything else |
| Postman.MethodOf | utils/importers.ts:108 | a non-empty method string is upper-cased, and the method is never empty |
| Postman.HeaderRows | utils/importers.ts:126-133 | when mapping succeeds there is one row per header entry |
| Postman.HeaderRowsContent | utils/importers.ts:127-132 | each entry becomes its own row with the next fresh id, `enabled` the negation of `disabled` |
| Postman.HeaderRowsThrow | utils/importers.ts:127-132 | mapping throws exactly when some entry is `null` |
| Postman.AuthOf | utils/importers.ts:146-166 | no auth block gives the empty configuration; otherwise its `type` selects the kind, and a bearer token is read from `bearer[0].value`; a bearer block never throws |
| Postman.LeafRequest | utils/importers.ts:103-168 | a leaf becomes a request with the first fresh id, the collection id, its name or "Untitled Request", a non-empty method, the seeded parameter row and headers ending with the empty row; at least three ids are drawn |
| Postman.LeafHeaders | utils/importers.ts:126-134 | an imported header array gives one row per entry in order, then the empty row |
| Postman.ConvertLeavesAppend | utils/importers.ts:101-173 | converting `a + b` is converting `a`, then `b` from where `a` stopped |
| Postman.FlattenListIsLeaves | utils/importers.ts:101-173 | when the importer does not throw, it emits exactly the depth-first leaves, converted one after another |
| Postman.ConvertLeavesTags | utils/importers.ts:114 | every converted request carries the collection's id |
| Postman.FlattenListTagsCollection | utils/importers.ts:114 | every flattened request carries the collection's id |
| Postman.ProcessItems | utils/importers.ts:101-174 | the recursive walk pushes exactly what the flattening function emits onto the accumulator |
| Postman.ParsePostmanCollection | utils/importers.ts:97-186 | the imperative importer returns the collection of `ImportPostman`: its id is drawn first, it is open, and every request carries its id |
| Swagger.CollapseDeletesOnlySlashes | utils/importers.ts:229 | normalisation only ever deletes slashes |
| Swagger.CollapseFixesPlain | utils/importers.ts:229 | a string without a double slash is unchanged |
| Swagger.CollapseFirst | utils/importers.ts:229 | normalisation keeps the first character |
| Swagger.CollapseKeepsOnlyProtocolSlashes | utils/importers.ts:229 | without runs of three slashes, every double slash left follows a colon |
| Swagger.BaseUrl | utils/importers.ts:191-201 | the first server's URL when it is truthy; "" when there is neither a server URL nor a source address |
| Swagger.PathsOperations | utils/importers.ts:217-220 | only get, post, put, delete and patch operations (in any case) are kept, never a `null` one |
| Swagger.PushAppends | utils/importers.ts:247-260 | a parameter in `place` appends its row to that table |
| Swagger.Rotate | utils/importers.ts:268-276 | the seed row moves from the front of the table to the back; a table holding only the seed row stays |
| Swagger.PushParameters | utils/importers.ts:239-265 | the parameter loop appends exactly the rows of the query and of the header parameters, in order, to the tables it was given; it throws exactly when a parameter is `null` |
| Swagger.PushParameter | utils/importers.ts:240-261 | one parameter pushes its row onto the table for its place under the next fresh id |
| Swagger.ConvertOperation | utils/importers.ts:225-293 | the request has the name, method, normalised URL, tables and body `Expected` gives, the first fresh id and the collection id, and tables ending with the empty row; it throws exactly when `Expected` does |
| Swagger.TagsAreTheTags | utils/importers.ts:203-214 | a collection name is a tag exactly when some operation carries it |
| Swagger.TagsDistinct | utils/importers.ts:205 | no collection name repeats |
| Swagger.WithTagAbsent | utils/importers.ts:205 | a tag not seen yet has no operations |
| Swagger.NewGroup | utils/importers.ts:205-212 | `getCollection` for a new tag appends a new empty open collection |
| Swagger.PushGroup | utils/importers.ts:295 | the request is pushed onto the collection of its tag only |
| Swagger.GroupedStep | utils/importers.ts:218-297 | one more operation keeps every collection holding exactly its tag's conversions |
| Swagger.AddOperation | utils/importers.ts:204-214 | one loop step keeps the collection names equal to the tags in order of first appearance, and every collection holding exactly its tag's conversions |
| Swagger.GroupOperations | utils/importers.ts:217-299 | the operation loop yields one collection per tag, holding exactly its operations' conversions in order |
| Swagger.ParseSwagger | utils/importers.ts:188-302 | one open collection per tag in order of first appearance; each holds exactly that tag's requests, all carrying its id |
| Curl.CleanSingleLine | utils/importers.ts:319 | after cleaning no line break is left |
| Curl.CleanOneLine | utils/importers.ts:319 | a one-line command is only trimmed |
| Curl.Run | utils/importers.ts:326 | a greedy character-class star takes the longest prefix in the class |
| Curl.EscapedRun | utils/importers.ts:331 | the run is a prefix of the input and stops only before a quote or a backslash |
| Curl.FlagWordAt | utils/importers.ts:322 | a match starts at `i`, and its group is a non-empty upper-case word |
| Curl.QuotedUrlAt | utils/importers.ts:326 | a match starts at `i`, and its group starts with `http://` or `https://` and holds no quote |
| Curl.BareUrlAt | utils/importers.ts:326 | a match starts at `i`, and its group starts with `http://` or `https://` and holds no white space or quote |
| Curl.QuotedAfter | utils/importers.ts:331 | a match starts at `i` and fills exactly one of the two groups |
| Curl.QuotedArgAt | utils/importers.ts:365 | trying `-d`, `--data` and `--data-raw` at one position gives a match that fills exactly one group |
| Curl.UserAt | utils/importers.ts:387 | a match starts at `i`, and its group is non-empty and holds no quote |
| Curl.Find | utils/importers.ts:322-387 | a reported match is a match of the expression at a position at or after `from` |
| Curl.FindSkips | utils/importers.ts:322-387 | a non-matching position is skipped |
| Curl.FindReaches | utils/importers.ts:334 | a search from any later position up to the match reports the same |
| Curl.FindLeftmost | utils/importers.ts:322-387 | the search reports the leftmost match, and nothing only when no position matches |
| Curl.MethodIn | utils/importers.ts:322-323 | the method word found, if any, is a non-empty upper-case word |
| Curl.UrlIn | utils/importers.ts:326-327 | the address found, if any, starts with `http://` or `https://` and holds no quote |
| Curl.Unescape | utils/importers.ts:338 | unescaping never lengthens the text |
| Curl.UnescapeEscape | utils/importers.ts:371 | unescaping undoes shell escaping of double quotes |
| Curl.HeaderSplitsAtFirstColon | utils/importers.ts:342-343 | the key holds no colon, and key, colon and rest give back the argument |
| Curl.RowsItems | utils/importers.ts:345 | row `i` carries the `i`-th header, enabled, under the `i`-th fresh id |
| Curl.RowsDistinctIds | utils/importers.ts:345 | fresh ids make the row ids distinct |
| Curl.ScanHeaders | utils/importers.ts:331-348 | the `exec` loop pushes exactly the rows of the headers the command carries |
| Curl.FindAuthorization | utils/importers.ts:351 | the first header named `authorization` in any case |
| Curl.BearerIndex | utils/importers.ts:351-352 | the bearer header is the first `authorization` header in any case, and only when its value starts with `bearer ` in any case; a later `authorization` header never counts |
| Curl.FindIndexById | utils/importers.ts:355 | the first row with that id, or none |
| Curl.FindOwnRow | utils/importers.ts:355 | with distinct ids, a row's own id finds that row |
| Curl.RemoveOwnRow | utils/importers.ts:355-356 | removing by a row's own id removes exactly that row |
| Curl.SpliceBearer | utils/importers.ts:350-357 | a bearer header gives the token after `bearer `, trimmed, and is removed from the rows; otherwise nothing changes |
| Curl.CredentialsSegments | utils/importers.ts:389 | a password holding a colon is cut at it |
| Curl.Extract | utils/importers.ts:319-387 | the matching half gives exactly the extraction of the cleaned command, with distinct header ids |
| Curl.ImportedVerb | utils/importers.ts:322-323 | the `-X`/`--request` word or GET; a GET with a body becomes POST |
| Curl.CloseHeaders | utils/importers.ts:359-361 | kept headers closed by an empty row, or the seeded empty row when none is kept |
| Curl.ImportedAuth | utils/importers.ts:350-393 | basic authentication under `-u`, else a bearer token when found, else none |
| Curl.ReadBody | utils/importers.ts:368-381 | a JSON body is pretty-printed, any other is kept verbatim |
| Curl.WithBasic | utils/importers.ts:386-393 | `-u` sets basic authentication: the user name is the text before the first colon, the password the segment after it or empty; the bearer token and API-key fields are kept |
| Curl.Assemble | utils/importers.ts:321-393 | the assignments in order give the request `Assembled` describes |
| Curl.ParseCurl | utils/importers.ts:304-395 | the imperative `parseCurl` returns the request described by the extraction of its input |
| KeyValueEditor.Change | components/KeyValueEditor.tsx:11-19 | an edit throws exactly on an empty table |
| KeyValueEditor.ChangeWritesOneCell | components/KeyValueEditor.tsx:12 | only the edited cell of rows with that id changes; other rows, ids and flags stay |
| KeyValueEditor.ChangeKeepsTrailingRow | components/KeyValueEditor.tsx:13-17 | an empty enabled row is added exactly when the last row has a key or value; the table always ends with an empty row |
| KeyValueEditor.ChangeAboveTrailingRow | components/KeyValueEditor.tsx:13-17 | editing above a trailing empty row keeps the length |
| KeyValueEditor.Toggle | components/KeyValueEditor.tsx:21-23 | rows with that id flip `enabled`; nothing else changes |
| KeyValueEditor.ToggleTwice | components/KeyValueEditor.tsx:21-23 | toggling twice restores the table |
| KeyValueEditor.Delete | components/KeyValueEditor.tsx:25-28 | a table of at most one row is kept; otherwise exactly the rows with that id go, every copy of each other row stays, in order |
| KeyValueEditor.DeleteRemovesAtMostOne | components/KeyValueEditor.tsx:26 | with distinct ids at most one row goes, so the table is never emptied |
| SuggestionInput.TriggerIsTheMatch | components/SuggestionInput.tsx:34 | the trigger is reported exactly where `/\{\{([a-zA-Z0-9_]*)$/` matches, and there is at most one such index |
| SuggestionInput.Clamp | components/SuggestionInput.tsx:46-47 | the clamped cursor lies within the text |
| SuggestionInput.Filtered | components/SuggestionInput.tsx:77 | exactly the variables whose lower-cased key contains the lower-cased filter, every copy of each, in order |
| SuggestionInput.SpliceReplacesWord | components/SuggestionInput.tsx:45-64 | the chosen placeholder replaces the typed word and only it; the cursor lands after `}}` |
| SuggestionInput.FocusWraps | components/SuggestionInput.tsx:79-84 | on `n > 0` entries the arrows move by one and wrap at the ends |
| SuggestionInput.FocusCycles | components/SuggestionInput.tsx:79-84 | the focus stays within the list and the two arrows undo each other |
| SuggestionInput.SuggestionBox.constructor | components/SuggestionInput.tsx:22-25 | closed, cursor 0, empty filter, focus 0 |
| SuggestionInput.SuggestionBox.Sync | components/SuggestionInput.tsx:29-43 | the list opens on the captured word with focus 0 exactly when the trigger matches and there are variables; otherwise it closes |
| SuggestionInput.SuggestionBox.SetVariables | components/SuggestionInput.tsx:43 | new variables re-run the trigger effect: the list opens on the captured word with focus 0, or closes keeping filter and focus |
| SuggestionInput.SuggestionBox.Change | components/SuggestionInput.tsx:66-69 | the cursor moves to the selection start, 0 without one, and the text is the new one |
| SuggestionInput.SuggestionBox.Select | components/SuggestionInput.tsx:45-64 | with a trigger the placeholder is spliced in and the list closes; otherwise nothing changes |
| SuggestionInput.SuggestionBox.KeyDown | components/SuggestionInput.tsx:71-95 | arrows move the focus cyclically (NaN on an empty list), Enter/Tab choose the focused entry or close, Escape closes, a closed list forwards the key, any other key changes nothing |
| EnvironmentManager.FindEnvironment | components/EnvironmentManager.tsx:29 | the first environment with the selected id, or none exactly when no environment has it |
| EnvironmentManager.Without | components/EnvironmentManager.tsx:42 | exactly the environments with other ids stay, every copy of each, in order |
| EnvironmentManager.Renamed | components/EnvironmentManager.tsx:51 | the environments with that id take the new name; ids and variables stay |
| EnvironmentManager.WithVariables | components/EnvironmentManager.tsx:57 | the environments with that id take the new variables; ids and names stay |
| EnvironmentManager.RenamedFound | components/EnvironmentManager.tsx:49-53 | after a rename the selection is found with the new name |
| EnvironmentManager.FoundLast | components/EnvironmentManager.tsx:37-38 | an environment appended under a new id is found by it |
| EnvironmentManager.EnvironmentPanel.constructor | components/EnvironmentManager.tsx:19 | the given environments, nothing selected, no ids drawn |
| EnvironmentManager.EnvironmentPanel.InitSelection | components/EnvironmentManager.tsx:21-25 | an open dialog with environments and no selection selects the first; otherwise nothing changes |
| EnvironmentManager.EnvironmentPanel.AddEnvironment | components/EnvironmentManager.tsx:31-39 | "New Environment" with one empty row is appended and selected |
| EnvironmentManager.EnvironmentPanel.DeleteEnvironment | components/EnvironmentManager.tsx:41-47 | the environments with that id go; a deleted selection moves to the first remaining one or none |
| EnvironmentManager.EnvironmentPanel.UpdateName | components/EnvironmentManager.tsx:49-53 | the selected environment is renamed; without a selection nothing changes |
| EnvironmentManager.EnvironmentPanel.UpdateVariables | components/EnvironmentManager.tsx:55-59 | the selected environment takes the new variables; without a selection nothing changes |
| App.FindRequest | App.tsx:154 | the first request with that id, or none exactly when no request has it |
| App.UpsertReplaces | App.tsx:156-159 | a present id is replaced in place; positions, ids and other requests stay |
| App.UpsertAppends | App.tsx:161-164 | an absent id is appended at the end |
| App.UpsertLookup | App.tsx:85 | after an upsert the written id gives the new request and every other id what it gave before |
| App.UpsertKeepsDistinct | App.tsx:85 | upserting keeps ids distinct |
| App.PutInto | App.tsx:152-168 | only the collections with the target id change, and only in their requests, which become the upsert of the request |
| App.Save | App.tsx:131-149 | the saved request is the active one renamed, filed under the new collection, else the target, else none |
| App.QueryPairsOfFilter | App.tsx:181-183 | the query pairs are those of exactly the enabled rows with a key, in order |
| App.PairsAppend | App.tsx:181-183 | the pairs of `a + b` are those of `a` then of `b` |
| App.ConstructUrl | App.tsx:178-188 | each sendable parameter is appended to the parsed query in order; an unparsable address is returned as typed |
| App.LastRowFor | App.tsx:218 | the last row that sends a key |
| App.HeaderMapLast | App.tsx:217-218 | a key is in the header record exactly when some row sends it, with the last such row's value |
| App.CollectHeaders | App.tsx:217-218 | the header loop builds exactly `HeaderMap` of the rows |
| App.OutgoingHeaderLookup | App.tsx:216-237 | each outgoing header comes from the last row sending it, except the JSON `Content-Type`; nothing else is added |
| App.PrepareSend | App.tsx:190-237 | an empty address outside mock mode does nothing; mock mode passes the schema text; otherwise the built address, headers and a body only for methods other than GET and DELETE |
| App.AddToHistory | App.tsx:117-129 | the new entry first, the older entry of that request dropped, the rest in order, at most 20 |
| App.HistoryKeepsRecent | App.tsx:126-127 | an entry of another request survives when fewer than 20 such entries exist |
| App.ToggleCollection | App.tsx:174-176 | the collections with that id flip `isOpen`; nothing else changes |
| App.ToggleTwice | App.tsx:174-176 | toggling twice restores the collections |
| App.SaveIntoExisting | App.tsx:131-172 | with a target and no new name, the request names the target, and the target collection receives it through `PutInto` |
| App.SaveIntoNew | App.tsx:139-168 | exactly one new open collection holding only the request is appended, and the request names it |
| App.SaveNowhere | App.tsx:131-172 | without a target or a new name the collections stay and the request belongs to none |
| App.DefaultRequest | App.tsx:9-18 | a GET of an empty address under the given id, with one empty parameter row and one empty header row |
| App.Workspace.constructor | App.tsx:29-40 | the default request alone, active; empty history and collections |
| App.Workspace.ActiveRequest | App.tsx:82 | the request under the active id, or the first stored one |
| App.Workspace.UpdateRequest | App.tsx:84-86 | the request is stored under its id; the rest stays |
| App.Workspace.NewRequest | App.tsx:88-99 | a default request with three fresh ids is stored and its id becomes the active id |
| App.Workspace.SelectCollectionRequest | App.tsx:101-108 | a request not open yet is added; an open one keeps its edited copy; its id becomes the active id |
| App.Workspace.SelectHistory | App.tsx:110-115 | a stored request becomes active; otherwise nothing changes |
| App.Workspace.AddHistory | App.tsx:117-129 | the history becomes `AddToHistory` of it |
| App.Workspace.SaveRequest | App.tsx:131-172 | the renamed, filed active request is stored and filed; a new collection draws one id |
| App.Workspace.ToggleCollections | App.tsx:174-176 | the collections become `ToggleCollection` of them |

## Left out

- Network and storage: `fetch`, the response panel, the mock generator service and `localStorage` persistence are I/O. `App.PrepareSend` stops at what is sent.
- Fresh ids: `crypto.randomUUID()` is an injective `mint`. Collisions and randomness are not modelled.
- `JSON.parse`, `JSON.stringify` and the WHATWG `URL` parser are parameters. Their own behaviour is not modelled.
- JSON numbers are integers. Floating point and number formatting are not modelled.
- `toLowerCase`/`toUpperCase` map the ASCII letters only; other letters are left as they are.
- Integer-like object keys are kept in insertion order. JavaScript lists them first, in numeric order.
- `Swagger.ParseSwagger`: collections come in the order their tags first appear, even for integer-like tags such as "2" and "1"; `Object.values` of the source's collection record lists those first, in numeric order.
- Prototype properties such as `constructor` are not modelled; a JSON object has only its own keys. The same holds for the plain objects the code indexes by strings it reads: a Swagger tag named `constructor`, `toString` or `__proto__` would find an inherited value in the collections record of `parseSwagger`, whose `push` would then throw, while `Swagger` creates a collection for it; `App.Workspace` likewise treats its request record as holding only the ids put into it.
- Untyped JSON fields: the importers store whatever value a JSON field holds into fields typed as strings or booleans. The model turns such values into strings through `Json.TextOf`, `Json.TextOr` and `Json.ToJsString` (the `String()` form of a non-string, `""` for a missing field). So a `null` Postman header key becomes `"null"` in `Postman.HeaderRow` where the source keeps `null`, the same goes for header values, `url.raw`, `body.raw`, item names, Swagger parameter names and tags, and `Swagger.ParamRow` makes `enabled` a boolean where the source keeps the truthy value of `required`.
- `Curl.ReadBody`: an empty single-quoted body (`-d ''`) leaves both capture groups falsy, so the source parses `undefined`, fails and stores `undefined` as the body; the model stores the empty string. An empty double-quoted body (`-d ""`) and a command without `-d` give the empty string in both.
- `SuggestionInput.Clamp`, `SuggestionInput.Splice` and `SuggestionInput.SuggestionBox.Select`: positions and lengths count characters, where JavaScript's `selectionStart`, `slice` and `length` count UTF-16 code units; text with characters outside the Basic Multilingual Plane (such as emoji) before the cursor gives other positions in the source. `Json.GetLength` likewise counts the characters of a string.
- Headers: `App.OutgoingHeaders` is a map, so the record's key order is not modelled.
- The clock: `Date.now()` and `new Date().toISOString()` are given as one value per operation.
- React scheduling: effects are explicit methods (`Sync`, `InitSelection`) that the caller runs after the state change. Batching, StrictMode double calls and re-rendering are not modelled.
- Suggestion field: the `setTimeout` that restores focus and the cursor is not modelled; `Select` returns the cursor position instead. The document `mousedown` listener is left out as a DOM event. The `!inputRef.current` guard of the trigger effect is taken as passing, since the field is mounted.
- Rendering: the dialogs' and components' markup is out of scope. `CustomDropdown`, `ImportDialog`, `RequestPanel`, `ResponsePanel`, `SaveDialog`, `Sidebar` and `TabBar` are not part of this model.
- Environment dialog: the handlers are modelled whatever `isOpen` is, although the closed dialog renders nothing to click.
- `App.DefaultRequest`: the request type declares no `auth` field. A default request carries the empty authentication configuration.
- `App.Workspace.SaveRequest`: the request object is shared with the collection update and later mutated. The model stores the final object in both places, which is what a reader of either sees once the updates have run.
- `Swagger.OperationsOf`: only the enumeration order that `Object.entries` gives for non-integer keys is modelled.
- `Swagger.CollapseSlashes`: for a run of three or more slashes the global replace leaves a double slash behind. This follows the code as written.
- `Curl.RemoveById`: states only the length of the result. What it removes is proved by `Curl.RemoveOwnRow`.
- `Swagger.RowsOf`: states only the length. The rows themselves are described through `Swagger.Expected` and `Swagger.PushParameters`.
