# okta-sdk-test-server, modelled in Dafny

okta-sdk-test-server is a record/playback HTTP proxy. SDK test suites send it
requests of the form `/<scenario>/<path>`.

- **Record mode:** the proxy forwards each request to a real API (the proxy
  target). It then appends the exchange to the scenario's HAR tape.
- **Playback mode:** the proxy answers each request from the next unused entry
  of the scenario's tape. It first checks that the request agrees with the
  recorded one: full URL, method and body.

A side library (`SpecUtil`) finds the OpenAPI operation a request targets and
strips the read-only properties of a request body.

The model is split into these modules:

| module | file | models |
|---|---|---|
| `Basics` | `basics.dfy` | `Option` and a JavaScript-exception-style `Result`. `Render` gives the text JavaScript prints for a possibly undefined string. |
| `Strings` | `strings.dfy` | `split`/`join` on one character, `indexOf`, ASCII `toUpperCase`/`toLowerCase`, and a character-by-character order standing for the order `json-stable-stringify` sorts keys by. |
| `Util` | `util.dfy` | `util.formatPath`, with the POSIX `path.normalize` and `path.join` it relies on. |
| `Http` | `http.dfy` | The node request and response objects, as classes whose fields the handlers update. Each class has a value view, `State()`. |
| `Har` | `har.dfy` | `lib/harUtil.js`: the default tape, `normalizeRequest`, `createHarEntry`, and the query-string parsing and sorting they use. |
| `Server` | `server.dfy` | `lib/server.js`: the scenario router, `playbackProxy`, `recordProxy`, the request listener, and the proxy's state (scenario queues and the tape store) as the class `Proxy`. |
| `SpecUtil` | `specutil.dfy` | `lib/SpecUtil.js`: path templates compiled to matchers, the path and operation finders, `getModelForReq`, `removeReadOnlyProps`, and the class `SpecUtil`. |

Each operation is a pure function, which states what it does. Where the
code works step by step on objects or in a loop, there is also an
imperative method that does the same on the `Http` objects or in a `while`
loop, and its postcondition ties the new state to that function. Operations
the code writes as a single expression (`formatPath`, the scenario router,
`readHarFile`, the response-header filter, the path-template compiler and
matcher) have the function only.

The lemmas state the properties:

- FIFO consumption of a scenario's entries;
- exhaustion, then a 400 for any further request;
- recording appends exactly one entry, and touches no other tape;
- a recorded exchange replays to the recorded response;
- routing is exact;
- header normalisation drops `authorization`;
- the query-string round trip, and that the key sort gives a sorted permutation;
- `formatPath` is idempotent and canonical;
- how the path templates match;
- what `removeReadOnlyProps` keeps and drops.

Three behaviours of the code differ from what its own comments and names
suggest. The model follows the code:

- **A URL whose first segment is empty** (`//x`) routes to the scenario named
  `undefined`. The optional group of `^/([^/]*)?/` is then undefined.
- **The query-string sort in `normalizeRequest` has no effect**, although
  the comment at lib/harUtil.js:39 says it normalizes the query. It is
  computed on a `URL` object that is never written back to `req.url`
  (lib/harUtil.js:40-46). `Har.SortedQuery` models the computation; nothing
  uses its result.
- **A transport error in record mode does not answer 500.** The handler sets
  `res.responseCode = 500` (lib/server.js:61), which is not `statusCode`. It then calls `res.send`,
  which a plain `http` response does not have, so the callback throws. The
  response is never ended (lib/server.js:59-63).

Things the code takes from the outside world are parameters:

- the parsed tapes;
- the tape store, a map from file path to HAR file;
- the text body;
- what upstream answers;
- the response state the upstream pipe leaves behind;
- `JSON.parse` followed by `json-stable-stringify`, passed in as `canon`. It
  gives `None` where `JSON.parse` throws.

## Model

| member | source | states |
|---|---|---|
| Util.FormatPath | lib/util.js:5-9 | No path or an empty one gives undefined. An absolute path is returned unchanged. A relative path resolved against an absolute working directory gives an absolute path. |
| Util.FormatPathRelative | lib/util.js:8 | A relative path becomes the normalized join of the working directory and the path. |
| Util.FormatPathCanonical | lib/util.js:8 | With an absolute working directory, the result of a relative path has no empty, `.` or `..` segment. |
| Util.FormatPathIdempotent | lib/util.js:5-9 | Formatting an already formatted path changes nothing. |
| Util.Normalize | lib/util.js:8 | `path.normalize` never gives the empty string, keeps a leading slash and keeps a trailing slash. Its canonical form and idempotence are `Util.NormalizeCanonical` and `Util.NormalizeIdempotent`. |
| Util.JoinPath | lib/util.js:8 | `path.join` never gives the empty string, stays absolute when its first argument is, and joins two empty arguments to `.`. |
| Util.NormalizeIdempotent | lib/util.js:8 | `path.normalize` is idempotent. |
| Util.NormalizeCanonical | lib/util.js:8 | Normalizing an absolute path leaves no empty, `.` or `..` segment. |
| Strings.Upper | lib/harUtil.js:59 | Same length as the input. Each lower-case ASCII letter becomes its capital, 32 code points lower, and every other character is unchanged. |
| Strings.Lower | lib/SpecUtil.js:34 | Same length as the input. Each upper-case ASCII letter becomes its small letter, 32 code points higher, and every other character is unchanged. |
| Strings.SplitJoin | lib/SpecUtil.js:50 | Splitting the join of `/`-free pieces gives the pieces back. |
| Strings.LastPiece | lib/SpecUtil.js:50 | The last piece of `a/b` is `b` when `b` has no `/`. |
| Http.HeaderOf | lib/harUtil.js:91 | `getHeader` is case-insensitive. It finds the value stored under the lower-cased name, or nothing. |
| Http.SetHeaderOn | lib/server.js:123 | `setHeader` stores the value under the lower-cased name. All other headers keep their values. |
| Http.Response.SetHeader | lib/server.js:123 | The response's new state is `SetHeaderOn` of the old one. |
| Http.Response.End | lib/server.js:126 | The response is ended with the given body, and nothing else changes. |
| Http.Request.constructor | lib/server.js:129 | The request object holds the given state. |
| Http.Response.constructor | lib/server.js:129 | The response object holds the given state. |
| Har.ReadHarFile | lib/harUtil.js:11-28 | An existing tape is returned as stored. Otherwise the result is a version 1.2 log by `okta-sdk-test-server`, at the package version, with no entries. |
| Har.ParseSerialize | lib/harUtil.js:43-45 | `querystring.parse` of the serialization of plain pairs gives the same pairs back. |
| Har.SearchParamsOfBuiltUrl | lib/harUtil.js:69-70 | The search parameters of `base?query` are exactly the serialized pairs, in order. |
| Har.GroupSpec | lib/harUtil.js:43 | Parsing groups repeated names under one key. The keys are the names that occur, and each holds its values in order. |
| Har.SortSpec | lib/harUtil.js:44 | The key sort of `json-stable-stringify` gives keys in strictly increasing order, as a permutation of the groups. |
| Har.SortedGroupsSpec | lib/harUtil.js:42-45 | The sorted query has increasing keys. Exactly the parsed names occur, each with all its values. |
| Har.SortedQuery | lib/harUtil.js:42-45 | The query as `querystring.stringify` of the sorted parse. No contract of its own: `Har.SortedGroupsSpec`, `Har.SortSpec`, `Har.FlattenSpec` and `Har.ParseSerialize` specify its parts, and `Har.NormalizeRequest` shows the result is dropped. |
| Har.FlattenSpec | lib/harUtil.js:45 | Flattening the sorted object for `querystring.stringify` lists, under each key, exactly that key's values in order, and nothing under a key that has no group. |
| Har.NormalizedHeaders | lib/harUtil.js:34-37 | Exactly `accept` and `content-type` remain, with the request's values or undefined. `authorization` is dropped. |
| Har.NormalizedHeadersIdempotent | lib/harUtil.js:34-37 | Normalizing the headers twice is the same as once. |
| Har.NormalizeState | lib/harUtil.js:31-52 | Method, URL and body are unchanged and the headers are normalized. It throws exactly when some data is present and does not parse. Data that parses is replaced by its canonical form. |
| Har.NormalizeTwice | lib/harUtil.js:31-52 | With an idempotent canonicaliser, normalizing a request twice gives the same state and outcome as normalizing it once, whether or not its data parses. |
| Har.NormalizeRequest | lib/harUtil.js:31-52 | The in-place normalization leaves the request in the state `NormalizeState` gives, and reports whether it threw. |
| Har.ResponseHeaders | lib/harUtil.js:87-94 | `content-type` then `link`, each present exactly once when the response has a non-empty value for it and absent otherwise, with that value. |
| Har.QueryStringOf | lib/harUtil.js:67-77 | The aggregate lists every search parameter of the URL as a name/value pair, in order. |
| Har.HarEntryOf | lib/harUtil.js:54-105 | The entry exists exactly when normalization does not throw. Then: upper-cased method, URL `proxyTarget + url`, the two normalized headers, the query pairs, and the request body. It also holds the status, the status text, the kept response headers, and the content type with the response body. |
| Har.EntryHasNoAuthorization | lib/harUtil.js:32-37 | No recorded request header is `authorization` or `host`. |
| Har.CreateHarEntry | lib/harUtil.js:54-105 | The method normalizes the request in place and returns `HarEntryOf` of the original request. |
| Server.Route | lib/server.js:130-136 | A URL is routed exactly when it starts with `/` and has another `/`. |
| Server.RoutePrefixed | lib/server.js:135-136 | `/name/rest` routes to `name` (`undefined` when `name` is empty), with the URL rewritten to `/rest`. |
| Server.RouteComplete | lib/server.js:50 | Every routed URL has the form `/name/rest` with a `/`-free name. |
| Server.ApplyHeadersSpec | lib/server.js:123 | After replaying distinct headers, each is set under its lower-cased name. Every header not replayed keeps its value, and nothing else in the response changes. |
| Server.Answer | lib/server.js:94-126 | The request is left normalized. The call throws exactly when normalization throws, and then the response is untouched. Otherwise the response is ended. `Server.AnswerSpec` states what it is ended with. |
| Server.Playback | lib/server.js:75-127 | The scenario names stay the same, every other scenario keeps its entries, and the response is ended unless normalization throws. `Server.PlaybackUnknown`, `Server.PlaybackExhausted` and `Server.PlaybackConsumesHead` give the three cases. |
| Server.PlaybackUnknown | lib/server.js:77-81 | An unknown scenario gets a 404 with the not-found text. Nothing is consumed. |
| Server.PlaybackExhausted | lib/server.js:84-93 | An empty scenario gets a 400 with the over-run text. Nothing changes. |
| Server.PlaybackConsumesHead | lib/server.js:84 | A non-empty scenario loses its first entry, and the request is answered from that entry. Other scenarios are untouched. |
| Server.AnswerSpec | lib/server.js:95-126 | A request that agrees with the entry on full URL, method and body gets the recorded status, status text, headers and body. Any other request gets a 400 with the mismatch text. |
| Server.FifoConsumption | lib/server.js:76-127 | k requests consume the first k entries. The i-th request is answered from the i-th entry, and no other scenario changes. |
| Server.Exhaustion | lib/server.js:84-93 | Once every entry is consumed, the next request gets a 400 with the over-run text. |
| Server.Record | lib/server.js:52-74 | Only the scenario's tape path may be added or changed in the store. A call that throws writes nothing, and one that returns has written that tape. `Server.RecordAppends` states what is written. |
| Server.RecordAppends | lib/server.js:65-71 | On success the scenario's tape holds its old entries followed by the new entry, and a new tape gets the default header. No other tape changes. |
| Server.RecordForwards | lib/server.js:53-58 | Upstream receives the request's method, `proxyTarget + url`, headers and body. No other scenario's tape changes. |
| Server.RecordTransportError | lib/server.js:59-63 | On a transport error nothing is written and `responseCode` becomes 500 while `statusCode` stays as it was. The call then throws, and the response is otherwise untouched and never ended. |
| Server.RecordThenPlayback | lib/server.js:95-126 | Playing a request back against the entry just recorded from it replays the recorded status, status text, kept headers and body, and empties the scenario. |
| Server.Prepared | lib/server.js:136-139 | The request handed on has no `host` header. Every other header is kept. |
| Server.Handle | lib/server.js:129-154 | A request goes upstream exactly in record mode with a routed URL. Record mode keeps the scenario queues, and playback mode keeps the tape store. `Server.HandleUnrouted` and `Server.HandleRouted` give the two routes. |
| Server.HandleUnrouted | lib/server.js:130-133 | An unrouted URL gets a 400 with the scenario-prefix text. Nothing else changes. |
| Server.HandleRouted | lib/server.js:135-152 | A routed request is passed, rewritten, to record or to playback, according to the mode. |
| Server.HandleRecordForwards | lib/server.js:148-149 | In record mode the rewritten request goes upstream without `host`. Scenarios and other tapes are unchanged. |
| Server.HandlePlaybackDispatch | lib/server.js:150-151 | In playback mode `/name/rest` is played against `name` with URL `/rest`. The tape store is untouched. |
| Server.ReplayHeaders | lib/server.js:123 | Setting each stored header in turn leaves the response as `ApplyHeaders` gives. |
| Server.Proxy.constructor | lib/server.js:35-48 | Playback mode starts with every loaded tape's entries under its scenario name. Record mode starts with no scenarios and an empty tape store, as after the erase. The model's store also starts empty in playback mode. |
| Server.Proxy.PlaybackProxy | lib/server.js:76-127 | The scenario queues and the response end as `Playback` gives. |
| Server.Proxy.Respond | lib/server.js:95-126 | Request and response end as `Answer` gives for the entry taken. |
| Server.Proxy.RecordProxy | lib/server.js:52-74 | The store, request and response end as `Record` gives, and the forwarded request is returned. |
| Server.Proxy.HandleRequest | lib/server.js:129-154 | The whole listener leaves the proxy, request and response as `Handle` gives. |
| SpecUtil.Compile | lib/SpecUtil.js:9 | The template of a path: each `{…}` up to the first `}` becomes a hole. No contract of its own: `SpecUtil.CompileLiteral`, `SpecUtil.OneHoleTemplate`, `SpecUtil.FillMatches` and `SpecUtil.MatchesFilled` specify what it matches. |
| SpecUtil.FillMatches | lib/SpecUtil.js:9 | Filling each hole of a template with `/`-free text gives a matching string. |
| SpecUtil.MatchesFilled | lib/SpecUtil.js:9 | Every matching string is such a filling. |
| SpecUtil.CompileLiteral | lib/SpecUtil.js:9 | A path without `{` compiles to itself, with no hole. |
| SpecUtil.OneHoleTemplate | lib/SpecUtil.js:9 | `pre{x}post` matches exactly the strings `pre v post` with a `/`-free `v`. |
| SpecUtil.TestAnchoredAtEnd | lib/SpecUtil.js:9 | The pattern is anchored only at the end: any prefix may come before a match. |
| SpecUtil.BuildPathFinder | lib/SpecUtil.js:3-14 | One matcher per path, in order, each pairing the compiled template with its path item. |
| SpecUtil.SanitizeDropsQuery | lib/SpecUtil.js:19 | The part after the first `?` is removed, and a URL without `?` is unchanged. |
| SpecUtil.FirstMatchIndex | lib/SpecUtil.js:21-25 | Nothing when no matcher accepts the URL. Otherwise the first matcher that accepts it. |
| SpecUtil.FindPath | lib/SpecUtil.js:17-26 | The loop returns the path item of the first matcher that accepts the URL without its query, or nothing when none does. |
| SpecUtil.OperationOf | lib/SpecUtil.js:29-36 | The operation finder. No contract of its own: `SpecUtil.OperationIgnoresQuery`, `SpecUtil.OperationMethodCase` and `SpecUtil.FirstMatchIndex` specify it. |
| SpecUtil.OperationIgnoresQuery | lib/SpecUtil.js:29-36 | Adding a query string does not change the operation found. |
| SpecUtil.OperationMethodCase | lib/SpecUtil.js:33-34 | The method is matched case-insensitively. An empty method finds no operation. |
| SpecUtil.BodyParam | lib/SpecUtil.js:49 | The first parameter located in `body`, or nothing when none is. |
| SpecUtil.DefinitionNamed | lib/SpecUtil.js:50-51 | A reference `.../name` selects the definition `name`. |
| SpecUtil.ModelOfOperationSpec | lib/SpecUtil.js:49-51 | The model is found exactly when the operation exists, has a body parameter, and that parameter's schema has a `$ref`. It is the definition the reference names. |
| SpecUtil.ModelForReqSpec | lib/SpecUtil.js:45-52 | The same, for the operation the request reaches. Without a request it throws. |
| SpecUtil.PutSpec | lib/SpecUtil.js:83 | Assigning a key sets it. Every other key keeps its presence and value. |
| SpecUtil.Clean | lib/SpecUtil.js:54-115 | `removeReadOnlyProps`. No contract of its own: `SpecUtil.CleanScalar`, `SpecUtil.CleanArray`, `SpecUtil.CleanObject` and `SpecUtil.CleanReferences` give its cases. |
| SpecUtil.NestedIsClean | lib/SpecUtil.js:72 | A recursive call is `removeReadOnlyProps` with the given model and no request. |
| SpecUtil.CleanScalar | lib/SpecUtil.js:57-63 | A falsy body gives undefined. Any other non-object body is returned as it is. |
| SpecUtil.CleanArray | lib/SpecUtil.js:71-73 | An array becomes an array of the same length, each element cleaned with the same model. |
| SpecUtil.CleanItemsOk | lib/SpecUtil.js:72 | The map throws exactly when cleaning some element throws. |
| SpecUtil.CleanObject | lib/SpecUtil.js:75-114 | An object keeps only iterated keys and no read-only property. Every iterated key without a property keeps the body's value. |
| SpecUtil.CleanReferences | lib/SpecUtil.js:85-110 | A kept property with a `$ref` is cleaned with the referenced definition. One whose `items` has a `$ref` is an array of the same length whose every element is the body's element cleaned with the referenced definition. Any other kept property keeps the body's value. |
| SpecUtil.AsWrittenLosesFields | lib/SpecUtil.js:78 | As written, `{"name": "x"}` becomes `{"0": undefined}`. Iterating the own keys keeps `name`. |
| SpecUtil.OwnKeysKeepsFields | lib/SpecUtil.js:75-114 | Over the own keys: fields without a property are copied, non-read-only properties are kept, read-only ones are dropped, and no foreign key appears. |
| SpecUtil.SpecUtil.constructor | lib/SpecUtil.js:40-43 | The object keeps the document and the finder compiled from its paths. |
| SpecUtil.SpecUtil.FindOperation | lib/SpecUtil.js:29-37 | The operation finder returns `OperationOf` the request. |
| SpecUtil.SpecUtil.GetModelForReq | lib/SpecUtil.js:45-52 | Returns `ModelForReq`, including each TypeError. |
| SpecUtil.SpecUtil.RemoveReadOnlyProps | lib/SpecUtil.js:54-115 | Returns `Clean` of the same arguments. |
| SpecUtil.SpecUtil.CleanObjectLoop | lib/SpecUtil.js:75-114 | The key loop builds the fields `CleanFields` gives, or throws as it does. |
| SpecUtil.SpecUtil.CleanEach | lib/SpecUtil.js:72 | The element-wise map gives `CleanItems`. |
| SpecUtil.SpecUtil.CleanField | lib/SpecUtil.js:80-111 | The branches for one key give `Outcome`. |

## Left out

- Command-line parsing, the start-up checks and `server.listen` (lib/server.js:14-34, 156-158): process set-up, not proxy behaviour. Mode, proxy target and tape directory are constructor arguments.
- Reading the tape directory at start-up (lib/server.js:41-47): the constructor receives the parsed tapes. The record-mode erase (line 38) becomes an empty tape store.
- The tapes left on disk in playback mode: the model's tape store starts empty in playback mode too, while the real tape directory still holds the loaded tapes. Playback never reads or writes the store, so no behaviour depends on it.
- `harUtil.loadHarFromFile` (lib/harUtil.js:107-111): file input only. It is the same name-to-entries mapping the constructor performs.
- Writing tapes and creating the directory (lib/server.js:70-71): the store is a map from path to HAR file. JSON text output is not modelled.
- The `request` call and the pipe of the upstream response into `res`: what upstream answers and the response state the pipe leaves are inputs.
- `body-parser` and the `console.log` lines: the body is a parameter, and logging has no effect on state.
- `cleanup` on exit (lib/server.js:160-170): process exit. Its condition is a constant string, so it always exits 0.
- `JSON.parse` and `json-stable-stringify` of request data: the `canon` parameter stands for them.
- WHATWG URL parsing: the query is the text after the first `?` and before any `#`. There is no percent- or `+`-decoding. URLs that `new URL` rejects are not modelled as throwing: an invalid proxy target, and a rewritten request URL with an empty host such as `//` (from the request `/s//`), which `new URL(req.url, 'http://localhost')` at lib/harUtil.js:40 rejects. In playback the source then throws after `shift()` has consumed the entry, while `Har.NormalizeState` reports success and `Server.Answer` goes on to compare and answer.
- `querystring`: its 1000-key limit and its decoding.
- JavaScript's key order for objects, which puts integer-like keys first: header maps and JSON objects keep insertion order.
- Regular-expression metacharacters in the literal text of OpenAPI paths, and line terminators inside `{…}`: paths are taken as plain text with `{…}` holes.
- Inherited object properties such as `constructor` in `scenarioEntriesMap[name]`, `path[method]`, `definitions[name]` and `properties[propName]`: maps hold only own keys.
- Case mapping beyond ASCII in `toUpperCase`/`toLowerCase`.
- `nextResponse.content` being absent in a hand-written tape: every entry has content.
- `nextRequest.postData` being absent in a hand-written tape: every recorded request has `postData`. The comparison at lib/server.js:99 reads `nextRequest.postData.text` and would throw without it.
- Strings.Less: compares Dafny characters, which are Unicode scalar values. JavaScript compares UTF-16 code units, so the two orders differ when one key has a character above U+FFFF where the other has one in U+E000–U+FFFF.
- Header values that are arrays or numbers: header values are strings.
- JSON numbers are integers. `NaN` and `-0` are not modelled as falsy. `_.isObject` of a function does not arise for parsed JSON.
- Exceptions thrown inside callbacks are a `threw` flag. The resulting crash of the process and the untouched response are not modelled further.
- Server.AnswerSpec: the headers clause is stated for tapes whose response headers have distinct names. With repeated names the last value wins, which the model computes but does not state.
- Server.RecordThenPlayback: stated for upper-case request methods only. The recorded method is upper-cased while playback compares the method as received, so a lower-case method never replays.
- SpecUtil.FindPath: compares URLs by the template language above, not by the JavaScript regular-expression engine.

## Findings

| source | as written | input that shows it | evidently intended | confidence | as-written member | corrected member |
|---|---|---|---|---|---|---|
| lib/SpecUtil.js:78 | A `for…in` loop over the array that `Object.keys(body)` returns visits the array's indices `"0"`, `"1"`, … as property names, not the body's keys | body `{"name": "x"}` with a model whose `properties` is `{}`: the result is `{"0": undefined}` | iterate the body's own keys, so that `{"name": "x"}` is returned with `name` kept | high, not executed | SpecUtil.AsWrittenLosesFields | SpecUtil.OwnKeysKeepsFields |

`removeReadOnlyProps` is modelled with the key order as a parameter
(`keysOf`). `SpecUtil.AsWrittenKeys` is the iteration as written.
`SpecUtil.OwnKeys` is the intended one, and `OwnKeysKeepsFields` proves the
intended behaviour over it.
