# EdgeX UI gateway, modelled in Dafny

The EdgeX Foundry UI server (go-ui-server) is a Go gateway between a Fulcro
single-page application and the EdgeX microservices. The browser posts batches
of Fulcro queries and mutations, encoded in transit, to `/api`. The gateway
routes each entry to a registered handler and sends back the answers. The
handlers fetch data from the EdgeX core, metadata, command, logging,
notification, export and scheduler services, reshape the JSON they get, and
forward it to the UI.

This project models the logic of that gateway without its HTTP, JSON and
transit plumbing:

- `values.dfy` (`FulcroValues`): the untyped value trees and the helpers of
  `internal/fulcro/utils.go`. These turn string keys into keywords, turn one
  field into a keyword, delete one field, stamp a `type` field, read typed
  handler arguments, and build the tempid answer.
- `server.dfy` (`FulcroServer`): `internal/fulcro/server.go`.
  - The `Server` class holds the keyword-to-query and symbol-to-mutation
    registries.
  - The `/api` batch loop routes each decoded entry by its shape into a
    result container that it allocates lazily.
  - Also here: the single-page-application file rule, and the `/file-upload`
    handler with its counter.
- `fetch.dfy` (`EdgexFetch`): the paginated time-range fetch of
  `internal/edgex/services.go`, shared by readings, notifications and logs.
  - The upstream service is an oracle from cursor to page or error.
  - The loop is an imperative method over the preallocated buffer. It is
    proved equal to a recursive specification `Run`, whose properties are
    lemmas: the request count, the cursor chain, error propagation, buffer
    bounds, de-duplication and device filtering.
  - Log ids are synthesised by an in-place id loop.
- `reshape.dfy` (`EdgexReshape`): the two array reshapers of services.go.
  `applyGets` turns each device command into one row per reading; `addDefault`
  fills absent or null schedule fields with 0.
- `endpoints.dfy` (`EdgexEndpoints`): the endpoint table of
  `internal/edgex/endpoints.go`, with the constants of `common.go` and
  `ClientInfo.Endpoint` of `config.go`. The table is a class over a
  `map<string, Value>`; URL construction is a function over it.
- `decimal.dfy` (`Decimal`): `strconv.FormatInt`/`strconv.Itoa` and a parser
  that undoes them.
- `seqs.dfy` (`Seqs`): sequence and map lemmas, and `strings.Split`/`Join`
  for a one-character separator.
- `wrappers.dfy` (`Wrappers`): `Option` and `Result`.

A failed Go type assertion panics. Where the source performs one, the model
states the assertion's condition as a precondition: `WellFormed`, `Shaped`,
`KeywordPathTyped` and the getters' `requires`. Where the source handles a
case itself, the model handles it too:
- a missing key reads as nil;
- an unregistered handler answers nil;
- a transport error ends the fetch;
- the preallocated buffer can overflow, which is the `IndexOutOfRange`
  outcome.

## Model

| member | source | states |
|---|---|---|
| Decimal.NatToString | src/go/src/github.com/edgexfoundry/go-ui-server/internal/edgex/config.go:39 | the text is non-empty, all decimal digits, and starts with 0 only for zero (no leading zeros) |
| Decimal.IntToString | src/go/src/github.com/edgexfoundry/go-ui-server/internal/edgex/services.go:636 | the text starts with a minus sign exactly for negative numbers and is otherwise all digits |
| Decimal.IntRoundTrip | src/go/src/github.com/edgexfoundry/go-ui-server/internal/edgex/config.go:39 | parsing the rendered text of any integer gives the integer back |
| Decimal.IntToStringInjective | src/go/src/github.com/edgexfoundry/go-ui-server/internal/edgex/services.go:636 | two different integers never render to the same text |
| FulcroValues.Keywordize | src/go/src/github.com/edgexfoundry/go-ui-server/internal/fulcro/utils.go:12-36 | arrays (and typed record slices) keep their length, string-keyed objects become keyword-keyed maps over the same key names, every other value is returned unchanged |
| FulcroValues.KeywordizeConverts | src/go/src/github.com/edgexfoundry/go-ui-server/internal/fulcro/utils.go:12-36 | on JSON-shaped values the conversion reaches every level: no string-keyed object remains anywhere in the result, through arrays and map values |
| FulcroValues.KeywordizeRoundTrip | src/go/src/github.com/edgexfoundry/go-ui-server/internal/fulcro/utils.go:12-36 | on JSON-shaped values, turning keywords back into string keys recovers the original value: together with KeywordizeConverts, only the key family changes, at every depth |
| FulcroValues.KeywordizeIdempotent | src/go/src/github.com/edgexfoundry/go-ui-server/internal/fulcro/utils.go:12-36 | keywordizing an already keywordized value changes nothing |
| FulcroValues.MakeKeyword | src/go/src/github.com/edgexfoundry/go-ui-server/internal/fulcro/utils.go:38-62 | a record slice is rewritten element-wise with its length kept; an object keeps its key set, every key but the first of the path keeps its value, and the path key holds the keyword (last step) or the rewritten child; anything else is unchanged |
| FulcroValues.MakeKeywordAtPath | src/go/src/github.com/edgexfoundry/go-ui-server/internal/fulcro/utils.go:47-56 | at the end of the path, a present string has become the keyword with the same text, and an absent key stays absent |
| FulcroValues.MakeKeywordOffPath | src/go/src/github.com/edgexfoundry/go-ui-server/internal/fulcro/utils.go:47-56 | every path that parts ways with the rewritten one reads the same value as before |
| FulcroValues.Remove | src/go/src/github.com/edgexfoundry/go-ui-server/internal/fulcro/utils.go:64-87 | a record slice is rewritten element-wise with its length kept; a one-key path deletes exactly that key, a longer one keeps the key set and rewrites the child; every other key keeps its value; anything else is unchanged |
| FulcroValues.RemoveAtPath | src/go/src/github.com/edgexfoundry/go-ui-server/internal/fulcro/utils.go:72-81 | after Remove nothing is found at the end of the path |
| FulcroValues.RemoveOffPath | src/go/src/github.com/edgexfoundry/go-ui-server/internal/fulcro/utils.go:72-81 | every path that parts ways with the removed one reads the same value as before |
| FulcroValues.WithType | src/go/src/github.com/edgexfoundry/go-ui-server/internal/fulcro/utils.go:89-95 | every record gains "type" holding the keyword t, keeps all other fields, and the slice keeps its length |
| FulcroValues.WithTypeIdempotent | src/go/src/github.com/edgexfoundry/go-ui-server/internal/fulcro/utils.go:89-95 | stamping the same type twice is stamping it once |
| FulcroValues.AddType | src/go/src/github.com/edgexfoundry/go-ui-server/internal/fulcro/utils.go:89-95 | the array, written in place, holds the stamped records |
| FulcroValues.Lookup | src/go/src/github.com/edgexfoundry/go-ui-server/internal/fulcro/utils.go:99 | a keyword argument that is absent reads as nil, a present one as its value |
| FulcroValues.GetString | src/go/src/github.com/edgexfoundry/go-ui-server/internal/fulcro/utils.go:97-104 | "" for an absent or nil argument, otherwise the string stored there |
| FulcroValues.GetKeyword | src/go/src/github.com/edgexfoundry/go-ui-server/internal/fulcro/utils.go:106-108 | the keyword stored under the argument |
| FulcroValues.GetKeywordAsString | src/go/src/github.com/edgexfoundry/go-ui-server/internal/fulcro/utils.go:110-112 | the text whose keyword is stored under the argument |
| FulcroValues.GetInt | src/go/src/github.com/edgexfoundry/go-ui-server/internal/fulcro/utils.go:114-116 | the integer stored under the argument |
| FulcroValues.GetBool | src/go/src/github.com/edgexfoundry/go-ui-server/internal/fulcro/utils.go:118-120 | the boolean stored under the argument |
| FulcroValues.GetTempId | src/go/src/github.com/edgexfoundry/go-ui-server/internal/fulcro/utils.go:122-124 | the tagged value stored under the argument |
| FulcroValues.GetMap | src/go/src/github.com/edgexfoundry/go-ui-server/internal/fulcro/utils.go:126-128 | the map stored under the argument |
| FulcroValues.GetStringSeq | src/go/src/github.com/edgexfoundry/go-ui-server/internal/fulcro/utils.go:130-137 | the strings of the stored array, same length, same order |
| FulcroValues.TempAnswer | src/go/src/github.com/edgexfoundry/go-ui-server/internal/fulcro/utils.go:140-143 | exactly one key, the reserved tempids keyword, holding a one-entry ordered map from the tempid to the value |
| FulcroValues.TempAnswerResolves | src/go/src/github.com/edgexfoundry/go-ui-server/internal/fulcro/utils.go:139-153 | a client reading the answer resolves the given tempid to the given value and every other tempid to nothing |
| FulcroValues.MkTempIdResult | src/go/src/github.com/edgexfoundry/go-ui-server/internal/fulcro/utils.go:139-145 | one reserved key holding one entry; the tempid, and only it, resolves to the keyword of the response body |
| FulcroValues.MkTempResult | src/go/src/github.com/edgexfoundry/go-ui-server/internal/fulcro/utils.go:147-153 | one reserved key holding one entry; the tempid, and only it, resolves to the given integer |
| EdgexEndpoints.Client | src/go/src/github.com/edgexfoundry/go-ui-server/internal/edgex/endpoints.go:19 | a missing configuration section reads as the zero ClientInfo, a present one as itself |
| EdgexEndpoints.EndpointSplits | src/go/src/github.com/edgexfoundry/go-ui-server/internal/edgex/config.go:38-40 | an endpoint splits at its first colon back into the host and the decimal port, for any host without a colon |
| EdgexEndpoints.ClientNamesUnique | src/go/src/github.com/edgexfoundry/go-ui-server/internal/edgex/common.go:4-10 | the seven client keys are pairwise different |
| EdgexEndpoints.InitializedClient | src/go/src/github.com/edgexfoundry/go-ui-server/internal/edgex/endpoints.go:18-26 | after InitEndpoints each of the seven client keys holds `host:port` of its own configuration section |
| EdgexEndpoints.SavedClient | src/go/src/github.com/edgexfoundry/go-ui-server/internal/edgex/endpoints.go:28-37 | after SaveEndpoints each client key holds the argument under its keyword, or nil when absent |
| EdgexEndpoints.OtherKeysKept | src/go/src/github.com/edgexfoundry/go-ui-server/internal/edgex/endpoints.go:18-37 | neither InitEndpoints nor SaveEndpoints adds, removes or changes a key outside the seven |
| EdgexEndpoints.SavedIdempotent | src/go/src/github.com/edgexfoundry/go-ui-server/internal/edgex/endpoints.go:28-37 | saving the same arguments twice is saving them once |
| EdgexEndpoints.SavedOverwrites | src/go/src/github.com/edgexfoundry/go-ui-server/internal/edgex/endpoints.go:28-37 | tables that agree off the client keys agree after the same save: nothing stored before under a client key survives |
| EdgexEndpoints.InitializedWrites | src/go/src/github.com/edgexfoundry/go-ui-server/internal/edgex/endpoints.go:18-26 | the table after InitEndpoints is the old one with the seven writes, in the order of the code |
| EdgexEndpoints.SavedWrites | src/go/src/github.com/edgexfoundry/go-ui-server/internal/edgex/endpoints.go:28-37 | the table after SaveEndpoints is the old one with the seven writes, in the order of the code |
| EdgexEndpoints.GetEndpoint | src/go/src/github.com/edgexfoundry/go-ui-server/internal/edgex/endpoints.go:14-16 | the URL is `http://`, then the stored string, then `/api/v1/`, and nothing else; a missing or non-string entry is excluded (the type assertion panics) |
| EdgexEndpoints.GetEndpointAfterInit | src/go/src/github.com/edgexfoundry/go-ui-server/internal/edgex/endpoints.go:14-26 | after InitEndpoints the base URL of every client is `http://<host>:<port>/api/v1/` of its configuration section |
| EdgexEndpoints.Endpoints | src/go/src/github.com/edgexfoundry/go-ui-server/internal/edgex/endpoints.go:39-41 | the answer is a keyword-keyed map over the table's keys, each holding the keywordized stored value |
| EdgexEndpoints.EndpointsAfterSave | src/go/src/github.com/edgexfoundry/go-ui-server/internal/edgex/endpoints.go:28-41 | after SaveEndpoints(args), the endpoints query answers under each client keyword the keywordized value from args |
| EdgexEndpoints.EndpointTable.constructor | src/go/src/github.com/edgexfoundry/go-ui-server/internal/edgex/endpoints.go:12 | the table starts empty |
| EdgexEndpoints.EndpointTable.InitEndpoints | src/go/src/github.com/edgexfoundry/go-ui-server/internal/edgex/endpoints.go:18-26 | the new table is the old one initialised from the configuration |
| EdgexEndpoints.EndpointTable.SaveEndpoints | src/go/src/github.com/edgexfoundry/go-ui-server/internal/edgex/endpoints.go:28-37 | the new table is the old one saved from the arguments, and the answer is (nil, nil) |
| EdgexFetch.RunIndexCountsRun | src/go/src/github.com/edgexfoundry/go-ui-server/internal/edgex/services.go:629-639 | the log counter at entry i is the length of the run of equal timestamps just before i: every entry in the run shares i's timestamp, and the one before the run does not |
| EdgexFetch.LabelEntry | src/go/src/github.com/edgexfoundry/go-ui-server/internal/edgex/services.go:631-638 | one pass of the id loop gives entry i its synthesised id and leaves the counter at its run index plus one |
| EdgexFetch.LabelLogIds | src/go/src/github.com/edgexfoundry/go-ui-server/internal/edgex/services.go:629-639 | the log page, rewritten in place, has every id replaced by `created-inc` |
| EdgexFetch.PrepareChangesIdsOnly | src/go/src/github.com/edgexfoundry/go-ui-server/internal/edgex/services.go:626-639 | the per-page pass leaves non-log pages as they are, keeps every timestamp, device and name, and gives each log entry the id of its timestamp and run index |
| EdgexFetch.PreparePage | src/go/src/github.com/edgexfoundry/go-ui-server/internal/edgex/services.go:626-639 | the page after the per-page pass |
| EdgexFetch.AdmitExtends | src/go/src/github.com/edgexfoundry/go-ui-server/internal/edgex/services.go:361-366 | offering items only appends to the buffer: what was stored stays in place, at most one slot per item |
| EdgexFetch.AdmitDistinct | src/go/src/github.com/edgexfoundry/go-ui-server/internal/edgex/services.go:361-366 | a buffer with no repeated id keeps having none |
| EdgexFetch.RunStores | src/go/src/github.com/edgexfoundry/go-ui-server/internal/edgex/services.go:333-370 | the items a fetch returns are the buffer after offering every page, in request order then item order, and fit the buffer |
| EdgexFetch.FetchRequests | src/go/src/github.com/edgexfoundry/go-ui-server/internal/edgex/services.go:333-368 | at most 100 requests, the first at `from`; each further request follows a full page and starts at that page's last creation time (filtered readings advance it too) |
| EdgexFetch.FetchEnds | src/go/src/github.com/edgexfoundry/go-ui-server/internal/edgex/services.go:333-338 | the fetch fails exactly when some request failed, with that last request's error and no items; a successful fetch stopped on a page that was not full or after 100 requests |
| EdgexFetch.FetchFits | src/go/src/github.com/edgexfoundry/go-ui-server/internal/edgex/services.go:326 | if every page has at most 100 items the 10 000-slot buffer is never overrun |
| EdgexFetch.RunPages | src/go/src/github.com/edgexfoundry/go-ui-server/internal/edgex/services.go:333-368 | every page a run records is the prepared answer of the upstream to the request at the same position, and that request succeeded |
| EdgexFetch.FetchDeduplicates | src/go/src/github.com/edgexfoundry/go-ui-server/internal/edgex/services.go:333-368 | on success there is one page per request, page i is the prepared upstream answer to request i, and the returned items have distinct ids, are kept items of the pages, cover the id of every kept item, and hold the first kept occurrence of each id |
| EdgexFetch.ReadingsOfDeviceOnly | src/go/src/github.com/edgexfoundry/go-ui-server/internal/edgex/services.go:346-349 | readings of another device never appear in the result |
| EdgexFetch.AbsorbItem | src/go/src/github.com/edgexfoundry/go-ui-server/internal/edgex/services.go:361-366 | one item is stored after the buffer exactly when the filter keeps it and its id is new; a full buffer is reported as an overflow |
| EdgexFetch.AbsorbPage | src/go/src/github.com/edgexfoundry/go-ui-server/internal/edgex/services.go:346-367 | the buffer after the inner loop is the old one with the page offered to it, or an overflow when it would not fit |
| EdgexFetch.Round | src/go/src/github.com/edgexfoundry/go-ui-server/internal/edgex/services.go:334-368 | one do-while pass ends the fetch with its error, its overflow or its items, or continues from the new cursor with one request less, exactly as the fetch specification does |
| EdgexFetch.FetchInTimeRange | src/go/src/github.com/edgexfoundry/go-ui-server/internal/edgex/services.go:323-371 | the do-while loop returns the outcome of the fetch specification and makes exactly its requests |
| EdgexReshape.PairsRoundTrip | src/go/src/github.com/edgexfoundry/go-ui-server/internal/edgex/services.go:283 | the `[][2]string` stored under `value` reads back as exactly the pairs written |
| EdgexReshape.NormalisedFields | src/go/src/github.com/edgexfoundry/go-ui-server/internal/edgex/services.go:260-279 | a normalised command has `get` removed and holds its readings under `value` (the GET's pairs, or `[name, "N/A"]`); no other key changes |
| EdgexReshape.NormalisedAllAt | src/go/src/github.com/edgexfoundry/go-ui-server/internal/edgex/services.go:260-279 | command i of the first pass's output is command i normalised |
| EdgexReshape.CountIsRows | src/go/src/github.com/edgexfoundry/go-ui-server/internal/edgex/services.go:259-280 | the counted size is the number of rows the second pass writes, so the result slice is filled exactly |
| EdgexReshape.RowFields | src/go/src/github.com/edgexfoundry/go-ui-server/internal/edgex/services.go:285-292 | a row is a copy of the command plus `value` (the reading), `pos` (its index) and `size` (the number of readings) |
| EdgexReshape.ExpandAt | src/go/src/github.com/edgexfoundry/go-ui-server/internal/edgex/services.go:280-295 | row i of command c sits at the offset of command c plus i: the rows of one command are contiguous, in reading order, after those of earlier commands |
| EdgexReshape.PlaceholderFields | src/go/src/github.com/edgexfoundry/go-ui-server/internal/edgex/services.go:273-278 | a command without responses normalises to one reading whose row is `[name, "N/A"]` at position 0 of 1, without `get` |
| EdgexReshape.PlaceholderRow | src/go/src/github.com/edgexfoundry/go-ui-server/internal/edgex/services.go:273-295 | a command without responses yields exactly that placeholder row in the result, without `get` |
| EdgexReshape.ApplyGets | src/go/src/github.com/edgexfoundry/go-ui-server/internal/edgex/services.go:257-297 | the commands are normalised in place and the fresh result holds all their rows, command after command |
| EdgexReshape.NormaliseCommands | src/go/src/github.com/edgexfoundry/go-ui-server/internal/edgex/services.go:258-279 | the first loop leaves every command normalised and returns the total number of readings |
| EdgexReshape.NormaliseAt | src/go/src/github.com/edgexfoundry/go-ui-server/internal/edgex/services.go:260-279 | round i normalises command i in place and adds its readings to the count |
| EdgexReshape.NormaliseCommand | src/go/src/github.com/edgexfoundry/go-ui-server/internal/edgex/services.go:261-278 | one command normalised, with the number of its readings |
| EdgexReshape.WriteRows | src/go/src/github.com/edgexfoundry/go-ui-server/internal/edgex/services.go:280-296 | the second loop fills a fresh array with all rows, command after command |
| EdgexReshape.WriteCommandRows | src/go/src/github.com/edgexfoundry/go-ui-server/internal/edgex/services.go:283-294 | one command's rows are written at `pos` onwards, and the position moves past them |
| EdgexReshape.DefaultsFill | src/go/src/github.com/edgexfoundry/go-ui-server/internal/edgex/services.go:401-412 | every listed key ends up present, keeping a non-null value and holding 0 otherwise; unlisted keys are untouched and no other key appears |
| EdgexReshape.DefaultsIdempotent | src/go/src/github.com/edgexfoundry/go-ui-server/internal/edgex/services.go:401-412 | filling twice is filling once |
| EdgexReshape.AddDefault | src/go/src/github.com/edgexfoundry/go-ui-server/internal/edgex/services.go:401-412 | every schedule, written in place, has the defaults filled |
| FulcroServer.ResultCMap.Append | src/go/src/github.com/edgexfoundry/go-ui-server/internal/fulcro/server.go:65 | the entry is added at the end, after all earlier ones |
| FulcroServer.QueryOf | src/go/src/github.com/edgexfoundry/go-ui-server/internal/fulcro/server.go:130-154 | the query of a well-formed query-shaped entry is a root map with keyword keys and array parameters, or an entity CMap with ident keys |
| FulcroServer.FileName | src/go/src/github.com/edgexfoundry/go-ui-server/internal/fulcro/server.go:183 | upload files are named `tmp-` followed by the counter |
| FulcroServer.FileNamesDistinct | src/go/src/github.com/edgexfoundry/go-ui-server/internal/fulcro/server.go:183 | two counter values give the same file name exactly when they are equal |
| FulcroServer.Uploads.constructor | src/go/src/github.com/edgexfoundry/go-ui-server/internal/fulcro/server.go:111 | the counter starts at 0 |
| FulcroServer.Uploads.FileUpload | src/go/src/github.com/edgexfoundry/go-ui-server/internal/fulcro/server.go:176-197 | a form error or save error answers 400 and keeps the counter; a saved file is named after the counter, moves it by exactly one, and answers the tempid result when the id decodes |
| FulcroServer.Server.constructor | src/go/src/github.com/edgexfoundry/go-ui-server/internal/fulcro/server.go:27-32 | both registries start empty |
| FulcroServer.Server.AddQueryFunc | src/go/src/github.com/edgexfoundry/go-ui-server/internal/fulcro/server.go:34-37 | registers or replaces one handler and nothing else; invoking that keyword afterwards calls the new handler |
| FulcroServer.Server.AddMutationFunc | src/go/src/github.com/edgexfoundry/go-ui-server/internal/fulcro/server.go:48-50 | registers or replaces one mutator and nothing else; invoking that symbol afterwards calls the new mutator |
| FulcroServer.Server.InvokeQueryFunc | src/go/src/github.com/edgexfoundry/go-ui-server/internal/fulcro/server.go:39-46 | a registered keyword gets its handler's answer, an unregistered one nil |
| FulcroServer.Server.InvokeMutatorFunc | src/go/src/github.com/edgexfoundry/go-ui-server/internal/fulcro/server.go:52-59 | a registered symbol gets its mutator's answer, an unregistered one nil |
| FulcroServer.Server.RootQuery | src/go/src/github.com/edgexfoundry/go-ui-server/internal/fulcro/server.go:61-67 | exactly one appended entry per key of the query map, keyed by that keyword and holding its handler's answer (nil when unregistered), in no promised order |
| FulcroServer.Server.RootVisit | src/go/src/github.com/edgexfoundry/go-ui-server/internal/fulcro/server.go:62-66 | visiting one more key keeps every visited key answered once and the rest unvisited |
| FulcroServer.Server.EntityAnswers | src/go/src/github.com/edgexfoundry/go-ui-server/internal/fulcro/server.go:76-82 | one entry per query entry, in order, keyed by the whole ident and answered by the handler of the ident's first element |
| FulcroServer.Server.EntityQuery | src/go/src/github.com/edgexfoundry/go-ui-server/internal/fulcro/server.go:76-82 | the shared CMap gains exactly the entity answers, after what it held |
| FulcroServer.Server.Mutation | src/go/src/github.com/edgexfoundry/go-ui-server/internal/fulcro/server.go:69-74 | the symbol's slot becomes its mutator's answer for the args; no other symbol changes |
| FulcroServer.Server.MutationLastWins | src/go/src/github.com/edgexfoundry/go-ui-server/internal/fulcro/server.go:141-160 | the symbols answered are exactly those of the mutation entries, each holding the answer of its last entry: a repeated symbol overwrites |
| FulcroServer.Server.Query | src/go/src/github.com/edgexfoundry/go-ui-server/internal/fulcro/server.go:130-154 | a query-shaped entry appends its root or entity answers, with nil args for a plain entry and the list's second element for a wrapped one |
| FulcroServer.Server.DispatchEntry | src/go/src/github.com/edgexfoundry/go-ui-server/internal/fulcro/server.go:130-163 | the entry's shape picks the container, allocated only if none exists; an entry of unknown shape changes nothing |
| FulcroServer.Server.DispatchRound | src/go/src/github.com/edgexfoundry/go-ui-server/internal/fulcro/server.go:129-164 | one pass of the loop keeps the dispatch state, and a container, once allocated, is never replaced |
| FulcroServer.Server.Dispatch | src/go/src/github.com/edgexfoundry/go-ui-server/internal/fulcro/server.go:129-164 | each container exists exactly when some entry needs it; the CMap holds every query entry's answers in batch order, the symbol map every mutation's result |
| FulcroServer.Server.Api | src/go/src/github.com/edgexfoundry/go-ui-server/internal/fulcro/server.go:121-174 | a decode error answers 400; otherwise the allocated container is rendered with 200, and a batch with no routable entry answers 400 |
| FulcroServer.SPAFile | src/go/src/github.com/edgexfoundry/go-ui-server/internal/fulcro/server.go:86-101 | an empty id is served the index file |
| FulcroServer.SPAFileAssets | src/go/src/github.com/edgexfoundry/go-ui-server/internal/fulcro/server.go:92-99 | an id `/<dir>/<rest>` is served from ./assets exactly when <dir> is js, css, img or fonts, and the index file otherwise |
| FulcroServer.SPAFileChoices | src/go/src/github.com/edgexfoundry/go-ui-server/internal/fulcro/server.go:88-99 | the answer is the index file or ./assets + id, the latter exactly when the second piece of the id names an asset directory |
| Seqs.SplitJoin | src/go/src/github.com/edgexfoundry/go-ui-server/internal/fulcro/server.go:92 | joining the pieces of a split with the separator gives the text back |
| Seqs.SplitPieces | src/go/src/github.com/edgexfoundry/go-ui-server/internal/fulcro/server.go:92 | no piece of a split holds the separator |

## Left out

- HTTP: every `resty` request and `json.Unmarshal` is an oracle. The fetch calls `up(cursor)`, and `applyGets` calls `doGet(get)` (services.go:240-255).
- HTTP, continued: the CRUD mutations, `getCommands`, `getDevices` and the other single-request handlers of services.go are plain field copying into requests, and are not modelled.
- `Login`/`ChangePassword`: bcrypt and file I/O.
- Reading values: the Base64 float32 decoding (services.go:350-360) is floating point, and the value-descriptor request it makes per reading is I/O. Both are not modelled.
- Timestamps: `created` is a JSON float64 converted with `int64(...)`. The model takes it as an integer.
- The fetch `Item` carries only `id`, `created`, `device` and `name`. Three per-page changes are left to their own members:
  - the `type` stamp from `AddType`;
  - the keyword conversion of the listed notification fields (services.go:488-492);
  - the keyword conversion of a reading's id (`MakeKeyword(reading, "id")`).

  In the model, ids are compared as text.
- The notification loop's `inc`/`last` counters are computed and never used (services.go:481-495). They are not modelled.
- `ShowTransmissions` takes its time window from the clock.
- The transit decoder and encoder, content-type rendering (`content.go`), gin routing, static file serving, and `Context.File`: `/api` receives the decoder's outcome, and the SPA rule returns the file name it would serve.
- What gin does with the `nil` error passed to `AbortWithError` when a decoded batch has no routable entry is not modelled; the model answers the 400 the code asks for.
- `LoadConfig` reads a file and parses TOML; the model takes the parsed `Config` as given.
- `main.go` only registers handlers.
- `AddUpload` in services.go repeats the upload-counter rule on another route. It is not modelled.
- Concurrency: gin runs handlers on concurrent goroutines, and the global endpoint table and the upload counter are accessed without synchronisation. The model runs one request at a time.
- FulcroValues.Keywordize, FulcroValues.MakeKeyword, FulcroValues.Remove: these return the rewritten value. They do not model the in-place writes to the argument (`v[i] = ...`, `v[key] = ...`, `delete`), so aliasing between the argument and the result is not captured.
- Integer width: `int64` (the upload counter, timestamps, `GetInt`) and `int` (`pos`, `size`) are unbounded integers, because the values involved stay far below 2^63 and the model does not wrap around.
- Type-assertion panics, such as a query entry next to a mutation entry in one `/api` batch, are preconditions (`Dispatchable`); the panic itself is not modelled.
- Signatures: the services.go handlers return `(value, error)` and call `Keywordize` with two arguments (for example services.go:167, endpoints.go:40). The utils.go `Keywordize` takes one argument, and `QueryFunc` returns one value (server.go:18). These signatures do not type-check together.
  - The model follows server.go: handlers are opaque functions returning one value.
  - The fetch returns an `Outcome` with the error, and `SaveEndpoints` returns the pair `(nil, nil)`.
- Error handling: the dispatcher has no error or fail-fast handling. A handler's answer is stored as it is, and the loop always finishes the batch.
