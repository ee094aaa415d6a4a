# gofs language server and toast widget: a Dafny model

gofs is a command-line tool for Go web applications that use templ templates and htmx. This
project models two parts of it:

- **The language server.** It is built from several parts:
  - **Uri extraction** (`Uri`). It turns a route pattern such as `GET /foo/{id}`, or the Go
    expression of an `hx-get`/`hx-post`/`hx-put`/`hx-delete` attribute, into a list of path
    segments. Every variable part becomes the wildcard `{}`. Anything it cannot understand
    becomes a diagnostic.
  - **Uri matching** (`Uri.IsMatch`).
  - **The route table read from `routes.go`** (`RoutesFile`).
  - **The templ walker that collects the uris of a templ document** (`TemplFile`).
  - **The repository of open templ documents** (`Repo`). It resolves every uri against the
    route table.
  - **The request queues** (`Queue`, `AccessQueue`).
  - **Hover, diagnostics and package lookups** (`Hover`, `Diagnostic`, `Pkg`).
  - **The JSON-RPC messages and their `Content-Length` framing** (`Protocol`).
  - **The main loop of the JSON-RPC server** (`Jsonrpc2`). It covers the initialize /
    initialized / shutdown / exit lifecycle, the gate that rejects requests outside it,
    cancellation, and dispatch to request handlers.
- **The code generator's reading of a Go struct** (`Codegen`). It reads a struct's fields,
  their types and their `gofs` tags into the record the templates are generated from.
- **The `<toast-element>` web component of the application template** (`Toast`). It covers
  the alert class, the progress animation's duration, the swipe window of the last five
  touch movements, the flick-velocity test that dismisses the toast, and the `left` style it
  writes and parses back.

Shared pieces:
- `Wrappers` holds `Option`, `Result` and `GoResult`. `GoResult` is a Go call's outcome: a
  value, an error, or a panic.
- `Strs` models the Go and JavaScript string helpers the code relies on. These are
  `strings.TrimSpace`/`Trim`/`Split`/`Join`, `path.Base`, decimal formatting and JavaScript's
  `parseInt`.
- `Seqs` holds the "first item with a key" search and removal. The repository and both
  queues use them.

Imperative code is modelled imperatively:
- **Classes.** `Repo.Repo`, `RoutesFile.Routes`, `Queue.Queue`, `AccessQueue.AccessQueue`,
  `Jsonrpc2.Server` and `Toast.Toast` are classes whose methods update their fields.
- **Specification functions.** Each class method is proved against a function on values.
  - `Repo.Recalculated` specifies `RecalculateTemplUrls`.
  - `Jsonrpc2.Next` and `Jsonrpc2.RunFrom` specify one turn of the main loop and the whole
    loop.
  - `Toast.Window` specifies the touch window.
- **Loops.** The loops of the source are `while` loops with invariants, for example in
  `IsMatch`, `RouteIndex`, `HoveredUri`, `UriDiagnostic`, `GetFunc`, `ListenAndServe` and
  `AstStructFromStructType`.
- **Pure code.** The expression walker, the templ traversal and the route extraction are
  functions, with lemmas.

## Model

| member | source | states |
|---|---|---|
| Uri.LiteralSegments | internal/lsp/uri/uri.go:144-170 | a literal yields at least one segment, one per slash-separated part of the trimmed pattern; the diagnostics are exactly one "invalid character" error per invalid part, in the order of the parts |
| Uri.PartsSegments | internal/lsp/uri/uri.go:152-168 | part i becomes `{}` when it starts with `%`, `*` or `{`, and stays itself otherwise; the diagnostics are InvalidDiags: one error per invalid part, in order |
| Uri.Operands | internal/lsp/uri/uri.go:72-133 | the nodes `ast.Inspect` stops at are the non-binary leaves of the binary-expression tree, and there is at least one |
| Uri.WalkIsOperandsInOrder | internal/lsp/uri/uri.go:72-133 | walking an expression is walking its operands left to right, so a binary tree only orders its operands |
| Uri.WalkFlags | internal/lsp/uri/uri.go:80-101 | `hasLit` is set iff some operand is a literal; `hasCall` iff some operand is a call |
| Uri.MixedWarning | internal/lsp/uri/uri.go:135-140 | the "mixed literal and function call" warning is added iff a literal operand and a call operand occur together, and it is the last diagnostic |
| Uri.Segments | internal/lsp/uri/uri.go:57-142 | an unparseable expression yields no segments and one "invalid expression" error; otherwise the walk's segments, then its diagnostics |
| Uri.NewUri | internal/lsp/uri/uri.go:33-43 | verb and raw text are kept; segments and diagnostics come from the white-space-trimmed text; positions are zero |
| Uri.NewUriFrom | internal/lsp/uri/uri.go:45-49 | as NewUri, with the given start position |
| Uri.NewUriFromTo | internal/lsp/uri/uri.go:51-55 | as NewUri, with the given start and end positions |
| Uri.IsMatch | internal/lsp/uri/uri.go:189-221 | true iff the verbs agree, the argument has segments, the counts agree and each pair agrees up to `{}` on either side or `*` on the receiver |
| Uri.MatchesReflexive | internal/lsp/uri/uri.go:189-221 | a uri with segments matches itself |
| Uri.MatchesNotSymmetric | internal/lsp/uri/uri.go:208-211 | `*` counts only on the receiver: `GET *` matches `GET foo` but not the other way round |
| Uri.MatchesIgnoresText | internal/lsp/uri/uri.go:189-221 | matching depends only on verbs and segments |
| RoutesFile.ImportsMap | internal/lsp/routes_file/ast.go:15-38 | the keys are the import names, or the base of the path when an import has no name |
| RoutesFile.ImportsMapLastWins | internal/lsp/routes_file/ast.go:24-36 | when two imports share a key, the later one's path is kept |
| RoutesFile.GetImports | internal/lsp/routes_file/ast.go:15-38 | the loop builds exactly ImportsMap |
| RoutesFile.GetFileImports | internal/lsp/routes_file/ast.go:15-22 | an unparseable file gives the empty map |
| RoutesFile.ZeroBased | internal/lsp/routes_file/ast.go:73-80 | token positions become zero-based lines and columns |
| RoutesFile.PatternUri | internal/lsp/routes_file/ast.go:64-82 | verb, a space and the quoted path make up the unquoted literal; the raw path is re-quoted; positions are zero-based |
| RoutesFile.HandlerOf | internal/lsp/routes_file/ast.go:84-103 | the handler is the called identifier or selector name; its package is looked up among the imports; a non-call argument or a non-identifier receiver panics |
| RoutesFile.RouteOf | internal/lsp/routes_file/ast.go:58-110 | a `Handle` call with a literal lacking a space gives no route; a literal shorter than its quotes panics; otherwise the route of the pattern and handler |
| RoutesFile.Lookup | internal/lsp/routes_file/ast.go:108 | a Go map read: the value, or "" when the key is absent |
| RoutesFile.RoutesOf | internal/lsp/routes_file/ast.go:51-114 | at most one route per call |
| RoutesFile.RoutesOfSound | internal/lsp/routes_file/ast.go:51-114 | every route comes from some `Handle` call |
| RoutesFile.RoutesOfComplete | internal/lsp/routes_file/ast.go:51-114 | without a panic the routes are exactly Collected: the route of every `Handle` call that yields one, in the order of the calls |
| RoutesFile.CollectedSnoc | internal/lsp/routes_file/ast.go:105 | a further call appends its route, if any, at the end, as `append` does |
| RoutesFile.RoutesOfPanics | internal/lsp/routes_file/ast.go:51-114 | the walk panics iff one of the `Handle` calls does |
| RoutesFile.RoutesOfPanicPrefix | internal/lsp/routes_file/ast.go:51-114 | calls after a panicking one do not matter |
| RoutesFile.FileRoutes | internal/lsp/routes_file/ast.go:40-49 | an unparseable routes file gives no routes |
| RoutesFile.GetRoutes | internal/lsp/routes_file/ast.go:40-117 | the loop computes FileRoutes |
| RoutesFile.BestRouteIsFirstMaximum | internal/lsp/routes_file/routes.go:40-52 | the chosen index is -1 iff no route's level exceeds no-match; otherwise it is the first route with the highest level |
| RoutesFile.GetRouteAsWritten | internal/lsp/routes_file/routes.go:33-38 | the guard `i > len` errors; in-range indices succeed; the others panic |
| RoutesFile.GetRouteAsWrittenPanicsAtCount | internal/lsp/routes_file/routes.go:34 | the index equal to the number of routes panics |
| RoutesFile.Routes.constructor | internal/lsp/routes_file/routes.go:10-13 | no routes and no file content |
| RoutesFile.Routes.SetDefault | internal/lsp/routes_file/routes.go:19-22 | empty routes, empty content, valid |
| RoutesFile.Routes.Update | internal/lsp/routes_file/routes.go:24-27 | the content is the given bytes and the routes are those extracted from them |
| RoutesFile.Routes.GetRoute | internal/lsp/routes_file/routes.go:33-38 | succeeds iff 0 <= i < count, with route i, and otherwise gives the "invalid index" error; it agrees with the code wherever the code does not panic |
| RoutesFile.Routes.RouteIndex | internal/lsp/routes_file/routes.go:40-52 | the loop computes BestRoute: -1 iff no level exceeds no-match, else a route whose level does |
| TemplFile.RecurseNode | internal/lsp/templ_file/templ_node_parser.go:28-111 | only nodes of kinds with a callback fire |
| TemplFile.RecurseNodeFilter | internal/lsp/templ_file/templ_node_parser.go:28-111 | the callbacks fired are the full pre-order walk filtered by the kinds that have a callback |
| TemplFile.RecurseAllFilter | internal/lsp/templ_file/templ_node_parser.go:38-40 | the same for a list of children |
| TemplFile.RecurseCasesFilter | internal/lsp/templ_file/templ_node_parser.go:78-86 | the same for switch cases |
| TemplFile.RecurseNodePreOrder | internal/lsp/templ_file/templ_node_parser.go:28-111 | a node with a callback fires before anything below it |
| TemplFile.IfThenBeforeElse | internal/lsp/templ_file/templ_node_parser.go:68-77 | an if expression fires its then branch before its else branch |
| TemplFile.FilterConcat | internal/lsp/templ_file/templ_node_parser.go:28-111 | filtering distributes over concatenation |
| TemplFile.Utf8Len | internal/lsp/templ_file/templ_node_parser.go:130-132 | the byte length of a string is between one and four bytes per character |
| TemplFile.Report | internal/lsp/templ_file/templ_node_parser.go:118-145 | a constant attribute reports its quoted value; an expression attribute reports its expression and range |
| TemplFile.Flatten | internal/lsp/templ_file/templ_node_parser.go:113-159 | conditional attributes contribute their then-branch attributes, then their else-branch ones; only constant and expression attributes remain |
| TemplFile.FirstNamed | internal/lsp/templ_file/templ_node_parser.go:113-159 | none iff no attribute has the name; otherwise the first that does |
| TemplFile.FirstNamedIsFirst | internal/lsp/templ_file/templ_node_parser.go:113-159 | the attribute found is preceded by none with the same name |
| TemplFile.FirstNamedConcat | internal/lsp/templ_file/templ_node_parser.go:113-159 | the first match in a concatenation is in the first part if it is there at all |
| TemplFile.ElementAttributeIsFirstNamed | internal/lsp/templ_file/templ_node_parser.go:113-159 | `ElementAttribute` reports the first constant or expression attribute with the name, in flattened order |
| TemplFile.FoundUri | internal/lsp/templ_file/ast.go:24-35 | the uri carries the verb, the attribute's value and its name range |
| TemplFile.ConcatMapAppend | internal/lsp/templ_file/ast.go:18-86 | collecting over two lists appends their uris |
| TemplFile.TopElementsAreElements | internal/lsp/templ_file/ast.go:18-86 | the callback runs only on elements of HTML templates |
| TemplFile.WalksAreElements | internal/lsp/templ_file/ast.go:82-84 | walking the children of a template reaches only elements |
| TemplFile.AppendEach | internal/lsp/templ_file/ast.go:82-84 | the loop appends every fired element's uris in order |
| TemplFile.AppendTemplate | internal/lsp/templ_file/ast.go:82-84 | the loop over a template's children appends the uris of their element walks in order |
| TemplFile.GetTemplUris | internal/lsp/templ_file/ast.go:10-89 | a parse error is returned as is; otherwise the uris of every top-level HTML template, in order |
| TemplFile.HxUrisNone | internal/lsp/templ_file/ast.go:23-78 | an element without hx attributes yields no uri |
| TemplFile.NoHxNoUris | internal/lsp/templ_file/ast.go:18-86 | a document whose elements carry no hx attributes yields no uris |
| TemplFile.HxUrisVerbs | internal/lsp/templ_file/ast.go:23-78 | at most one uri per hx attribute, each with that attribute's verb |
| TemplFile.CallbackVerbs | internal/lsp/templ_file/ast.go:23-78 | at most four uris per element, all with GET, POST, PUT or DELETE |
| TemplFile.ElementUrisInOrder | internal/lsp/templ_file/ast.go:23-78 | an element's uris come in the order hx-get, hx-post, hx-put, hx-delete |
| Repo.RouteIndexes | internal/lsp/repo/repo.go:132-141 | one route index per uri, each -1 or a valid route index |
| Repo.Resolved | internal/lsp/repo/repo.go:132-141 | one uri per uri; those without a route gain the "no route found for uri" error |
| Repo.Entry | internal/lsp/repo/repo.go:142-147 | the document keeps its path and text, with one route index per uri |
| Repo.RecalculatedKeepsDocuments | internal/lsp/repo/repo.go:203-224 | recalculation keeps the number, paths and texts of the documents |
| Repo.RecalculatedStopsAtError | internal/lsp/repo/repo.go:206-210 | documents after the first one that fails to parse keep their old uris |
| Repo.RecalculatedAllParse | internal/lsp/repo/repo.go:203-224 | when every document parses, each is re-extracted and re-resolved against the current routes |
| Repo.Repo.constructor | internal/lsp/repo/repo.go:30-35 | a closed repository with no documents |
| Repo.Repo.Open | internal/lsp/repo/repo.go:37-73 | a directory without `.gofs` opens as a plain repository; a `go.mod` or routes read error is returned and the repository stays closed; otherwise it is open with the module path and the parsed routes |
| Repo.Repo.GetTemplFile | internal/lsp/repo/repo.go:83-97 | none when closed or when no document has the path; otherwise the first document with that path |
| Repo.Repo.ResolveUri | internal/lsp/repo/repo.go:133-140 | the route index is the best route, -1 iff none matches, in which case the uri gains the error |
| Repo.Repo.IndexUris | internal/lsp/repo/repo.go:132-141 | the loop computes RouteIndexes and Resolved |
| Repo.Repo.OpenTemplFile | internal/lsp/repo/repo.go:113-148 | nothing when closed; a document with no uris when the text does not parse; otherwise the resolved uris are appended |
| Repo.Repo.ChangeTemplFile | internal/lsp/repo/repo.go:150-185 | the first document with the path takes the first change's text; its uris are replaced only when the text parses; nothing changes when closed, without changes or without such a document |
| Repo.Repo.CloseTemplFile | internal/lsp/repo/repo.go:187-201 | the first document with the path is removed |
| Repo.Repo.Reextract | internal/lsp/repo/repo.go:206-222 | one document's re-extraction, or none when it fails to parse |
| Repo.Repo.RecalculateTemplUrls | internal/lsp/repo/repo.go:203-224 | the documents become Recalculated of the old ones |
| Repo.Repo.UpdateRoutes | internal/lsp/repo/repo.go:244-255 | when open, the routes are re-read from the bytes and the documents recalculated; when closed, nothing changes |
| Repo.Repo.Routes | internal/lsp/repo/repo.go:257-266 | the routes when open, none when closed |
| Repo.Repo.GetRoute | internal/lsp/repo/repo.go:268-274 | "repo is not open" when closed; otherwise the route at an index in range, and the "invalid index" error at any other index (the corrected guard of the routes.go finding) |
| Seqs.FirstKey | internal/lsp/repo/repo.go:195-200 | -1 iff no item has the key, else the first index that does |
| Seqs.RemoveFirstKeySpec | internal/lsp/repo/repo.go:195-200 | removal takes out exactly the first item with the key and keeps the order of the rest |
| Queue.BlockedIffEditFirst | internal/lsp/repo/queue.go:18-30 | a diagnostic is blocked iff an edit comes before every item with its id |
| Queue.Queue.constructor | internal/lsp/repo/queue.go:8-11 | an empty queue |
| Queue.Queue.IsBlocked | internal/lsp/repo/queue.go:18-30 | the scan decides Blocked; non-diagnostics and an empty queue are never blocked |
| Queue.Queue.AddToQueue | internal/lsp/repo/queue.go:32-38 | the item is appended |
| Queue.Queue.RemoveFromQueue | internal/lsp/repo/queue.go:40-52 | the first item with the id is removed |
| AccessQueue.AccessQueue.constructor | internal/lsp/repo/access_queue.go:9-12 | an empty queue |
| AccessQueue.AccessQueue.Add | internal/lsp/repo/access_queue.go:26-31 | the item is appended; the first item of an empty queue is unblocked at once |
| AccessQueue.AccessQueue.Remove | internal/lsp/repo/access_queue.go:33-43 | the first item with the id is removed |
| AccessQueue.AddThenRemove | internal/lsp/repo/access_queue.go:18-43 | a fresh id added at the back is unblocked iff the queue was empty; removing it again restores the queue |
| AccessQueue.RemovingHeadUnblocksNext | internal/lsp/repo/access_queue.go:18-43 | once the head leaves, the next request is unblocked |
| Hover.HoveredUri | internal/lsp/hover/hover.go:9-21 | -1 iff no uri covers the position, else the first one that does |
| Pkg.GetFunc | internal/lsp/pkg/pkg.go:16-23 | none iff no function has the name, else the first that does |
| Diagnostic.SeverityPrefix | internal/lsp/diagnostic/diagnostic.go:12-24 | "Error: ", "Warning: ", "Info: ", "Hint: " by severity, "" otherwise |
| Diagnostic.UriDiagnostic | internal/lsp/diagnostic/diagnostic.go:9-42 | one response per diagnostic, in order, spanning the uri, with its severity, source "gofs" and the prefixed message |
| Protocol.NewResponse | internal/lsp/protocol/base.go:34-40 | a well-formed response with the id and the result |
| Protocol.NewResponseError | internal/lsp/protocol/base.go:42-48 | a well-formed response with the id and the error |
| Protocol.NewEmptyResponse | internal/lsp/protocol/base.go:50-56 | the zero response, which is not well-formed, when marshalling fails; otherwise a well-formed result |
| Protocol.Header | internal/lsp/protocol/base.go:58-68 | the header's length is the name, the decimal digits of the length and the blank line |
| Protocol.HeaderAnnounces | internal/lsp/protocol/base.go:58-68 | the header is "Content-Length: ", then non-empty decimal digits reading as the body length, then "\r\n\r\n" |
| Protocol.BaseMessage | internal/lsp/protocol/base.go:58-68 | a marshalling error is wrapped; otherwise the message ends with the body |
| Protocol.ReadBaseMessage | internal/lsp/protocol/base.go:58-68 | a framed message read back under the "Content-Length" rule gives the body back |
| Jsonrpc2.RunFrom | internal/lsp/jsonrpc2/server.go:88-233 | the loop consumes only reads that exist |
| Jsonrpc2.ExitStops | internal/lsp/jsonrpc2/server.go:95-99 | `exit` stops the loop in every state with nothing written |
| Jsonrpc2.LifecycleBeforeGate | internal/lsp/jsonrpc2/server.go:102-140 | registered lifecycle methods run whatever the flags; only `initialize` can fail, with an InvalidParams error and no initializer call |
| Jsonrpc2.GateRejects | internal/lsp/jsonrpc2/server.go:143-150 | before `initialized` or after `shutdown`, other requests get exactly one InvalidRequest error with their id |
| Jsonrpc2.CancelNeverDispatched | internal/lsp/jsonrpc2/server.go:153-156 | `$/cancelRequest` never starts a handler |
| Jsonrpc2.NextStarted | internal/lsp/jsonrpc2/server.go:158-230 | the started handlers grow by exactly this request when the dispatch decides to start it, and the request is then running; otherwise they are unchanged |
| Jsonrpc2.StartOnlyWhenReady | internal/lsp/jsonrpc2/server.go:158-230 | a handler starts only when initialized and not shut down, and only for a registered method |
| Jsonrpc2.UnhandledIsSilent | internal/lsp/jsonrpc2/server.go:232 | an unregistered method changes nothing |
| Jsonrpc2.LifecycleMonotone | internal/lsp/jsonrpc2/handlers.go:47-63 | once initialized or shut down, the server stays so, and the handler tables do not change |
| Jsonrpc2.RunHandlerKeeps | internal/lsp/jsonrpc2/handlers.go:12-63 | lifecycle handlers never clear a flag, and never touch the tables or the running requests |
| Jsonrpc2.NoStartAfterShutdown | internal/lsp/jsonrpc2/server.go:88-233 | after `shutdown`, no handler ever starts again, whatever arrives |
| Jsonrpc2.CancelSpec | internal/lsp/jsonrpc2/handlers.go:65-83 | cancelling a running id cancels and removes it once; other ids change nothing |
| Jsonrpc2.Server.constructor | internal/lsp/jsonrpc2/server.go:28-43 | the initial state |
| Jsonrpc2.Server.HandleLifecycle | internal/lsp/jsonrpc2/server.go:45-47 | registers the lifecycle handler |
| Jsonrpc2.Server.HandleRequest | internal/lsp/jsonrpc2/server.go:49-51 | registers the request handler |
| Jsonrpc2.Server.Finish | internal/lsp/jsonrpc2/server.go:59-62 | the id leaves the running requests |
| Jsonrpc2.Server.CancelReq | internal/lsp/jsonrpc2/handlers.go:65-83 | the state becomes CancelState |
| Jsonrpc2.Server.Run | internal/lsp/jsonrpc2/handlers.go:12-63 | the state becomes RunHandler |
| Jsonrpc2.Server.Step | internal/lsp/jsonrpc2/server.go:89-232 | stops iff the request is `exit`; the state becomes Next |
| Jsonrpc2.Server.ListenAndServe | internal/lsp/jsonrpc2/server.go:70-234 | the final state, the exit flag and the reads consumed are those of RunFrom |
| Jsonrpc2.NewServer | internal/lsp/jsonrpc2/server.go:28-43 | "no connection" without a connection; otherwise a fresh server in the initial state |
| Codegen.DbType | internal/codegen/ast.go:43-52 | "INTEGER" iff the Go type is int, "TEXT" otherwise |
| Codegen.GetTypeAsWrittenPanicsOnPointerSlice | internal/codegen/ast.go:60-71 | `[]*T` panics in the code as written, where `*T` alone is an "unhandled type" error |
| Codegen.GetType | internal/codegen/ast.go:54-75 | identifiers and selectors give their names; slices of them give "[]" and that name; every other type is "unhandled type", never a panic |
| Codegen.GetTypeAgrees | internal/codegen/ast.go:54-75 | GetType agrees with the code wherever the code does not panic; the code panics exactly on a slice of anything but an identifier or a selector |
| Codegen.FindDecl | internal/codegen/ast.go:77-92 | "struct not found" iff no type declaration is on the line; a found declaration is a struct or "type is not a struct" |
| Codegen.BuildSpec | internal/codegen/ast.go:94-147 | the build succeeds iff every field resolves, and then lists all fields in order, with the tagged ones in the gofs, pk and searchable lists |
| Codegen.BuildFailsAtFirst | internal/codegen/ast.go:94-147 | the first failing field's error is the build's |
| Codegen.TagSelection | internal/codegen/ast.go:113-144 | untagged fields are in no list; pk and searchable fields are gofs fields |
| Codegen.AstStructFromStructType | internal/codegen/ast.go:94-147 | a non-struct panics; otherwise the loop computes Build |
| Codegen.GetAstStruct | internal/codegen/ast.go:28-41 | a parse error is returned; a missing declaration propagates its error; otherwise the struct is built |
| Toast.JsParseIntNoDigits | templates/fs-app/internal/ui/components/toast/toast.ts:30 | `parseInt` of a string without a digit gives NaN |
| Toast.ParseLeftFormatPx | templates/fs-app/internal/ui/components/toast/toast.ts:27-33 | the `left` style written as "<n>px" parses back to n |
| Toast.NextLeftMoves | templates/fs-app/internal/ui/components/toast/toast.ts:103 | after a drag by dx, `left` reads as its old offset plus dx; an offset that reads as NaN stays NaN |
| Toast.JsParseIntOfJsInt | templates/fs-app/internal/ui/components/toast/toast.ts:39 | `parseInt` of a formatted integer followed by a non-digit gives the integer |
| Toast.Duration | templates/fs-app/internal/ui/components/toast/toast.ts:38-42 | a missing, empty or digit-free attribute gives 5000 |
| Toast.DurationOfNumber | templates/fs-app/internal/ui/components/toast/toast.ts:38-42 | an integer attribute gives that integer |
| Toast.AlertClass | templates/fs-app/internal/ui/components/toast/toast.ts:1-6 | non-empty iff the type is one of success, info, warning, error, and then "alert-" and the type |
| Toast.AlertClassAsWritten | templates/fs-app/internal/ui/components/toast/toast.ts:179-181 | the four types give their class |
| Toast.AlertClassAsWrittenLeaksPrototype | templates/fs-app/internal/ui/components/toast/toast.ts:181 | type "constructor" inserts the text of `Object` into the class attribute, where the intended result is "" |
| Toast.ReversesIsNegativeProduct | templates/fs-app/internal/ui/components/toast/toast.ts:94 | the direction test is `product < 0` |
| Toast.LastFive | templates/fs-app/internal/ui/components/toast/toast.ts:102 | `slice(-5)`: the last min(5, n) entries |
| Toast.Window | templates/fs-app/internal/ui/components/toast/toast.ts:90-102 | 1 to 5 samples, ending with the new one |
| Toast.WindowShape | templates/fs-app/internal/ui/components/toast/toast.ts:92-102 | a reversal leaves the new sample alone; otherwise the window is the last min(5, n + 1) of the old samples and the new one |
| Toast.WindowNoReversal | templates/fs-app/internal/ui/components/toast/toast.ts:92-102 | the window never holds two movements in opposite directions |
| Toast.Velocity | templates/fs-app/internal/ui/components/toast/toast.ts:114 | x/t, or an infinity or NaN when t is 0 |
| Toast.Dismisses | templates/fs-app/internal/ui/components/toast/toast.ts:116 | infinite speeds dismiss; NaN does not |
| Toast.FlickCrossMultiplied | templates/fs-app/internal/ui/components/toast/toast.ts:116 | for positive time, dismissal iff 2000·abs(x) >= availWidth·t |
| Toast.SlideTarget | templates/fs-app/internal/ui/components/toast/toast.ts:145-154 | the closing slide ends at left + 250·velocity, NaN without a number |
| Toast.Toast.constructor | templates/fs-app/internal/ui/components/toast/toast.ts:12-21 | keeps the children and attributes; no animation, listeners or touches |
| Toast.Toast.Render | templates/fs-app/internal/ui/components/toast/toast.ts:178-186 | the corrected alert class (AlertClass) and the children followed by the progress bar; `left` cleared |
| Toast.Toast.ConnectedCallback | templates/fs-app/internal/ui/components/toast/toast.ts:35-64 | renders with the corrected alert class; a playing animation of Duration, plus touch and click listeners, unless the duration is negative |
| Toast.Toast.DisconnectedCallback | templates/fs-app/internal/ui/components/toast/toast.ts:66-73 | touch listeners are removed; the anonymous click listener stays |
| Toast.Toast.Pause | templates/fs-app/internal/ui/components/toast/toast.ts:75-77 | the animation, if any, pauses |
| Toast.Toast.Play | templates/fs-app/internal/ui/components/toast/toast.ts:79-81 | the animation, if any, plays |
| Toast.Toast.TouchStart | templates/fs-app/internal/ui/components/toast/toast.ts:83-87 | remembers the touch, clears the window, pauses |
| Toast.Toast.MoveBy | templates/fs-app/internal/ui/components/toast/toast.ts:103 | `left` becomes NextLeft of its old value: the offset it reads as, plus the movement, written in pixels; nothing else changes |
| Toast.Toast.TouchMove | templates/fs-app/internal/ui/components/toast/toast.ts:89-104 | without a touch start, nothing changes; otherwise the window becomes Window (so stays short and one-directional), the touch is remembered and `left` moves by the difference from the last touch |
| Toast.Toast.Drag | templates/fs-app/internal/ui/components/toast/toast.ts:89-104 | with a last touch: the window becomes Window and stays valid, the touch is remembered and `left` becomes NextLeft of the movement |
| Toast.Toast.Record | templates/fs-app/internal/ui/components/toast/toast.ts:92-102 | the window becomes Window of the old window and the sample, and stays at most five samples without a reversal |
| Toast.Toast.TriggerClose | templates/fs-app/internal/ui/components/toast/toast.ts:131-176 | nothing without an animation or with a selection inside; otherwise the animation is dropped and the toast slides to SlideTarget |
| Toast.Toast.TouchEnd | templates/fs-app/internal/ui/components/toast/toast.ts:106-129 | a fast enough flick closes the toast; otherwise the animation plays and `left` is cleared |

## Left out

- Parsing is given, not modelled. The results come in as values or function parameters:
  - Go's `parser.ParseExpr` and `parser.ParseFile`, and `ast.Inspect` over a whole file;
  - templ's `ParseString`;
  - JSON encoding and decoding (`DecodeParams`, the initialize and cancel params, marshalling of results).
- Route extraction takes the `Handle` calls in the order `ast.Inspect` meets them, as a list of call sites, not a whole Go syntax tree.
  - The flat list cannot express the `return false` at internal/lsp/routes_file/ast.go:68: after a `Handle` call whose literal has no space, `ast.Inspect` skips its arguments, so a `Handle` call nested inside them is not visited, while the list still holds it.
- Uri.SelectorNames: only selectors, binary expressions and calls are looked into; other expressions are leaves. A selector under a parenthesised or indexed expression in a call's function is therefore not seen, where internal/lsp/uri/uri.go:103-108 inspects every node.
- `MatchLevel` is not part of this model. Route selection takes it as a `level` function and a no-match level.
- `Repo.GetPkgFunc` and `Repo.ReloadPkgs` (internal/lsp/repo/repo.go:99-111, 226-242) are not modelled. They load Go packages from disk. internal/lsp/pkg/ast.go is not part of this model; only `Pkg.GetFunc` is.
- `Repo.Repo.Open` is given the outcomes of its file-system reads: whether `.gofs` exists, the read of `go.mod` and the read of routes.go.
- Concurrency is not modelled:
  - the repository mutex and the queue mutexes;
  - the goroutine per request handler and the goroutine that writes queued responses;
  - the spin loop of `AwaitUnblock`, which becomes the condition it waits for.
  - Queued responses are recorded, not written, and a handler's completion is the separate `Jsonrpc2.Server.Finish`.
- The request handlers behind `HandleRequest` (didOpen, hover, diagnostic, ...) are not modelled. Their starts are recorded.
- Connection I/O is not modelled. `Conn.Read` is a list of reads, where a failed read is `None`. Write errors are dropped, as the code only logs them. Logging is not modelled.
- The `Item` type declared in both queue.go and access_queue.go appears as two modules, `Queue` and `AccessQueue`.
- `Handler` is modelled with the signature server.go declares.
- Toast:
  - Browser APIs are not modelled: animations run no clock, and a text selection is a boolean "inside the toast".
  - `parseInt` works on integers only; numbers of 1e21 and above, and JavaScript's floating-point rounding, are not modelled.
  - Touch coordinates are integers and timestamps are reals.
- Jsonrpc2.Next: a request whose params fail to decode leaves its id in the running requests, as the code does.
- RoutesFile.Routes.Update requires that route extraction does not panic. A panic there ends the process, and the pure `RoutesFile.RoutesOf` models it as `Panic`.
- Repo.Repo.UpdateRoutes requires the same, for the same reason.
- Repo.Repo.Open requires the same when `.gofs`, `go.mod` and routes.go are all there. A panic in it ends the process too: internal/lsp/lsp.go:26 passes `r.Open` as the server's initializer, and nothing recovers.
- Repo.Repo.GetRoute: delegates to the corrected `RoutesFile.Routes.GetRoute`, so an index equal to the route count, or a negative one, gives the "invalid index" error, where internal/lsp/repo/repo.go:268-274 reaches internal/lsp/routes_file/routes.go:33-38 and panics (see Findings).
- Codegen.AstStructFromStructType: builds each field through the corrected `Codegen.GetType`, so a field of type `[]*T` gives the "unhandled type" failure, where internal/codegen/ast.go:71 panics (see Findings).
- Codegen.GetAstStruct: the same `[]*T` difference, through `Codegen.AstStructFromStructType`.
- Toast.Toast.Render: uses the corrected `Toast.AlertClass`, so a type that names a member of `Object.prototype` (such as "constructor") gives no class, where toast.ts:181 puts that member's text into the class attribute (see Findings).
- Toast.Toast.ConnectedCallback: the same class difference, as it renders through `Render`.

## Findings

| source | as written | input that shows it | evidently intended | confidence | as-written member | corrected member |
|---|---|---|---|---|---|---|
| internal/lsp/routes_file/routes.go:33-38 | the guard is `i > len(routes)`, so `i == len(routes)` and negative `i` reach the slice index | `GetRoute(len(routes))` panics with index out of range | `i < 0 \|\| i >= len(routes)` returns "invalid index" | not executed | RoutesFile.GetRouteAsWrittenPanicsAtCount | RoutesFile.Routes.GetRoute |
| internal/codegen/ast.go:60-71 | a slice whose element is neither an identifier nor a selector falls through to a type assertion that its element is an identifier | a struct field of type `[]*Foo` panics with a failed type assertion | an "unhandled type" error, as for `*Foo` | not executed | Codegen.GetTypeAsWrittenPanicsOnPointerSlice | Codegen.GetType |
| templates/fs-app/internal/ui/components/toast/toast.ts:181 | the class map is a plain object literal, indexed by the attribute's raw text | `type="constructor"` puts the source text of `Object` into the class attribute | only the four alert types give a class | not executed | Toast.AlertClassAsWrittenLeaksPrototype | Toast.AlertClass |
