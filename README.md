# Postman collection importer and plain-text API renderer

This project models two parts of the API processor:

- The Postman importer (`PostmanParser`). It reads a Postman collection's
  folder tree and flattens it into `ApiCollection`s of `ApiItem`s. Each item
  carries its folder lineage as tags, a normalised path, its request parameters
  and body fields, and one response per saved example.
- The simple renderer (`SimpleApiRender`) and the value objects whose text
  forms it uses (`ApiDetail`). The renderer prints operations as lines, in
  blocks headed by their tags.

Modules:

- `Wrappers`: `Option` stands for Kotlin's nullable types. `Result` stands for a
  computation that may throw.
- `Strings`: the Kotlin string operations the code uses. These are
  `startsWith`, `indexOf`, a `substring` that throws out of range, `replace`
  of all occurrences, `joinToString`, and `split` on one character (used only
  to state properties).
- `CoreModel`: the importer's output records, built from the fields its
  constructor calls pass.
- `PostmanModel`: the Postman input tree, reduced to the fields the importer
  reads, plus its two collaborators, URL variable resolution and
  `java.net.URI` path extraction. Both are parameters of the model
  (`Collaborators`).
- `PostmanParser`: the importer.
  - `ParseFolder` (with its loops in `GroupChildren`) and `ResolveUri` are
    imperative, like the source. Each is proved equal to a specification
    function (`FolderCollections`, `Grouped`, `NormalisePath` of
    `LocatedPath`).
  - The recursive classification `ParseChildItem` and the value formatting
    are functions.
  - Every tree operation (`ParseChildItem`, `ParseChildren`,
    `FolderCollections`, `ParseFolder`, `ParseAll`, `Parse`) takes a
    `LeafRule`. `AsWritten` builds each leaf with `processApiItem` as the code
    has it. `Intended` builds it with the empty-path rejection the code
    evidently means (see Findings). The tree lemmas hold for both rules.
- `PostmanParserProofs`: the importer's properties.
  - Tag lineage at every depth.
  - No item is ever invented, and regrouping loses exactly the items it
    discards.
  - The import throws exactly when some leaf throws, and the first exception
    aborts it. As written, one request with an empty path is enough.
  - The URL clean-up properties and the empty-path finding.
- `PostmanParserExample`: a worked collection with one folder holding two
  requests, evaluated end to end.
- `ApiDetail` and `SimpleApiRender`: the text forms and the renderer.

Three behaviours of the code are easy to miss:

- A top-level folder's items are tagged with the folder's name twice, for
  example `["Users", "Users"]`. The reason: `parse` passes
  the node's name both as the ancestor folder name and as the folder's own
  name (PostmanParser.kt:24 and :32). `UsersExample` shows this.
- A sub-folder whose item groups are as many as its children is merged into one
  collection. This happens even when some children produced nested-folder
  results, and those results are then dropped (PostmanParser.kt:84-92).
  Likewise, a folder that mixes folders and items drops its children's
  nested-folder results. `RegroupItems` states exactly which items are lost.
- An operation whose path resolves to the empty string is meant to be dropped,
  but the code as written throws before it gets there, and the exception
  aborts the whole import (see Findings). `AsWritten` is the code; the worked
  example uses it.

The renderer's operations are taken to have a nullable request and a nullable
response, as the `ApiDetail` record beside them has (ApiDetail.kt:49-50); the
renderer's own `ApiItem` is not part of this model. Kotlin renders a null as `null`, so such an operation's
signature is never bare: with both null it is `(null) : null`.

The renderer is a pure function of its input. In the model, each of its
members is a function, so rendering the same items twice gives the same text by
construction.

## Model

| member | source | states |
|---|---|---|
| PostmanParser.FormatValue | processor/modules/api-processor/src/main/kotlin/cc/unitmesh/processor/api/parser/PostmanParser.kt:178-197 | An all-ASCII-digit or `true`/`false` value is shown as it is. Any other non-empty value is quoted. The result is empty exactly when the value is null or empty. |
| PostmanParserProofs.FormatValueInjective | processor/modules/api-processor/src/main/kotlin/cc/unitmesh/processor/api/parser/PostmanParser.kt:178-197 | Two present values with the same display form are equal, so formatting loses nothing. |
| PostmanParser.ReplaceLineBreak | processor/modules/api-processor/src/main/kotlin/cc/unitmesh/processor/api/parser/PostmanParser.kt:200-202 | Null stays null. Otherwise the result is the text with every `\n` and every `\r` deleted, and it holds neither. |
| PostmanParserProofs.ReplaceLineBreakIdempotent | processor/modules/api-processor/src/main/kotlin/cc/unitmesh/processor/api/parser/PostmanParser.kt:200-202 | Stripping line breaks twice is stripping them once. |
| PostmanParser.UrlParameters | processor/modules/api-processor/src/main/kotlin/cc/unitmesh/processor/api/parser/PostmanParser.kt:166-176 | The path variables come first, then the query parameters. Order is kept, a missing key becomes `""`, and values are formatted. With no URL there are no parameters. |
| PostmanParser.FormBody | processor/modules/api-processor/src/main/kotlin/cc/unitmesh/processor/api/parser/PostmanParser.kt:148 | One parameter per form field, in order, with the raw value (`""` when missing). No body or no form data gives none. |
| PostmanParser.ExampleResponses | processor/modules/api-processor/src/main/kotlin/cc/unitmesh/processor/api/parser/PostmanParser.kt:137-144 | One raw-text response per saved example, with no parameters. The code defaults to 0 and the body to `""`. |
| PostmanParser.ReplaceSentinels | processor/modules/api-processor/src/main/kotlin/cc/unitmesh/processor/api/parser/PostmanParser.kt:122-124 | After the three replacements, no `UNDEFINED` is left in the URL. A URL without `UNDEFINED` is left unchanged. |
| PostmanParserProofs.SchemeSentinelRemovedFirst | processor/modules/api-processor/src/main/kotlin/cc/unitmesh/processor/api/parser/PostmanParser.kt:122-124 | Because the scheme-prefixed sentinel is removed first, `http://UNDEFINED/users` becomes `/users`. |
| PostmanParser.NormalisePath | processor/modules/api-processor/src/main/kotlin/cc/unitmesh/processor/api/parser/PostmanParser.kt:133-135 | Null and paths that start with `/` are kept. Otherwise the path is cut to start at its first `/`, and the cut-off prefix holds no `/`. It throws `StringIndexOutOfBounds(-1)` exactly when there is no `/`. |
| PostmanParser.ResolveUri | processor/modules/api-processor/src/main/kotlin/cc/unitmesh/processor/api/parser/PostmanParser.kt:121-135 | The step-by-step rewriting of `uri` (resolve, replace the sentinels, take the URI path if it parses, cut at the first slash) gives exactly the normalised located path, including its exception. |
| PostmanParser.BuildItem | processor/modules/api-processor/src/main/kotlin/cc/unitmesh/processor/api/parser/PostmanParser.kt:137-163 | The item is tagged `[folderName ?: "", itemName ?: ""]`. Its operation id is the leaf's name and its path the resolved path (`""` for null). Its method is the request's. Its description is the request's with line breaks deleted (`""` for null), so it holds none. Its request holds the URL parameters and the form body. Its responses are exactly the saved examples' responses. |
| PostmanParser.ProcessApiItemAsWritten | processor/modules/api-processor/src/main/kotlin/cc/unitmesh/processor/api/parser/PostmanParser.kt:109-164 | As written, it never returns null. It throws exactly when the located path is non-null and holds no `/`, including when it is empty. An item it returns is exactly `BuildItem` of the normalised path: the tags, operation id and method of the leaf, and a path that starts with `/` (or is `""` for a null path). |
| PostmanParser.ProcessApiItem | processor/modules/api-processor/src/main/kotlin/cc/unitmesh/processor/api/parser/PostmanParser.kt:109-164 | Null exactly when the located path is `""`. It throws exactly when the path is non-empty and has no `/`. An accepted item has tags `[folderName ?: "", itemName ?: ""]`, the leaf's name as operation id, the request's method, and the normalised path, which starts with `/` (or `""` for a null path). The item is exactly `BuildItem` of that path. |
| PostmanParser.ProcessLeaf | processor/modules/api-processor/src/main/kotlin/cc/unitmesh/processor/api/parser/PostmanParser.kt:109-164 | The leaf builder the tree calls. It returns null exactly under `Intended` for a path that resolves to `""`. It throws exactly when the path is non-null and has no `/`, and under `Intended` only when that path is also non-empty. An item it returns carries the two names passed down as tags. |
| PostmanParserProofs.ProcessApiItemVersionsAgree | processor/modules/api-processor/src/main/kotlin/cc/unitmesh/processor/api/parser/PostmanParser.kt:133-153 | The code as written and the intended behaviour differ only on a path that resolves to `""`. |
| PostmanParserProofs.EmptyPathThrowsAsWritten | processor/modules/api-processor/src/main/kotlin/cc/unitmesh/processor/api/parser/PostmanParser.kt:121-153 | A request whose URL resolves to `http://UNDEFINED` throws `StringIndexOutOfBounds(-1)` as written, and is dropped under the intended behaviour. |
| PostmanParser.Description | processor/modules/api-processor/src/main/kotlin/cc/unitmesh/processor/api/parser/PostmanParser.kt:49-53 | The description is `""` when the folder's name equals the ancestor's name, and otherwise the folder's name (`""` when null). |
| PostmanParser.Regroup | processor/modules/api-processor/src/main/kotlin/cc/unitmesh/processor/api/parser/PostmanParser.kt:81-92 | Folders and items mixed become one nested folder of the folders and the item groups. Otherwise, as many item groups as children become one collection named after the ancestor, described by the folder's name, with all the groups' items in order. Anything else passes through unchanged. |
| PostmanParserProofs.ParseChildItemLeaf | processor/modules/api-processor/src/main/kotlin/cc/unitmesh/processor/api/parser/PostmanParser.kt:95-105 | A node without children or request gives nothing. A leaf gives one item group holding its item, or an empty group when the leaf is rejected, or the leaf's exception. |
| PostmanParserProofs.ParseChildItemFolder | processor/modules/api-processor/src/main/kotlin/cc/unitmesh/processor/api/parser/PostmanParser.kt:76-93 | A folder node throws exactly when its children do, with their exception. Otherwise it yields exactly `Regroup` of its children's results, with its own child count and name. |
| PostmanParserProofs.ParseChildrenEach | processor/modules/api-processor/src/main/kotlin/cc/unitmesh/processor/api/parser/PostmanParser.kt:77-79 | A list of children succeeds exactly when every child does. |
| PostmanParserProofs.ParseChildrenFirstFailure | processor/modules/api-processor/src/main/kotlin/cc/unitmesh/processor/api/parser/PostmanParser.kt:77-79 | A failing list of children fails with the exception of its first failing child; every child before it succeeds. |
| PostmanParser.Grouped | processor/modules/api-processor/src/main/kotlin/cc/unitmesh/processor/api/parser/PostmanParser.kt:35-56 | The top-level layout: all folder collections first, then each nested folder's collections followed by its items as one collection, then one collection of the remaining items, present exactly when there are any. |
| PostmanParser.GroupChildren | processor/modules/api-processor/src/main/kotlin/cc/unitmesh/processor/api/parser/PostmanParser.kt:35-56 | The two loops filling `details` and the final group give exactly `Grouped` of the children's results. |
| PostmanParser.FolderCollections | processor/modules/api-processor/src/main/kotlin/cc/unitmesh/processor/api/parser/PostmanParser.kt:28-72 | A folder throws exactly when its children do, and otherwise gives `Grouped` of their results. A leaf gives one collection holding its item (none when rejected) or throws with it. A node with neither gives nothing. |
| PostmanParser.ParseFolder | processor/modules/api-processor/src/main/kotlin/cc/unitmesh/processor/api/parser/PostmanParser.kt:28-72 | The two loops that fill `details`, plus the final group, produce the collections grouped by variant. First come all folder collections, then each nested folder's collections followed by its items as one collection, then the remaining items when there are any. A leaf gives one collection. An exception from any leaf propagates. This holds under either leaf rule. |
| PostmanParserProofs.ParseChildItemTagged | processor/modules/api-processor/src/main/kotlin/cc/unitmesh/processor/api/parser/PostmanParser.kt:74-107 | At any depth, every item a node yields is tagged with the two names its caller passed down, and every collection is named after the ancestor folder. |
| PostmanParserProofs.ParseChildrenTagged | processor/modules/api-processor/src/main/kotlin/cc/unitmesh/processor/api/parser/PostmanParser.kt:77-79 | The same holds for the concatenated results of a list of children. |
| PostmanParserProofs.RegroupTagged | processor/modules/api-processor/src/main/kotlin/cc/unitmesh/processor/api/parser/PostmanParser.kt:81-92 | Regrouping a folder's results keeps every collection's name and every item's tags. |
| PostmanParserProofs.FolderCollectionsTagged | processor/modules/api-processor/src/main/kotlin/cc/unitmesh/processor/api/parser/PostmanParser.kt:28-72 | Every collection of a top-level folder is named after the ancestor folder. Its items are tagged `[ancestor, folder's own name]`. |
| PostmanParserProofs.ParseAllEach | processor/modules/api-processor/src/main/kotlin/cc/unitmesh/processor/api/parser/PostmanParser.kt:22-26 | The import of a collection's nodes succeeds exactly when every top-level node does. |
| PostmanParserProofs.ParseAllFirstFailure | processor/modules/api-processor/src/main/kotlin/cc/unitmesh/processor/api/parser/PostmanParser.kt:22-26 | A failing import fails with the exception of its first failing top-level node. |
| PostmanParserProofs.ParseAllSingle | processor/modules/api-processor/src/main/kotlin/cc/unitmesh/processor/api/parser/PostmanParser.kt:23-25 | A single top-level node is imported as `parseFolder(it, it.name)`. |
| PostmanParserProofs.ParseAllAppend | processor/modules/api-processor/src/main/kotlin/cc/unitmesh/processor/api/parser/PostmanParser.kt:23-25 | The import of a node list is the in-order concatenation of its parts' imports: splitting the list anywhere splits the result, and the whole succeeds exactly when both parts do. |
| PostmanParser.Parse | processor/modules/api-processor/src/main/kotlin/cc/unitmesh/processor/api/parser/PostmanParser.kt:22-26 | Null exactly when the collection has no item list. Otherwise it succeeds exactly when the import of its nodes does, and returns that import. |
| PostmanParserProofs.ParseTagged | processor/modules/api-processor/src/main/kotlin/cc/unitmesh/processor/api/parser/PostmanParser.kt:22-26 | In what `parse` returns, every item of every collection is tagged `[collection name, collection name]`. |
| PostmanParserProofs.RegroupItems | processor/modules/api-processor/src/main/kotlin/cc/unitmesh/processor/api/parser/PostmanParser.kt:81-92 | As multisets, the items before regrouping are the items after it plus those lost. A pass-through loses nothing. A mixed folder loses its nested folders' items. A merge also loses its sub-folders' items. |
| PostmanParserProofs.ChildItemsSplit | processor/modules/api-processor/src/main/kotlin/cc/unitmesh/processor/api/parser/PostmanParser.kt:81-82 | The items of a classification list are, as a multiset, those of its folders, its item groups and its nested folders. |
| PostmanParserProofs.ParseChildItemItems | processor/modules/api-processor/src/main/kotlin/cc/unitmesh/processor/api/parser/PostmanParser.kt:74-107 | Classification never invents an item. Every item it yields (as a multiset) comes from a leaf below the node. |
| PostmanParserProofs.ParseChildrenItems | processor/modules/api-processor/src/main/kotlin/cc/unitmesh/processor/api/parser/PostmanParser.kt:77-79 | The same holds for a list of children. |
| PostmanParserProofs.GroupedItems | processor/modules/api-processor/src/main/kotlin/cc/unitmesh/processor/api/parser/PostmanParser.kt:35-56 | The top level's grouping by variant keeps every item its children's results carry, as a multiset. |
| PostmanParserProofs.FolderCollectionsItems | processor/modules/api-processor/src/main/kotlin/cc/unitmesh/processor/api/parser/PostmanParser.kt:28-72 | No item in a top-level folder's collections is missing from its leaves. |
| PostmanParserProofs.TopLevelLeafOneCollection | processor/modules/api-processor/src/main/kotlin/cc/unitmesh/processor/api/parser/PostmanParser.kt:57-69 | A top-level leaf that does not throw makes exactly one collection. The collection is empty exactly when the rule is `Intended` and the leaf's path resolves to `""`; as written it always holds the operation. |
| PostmanParserProofs.ParseChildItemSucceeds | processor/modules/api-processor/src/main/kotlin/cc/unitmesh/processor/api/parser/PostmanParser.kt:74-107 | Classifying a node throws exactly when one of the leaves below it throws. |
| PostmanParserProofs.ParseChildrenSucceed | processor/modules/api-processor/src/main/kotlin/cc/unitmesh/processor/api/parser/PostmanParser.kt:77-79 | A list of children throws exactly when one of their leaves throws. |
| PostmanParserProofs.EmptyLeafAbortsAsWritten | processor/modules/api-processor/src/main/kotlin/cc/unitmesh/processor/api/parser/PostmanParser.kt:57-100 | As written, a leaf whose path resolves to `""` throws `StringIndexOutOfBounds(-1)`, both inside a folder and at the top level. With the intended rule it leaves one empty item group. |
| PostmanParserProofs.ParseAbortsOnEmptyLeaf | processor/modules/api-processor/src/main/kotlin/cc/unitmesh/processor/api/parser/PostmanParser.kt:22-33 | As written, one request with an empty path directly in any top-level folder makes the whole `parse` throw. |
| PostmanParserExample.UsersExample | processor/modules/api-processor/src/main/kotlin/cc/unitmesh/processor/api/parser/PostmanParser.kt:22-107 | A folder `Users` holding `GET /users` and `GET /users/1` gives one collection, `Users`, with an empty description and both operations in order. Each operation is tagged `["Users", "Users"]`. This is the code as written. |
| ApiDetail.ApiTagOutput.ToString | processor/modules/api-processor/src/main/kotlin/cc/unitmesh/processor/api/base/ApiDetail.kt:7-9 | It returns the wrapped text unchanged. Wrapping that text again gives the same block. |
| ApiDetail.Parameter.ToString | processor/modules/api-processor/src/main/kotlin/cc/unitmesh/processor/api/base/ApiDetail.kt:16 | The text is the name, then `": "`, then the type. It is never empty. |
| ApiDetail.ParameterRoundTrip | processor/modules/api-processor/src/main/kotlin/cc/unitmesh/processor/api/base/ApiDetail.kt:16 | A parameter whose name holds no colon is read back from its text. |
| ApiDetail.JoinParametersEmpty | processor/modules/api-processor/src/main/kotlin/cc/unitmesh/processor/api/base/ApiDetail.kt:25-26 | A joined parameter list is empty exactly when the list is empty. |
| ApiDetail.Request.ToString | processor/modules/api-processor/src/main/kotlin/cc/unitmesh/processor/api/base/ApiDetail.kt:24-32 | Empty exactly when both lists are empty. One non-empty list is shown on its own, without parentheses. Both are shown as `params, (body)`. |
| ApiDetail.Response.ToString | processor/modules/api-processor/src/main/kotlin/cc/unitmesh/processor/api/base/ApiDetail.kt:39 | Empty exactly when there are no parameters. |
| ApiDetail.RequestText | processor/modules/api-processor/src/main/kotlin/cc/unitmesh/processor/api/base/ApiDetail.kt:49 | A request's text: `null` for a null request, otherwise its `toString`. It is empty exactly for a non-null request with both lists empty. |
| ApiDetail.ResponseText | processor/modules/api-processor/src/main/kotlin/cc/unitmesh/processor/api/base/ApiDetail.kt:50 | A response's text: `null` for a null response, otherwise its `toString`. It is empty exactly for a non-null response without parameters. |
| SimpleApiRender.IoParameters | processor/modules/api-processor/src/main/kotlin/cc/unitmesh/processor/api/render/SimpleApiRender.kt:28-36 | Four cases, decided by whether the request's and the response's texts are empty: `()`, `(): out`, `(in)` and `(in) : out`. A null request or response is not empty: it shows as `null`. |
| SimpleApiRender.IoParametersBare | processor/modules/api-processor/src/main/kotlin/cc/unitmesh/processor/api/render/SimpleApiRender.kt:28-36 | The signature is `()` exactly for an operation with neither input nor output. |
| SimpleApiRender.IoParametersNull | processor/modules/api-processor/src/main/kotlin/cc/unitmesh/processor/api/render/SimpleApiRender.kt:29-35 | With both request and response null, the signature is `(null) : null`. |
| SimpleApiRender.OperationInformation | processor/modules/api-processor/src/main/kotlin/cc/unitmesh/processor/api/render/SimpleApiRender.kt:22-26 | Empty exactly when the operation id is empty. Otherwise it is a space, the id and the signature. |
| SimpleApiRender.ItemLine | processor/modules/api-processor/src/main/kotlin/cc/unitmesh/processor/api/render/SimpleApiRender.kt:16 | Every line starts with the method and a space and ends in a space. A line is `method path` followed by two spaces exactly when the operation id is empty. |
| SimpleApiRender.ItemLineSingle | processor/modules/api-processor/src/main/kotlin/cc/unitmesh/processor/api/render/SimpleApiRender.kt:15-17 | An operation whose texts hold no line break renders as a single line. |
| SimpleApiRender.RenderItemLines | processor/modules/api-processor/src/main/kotlin/cc/unitmesh/processor/api/render/SimpleApiRender.kt:13-20 | Split at its line breaks, a block is the tags joined with `", "`, followed by exactly one line per operation in order (or one empty line when there are none). |
| SimpleApiRender.RenderItem | processor/modules/api-processor/src/main/kotlin/cc/unitmesh/processor/api/render/SimpleApiRender.kt:13-20 | A block starts with the tags joined with `", "` and a line break. Without operations that is all; with one, it is followed by that operation's line. |
| SimpleApiRender.RenderCollection | processor/modules/api-processor/src/main/kotlin/cc/unitmesh/processor/api/render/SimpleApiRender.kt:8-11 | The rendering is empty exactly when there is no block, or a single empty one. A single block is rendered as it is, with no separator. |

## Left out

- `java.net.URI` parsing is a foreign library. It is the parameter `uriPath`, which either rejects the string (the caught exception keeps the string) or yields a possibly null path.
- `PostmanVariables`, `PostmanEnvironment` and `getUrl` are not shown. Variable resolution is the parameter `getUrl`.
- The `cc.unitmesh.core.model` and `cc.unitmesh.processor.api.model.postman` declarations are not part of this model. Their fields are taken from the constructor calls and field reads in the importer.
- Folders and requests are one node type. The importer casts a top-level folder to an item (PostmanParser.kt:58), and this model assumes that cast succeeds.
- `renderByTag` and the `ApiDetailRender` interface are not shown. `renderByTag` is a parameter of `RenderCollection`, and how it groups items is not modelled.
- The renderer's `ApiItem` (`cc.unitmesh.processor.api.base.ApiItem`) is not part of this model. It is taken to have the fields the renderer reads, with a nullable `Request` and a nullable single `Response`, as the `ApiDetail` record beside it has (ApiDetail.kt:49-50).
- Serialization annotations and the unused `ApiDetail` record have no counterpart here.
- The importer's command-line entry point (`Main.kt`) is left out: file walking, JSON and database I/O, and the code-snippet pipeline that wraps a foreign Kotlin parser.
- Response status codes are unbounded integers. The 32-bit width of the JVM's `Int` does not matter to any operation here.
- Strings are sequences of characters. `\d` is taken to mean the ASCII digits, which is the JVM's default.

## Findings

| source | as written | input that shows it | evidently intended | confidence | as-written member | corrected member |
|---|---|---|---|---|---|---|
| processor/modules/api-processor/src/main/kotlin/cc/unitmesh/processor/api/parser/PostmanParser.kt:133-153 | Path normalisation happens before the emptiness check. An empty path does not start with `/`, so `uri.substring(uri.indexOf("/"))` runs as `substring(-1)` and throws. The `isEmpty()` rejection at lines 151-153 can never fire, and the exception aborts the whole import. | A request URL `http://UNDEFINED`, which the sentinel replacement turns into `""`; or `https://host`, whose URI path is `""` | An operation whose path resolves to `""` is dropped silently and the import continues | medium; not executed | PostmanParser.ProcessApiItemAsWritten, PostmanParserProofs.EmptyPathThrowsAsWritten, PostmanParserProofs.ParseAbortsOnEmptyLeaf | PostmanParser.ProcessApiItem, PostmanParserProofs.ProcessApiItemVersionsAgree |
