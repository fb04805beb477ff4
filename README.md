# mono, modelled in Dafny

This project models the core of `mono`, a small Go web framework, and
proves properties of the model.

The main part is its Markdown-to-HTML engine (`md.go`). `Markdown` feeds the
document, one character at a time, to each scanner of an ordered catalog:
- a fenced-code scanner;
- generic delimiter scanners for inline code, headings, blockquotes and
  emphasis;
- a link scanner.

Each scanner answers with actions. `markdownApplyTags` records them in three
tables indexed by position:
- `skip` holds the claimed characters;
- `actions` holds the queued insertions;
- `paragraphs` marks block content.

A later scanner never sees a claimed index. `markdownApplyParagraphs` then
wraps the remaining runs of text in `<p>` and `</p>`. A render loop prints,
index by index, the insertions and then every character that was not
claimed, inside `<div>\n…\n</div>`.

The engine is modelled twice:
- pure step functions and a specification of the whole pipeline (`MdScan`,
  `MdSpec`);
- imperative Dafny that mirrors the Go code: scanner classes whose fields
  are the struct fields (`MdTags`), and methods over `array`s for the three
  tables (`MdEngine`).

Each method is proved equal to its specification function. The lemmas in
`MdProps`, `MdRuns` and `MdWhole` prove the behaviour the engine promises:
- claims only grow;
- scanners see only unclaimed text;
- pairing, escaping and line anchoring work as designed;
- fenced code and links are handled as specified;
- paragraph extents are as stated;
- the render prints actions in queue order.

Beside the engine the project models smaller parts of the framework:
- the per-client sliding-window rate limiter and its quota-from-environment
  decision (`middleware.go`);
- the selection of the deployment environment and of TLS (`env.go`);
- path-prefix authentication gates (`auth.go`);
- the list of certificate domains (`https.go`);
- the server's defaults, middleware composition, `Stats` ordering and proxy
  path rewrite (`mux.go`);
- `def`, `Context.Clone` and the `set_env` template function
  (`handlers.go`);
- the file extension's extension-to-kind table, URL cache and `file`
  function (`extension.go`).

Modules:
- `Common`: Go standard-library string helpers and `strconv.ParseInt`.
- `MdScan`, `MdTags`, `MdSpec`, `MdEngine`, `MdProps`, `MdRuns`, `MdWhole`:
  the Markdown engine.
- `Middleware`, `Env`, `Auth`, `Https`, `Mux`, `Handlers`, `Extension`: the
  file of the same name each.

Go handlers and middleware are functions, and Dafny cannot compare
functions. So a handler is modelled as a symbolic term,
`Handlers.HandlerFunc`: a named function, or a middleware name wrapped around
an inner handler. Outside effects are taken as parameters:
- the clock;
- the process environment;
- the answers of `isDocker`, `isAuthed`, `os.Stat` and the file hash.

## Model

| member | source | states |
|---|---|---|
| Common.ParseInt | middleware.go:198 | `strconv.ParseInt(s, 10, 64)`: an answer exactly for an optional sign followed by one or more decimal digits whose signed value lies in the 64-bit range, and the answer is that value. |
| Common.ParseIntExamples | middleware.go:198 | "007" reads as 7 and "+5" as 5; "-" and "1x" are errors. |
| Common.ParseFormatted | middleware.go:198 | Every 64-bit integer written in decimal is read back as itself. |
| Common.ParseNegative | middleware.go:198 | A minus sign before the digits of `m` (up to 2^63) gives `-m`. |
| Common.TrimPrefix | mux.go:72 | The prefix is removed once when present: `s == prefix + r`; otherwise `r == s`. |
| Common.ToLower | auth.go:65 | Same length, each character mapped through the ASCII case mapping. |
| Common.IndexOf | md.go:270 | The first occurrence of `sub`, or -1 exactly when there is none. |
| Common.FirstIndexOf | md.go:20 | The first position of the character, or -1 exactly when it is absent. |
| Common.LastIndexOf | md.go:20 | The last position of the character, or -1 exactly when it is absent. |
| Common.Cut | md.go:270 | When found, `s == before + sep + after` with no earlier occurrence of `sep`; when not found, `before == s` and `after` is empty. |
| Handlers.Def | handlers.go:182-187 | The first element of a non-empty slice, the fallback for an empty one; `unwrap` (mux.go:381-386) has the same body and is modelled by this function. |
| Handlers.SetPairsSnoc | handlers.go:44-47 | Writing one more pair is a map update applied after the earlier pairs. |
| Handlers.SetPairsValue | handlers.go:44-46 | Keys that no pair names keep their value (or stay absent); a named key gets the value of the last pair that names it. |
| Handlers.Context.constructor | handlers.go:19-24 | The context holds exactly the given url, file name and maps. |
| Handlers.Context.Clone | handlers.go:26-33 | A fresh context, distinct from the original, with the same url, file name and map contents. |
| Handlers.Context.SetEnv | handlers.go:39-49 | Returns "" and sets `env` to the pairs applied left to right; the other fields are unchanged. |
| Env.Resolve | env.go:44-59 | "local", "dev" and "prod", in any case, select `EnvLocal`, `EnvDev` and `EnvProd`; the empty value selects `EnvProd` under docker and `EnvLocal` otherwise; every other value panics (`None`), and exactly those do. |
| Env.ResolveIgnoresCase | env.go:44 | The selection depends only on the lower-cased value. |
| Env.ResolveCapitals | env.go:44-56 | "PROD" selects `EnvProd`. |
| Env.TlsEnabled | env.go:95-100 | An explicit setting wins, and TLS is on exactly for `EnableTLSTrue`; unspecified means on exactly when not local. |
| Env.Package.constructor | env.go:19-23 | Before `init`: environment unspecified, TLS setting unspecified. |
| Env.Package.Init | env.go:42-61 | A set environment is kept. Otherwise the one `Resolve` selects is taken; an unknown value is a panic with its message. Without a panic exactly one of `IsLocal`, `IsDev` and `IsProd` holds. |
| Middleware.QuotaFromEnv | middleware.go:185-204 | A positive quota answers true and changes nothing. An already-checked call answers false. Otherwise the call marks the environment checked and stores a value that parses. The answer is true exactly when the resulting quota is positive. |
| Middleware.QuotaFromEnvSettles | middleware.go:189-191 | A second call, in any environment, gives the first call's answer and state. |
| Middleware.ConsistentUnique | middleware.go:140-160 | The expiry queue determines the count map consistent with it. |
| Middleware.ConsistentPositive | middleware.go:149-151 | A consistent count map holds no zero or negative count. |
| Middleware.CountNew | middleware.go:140 | Counting a request and queuing its entry keeps the map consistent with the queue. |
| Middleware.DropFirst | middleware.go:148-151 | Dropping the front entry while decrementing (and deleting at 0) keeps the map consistent. |
| Middleware.Expired | middleware.go:143-152 | The number of leading entries that are due: all of them have `After <= now`, and the next one, if any, is not due. |
| Middleware.NextCount | middleware.go:140-161 | The returned count is the address's entries that were not due, plus one for the request; at least 1. |
| Middleware.NextCleansSorted | middleware.go:154-160 | With a clock that does not go back, the queue stays sorted by expiry and bounded by the latest `now + timeout`. |
| Middleware.SortedLeavesNothingDue | middleware.go:143-152 | In a sorted queue, no entry left after the expiry loop is due. |
| Middleware.ExpireFront | middleware.go:143-152 | The loop drops exactly `Expired(cleans, now)` entries and keeps the count map consistent with what is left. |
| Middleware.RpsLimiterClients.constructor | middleware.go:104-112 | The given quota, timeout and 429 handler; no map; not checked; empty queue. |
| Middleware.RpsLimiterClients.TryQuotaFromEnv | middleware.go:115 | Updates `checkedEnv` and `Quota` as `QuotaFromEnv` says and changes nothing else. |
| Middleware.RpsLimiterClients.Apply | middleware.go:114-134 | Without a positive quota the handler comes back unchanged. Otherwise a missing map becomes empty, a 0 timeout becomes one second and a missing 429 handler becomes the default; the rate-limited handler is returned. |
| Middleware.RpsLimiterClients.Rate | middleware.go:136-162 | The new queue is the old one with its due front dropped and the request's expiry appended. The count map stays consistent with it. The answer is the address's count, at least 1. |
| Middleware.RpsLimiterClients.Serve | middleware.go:128-133 | The 429 handler runs exactly when the address's count exceeds the quota; the guarded handler runs otherwise. |
| Middleware.RpsLimitClients | middleware.go:42-49 | A limiter with the quota, a one-second window and the first given 429 handler or the default. |
| Auth.AnyPrefix | auth.go:66-70 | True exactly when some configured prefix starts the path. |
| Auth.RequestSuits | auth.go:61-72 | True for every path when there are no prefixes; otherwise exactly when the lower-cased path starts with a prefix as configured. |
| Auth.UpperPrefixNeverMatches | auth.go:65-67 | A prefix holding an upper-case letter never starts a lower-cased path. |
| Auth.UpperPrefixesGateNothing | auth.go:61-72 | If every prefix holds an upper-case letter, the gate applies to no request. |
| Auth.SimpleAuthRoute | auth.go:25-34 | `OnUnauthorized` exactly when the gate applies and the request is not authenticated; the handler otherwise. |
| Auth.AuthRouteAsWritten | auth.go:104-118 | As written: the unauthorized handler (the first given, or the 401 one) exactly when the lower-cased path starts with the lower-cased prefix and `authed` holds. |
| Auth.AuthAsWrittenRefusesAuthed | auth.go:112 | As written, an authenticated request under the prefix is refused and an unauthenticated one is served. |
| Auth.AuthRoute | auth.go:104-118 | As intended: every authenticated request and every request outside the prefix is served; the others get the unauthorized handler. It equals the as-written gate with `authed` negated. |
| Https.DomainsWithWww | https.go:99-108 | The loop builds `Expand(domains, false)`. |
| Https.ExpandLength | https.go:100-107 | Output length is the number of domains plus the number that lack "www."; an empty input gives an empty output. |
| Https.ExpandShape | https.go:101-105 | Each domain sits at its position, in input order, followed by its companion exactly when it lacks "www.". |
| Https.PositionNext | https.go:103-105 | A domain with "www." takes one entry, any other two. |
| Https.AsWrittenRepeatsDomain | https.go:103-105 | As written, "example.com" expands to itself twice and "www.example.com" is missing. |
| Https.WithWwwCoversWww | https.go:103-105 | The intended list holds each domain in order, followed by its "www." form when it lacks one. |
| Mux.Alt | mux.go:373-379 | `otherwise` exactly when the value is the zero value, the value otherwise. |
| Mux.RewritePath | mux.go:72-75 | The `source` prefix is removed once; an empty result becomes "/". The result is never empty. |
| Mux.RewriteOnce | mux.go:78-81 | A doubled prefix loses one copy only. |
| Mux.LexCompare | mux.go:244 | `strings.Compare` answers -1, 0 or 1. |
| Mux.LexCompareZero | mux.go:244 | Zero exactly for equal strings. |
| Mux.LexCompareFlip | mux.go:244 | Swapping the arguments negates the answer. |
| Mux.LexCompareTrans | mux.go:244 | The order is transitive. |
| Mux.RuneLen | mux.go:243 | The UTF-8 length of one character: 1 to 4 bytes, and 1 exactly for ASCII. |
| Mux.ByteLen | mux.go:243 | Go's `len` of a string: at least its character count and at most four times it. |
| Mux.ByteLenAscii | mux.go:243 | The byte length equals the character count exactly when every character is ASCII. |
| Mux.CompareStats | mux.go:242-247 | A line of fewer UTF-8 bytes comes first. |
| Mux.CompareStatsCountsBytes | mux.go:243-246 | "é" and "ab" are both two bytes long, so they are compared as text and "ab" comes first. |
| Mux.CompareStatsOrder | mux.go:242-247 | A total order: ties only for equal lines, antisymmetric, transitive. |
| Mux.InsertStat | mux.go:242-247 | Inserting into a sorted listing keeps it sorted and adds exactly that line. |
| Mux.SortStats | mux.go:242 | The stable sort gives a sorted permutation of the lines. |
| Mux.ComposeLayers | mux.go:88-90 | The last registered middleware is outermost, the first innermost, and the handler's own layers sit inside them all. |
| Mux.ServerDev.constructor | mux.go:47-61 | The zero value of `serverDev`. |
| Mux.ServerDev.Init | mux.go:327-341 | Address ":3000", a 10 s timeout and `[interpretPanicsAsError]` are set only where unset; both maps start empty; TLS and errors are unchanged. |
| Mux.ServerDev.Middleware | mux.go:232-235 | Appends the middleware after the others and changes nothing else. |
| Mux.ServerDev.Addr | mux.go:227-230 | Sets the address and changes nothing else. |
| Mux.ServerDev.Handler | mux.go:87-107 | Registers the handler wrapped in every middleware in registration order, and lists the pattern as "dynamic"; nothing else changes. |
| Mux.ServerDev.WithBuildError | mux.go:320-325 | A nil error changes nothing; any other is joined in. |
| Mux.ServerDev.Hostname | mux.go:343-348 | "http://localhost" then the address without TLS; "https://" then the server name with TLS. |
| Mux.ServerDev.RobotsTxt | mux.go:350-359 | An existing `/robots.txt` entry is kept as it is. Otherwise it is registered as a page and listed. Afterwards it is always present. |
| Mux.ServerDev.Stats | mux.go:237-250 | Exactly one line per registered pattern, and only those lines, in the `Stats` order; each line occurs as often as there are patterns that give it. |
| Mux.New | mux.go:41-45 | A fresh server with the defaults and `SaneHeaders` registered after `interpretPanicsAsError`. |
| Mux.NewServerLayers | mux.go:41-45 | On a new server a handler runs inside `interpretPanicsAsError`, inside `SaneHeaders`. |
| Extension.TagFor | extension.go:75 | The tag of the kind with the URL in both places; for a kind without a tag, the `%!(EXTRA …)` text `Sprintf` writes. |
| Extension.ByExtension | extension.go:42-48 | The nested loops build a table in which an extension is listed exactly when some kind lists it, and maps to a kind that lists it. |
| Extension.InvertsDisjoint | extension.go:42-48 | When no extension is listed twice, every listed extension maps to its own kind, whatever order the loops take. |
| Extension.FiletypesDisjoint | env.go:26-30 | `Filetypes` lists each extension once. |
| Extension.FiletypesTagged | env.go:26-35 | Every kind reachable from `Filetypes` has a tag template. |
| Extension.ExtShape | extension.go:66 | `filepath.Ext` gives a suffix that starts at the last "." and holds no "/"; it is empty exactly when every "." is followed by a "/". |
| Extension.ExtOfSuffix | extension.go:66 | A path ending in "." and a name with no dot and no slash has that ending as its extension. |
| Extension.FuncTable.constructor | extension.go:24 | A function table with the given entries. |
| Extension.ApplyFuncMap | extension.go:26-31 | Every function of the map is set under its name, the others stay, and the error is nil. |
| Extension.ExtensionFile.constructor | extension.go:35-40 | Nothing queued, nothing published, the given table. |
| Extension.ExtensionFile.Url | extension.go:111-116 | A cached file gives its stored URL with `cached`. Any other gives "/mono/file/" + hash + extension without it. State is never changed. |
| Extension.ExtensionFile.File | extension.go:56-76 | A stat error is returned as it is. An unknown extension is an error and queues nothing. Otherwise the file's tag is returned, and the file is queued exactly when it is not cached. |
| Extension.ExtensionFile.Apply | extension.go:56-78 | Registers the `file` function, keeps the other functions, and returns nil. |
| Extension.NewExtensionFile | extension.go:42-54 | Empty queue and cache, and the extension-to-kind table inverted from `Filetypes`. |
| Extension.PhotoIsImage | extension.go:42-48 | ".png" maps to "img" in a fresh extension. |
| MdScan.CodeBody | md.go:19-25 | The default code transform never lengthens its input; its meaning is proved in `MdProps.CodeBodyBetweenBreaks` and `MdProps.CodeBodyEmpty`. |
| MdScan.SmallerWindow | md.go:166 | `smallerWindow` is a suffix of the window. |
| MdScan.GenericPrepare | md.go:146-166 | Defaults filled in so that the closing trigger fits the window. |
| MdScan.GenericCloseActions | md.go:187-200 | The two actions of a close lie within the characters seen. |
| MdScan.GenericSwitch | md.go:168-203 | The scanner state stays valid and every action lies within the characters seen. |
| MdScan.GenericNext | md.go:145-204 | The scanner state stays valid and every action lies within the characters seen. |
| MdScan.SelectTransformation | md.go:241-244 | The template under the hint if registered, otherwise the one under "default", otherwise none. |
| MdScan.CodeNext | md.go:214-253 | The code scanner state stays valid and every action lies within the characters seen. |
| MdScan.LinkNext | md.go:267-310 | The link scanner state stays valid and every action lies within the characters seen. |
| MdScan.TagNext | md.go:124-126 | The dispatch keeps the scanner's kind and validity, and keeps every action within the characters seen. |
| MdScan.GenericInitOk | md.go:30-81 | A generic scanner configured as in the catalog starts valid. |
| MdScan.LineTags | md.go:34-68 | The five line-anchored entries, each valid at the start. |
| MdScan.BlockTags | md.go:16-68 | The seven entries before the link scanner, each valid at the start. |
| MdScan.InlineTags | md.go:69-81 | The link and emphasis entries, each valid at the start. |
| MdScan.Catalog | md.go:15-82 | Eleven entries, each valid at the start. |
| MdTags.MarkdownGenericTag.constructor | md.go:128-143 | The object's fields hold the given scanner state. |
| MdTags.MarkdownGenericTag.Prepare | md.go:146-166 | The fields are updated as `GenericPrepare` says. |
| MdTags.MarkdownGenericTag.Next | md.go:145-204 | The fields and the answer are those of `GenericNext`, with the line-start flag updated last, as the deferred call does. |
| MdTags.MarkdownGenericTag.Switch | md.go:168-203 | The fields and the answer are those of `GenericSwitch`. |
| MdTags.MarkdownTagCode.constructor | md.go:206-212 | The object's fields hold the given scanner state. |
| MdTags.MarkdownTagCode.Next | md.go:214-253 | The fields and the answer are those of `CodeNext`. |
| MdTags.MarkdownTagLink.constructor | md.go:255-265 | The object's fields hold the given scanner state. |
| MdTags.MarkdownTagLink.Next | md.go:267-310 | The fields and the answer are those of `LinkNext`, with the two-character window in an array. |
| MdTags.NewTag | md.go:15-82 | A fresh scanner object in the state a catalog entry gives it. |
| MdTags.Next | md.go:124-126 | `MarkdownTag.Next` updates the scanner and answers as `TagNext` says. |
| MdSpec.Unclaimed | md.go:93-95 | The three tables as allocated, each as long as the document. |
| MdSpec.MarkRange | md.go:323-325 | The indices of `[from, to)` are set and every other entry is kept. |
| MdSpec.Record | md.go:322-347 | Recording one action keeps the tables and the running span well formed. |
| MdSpec.RecordAll | md.go:321-348 | Recording one answer keeps the tables and the running span well formed. |
| MdSpec.CloseFold | md.go:349-353 | Marking the span of a block answer keeps the tables well formed. |
| MdSpec.Step | md.go:315-353 | One step keeps the tables well formed and the scanner valid. |
| MdSpec.Scan | md.go:314-354 | One scanner run keeps the tables well formed and the scanner valid. |
| MdSpec.ApplyTags | md.go:312-357 | The catalog pass keeps the tables well formed. |
| MdSpec.RunEnd | md.go:365-370 | The first index at or after `to` where a run ends (block content or a "\n\n" pair), or the end of the document; no earlier index in between ends it. |
| MdSpec.Paragraphs | md.go:359-391 | The paragraph pass keeps both tables as long as the document. |
| MdSpec.InsertDesc | md.go:104 | Insertion adds exactly one action. |
| MdSpec.SortDesc | md.go:104 | The sort is a permutation. |
| MdSpec.Tables | md.go:93-100 | The tables the render reads are as long as the document. |
| MdEngine.Mark | md.go:350-352 | The array afterwards is `MarkRange` of its old contents. |
| MdEngine.ApplyActions | md.go:319-353 | The tables afterwards are what `RecordAll` and `CloseFold` give. |
| MdEngine.StepAt | md.go:315-353 | Tables and scanner afterwards are `Step` of their old values. |
| MdEngine.ScanTag | md.go:314-354 | Tables and scanner afterwards are `Scan` over the whole document. |
| MdEngine.ApplyTagList | md.go:313-355 | The tables afterwards are `ApplyTags` over the list of scanners. |
| MdEngine.ApplyTags | md.go:312-357 | The tables afterwards are `ApplyTags` over the catalog. |
| MdEngine.ExtendRun | md.go:365-371 | Stops at `RunEnd` and marks every index of the run but its last. |
| MdEngine.WrapRun | md.go:361-389 | One run of the pass, as `Paragraphs` states, continuing past the run. |
| MdEngine.ApplyParagraphs | md.go:359-391 | The tables afterwards are `Paragraphs` of the old ones. |
| MdEngine.AppendInsertions | md.go:105-107 | Appends the insertions of the actions in order. |
| MdEngine.Render | md.go:102-112 | The loop yields `RenderedBody` of the stored actions. |
| MdEngine.Markdown | md.go:89-114 | The output is `Rendered(data)`. |
| MdProps.SortDescSorted | md.go:104 | The stable sort orders by descending index and loses no action. |
| MdProps.SortDescKeepsEqualIndices | md.go:104 | Actions that share one index keep their order. |
| MdProps.TablesAnchored | md.go:334-347 | Every action the render reads is queued at its own index. |
| MdProps.RenderedInQueuedOrder | md.go:102-113 | The output is `<div>\n` + body + `\n</div>`. The body prints, index by index, the insertions in queue order and then the character unless it is claimed. |
| MdProps.RenderedEmpty | md.go:113 | The empty document renders as `<div>\n\n</div>`. |
| MdProps.RecordAllClaimsExactly | md.go:322-327 | Recording an answer claims exactly the indices its ranges cover, plus what was claimed before. |
| MdProps.RecordAllSpan | md.go:326-332 | The span grows to cover every range; the block flag says whether any action is block content. |
| MdProps.StepClaims | md.go:315-327 | A step claims nothing after the index it feeds, and claims only grow. |
| MdProps.ScanGrows | md.go:314-354 | A scanner run only adds claims, block marks and queued actions. |
| MdProps.ScanKeepsLaterClaims | md.go:314-327 | A run over the first `k` indices claims nothing at or after `k`. |
| MdProps.ApplyTagsGrows | md.go:312-357 | The catalog pass only adds claims, block marks and queued actions. |
| MdProps.ScanSeesOnlyUnclaimed | md.go:315-317 | Two documents that agree on the unclaimed indices drive a scanner through the same states and claims: a scanner never reads a claimed index. |
| MdProps.GenericEmitsOnClose | md.go:173-200 | A generic scanner answers exactly when an open construct closes on a closing trigger (the same variant when there are several). It then answers with the opening insertion over the opening trigger and the closing insertion over the closing trigger. |
| MdProps.GenericEscape | md.go:169-172 | A backslash, and the character after it, neither open nor close and emit nothing; the backslash is not claimed. |
| MdProps.LineAnchoredOpen | md.go:152-159 | A line-anchored scanner opens only when no white space other than a line break was seen since the last line break. |
| MdProps.LineAnchoredClosesAtBreak | md.go:177-200 | An open heading or blockquote closes at the next line break and claims it; the closing insertion ends in "\n". |
| MdProps.CodeEmitsOnClosingFence | md.go:236-250 | The code scanner answers exactly when, in a body, the window becomes a fence. It answers with one block action from the opening fence through the closing one, carrying the template selected by the hint. |
| MdProps.CodeBodyBetweenBreaks | md.go:19-25 | The default transform keeps exactly the text between the first and the last line break. |
| MdProps.CodeBodyEmpty | md.go:21-23 | With at most one line break the body is empty. |
| MdProps.LinkParserAnchor | md.go:269-273 | `[hint](url)` becomes the anchor with target `url` and text `hint`, split at the first "](". |
| MdProps.LinkEmitsOnClose | md.go:283-289 | The link scanner answers exactly at the ")" that ends an open link, with one action from "[" through ")". |
| MdProps.LinkAbandons | md.go:300-301 | A "]" not followed by "(" abandons the hint without looking back. |
| MdProps.LinkEscape | md.go:292-295 | Outside a target, the character after a backslash neither opens nor advances a link. |
| MdProps.StepMarksBlocks | md.go:349-353 | After a block answer, every index from its first range start through its last range end is block content. |
| MdProps.ParagraphsOnlyWrap | md.go:359-391 | The pass leaves indices before `from` alone and only adds wrappers, at most one per index, and only at indices that were not block content. |
| MdProps.ParagraphsSkipWhiteSpace | md.go:373-376 | A document of white space gets no wrapper. |
| MdProps.ParagraphPlacement | md.go:360-389 | For any run starting at a non-block index `from` and ending before `to` (one before where the inner loop stops): the run's indices become block content and nothing strictly inside gains an action. An all-white-space run gets no wrapper. Any other run has `from < to`, `<p…>` in front of the actions at `from` and `</p>` after those at `to`. |
| MdProps.ParagraphLeavesLastCharOut | md.go:364-388 | For "ab", `<p>` is queued at 0 and `</p>` at 1, before the last character. |
| MdRuns.StepOnUnclaimed | md.go:315-348 | A step on an unclaimed index feeds the scanner and claims exactly what its answer covers. |
| MdRuns.ScanIsRun | md.go:313-317 | On an unclaimed document, a scan's scanner state is that of the plain run over the prefix, and the claims are those the run's answers cover. |
| MdRuns.NextKeepsOldlineRule | md.go:152-159 | One step updates the line-start flag from its value before, with a reset at index 0. |
| MdRuns.NextKeepsSetup | md.go:145-204 | A step keeps the scanner's configuration. |
| MdRuns.RunKeepsSetup | md.go:145-204 | A run keeps the scanner's configuration. |
| MdRuns.OldlineTracksLine | md.go:152-159 | After a run, the flag says whether white space other than a line break was seen since the last line break. |
| MdRuns.LineAnchoredOpensAtLineStart | md.go:173 | After any text, a line-anchored scanner opens on the next character only if no white space other than a line break came since the last line break or the start. |
| MdRuns.ItalicEntry | md.go:78-81 | The italic entry of the catalog. |
| MdRuns.ItalicPairs | md.go:177-200 | `*a*` closes the construct: both delimiters are claimed and `<i>` and `</i>` are queued. |
| MdRuns.ItalicVariantsDoNotPair | md.go:177 | `*a_` does not close: it stays open and emits nothing. |
| MdRuns.LinkOpenRun | md.go:304-306 | "[" opens a hint at index 0. |
| MdRuns.LinkHintRun | md.go:302-306 | Inside the hint the scanner holds it open and emits nothing. |
| MdRuns.LinkTargetRun | md.go:290 | Inside `[hint](url` the link stays open at index 0 and nothing is emitted. |
| MdRuns.LinkRunClaimsWhole | md.go:283-289 | `[hint](url)` yields one action over the whole text. |
| MdRuns.CodeRunIsTagRun | md.go:214-253 | The code scanner's run is its catalog entry's run. |
| MdRuns.CodeOpeningFence | md.go:226-229 | The opening fence starts a block at index 0 and the hint is read. |
| MdRuns.CodeBodyEnter | md.go:231-233 | The line break after the hint starts the body. |
| MdRuns.CodeBodyRun | md.go:236-239 | Until a fence, the body stays open and nothing is emitted. |
| MdRuns.CodeClosingStep | md.go:240-250 | The backtick that completes a fence closes the block. |
| MdRuns.CodeRunClaimsWhole | md.go:214-253 | A fenced block yields one block action over the whole text, fence to fence. |
| MdWhole.ScanQuiet | md.go:314-354 | A scan during which the scanner answers nothing leaves the tables as they are. |
| MdWhole.ScanAllClaimed | md.go:315-317 | Over a fully claimed document a scan changes nothing. |
| MdWhole.ApplyTagsAfterFirst | md.go:313-317 | Once the first scanner has claimed everything, the others change nothing. |
| MdWhole.ParagraphsAllBlock | md.go:361-363 | A document that is block content throughout gets no wrapper. |
| MdWhole.RenderedOnlyFirst | md.go:102-112 | With every character claimed and only index 0 holding actions, the body is index 0's insertions. |
| MdWhole.RecordWholeSpan | md.go:321-353 | A block transformation over the whole document claims and marks every index and queues its output at index 0. |
| MdWhole.TransformedFencedBlock | md.go:19-26 | The default template's output is the code shell around the body. |
| MdWhole.FencedCodeRun | md.go:214-253 | The code scanner answers nothing until the last backtick, then one block action over the whole text. |
| MdWhole.TaggedCodeBlock | md.go:312-357 | For any scanner list led by the code scanner, the pass claims the document as block content with the code shell queued at index 0. |
| MdWhole.CodeBlockRenders | md.go:89-114 | Such a document renders as the code shell. |
| MdWhole.FencedBlockRendersAsCode | md.go:89-114 | A document that is one fenced block renders as the code shell around exactly its body; nothing inside is escaped or re-rendered. |

## Left out

- Input and output are modelled as pure values. HTTP serving, proxying, response writing, gzip, the `Page` handler body and `SaneHeaders` headers are not part of this model.
- The clock, the process environment, `isDocker`, `isAuthed`, `os.Stat`, the file hash and the `Page` listing text are parameters.
- TLS and certificate management are not part of this model; only the domain list is.
- Concurrency is not modelled: `markdownLock`, the limiter and extension mutexes, and the read-write locks of `serverDev` and `SimpleAuth`.
- `RpsLimiterGlobal` and its cleaning goroutine are not part of this model.
- Cookie and JSON handling (`isAuthed`, `HandleLogin`) and password hashing are not part of this model.
- `sizeof` works on floating point and is not part of this model.
- `extensionFile.SideEffects` reads files and writes the published pages; it is not part of this model.
- `MdEngine.Markdown`: it has no error path. Template evaluation is modelled as the two string functions it computes, so `html/template` escaping and execution errors are not modelled.
- `MdEngine.Markdown`: each call runs every scanner from the state its catalog entry gives it. In the source, scanner state lives in package variables and carries over between calls.
- `MdEngine.Markdown`: a document is a sequence of single-byte characters, so byte offsets and positions coincide; multi-byte UTF-8 is not modelled.
- The generic scanner's `Transformation` field and its branch (md.go:179-185) are left out, because no catalog entry sets it.
- `Common.ToLower`: only ASCII letters are mapped; Unicode case mapping is not modelled.
- `Extension.Ext`: only "/" separates path elements (the Unix `filepath`).
- `Handlers.Context.SetEnv`: requires an even number of arguments. The source fails on the last, one-element chunk, and that failure is not modelled.
- `Middleware.RpsLimiterClients.Rate`: requires the count map to exist, which `Apply` guarantees before the handler can call `rate`. The nil-map write of a limiter used without `Apply` is not modelled.
- `Middleware.RpsLimiterClients.Serve`: requires the 429 handler to be set, which `Apply` guarantees.
- `Middleware.NextCleansSorted`: time is an unbounded integer, so the overflow of `now + timeout` in `time.Time` is not modelled.
- `Mux.ServerDev.Handler`: the per-request context with its timeout and the 500 response on error are not modelled; only the wrapping and the registration are.
- `Mux.ServerDev.Stats`: returns the sorted lines; the `println` of the joined listing (mux.go:248) is output and is not modelled.
- `Mux.ServerDev.RobotsTxt`: the registration through `Page` is modelled as a plain listing entry, and the page itself is not built.
- `Auth.AuthRoute`: the built-in unauthorized handler answers status 401 with the text "403 unauthorized". This is kept as written in `Auth.UnauthorizedText`.
- The h3 and h4 catalog entries close with `</h2>\n` as written (md.go:38, md.go:45), and the model keeps that.

## Findings

| source | as written | input that shows it | evidently intended | confidence | as-written member | corrected member |
|---|---|---|---|---|---|---|
| https.go:103-105 | a domain without "www." is appended a second time as it is | `["example.com"]` gives `["example.com", "example.com"]` | its "www." form is appended: `["example.com", "www.example.com"]` | not executed | Https.AsWrittenRepeatsDomain | Https.WithWwwCoversWww |
| auth.go:112 | the unauthorized handler runs when `authed(req)` is true | prefix "/A", path "/a", `authed` true: refused; `authed` false: served | refuse exactly when `authed(req)` is false | not executed | Auth.AuthAsWrittenRefusesAuthed | Auth.AuthRoute |
