# A.R.G.U.S. network filter — a Dafny model of its core

A.R.G.U.S. is a filtering proxy built on mitmproxy. This project models the
parts that decide and record what is blocked:

- **Filter addon** (`src/filter_addon.py`). For every request it checks the
  lower-cased host against the blocked domains. It then checks the
  lower-cased URL against the blocked keywords, using substring
  containment. A blocked request gets a 403 block page that shows the
  HTML-escaped URL and the reason. Every response is logged, flagged as
  blocked when its status is 403.
- **Filter manager** (`src/monitor.py`). It holds the two rule sets, the
  toggle and the logs. It reads the rule files (one rule per line;
  comments, blank lines and whitespace dropped; lower-cased). It writes the
  rule files (sorted, one rule per line). It reports its status and the
  24-hour dashboard statistics.
- **Web API** (`src/web_interface.py`). `manage_rules` lists the rules of
  one type, or replaces them and saves them. `set_filtering_status`
  switches filtering on or off.
- **Dashboard script** (`static/js/dashboard.js`). `escapeHtml`, the
  textarea join and split that show and send the rules, and the `?? 'N/A'`
  defaults of the statistics panel.

Modules, one per file:

| module | models |
|---|---|
| `Wrappers` | `Option` |
| `Text` | Python `str.strip` / JavaScript `trim` whitespace, ASCII `lower()`, `in` on strings, `str.replace` of one character |
| `Ordering` | Python's ordering of strings and `sorted(list(s))` on a set |
| `RuleFile` | the rule-file format: line splitting, the reader's filter and normal form, the writer |
| `Http` | stand-ins for mitmproxy's request, response and flow |
| `Monitor` | `NetworkFilterManager` as a class; the file system is a `map` from path to content |
| `Stats` | `get_dashboard_stats` over in-memory copies of the two tables |
| `Escaping` | chains of one-character replacements and their per-character meaning |
| `FilterAddon` | `NetworkMonitorAddon` as a class, the block decision, the block-page URL escape |
| `JsonData` | parsed JSON bodies and Python's `key in data` / `data[key]` on them |
| `WebInterface` | the two handlers, as methods on the manager |
| `Dashboard` | `escapeHtml`, `split`/`filter`/`join` of the rule editor, the statistics defaults |
| `Scenarios` | example behaviours of the filter, played through the model |

Rule sets are Dafny sets. `_should_block` iterates them in an order Python
does not specify. The model picks elements with `:|`, so every property of
the decision holds for every iteration order.

## Model

| member | source | states |
|---|---|---|
| `Text.PyIsSpace` | src/monitor.py:48 | defines the characters `str.isspace()` accepts, the ones `strip()` removes; compared with JavaScript's by `Dashboard.ZeroWidthRuleDroppedByEditor` |
| `Text.JsIsSpace` | static/js/dashboard.js:105 | defines ECMAScript's WhiteSpace and LineTerminator, the ones `trim()` removes; stated by `Dashboard.BlankIsAllSpace` |
| `Text.Trim` | src/monitor.py:48 | defines removal of whitespace at both ends, shared by `strip()` and `trim()`; stated by `Text.TrimSpec` and `Text.TrimFixed` |
| `Text.PyStrip` | src/monitor.py:48 | defines Python's `str.strip()` over the whitespace of `str.isspace()`; its meaning is stated by `Text.TrimSpec` |
| `Text.Lower` | src/monitor.py:50 | defines `str.lower()` character by character on ASCII letters; stated by `Text.LowerCharFacts` |
| `Text.Contains` | src/filter_addon.py:47 | defines Python's `in` on strings; stated in both directions by `Text.ContainsAt` and `Text.ContainsOffset` |
| `Text.ReplaceChar` | src/filter_addon.py:59 | defines `replace` of one character; stated by `Text.ReplaceCharAppend` and `Escaping.ReplaceChainPerChar` |
| `Monitor.ReadFile` | src/monitor.py:45-46 | defines `file_path.exists()` followed by the read: the contents, or nothing for a missing file; used by `LoadRulesFromFile` |
| `Monitor.RuleKind.Path` | src/web_interface.py:90 | defines the file each rule type is saved to; used by `WebInterface.ManageRules` |
| `RuleFile.Lines` | src/monitor.py:46-47 | defines the lines `for line in f` yields; stated by `RuleFile.LinesSingle`, `RuleFile.LinesBeforeBreak`, `RuleFile.LinesAreSingle` and `RuleFile.LinesOfWriteItems` |
| `RuleFile.Kept` | src/monitor.py:49 | defines the test `line and not line.startswith('#')` after stripping; stated by `RuleFile.WellFormedIsNormal` |
| `RuleFile.Normalise` | src/monitor.py:48-50 | defines `line.strip().lower()`; stated by `RuleFile.NormaliseWellFormed` |
| `RuleFile.ParseLines` | src/monitor.py:47-50 | defines the set the line loop builds; stated by `RuleFile.ParseLinesHas`, `RuleFile.ParseLinesSource` and `RuleFile.ParseLinesBound` |
| `RuleFile.LoadRules` | src/monitor.py:44-50 | defines what loading a file (or a missing one) gives; stated by `RuleFile.LoadRulesWellFormed` and `RuleFile.LoadSaveLoad` |
| `RuleFile.WriteItems` | src/monitor.py:57-58 | defines the text written for a list of items; stated by `RuleFile.WriteItemsSnoc` and `RuleFile.LinesOfWriteItems` |
| `RuleFile.Serialise` | src/monitor.py:56-58 | defines the file written for a set; stated by `RuleFile.SaveThenLoad` |
| `Monitor.NetworkFilterManager.RulesNormal` | src/filter_addon.py:46-51 | defines the state invariant that every rule the decision consults is non-empty, stripped and lower-case; kept by the constructor, `LoadAllRules`, `LoadRulesFromFile` and `WebInterface.ManageRules` |
| `Http.HttpResponse.StatusCode` | src/filter_addon.py:26-37 | defines `flow.response.status_code`: an upstream response keeps its own code, the injected block page has 403; used by `Response` for the blocked flag |
| `Http.ClientIp` | src/filter_addon.py:22 | defines the client address or "unknown"; used by `Request` and `Response` |
| `FilterAddon.ReasonText` | src/filter_addon.py:46-53 | defines the two reason strings `Blocked Domain: …` and `Blocked Keyword: '…'`; used by `Request` |
| `FilterAddon.EmptyRuleMatchesEveryHost` | src/filter_addon.py:46-47 | an empty domain rule occurs in every host, so it would block everything |
| `FilterAddon.NormalRulesSkipEmpty` | src/filter_addon.py:46-53 | with the manager's rules in normal form no rule is empty, so no domain rule occurs in an empty host and no keyword in an empty URL |
| `FilterAddon.Justified` | src/filter_addon.py:45-55 | defines which decisions the two loops can return; stated by `ShouldBlock` and `VerdictIsDetermined` |
| `FilterAddon.EscapeUrl` | src/filter_addon.py:59 | defines the three chained replacements; stated by `FilterAddon.EscapeUrlSafe` and `FilterAddon.EscapeUrlIsPerChar` |
| `Stats.Since` | src/monitor.py:88-99 | defines the rows of the `timestamp >= ?` window; stated by `Stats.SinceSpec` and `Stats.SinceAppend` |
| `Stats.Traffic` | src/monitor.py:98-100 | defines `SUM(response_size) ... or 0`; stated by `Stats.TrafficAppend` and `Stats.TrafficConcat` |
| `Stats.RecentBlocks` | src/monitor.py:103-105 | defines the ten newest block rows, newest first; stated by `Stats.RecentBlocksSpec` |
| `WebInterface.KindOf` | src/web_interface.py:87-91 | defines the accepted rule types; used by `WebInterface.ManageRules` |
| `WebInterface.NormaliseRules` | src/web_interface.py:101 | defines the comprehension's set; stated by `WebInterface.NormalisedRuleShape` and `WebInterface.RepostIsIdentity` |
| `WebInterface.ClassifyPost` | src/web_interface.py:97-101 | defines what a POST body leads to; used by `WebInterface.ManageRules` |
| `Dashboard.EscapeHtml` | static/js/dashboard.js:122-128 | defines the five chained replacements; stated by `Dashboard.EscapeHtmlSafe` and `Dashboard.EscapeHtmlLength` |
| `Dashboard.JoinLines` | static/js/dashboard.js:99 | defines `join('\n')`; stated by `Dashboard.JoinSplit` and `Dashboard.SplitJoin` |
| `Dashboard.RulesFromTextarea` | static/js/dashboard.js:105 | defines the rules `saveRules` sends; stated by `Dashboard.SavedRulesAreLines` and `Dashboard.TextareaRoundTrip` |
| `Dashboard.TextareaFromRules` | static/js/dashboard.js:99 | defines the text `loadRules` shows; stated by `Dashboard.TextareaRoundTrip` |
| `Dashboard.Shown` | static/js/dashboard.js:48-50 | defines `value ?? 'N/A'`; stated by `Dashboard.DashboardFigures` |
| `Dashboard.BlockRowJson` | src/monitor.py:113 | defines `dict(row)` of one block row, the four selected columns; used by `Dashboard.StatsJson` |
| `Dashboard.StatsJson` | src/monitor.py:109-114 | defines the dictionary the statistics endpoint returns; stated by `Dashboard.DashboardFigures` |
| `FilterAddon.NetworkMonitorAddon.constructor` | src/filter_addon.py:8-9 | the addon works on the filter manager it was given |
| `FilterAddon.NetworkMonitorAddon.ShouldBlock` | src/filter_addon.py:40-55 | over the lower-cased host and URL: a reported domain is a rule contained in the host; a reported keyword is a rule contained in the URL, and only when no domain rule matches; no block only when no rule of either kind matches |
| `FilterAddon.VerdictIsDetermined` | src/filter_addon.py:45-55 | only the reported rule depends on iteration order; whether the request is blocked, and by which kind of rule, does not; a matching domain always takes precedence over any keyword |
| `FilterAddon.NetworkMonitorAddon.Request` | src/filter_addon.py:11-31 | filtering disabled: nothing happens; otherwise the decision is the one `ShouldBlock` justifies; blocked: exactly one block event (client IP or "unknown", URL, reason text) is appended, and the response becomes the 403 page with the escaped URL and the reason; allowed: flow and logs unchanged |
| `FilterAddon.NetworkMonitorAddon.Response` | src/filter_addon.py:33-38 | exactly one request event is appended, flagged blocked exactly when the status is 403 |
| `FilterAddon.BlockedRequestIsLoggedBlocked` | src/filter_addon.py:11-38 | a request whose host contains a domain rule gets one block event, and one request event flagged blocked |
| `FilterAddon.EscapeUrlSafe` | src/filter_addon.py:59 | the escaped URL holds no `<` or `>`; every `&` in it begins `&amp;`, `&lt;` or `&gt;`; decoding those entities gives back the URL |
| `FilterAddon.EscapeUrlIsPerChar` | src/filter_addon.py:59 | the three chained replacements act character by character: `&`, `<`, `>` become their entities, everything else stays |
| `FilterAddon.EscapeUrlCharIsChain` | src/filter_addon.py:59 | each character's entity is exactly what the replacement chain makes of it (the `&` step runs first, so no entity is escaped twice) |
| `FilterAddon.UnescapeEscapedUrl` | src/filter_addon.py:59 | the per-character escape is injective: decoding inverts it |
| `FilterAddon.EscapeUrlCharShape` | src/filter_addon.py:59 | one character becomes itself (not `&`) or one of the three entities, never `<` or `>` |
| `FilterAddon.UrlEntitiesAreEntities` | src/filter_addon.py:59 | each replacement starts with `&` and holds no other `&` |
| `Monitor.NetworkFilterManager.constructor` | src/monitor.py:12-33 | both rule sets are what their files load to; no allowed IPs; filtering enabled; empty logs; every rule is in normal form |
| `Monitor.NetworkFilterManager.LoadAllRules` | src/monitor.py:35-39 | the domain set and the keyword set are each replaced by what their own file loads to, so every rule is in normal form |
| `Monitor.NetworkFilterManager.LoadRulesFromFile` | src/monitor.py:42-51 | the target set becomes exactly the set its file loads to (empty for a missing file), all in normal form; the other set is untouched |
| `Monitor.NetworkFilterManager.SaveRulesToFile` | src/monitor.py:53-63 | result is True exactly when the file could be opened; then the file holds the rules sorted, one per line; on failure no file changes |
| `Monitor.NetworkFilterManager.AddRule` | src/monitor.py:50 | the target set gains exactly the rule; the other set is untouched |
| `Monitor.NetworkFilterManager.ClearRules` | src/monitor.py:44 | the target set becomes empty; the other set is untouched |
| `Monitor.NetworkFilterManager.UpdateRules` | src/web_interface.py:101 | the target set gains exactly the given rules; the other set is untouched |
| `Monitor.NetworkFilterManager.GetStatus` | src/monitor.py:65-73 | the toggle and the sizes of the three sets |
| `Monitor.NetworkFilterManager.LogBlockedRequest` | src/filter_addon.py:23 | exactly one block event with the given fields is appended |
| `Monitor.NetworkFilterManager.LogRequest` | src/filter_addon.py:38 | exactly one request event with the given fields is appended |
| `RuleFile.LinesAreSingle` | src/monitor.py:46-47 | no line the reader yields holds a line break |
| `RuleFile.LinesSingle` | src/monitor.py:46-47 | a non-empty text without a line break is one line, even without a final terminator |
| `RuleFile.LinesBeforeBreak` | src/monitor.py:46-47 | a line followed by a terminator and more text is the first line, followed by the lines of the rest |
| `RuleFile.ParseLinesBound` | src/monitor.py:47-50 | the loop never yields more rules than there are lines |
| `RuleFile.ParseLinesHas` | src/monitor.py:47-50 | the normal form of every kept line is in the loaded set |
| `RuleFile.ParseLinesSource` | src/monitor.py:47-50 | every loaded rule is the normal form of some kept line |
| `RuleFile.ParseLinesWellFormed` | src/monitor.py:48-50 | every rule read from single lines is non-empty, stripped, lower-case, not a comment and a single line |
| `RuleFile.LoadRulesWellFormed` | src/monitor.py:42-51 | a missing file loads no rules; every loaded rule is well formed |
| `RuleFile.WellFormedIsNormal` | src/monitor.py:48-50 | a well-formed rule passes the reader's filter and is its own normal form |
| `RuleFile.NormaliseWellFormed` | src/monitor.py:48-50 | the normal form of a kept single line is well formed |
| `RuleFile.WriteItemsSnoc` | src/monitor.py:57-58 | each write appends the rule and a newline to what was written so far |
| `RuleFile.LinesOfWriteItems` | src/monitor.py:56-58 | reading back single-line items written one per line gives the items |
| `RuleFile.SaveThenLoad` | src/monitor.py:42-63 | a set of well-formed rules, saved and loaded again, is the same set |
| `RuleFile.LoadSaveLoad` | src/monitor.py:42-63 | saving a loaded set and loading it again gives the same set: reloads are idempotent |
| `Ordering.SortedElems` | src/monitor.py:57 | the listing has as many entries as the set has elements |
| `Ordering.SortedElemsSpec` | src/monitor.py:57 | the listing holds exactly the set's elements, in strictly ascending order |
| `Ordering.SortedElemsUnique` | src/web_interface.py:94 | any strictly ascending listing of exactly the set's elements is the sorted one |
| `Ordering.LexLe` | src/monitor.py:57 | defines Python's `<=` on strings (code point by code point, a prefix first); stated by `Ordering.LexLeReflexive`, `Ordering.LexLeTotal`, `Ordering.LexLeAntisymmetric` and `Ordering.LexLeTransitive` |
| `Ordering.LexLt` | src/web_interface.py:94 | defines the strict order `sorted` produces; stated by `Ordering.SortedElemsSpec` |
| `Ordering.Least` | src/monitor.py:57 | a non-empty set has an element below or equal to all others |
| `Ordering.LexLeReflexive` | src/monitor.py:57 | every string is ordered before or equal to itself |
| `Ordering.LexLeTotal` | src/monitor.py:57 | any two strings are comparable |
| `Ordering.LexLeAntisymmetric` | src/monitor.py:57 | strings ordered both ways are equal |
| `Ordering.LexLeTransitive` | src/monitor.py:57 | the order is transitive |
| `Text.TrimSpec` | src/monitor.py:48 | strip returns the slice of the input that starts after its leading whitespace; everything before and after that slice is whitespace; it is empty exactly when the input is all whitespace, and otherwise neither starts nor ends with whitespace |
| `Text.TrimFixed` | src/monitor.py:48 | strip leaves a string alone when it neither starts nor ends with whitespace |
| `Text.LowerCharFacts` | src/monitor.py:50 | lower-casing is idempotent, keeps whitespace and non-whitespace apart, yields `#` only from `#`, and makes no line break out of another character |
| `Text.ContainsAt` | src/filter_addon.py:47 | a pattern that starts at some offset of the text is `in` the text |
| `Text.ContainsOffset` | src/filter_addon.py:47 | a pattern that is `in` the text starts at some offset of it |
| `Text.ReplaceCharAppend` | src/filter_addon.py:59 | replacing one character works piecewise over a concatenation |
| `Escaping.ReplaceChainPerChar` | src/filter_addon.py:59 | a chain of replacements equals the character-by-character translation it induces |
| `Escaping.ReplaceChainSingle` | static/js/dashboard.js:123-128 | a character becomes the replacement of the first step that targets it, when no later step targets a character of that replacement |
| `Escaping.ReplaceChainUntouched` | static/js/dashboard.js:123-128 | text none of whose characters any step targets passes through unchanged |
| `Escaping.FlatMapEntities` | static/js/dashboard.js:123-128 | when every character becomes itself (not `&`) or an entity, every `&` of the output begins an entity |
| `Escaping.FlatMapAvoids` | static/js/dashboard.js:123-128 | a character no translation produces is absent from the output |
| `Stats.GetDashboardStats` | src/monitor.py:75-119 | the empty dictionary exactly when there is no connection or a query raises; otherwise the counts cover at most all rows, and the recent list has at most ten entries |
| `Stats.SinceSpec` | src/monitor.py:85-95 | the windowed rows are exactly the rows with timestamp at or after now minus 24 hours |
| `Stats.SinceAppend` | src/monitor.py:88-95 | a new row extends the window by itself exactly when it falls inside it |
| `Stats.TrafficAppend` | src/monitor.py:98-100 | a new row adds its size, or nothing for NULL, to the sum |
| `Stats.TrafficConcat` | src/monitor.py:98-100 | the sum over two runs of rows is the sum of their sums |
| `Stats.WindowTrafficBound` | src/monitor.py:98-100 | the traffic in the window never exceeds the traffic of all rows |
| `Stats.ReverseIndex` | src/monitor.py:104 | the descending list holds the rows in reverse position |
| `Stats.RecentBlocksSpec` | src/monitor.py:103-105 | on rows written in time order: up to ten rows, newest first, the last rows written, and no row left out is newer than a row shown |
| `Stats.StatsAfterRequest` | src/monitor.py:88-100 | a request inside the window adds one to the count and its size to the traffic; an older one changes neither |
| `Stats.StatsAfterBlock` | src/monitor.py:93-105 | a block inside the window adds one to the blocked count, and the newest block heads the recent list |
| `JsonData.LookupKey` | src/web_interface.py:98 | the value is found exactly on an object holding the key; on a list it raises exactly when the list holds the key as a string, on a string exactly when the string contains the key; on an object it never raises; on null, booleans and numbers `key in data` raises |
| `WebInterface.StringEntries` | src/web_interface.py:101 | the entries are returned exactly when every one is a string, in order |
| `WebInterface.ManageRules` | src/web_interface.py:86-106 | unknown type: 404, nothing changes; GET: the sorted listing, nothing changes; POST with a list of strings: the set becomes their normal forms, the file is rewritten unless it cannot be opened, success; POST with a non-string entry: the set is left empty and 500; no `rules` list: 400, nothing changes; the other set is never touched; rules in normal form stay in normal form |
| `WebInterface.SetFilteringStatus` | src/web_interface.py:76-83 | a boolean `enabled` becomes the toggle and is echoed; anything else leaves the toggle and answers 400, or 500 when the lookup raises: `in` on null, a boolean or a number, or `data['enabled']` on a list holding `"enabled"` or a string containing it |
| `WebInterface.NormalisedRuleShape` | src/web_interface.py:101 | every rule the API stores is non-empty, stripped and lower-case |
| `WebInterface.NormalFormFixed` | src/web_interface.py:101 | a stored rule is its own normal form |
| `WebInterface.RepostIsIdentity` | src/web_interface.py:93-101 | posting back the listing a GET returned leaves the set unchanged |
| `WebInterface.PostedRulesSurviveReload` | src/web_interface.py:101-102 | single-line, non-comment rules posted and saved load back as the same set after a restart |
| `WebInterface.CommentRuleLostOnReload` | src/web_interface.py:101-102 | the API stores a rule `#ads`, but the file written for it loads back as no rules |
| `WebInterface.RulesArray` | static/js/dashboard.js:110 | the JSON list sent for a sequence of rules reads back as that sequence of strings |
| `WebInterface.PostThenGet` | src/web_interface.py:93-105 | after a POST, a GET lists exactly the normal forms of the posted rules, strictly ascending |
| `WebInterface.ToggleThenStatus` | src/web_interface.py:76-83 | the status then reports the value set; a non-boolean `enabled` is refused and changes nothing |
| `Dashboard.EscapeHtmlSafe` | static/js/dashboard.js:122-128 | the output holds none of `<`, `>`, `"`, `'`; every `&` begins one of the five entities; decoding gives back the input |
| `Dashboard.EscapeHtmlIsPerChar` | static/js/dashboard.js:122-128 | the five chained replacements act character by character |
| `Dashboard.EscapeHtmlCharIsChain` | static/js/dashboard.js:122-128 | each character's entity is exactly what the chain makes of it |
| `Dashboard.EscapeHtmlCharShape` | static/js/dashboard.js:122-128 | one character becomes itself (not `&`) or one of the five entities, never a markup character |
| `Dashboard.HtmlEntitiesAreEntities` | static/js/dashboard.js:124-128 | each replacement starts with `&` and holds no other `&` |
| `Dashboard.UnescapeEscapedHtml` | static/js/dashboard.js:122-128 | decoding inverts the per-character escape |
| `Dashboard.PerCharLength` | static/js/dashboard.js:122-128 | the per-character escape grows the text by four per `&`, three per `<` or `>`, five per quote |
| `Dashboard.EscapeHtmlLength` | static/js/dashboard.js:122-128 | the escaped text's length is the input's plus that growth |
| `Dashboard.EscapeHtmlPlain` | static/js/dashboard.js:122-128 | text without the five special characters is returned unchanged |
| `Dashboard.SplitLines` | static/js/dashboard.js:105 | a split always yields at least one piece |
| `Dashboard.JoinSplit` | static/js/dashboard.js:105 | joining the pieces of a split with newlines gives back the text |
| `Dashboard.SplitJoin` | static/js/dashboard.js:99 | splitting newline-free pieces joined with newlines gives back the pieces |
| `Dashboard.SplitLine` | static/js/dashboard.js:105 | a text without a newline splits into itself |
| `Dashboard.SplitBeforeNewline` | static/js/dashboard.js:105 | a newline-free prefix followed by a newline is the first piece |
| `Dashboard.SplitPiecesAreLines` | static/js/dashboard.js:105 | no piece of a split holds a newline |
| `Dashboard.KeepNonBlank` | static/js/dashboard.js:105 | the filter keeps no more pieces than it is given, and none of them blank |
| `Dashboard.KeepNonBlankMembers` | static/js/dashboard.js:105 | the filter keeps exactly the pieces whose `trim()` is not empty |
| `Dashboard.KeepNonBlankAppend` | static/js/dashboard.js:105 | the filter works piecewise over a concatenation, so kept pieces keep their order and their repeats |
| `Dashboard.KeepNonBlankOne` | static/js/dashboard.js:105 | one piece is kept, unchanged, exactly when it is not blank |
| `Dashboard.KeepAllNonBlank` | static/js/dashboard.js:105 | pieces that are all non-blank are all kept, in order |
| `Dashboard.IsBlank` | static/js/dashboard.js:105 | defines `r.trim() === ''`; stated by `Dashboard.BlankIsAllSpace` |
| `Dashboard.BlankIsAllSpace` | static/js/dashboard.js:105 | a piece is blank exactly when every character is JavaScript whitespace |
| `Dashboard.SavedRulesAreLines` | static/js/dashboard.js:105 | every rule the editor sends is one line and not all whitespace |
| `Dashboard.TextareaRoundTrip` | static/js/dashboard.js:99-105 | showing a listing and saving it unedited sends the same list, when no rule holds a newline or a carriage return or is blank |
| `Dashboard.ZeroWidthRuleDroppedByEditor` | static/js/dashboard.js:105 | the server stores a rule made of U+FEFF, but the editor drops it on the next unedited save |
| `Dashboard.DashboardFigures` | static/js/dashboard.js:48-50 | unavailable statistics show 'N/A' in all three figures; otherwise the two 24-hour counts and the traffic in megabytes |
| `Scenarios.DomainRuleBlocksSubdomain` | src/filter_addon.py:46-48 | with the domain rule `ads.example.com`, a request to `cdn.ads.example.com` is blocked by that rule |
| `Scenarios.KeywordRuleBlocksPath` | src/filter_addon.py:51-53 | with the keyword rule `casino`, a URL with path `/promo/casino-bonus` is blocked by that keyword |
| `Scenarios.NoRulesAllowsEverything` | src/filter_addon.py:11-38 | with no rules any request passes, and its 200 response is logged once, not blocked |
| `Scenarios.DisabledFilteringStillFlags403` | src/filter_addon.py:14-37 | with filtering disabled nothing is blocked, yet an upstream 403 is logged as blocked |
| `Scenarios.WindowExcludesOldRequest` | src/monitor.py:85-100 | five requests and two blocks in the window plus one 25-hour-old request count as 5 and 2 |
| `Scenarios.SpellingsCollapse` | src/web_interface.py:101 | `["Ads.Example.COM", " ads.example.com ", ""]` normalises to `{"ads.example.com"}` |
| `Scenarios.PostedSpellingsStoredOnce` | src/web_interface.py:96-105 | posting those spellings leaves exactly `{"ads.example.com"}` stored |

## Behaviour the model keeps as the code has it

- **Iteration order.** When several rules match, one might expect the
  lexicographically smallest to be reported. The code iterates Python
  sets, whose order is unspecified. `ShouldBlock` therefore promises only that the
  reported rule matches. `VerdictIsDetermined` proves what is nonetheless
  fixed.
- **Keyword matching.** The keyword is matched against the lower-cased
  full `pretty_url`, host and query included. No percent-decoding happens.
- **No validation before mutation.** The rule list is not checked before
  the set is changed. The code clears the set first
  (src/web_interface.py:100). A non-string entry then raises inside the
  comprehension on line 101. The set is left empty, nothing is saved, and
  the reply is a 500 (`ManageRules`, outcome `ClearThenRaise`).
- **The blocked flag.** The response event does not record whether the
  addon blocked the request. The code records
  `status_code == 403` (src/filter_addon.py:37), so an upstream 403 counts
  as blocked even when filtering is off
  (`Scenarios.DisabledFilteringStillFlags403`).
- **Save failures.** A failure to write the rule file is not reported.
  `manage_rules` ignores the result of `save_rules_to_file` and answers
  success. The in-memory set stays as posted.
- **Recent blocks.** The recent list is not limited to the 24-hour window.
  It holds the ten newest block rows of all time.
- **Rules the file cannot hold.** The API accepts a rule starting with `#`,
  and one containing a line break. Both are enforced for the session but
  change on reload: the first is read back as a comment
  (`WebInterface.CommentRuleLostOnReload`), the second as two lines.
  `WebInterface.PostedRulesSurviveReload` states when the round trip holds.
- **Two notions of whitespace.** The server strips Python whitespace and
  the editor trims JavaScript whitespace. The two sets differ: U+FEFF is
  whitespace only to JavaScript, U+001C–U+001F and U+0085 only to Python
  (`Dashboard.ZeroWidthRuleDroppedByEditor`).

## Left out

- `FilterAddon.NetworkMonitorAddon.Request` and
  `FilterAddon.NetworkMonitorAddon.Response`: `log_blocked_request` and
  `log_request`, called at src/filter_addon.py:23 and :38, are not defined
  on `NetworkFilterManager` in src/monitor.py. As written, both calls raise
  `AttributeError`, which mitmproxy catches and reports: the block page at
  line 26 is never set, so no request is blocked, and no event is ever
  logged. The model assumes the two loggers exist, each appending exactly
  its arguments as one event to an in-memory log
  (`Monitor.NetworkFilterManager.LogBlockedRequest`,
  `Monitor.NetworkFilterManager.LogRequest`). Those logs are not tied to
  the rows `Stats` counts: the events carry no timestamp, and nothing in
  the source says how the loggers fill the `requests` and
  `blocked_content` tables, so the statistics are stated over the table
  rows directly.
- `Dashboard.TextareaRoundTrip`: a textarea's value turns a carriage
  return into a newline; this normalisation is not modelled, so the round
  trip is stated only for rules without `\r`.
- Concurrency: `threading.Lock` and the lock around rule updates. Every
  operation is modelled as atomic.
- SQLite: the schema, the connection and the SQL text. The two tables are
  in-memory sequences of rows, and a failing connection or query is a
  parameter.
- Clocks: `datetime.now()` and ISO-8601 timestamps. Timestamps are whole
  seconds and the current time is a parameter.
- Floating point: the rounding of `total_traffic_mb` to two decimals is
  left out; the model keeps the traffic in bytes.
- mitmproxy plumbing: connections, header handling and the HTML template
  of the block page. Only the URL escape inside the template is modelled.
- The certificate routes, the socket.io emits, the page routes, `main.py`
  and `src/utils.py`: these are not part of this model.
- The browser: DOM updates, `fetch`, `alert` and date formatting in
  `static/js/dashboard.js`.
- Unicode lower-casing: `lower()` is modelled on ASCII letters only.
- File encoding: UTF-8 decoding errors and the platform's newline
  translation on write. Lines are split at `\n` or `\r`, as Python's
  universal newlines do.
- Flask's handling of a body that is not JSON. A parsed body is a
  parameter.
- `allowed_ips`: it is never filled in the source. It is kept as a field
  and counted by `get_status`.
- Logger calls.
- `Monitor.NetworkFilterManager.LoadRulesFromFile`: does not model an
  unreadable rule file. `open` at src/monitor.py:46 on a path that exists
  but cannot be read (a permission error, a directory) raises out of
  `_load_rules_from_file`, `load_all_rules` and the constructor. The
  model's `Monitor.ReadFile` always yields the contents of an existing
  path, so this exception path is not modelled.
- `WebInterface.ManageRules`: does not model encoding failures on save.
  `save_rules_to_file` catches only `IOError` (src/monitor.py:61). A rule holding a lone surrogate (JSON accepts
  `"\ud800"`) makes `f.write` at line 58 raise `UnicodeEncodeError`, so
  `manage_rules` answers 500 after the set was replaced and the file
  truncated. Dafny strings cannot hold lone surrogates, so
  `WebInterface.ManageRules` never takes this path and answers `Success`.
- `Monitor.NetworkFilterManager.SaveRulesToFile`: only a failure to open
  the file is modelled, not an IOError part-way through the writes.
- `FilterAddon.NetworkMonitorAddon.ShouldBlock`: promises only that the
  reported rule matches and that domain rules take precedence, not which
  of several matching rules is reported, because set iteration order is
  unspecified.
- `Stats.RecentBlocksSpec`: requires the block rows to be stored in timestamp
  order. `ORDER BY timestamp DESC` is modelled as reversing the last ten
  rows, and ties between equal timestamps are not ordered.
- `Stats.GetDashboardStats`: keeps the traffic in bytes; the conversion to
  rounded megabytes is not modelled.
- `Dashboard.DashboardFigures`: states the traffic in megabytes as an
  exact quotient, without the server's rounding.
