# Orchids website cloner: a verified model of its core

The Orchids backend clones a web page in three steps:

- It scrapes the page (`backend/app/scraper.py`) and reduces it to structured findings: design tokens, DOM statistics, buttons, an asset inventory and layout metrics.
- It asks a language model to rebuild the page (`backend/app/llm.py`). Before the call it trims the scrape to fixed budgets. It derives colour tiers, font roles and a CSS block for the prompt. Afterwards it repairs the model's answer into an HTML document, or turns a failure into a categorised error.
- It runs each job in the background behind a small web service (`backend/app/main.py`). The service keeps a table of clone requests, moves each job forward through `pending → scraping → cloning → completed | failed`, and notifies WebSocket subscribers through a connection manager.

This project models those three parts in Dafny and proves what their code promises. Code that computes a value becomes a function with lemmas. Code that accumulates in loops becomes a method with loop invariants, proved equal to a specification function. Code that mutates objects becomes a class:

- `Cloner.ScrapeData` is the scrape dictionary trimmed in place.
- `Orchestrator.ConnectionManager` is the map from request id to subscribed sockets.
- `Orchestrator.CloneService` is the request table with the manager.

Files and modules:

| file | module | models |
|---|---|---|
| `wrappers.dfy` | `Wrappers` | `Option` |
| `strings.dfy` | `Strings` | the Python string operations the code relies on: `in`, `find`, `startswith`, `endswith`, `strip`, `lower`, `split`, `join`, `replace`, `int()` and `float()` on digit text |
| `ranking.dfy` | `Ranking` | `Counter.most_common(n)`, which is the same stable descending sort as `sorted(d.items(), key=count, reverse=True)[:n]` |
| `dom.dfy` | `Dom` | the parsed page as BeautifulSoup shows it: `find_all` in document order, `get_text`, `get_depth`, `_get_element_path` |
| `dom_analysis.dfy` | `DomAnalysis` | `_analyze_dom_structure` |
| `design.dfy` | `Design` | `_extract_design_elements` |
| `visual.dfy` | `Visual` | the button detection of `_identify_visual_elements` |
| `assets.dfy` | `Assets` | `_catalog_assets` and `_estimate_size_category` |
| `layout_metrics.dfy` | `LayoutMetrics` | `_compute_layout_metrics` |
| `cloner.dfy` | `Cloner` | `_optimize_scrape_data`, the selections of `_create_prompt`, `_extract_html_from_response`, `clone_website`'s error reporting, `_truncate_html` |
| `orchestrator.dfy` | `Orchestrator` | `ConnectionManager`, the `clone_requests` table, `process_clone_request`, `get_clone_html`, the WebSocket snapshot |

Parts of the system are foreign code: the browser, the language model, the HTML parsers and the regular-expression engine. They enter as inputs:

- A regular expression's captures are passed in as sequences of matches.
- The model call is a `Generation` value: text, a raised message, or the timeout.
- An HTML reparse is a function `string -> Option<string>`, where `None` means the parser raised.
- The scraper and the cloner seen from `main.py` are a `ScrapeOutcome` and a function from payload to `CloneResult`.
- The sockets whose send fails during a broadcast are a set given to the call, one set per broadcast.

The model follows the code as written, including:

- Fonts and colours are Python sets turned into lists, so their order is unspecified. The model returns `set`s, not first-seen lists.
- The HTML elision marker `"\n...\n"` is five characters long. A trimmed page is therefore 20005 characters, not 20000.
- A repeating `ul`/`ol` is labelled navigation only when an `<a>` is a direct child. A list of `li > a` items is labelled content.
- The media-query pattern captures the body of the `@media` block. The width condition is searched inside that body, not in the query.
- The serif check matches `"serif"` inside `"sans-serif"`. `Design.SansSerifReadsAsSerif` shows this.
- A `<source>` with a `src` inside an `<audio>` is listed both as a video and as audio. `Assets.AudioSourceListedTwice` shows this.
- The prompt reads top-level `colors`, `fonts` and `structure` keys, but the scraper files its findings under `design`. The prompt defaults therefore always apply to a scraped page. External CSS records carry no content, so they add nothing to the CSS block. `Cloner.ScrapePromptUsesDefaults` states both.
- `pending` is never broadcast. A subscriber only sees it in the snapshot sent when it connects.

## Model

| member | source | states |
|---|---|---|
| Assets.AreaCategoryMonotone | backend/app/scraper.py:883-896 | a positive area is never unknown, and a larger area never falls in a smaller band |
| Assets.EstimateSizeCategoryUnknown | backend/app/scraper.py:877-898 | the size category is "unknown" exactly when a dimension fails to parse as an integer or one of them is zero (a missing one counts as 0) |
| Assets.SvgPurposeOf | backend/app/scraper.py:759-765 | an SVG is an icon exactly when a class mentions icon/logo/symbol, and an illustration exactly when none does and one mentions illustration/diagram/chart |
| Assets.MediaTypeIsExtension | backend/app/scraper.py:848-855 | the type recorded for a document link is one of the listed extensions, namely the one its lower-cased href ends with |
| Assets.ImagesPartition | backend/app/scraper.py:715-752 | every img with a src is filed exactly once, so the image and icon lists together have as many records as there are such images |
| Assets.ImagesClassified | backend/app/scraper.py:722-752 | a record under icons comes from a page image that is small (both sides ≤ 64) or has an icon/logo/avatar/symbol class, and a record under images from one that is neither |
| Assets.AudioSourceListedTwice | backend/app/scraper.py:784-814 | a `<source src>` inside `<audio>` yields one video record and one audio record with the same URL |
| Assets.SummaryOf | backend/app/scraper.py:861-872 | the summary's total is the sum of the seven list sizes |
| Assets.CatalogAssets | backend/app/scraper.py:686-875 | each list of the catalog holds exactly the records of the elements its rule admits, in document order, and the summary counts them |
| Assets.ImagePass | backend/app/scraper.py:715-752 | the image loop files the admitted images in document order, split into images and icons |
| Assets.SvgPass | backend/app/scraper.py:755-781 | the SVG loop records every svg element in document order |
| Assets.VideoPass | backend/app/scraper.py:784-797 | the video loop records every video or source element with a src |
| Assets.AudioPass | backend/app/scraper.py:800-814 | the audio loop records every audio element, and every source under an audio, that has a src |
| Assets.FontPass | backend/app/scraper.py:817-845 | the font list is the @font-face URLs followed by the Google Fonts stylesheet links |
| Assets.MediaPass | backend/app/scraper.py:848-858 | the document-link loop records each a whose href ends in a listed extension |
| Cloner.ScraperPayload | backend/app/scraper.py:93-106 | the scraper's dictionary has no top-level colours, fonts or structure |
| Cloner.CapFacts | backend/app/llm.py:384-391 | a capped list keeps a prefix of at most n items, is unchanged when short enough, and capping twice changes nothing |
| Cloner.TrimHtmlFacts | backend/app/llm.py:379-381 | HTML longer than 20000 characters becomes exactly 20005 characters, keeping its first and last 10000 around the marker; shorter HTML is unchanged |
| Cloner.TrimHtmlIdempotent | backend/app/llm.py:379-381 | trimmed HTML trims to itself |
| Cloner.CapAssetsFacts | backend/app/llm.py:371-376 | capping the asset kinds keeps every key, cuts the lists of the kinds named to 10 and leaves every other entry alone |
| Cloner.OptimizedFacts | backend/app/llm.py:366-391 | after trimming, the url and design keys are unchanged and the same keys are present; html is at most 20005 characters; css and js are prefixes of at most 5 and 2 items; listed asset kinds are prefixes of at most 10 items; other asset entries such as the summary are unchanged |
| Cloner.OptimizedIdempotent | backend/app/llm.py:366-391 | trimming a trimmed payload changes nothing |
| Cloner.ScrapeData.constructor | backend/app/llm.py:56 | the object holds the given scrape dictionary |
| Cloner.ScrapeData.Optimize | backend/app/llm.py:366-391 | trimming in place leaves the object holding the trimmed payload of its old contents (so OptimizedFacts and OptimizedIdempotent apply) |
| Cloner.ScrapeData.CreatePromptInputs | backend/app/llm.py:135-163 | building the prompt trims the dictionary in place and takes the URL, HTML, CSS block, colour tiers, fonts and font roles from the trimmed contents |
| Cloner.ColorTiersFacts | backend/app/llm.py:211-213 | each colour tier is non-empty and bounded (10, 20, 20); the fixed two-colour defaults apply exactly to the sizes the code checks; otherwise the tiers concatenate to the first 50 colours |
| Cloner.FontListOf | backend/app/llm.py:216 | the font list shown is never empty |
| Cloner.FontRolesFacts | backend/app/llm.py:219-221 | the roles are the first three fonts, padded with the first font; with no fonts each role is "Arial, sans-serif" |
| Cloner.CompileCss | backend/app/llm.py:154-160 | the CSS loop produces the inline and external texts of the item list |
| Cloner.CssBlockFacts | backend/app/llm.py:163 | the CSS block is a prefix of the inline text, a newline and the external text, at most 10000 characters, and all of it when that fits |
| Cloner.InlineCssHoldsContents | backend/app/llm.py:156-158 | the content of every inline item with content appears in the inline CSS |
| Cloner.ExternalCssWithoutContent | backend/app/llm.py:159-160 | external items without content contribute no external CSS |
| Cloner.ScrapePromptUsesDefaults | backend/app/llm.py:142-163 | for the scraper's dictionary the prompt uses the default colour tiers, fonts and roles, the CSS of the first five items' inline content, and the trimmed HTML |
| Cloner.ExtractHtml | backend/app/llm.py:435-456 | when the reparse raises, the answer is the repaired text unchanged |
| Cloner.StrippedStartFound | backend/app/llm.py:401-407 | a marker the stripped answer starts with occurs in the answer |
| Cloner.LocateHtmlCases | backend/app/llm.py:401-414 | with neither `<!DOCTYPE html>` nor `<html` the answer is wrapped; otherwise it is the text from the first doctype, or from the first `<html`; the result always holds one of the two |
| Cloner.RepairedBareIsWrapped | backend/app/llm.py:400-433 | an answer with neither `<!DOCTYPE html>` nor `<html` comes out of the repair steps as exactly the fixed wrapper around it |
| Cloner.CloseTagsFacts | backend/app/llm.py:418-424 | closing only appends; afterwards an opened `<html` is closed; nothing changes when `</html>` is present or `<html` is absent; `</body></html>` is appended when `</body>` is missing |
| Cloner.InjectViewportFacts | backend/app/llm.py:426-429 | the text changes only when it has no `<meta` and has `<head>`, and then it holds the viewport tag |
| Cloner.EnsureBodyFacts | backend/app/llm.py:431-433 | the text changes only when it has no `<body`, has `<html` and has `</head>`, and then it holds `<body>` |
| Cloner.ErrorDetails | backend/app/llm.py:116-126 | the explanation is one of the three fixed texts or the message itself |
| Cloner.ErrorReport | backend/app/llm.py:129 | every reported error starts with "Failed to generate content: " |
| Cloner.DetailsNameTheirCategory | backend/app/llm.py:118-124 | each fixed explanation would itself be classified in its own category |
| Cloner.ErrorCategories | backend/app/llm.py:116-126 | categories are tried in order: quota exactly on 429/quota/rate limit; authentication exactly on 403/authentication/permission/denied without a quota sign; the configuration text exactly on "mutually exclusive" alone; any other message is passed on after the prefix |
| Cloner.CloneOutcome | backend/app/llm.py:80-133 | a clone succeeds exactly when the model returns text; every failure carries the prefix; a timeout is reported as its fixed message |
| Cloner.CloneWebsite | backend/app/llm.py:56-133 | the data is trimmed in place; a failure while building the prompt is returned as it is; otherwise the result is the outcome of the model call on the prompt inputs |
| Cloner.TruncateHtmlFacts | backend/app/llm.py:458-476 | HTML within the limit is unchanged; when the parser fails, the result is the first max_length characters followed by the truncation comment |
| Design.CleanFont | backend/app/scraper.py:300 | a cleaned font name has no surrounding whitespace |
| Design.DeclaredFontsClean | backend/app/scraper.py:296-302 | every font taken from a font-family capture is non-empty, unpadded and, in the style passes, not inherit/initial in any case |
| Design.AddDeclaredFonts | backend/app/scraper.py:297-302 | the capture loop adds exactly the declared fonts to the set |
| Design.AddTokens | backend/app/scraper.py:299-302 | the token loop adds exactly the kept tokens to the set |
| Design.FamilyParamFrom | backend/app/scraper.py:349 | a found `family=` value is non-empty, holds no `&` and follows `family=` in the link |
| Design.PlusToSpace | backend/app/scraper.py:351 | every `+` becomes a space and every other character is kept |
| Design.GoogleFamilies | backend/app/scraper.py:351-355 | each linked family is the part of a `|`-separated family before its first `:` |
| Design.AddLinkedFonts | backend/app/scraper.py:345-355 | the link loop adds exactly the Google Fonts families to the set |
| Design.SansSerifReadsAsSerif | backend/app/scraper.py:363-371 | "Arial, sans-serif" counts as a serif family |
| Design.Fonts | backend/app/scraper.py:290-379 | the fonts are never empty: they are those found, or else the serif or sans-serif six-font stack chosen by the serif check |
| Design.ExtractFonts | backend/app/scraper.py:290-379 | the font passes compute the fonts above |
| Design.DeclaredFontTokensClean | backend/app/scraper.py:293-342 | all three regular-expression passes contribute only clean tokens, and the style passes never contribute inherit/initial |
| Design.Colors | backend/app/scraper.py:315-330 | every colour is stripped, and no captures give no colours |
| Design.Headings | backend/app/scraper.py:284-287 | a heading level is listed exactly when the page has such headings, with their number |
| Design.AnyElement | backend/app/scraper.py:385-398 | the flag is set exactly when some element satisfies its test |
| Design.DetectLayout | backend/app/scraper.py:385-398 | the layout loop sets grid_systems exactly when some class list mentions grid/row/col/container, and flexbox_usage exactly when one mentions flex |
| Design.ContainersImplyGrid | backend/app/scraper.py:389-394 | a page with a container also reports a grid system |
| Design.ExtractDesignElements | backend/app/scraper.py:266-405 | the design summary holds the heading counts, the colours, the non-empty fonts and the layout flags, grid_systems exactly when some class list mentions a grid term and flexbox_usage exactly when one mentions a flex term |
| Dom.Descendants | backend/app/scraper.py:447 | every element found below an element has it as an ancestor, below the same outer ancestors |
| Dom.Filter | backend/app/scraper.py:483 | a filtered search keeps exactly the elements that pass the test |
| Dom.GetDepthIsHeight | backend/app/scraper.py:460-466 | get_depth(e, d) is d plus the height of e's tag tree |
| Dom.HeightBoundsNesting | backend/app/scraper.py:460-466 | no element below lies deeper than the height |
| Dom.HeightIsAttained | backend/app/scraper.py:460-466 | some element below lies exactly at the height |
| Dom.HierarchyDepthIsDeepestNesting | backend/app/scraper.py:468 | the hierarchy depth is the nesting depth of the most deeply nested element |
| Dom.BelowHtml | backend/app/scraper.py:663-665 | the path walk stops at the first `html` ancestor |
| Dom.AncestorSegments | backend/app/scraper.py:663-673 | one segment per ancestor below `html` |
| Dom.InnerSelectorsReversed | backend/app/scraper.py:662-673 | the selectors collected innermost-first, reversed, give the ancestor segments outermost-first |
| Dom.ElementPathAsWritten | backend/app/scraper.py:660-684 | the path as written is the element's own selector followed by its ancestors' selectors outermost-first |
| Dom.ScriptTextSkipped | backend/app/scraper.py:474 | the text of a script child adds nothing to an element's `get_text` |
| Dom.ElementPath | backend/app/scraper.py:660-684 | the corrected path builder produces the ancestors outermost-first and the element last |
| Dom.OwnSelectorPlacement | backend/app/scraper.py:676-684 | in the corrected path the element's selector comes last, while the path as written starts with it |
| Dom.ElementPathAsWrittenExample | backend/app/scraper.py:660-684 | for html > body > div > a the path as written is "a > body > div", and the corrected path is "body > div > a" |
| DomAnalysis.ElementCounts | backend/app/scraper.py:446-457 | element counts are the 20 most frequent tags of the page with their counts |
| DomAnalysis.CountTags | backend/app/scraper.py:449-454 | the counting loop's dictionary holds, for every tag, its number of occurrences, keys in first-seen order |
| DomAnalysis.TallyOfCounts | backend/app/scraper.py:449-457 | the dictionary's items are the first-seen tally of the tags |
| DomAnalysis.FirstLargest | backend/app/scraper.py:474 | `max` picks the first of the largest values |
| DomAnalysis.ContentCandidates | backend/app/scraper.py:471 | the candidates are exactly the main/article/div elements some class of which contains content, main, article or body, in document order |
| DomAnalysis.MainContentArea | backend/app/scraper.py:470-480 | a main content area is reported exactly when there is a candidate, and it is central exactly for main and article |
| DomAnalysis.MainContentIsLargest | backend/app/scraper.py:472-480 | the area reports the tag, the classes and the id ("" without one) of the first candidate with the longest stripped text: every candidate has at most that much text and every earlier one has less |
| DomAnalysis.MainContentIdExample | backend/app/scraper.py:474-480 | `<main id="x" class="content">` as the only element is reported as tag main, classes [content], id "x", central |
| DomAnalysis.NavigationPattern | backend/app/scraper.py:482-492 | a navigation pattern is reported exactly when the page has a nav or header |
| DomAnalysis.NavigationPatternFacts | backend/app/scraper.py:485-490 | for the first nav/header, a dropdown implies a nested list, and items without any list make it horizontal |
| DomAnalysis.RepeatingAt | backend/app/scraper.py:498-500 | an element repeats exactly when it is a ul/ol/div with at least three direct element children sharing one tag |
| DomAnalysis.RepeatingAtFacts | backend/app/scraper.py:500-508 | the record counts those children and names their tag, and says navigation exactly for a ul/ol whose children are links |
| DomAnalysis.ByCount | backend/app/scraper.py:511 | the sort key of a record is its count |
| DomAnalysis.RepeatingStructures | backend/app/scraper.py:495-511 | the loop collects the candidates in document order and keeps the top five by count |
| DomAnalysis.TopRepeatingFacts | backend/app/scraper.py:511 | exactly min(5, number of candidates) structures are kept, each a candidate with a count of at least 3, counts do not increase, and a candidate left out counts no more than the last one kept |
| DomAnalysis.CandidatesFromElements | backend/app/scraper.py:498-508 | every candidate is the record of some element of the page |
| DomAnalysis.SemanticStructure | backend/app/scraper.py:514-520 | a semantic tag is listed exactly when it occurs, with its number of occurrences |
| DomAnalysis.AnalyzeDomStructure | backend/app/scraper.py:423-523 | the analysis holds the top-20 counts, the tree height, the main content area, the navigation pattern, the top repeating structures and the semantic counts |
| LayoutMetrics.CollectSpacing | backend/app/scraper.py:931-947 | the spacing table has exactly the six units, each with the parsable values of its matches in order |
| LayoutMetrics.SpacingPatternsOf | backend/app/scraper.py:951-959 | the pattern loop builds one pattern per unit with values |
| LayoutMetrics.SpacingPatternsFacts | backend/app/scraper.py:951-959 | a unit has a pattern exactly when it has values; each pattern lists at most five distinct values by non-increasing frequency, each with its true count |
| LayoutMetrics.MostFrequentIsMode | backend/app/scraper.py:1027-1033 | with px values, one to three common margins are reported, the first being a most frequent px value |
| LayoutMetrics.Mentioning | backend/app/scraper.py:980 | the search finds exactly the elements with a class containing the term |
| LayoutMetrics.ContainerAnalysis | backend/app/scraper.py:978-982 | a container class is listed exactly when some class mentions it, with the number of such elements |
| LayoutMetrics.Alignments | backend/app/scraper.py:1010-1024 | an alignment is listed exactly when some class mentions its class name, with the number of such elements |
| LayoutMetrics.LowerRun | backend/app/scraper.py:992 | the `[a-z]+` run is maximal |
| LayoutMetrics.BootstrapExamples | backend/app/scraper.py:992 | "col-6" and "col-md-6" are Bootstrap column classes, and "col-md" alone is not |
| LayoutMetrics.GridSystem | backend/app/scraper.py:985-1007 | columns are 12 exactly with a Bootstrap class; css-grid exactly with a grid class; flexbox exactly with a flex class and no grid class; bootstrap exactly with a Bootstrap class and neither of the others |
| LayoutMetrics.CollectMediaQueries | backend/app/scraper.py:1036-1053 | the media loop records the matches whose value parses, in order |
| LayoutMetrics.PxValues | backend/app/scraper.py:1058-1060 | every breakpoint value comes from a px query |
| LayoutMetrics.CollectPxValues | backend/app/scraper.py:1057-1060 | the loop collects the px values |
| LayoutMetrics.SortAscCorrect | backend/app/scraper.py:1063 | sorting yields an ascending permutation |
| LayoutMetrics.Clusters | backend/app/scraper.py:1064-1075 | the groups are non-empty, there are none exactly for no values, and the last group ends with the last value |
| LayoutMetrics.ClustersPartition | backend/app/scraper.py:1064-1075 | the groups concatenate back to the sorted values |
| LayoutMetrics.ClustersStepsWithin | backend/app/scraper.py:1068-1069 | within a group each value is at most 20 above the previous one |
| LayoutMetrics.ClustersGapsBetween | backend/app/scraper.py:1070-1072 | each group starts more than 20 above the end of the previous group |
| LayoutMetrics.ClustersOfSorted | backend/app/scraper.py:1063-1075 | groups of sorted values are sorted |
| LayoutMetrics.MeanBounds | backend/app/scraper.py:1071 | the mean of a group lies within any lower and upper bound of its values |
| LayoutMetrics.BreakpointsSpread | backend/app/scraper.py:1062-1077 | there are no more breakpoints than values, each mean lies within its group, and consecutive means differ by more than 20 |
| LayoutMetrics.GroupBreakpoints | backend/app/scraper.py:1063-1077 | the grouping loop yields the means of the clusters of the sorted values |
| LayoutMetrics.Responsive | backend/app/scraper.py:1080-1091 | a pattern is reported exactly when there are breakpoints, multi-breakpoint exactly for three or more, with their count, and mobile-first exactly when some recorded query is a min-width query |
| LayoutMetrics.BreakpointsPresent | backend/app/scraper.py:1056-1077 | there are breakpoints exactly when some query is in px, and never more than px values |
| LayoutMetrics.ComputeLayoutMetrics | backend/app/scraper.py:900-1100 | the metrics hold the spacing patterns, margins, alignments, grid system, container counts, breakpoints and responsive pattern |
| LayoutMetrics.ClassMetrics | backend/app/scraper.py:977-1024 | the class-based metrics are the alignments, grid system and container counts |
| LayoutMetrics.ResponsiveBreakpoints | backend/app/scraper.py:1036-1077 | the media queries and the grouped breakpoints of the matches |
| Orchestrator.AddedFacts | backend/app/main.py:29-33 | connecting keeps every set non-empty, adds the socket to its id, and leaves other ids alone |
| Orchestrator.RemovedFacts | backend/app/main.py:35-39 | removing keeps every set non-empty, drops the id exactly when its set empties, and leaves other ids alone |
| Orchestrator.RemovedAbsent | backend/app/main.py:35-39 | disconnecting an unknown id or an absent socket changes nothing |
| Orchestrator.RemovedInTurn | backend/app/main.py:51-52 | removing sockets one set after another is removing them together |
| Orchestrator.ConnectThenDisconnect | backend/app/main.py:29-39 | disconnecting a newly connected socket restores the manager |
| Orchestrator.ConnectionManager.constructor | backend/app/main.py:25-27 | a new manager has no connections |
| Orchestrator.ConnectionManager.Connect | backend/app/main.py:29-33 | connect adds the socket under its id and keeps the no-empty-set invariant |
| Orchestrator.ConnectionManager.Disconnect | backend/app/main.py:35-39 | disconnect removes the socket and deletes an emptied id, keeping the invariant |
| Orchestrator.ConnectionManager.BroadcastStatus | backend/app/main.py:41-52 | a broadcast reaches exactly the subscribers whose send succeeds and removes exactly those whose send fails; an id without subscribers is untouched |
| Orchestrator.JobTrace | backend/app/main.py:187-267 | a job's events start at scraping and move forward without repeating pending; the last event shows the final status, completed exactly when scraping and cloning both succeed; a failure event carries the stored error; completed_at is set only on completion; nothing else in the record changes |
| Orchestrator.CloneService.constructor | backend/app/main.py:21 | the service starts with no requests and no connections |
| Orchestrator.CloneService.Submit | backend/app/main.py:79-106 | submitting stores a pending record without result for the id, url and options, and answers pending |
| Orchestrator.CloneService.ProcessCloneRequest | backend/app/main.py:187-267 | an unknown id is ignored; otherwise the record reaches its settled state and the job's events are broadcast in order; each broadcast drops the sockets whose send failed in that broadcast, in turn, so the bus loses exactly the union of the failures of the broadcasts that happened |
| Orchestrator.CloneService.Announce | backend/app/main.py:196-198 | a step stores its record and broadcasts its event |
| Orchestrator.CloneService.CloneHtml | backend/app/main.py:128-147 | 404 exactly for an unknown id; 400 naming the status for an unfinished job; 400 when there is no HTML; otherwise the stored non-empty HTML |
| Orchestrator.CloneService.InitialSnapshot | backend/app/main.py:274-287 | a snapshot is sent exactly for a known job, with its status and url, and an error only for a failed one (its error, or "Unknown error") |
| Orchestrator.CloneService.FailedSnapshotCarriesError | backend/app/main.py:283-285 | a failed job's snapshot carries the error stored by the job |
| Orchestrator.CloneService.Subscribe | backend/app/main.py:271-287 | subscribing connects the socket and yields the snapshot |
| Orchestrator.CloneService.Unsubscribe | backend/app/main.py:294-295 | unsubscribing disconnects the socket |
| Ranking.Tally | backend/app/scraper.py:449-454 | each distinct item once, in first-seen order, with its number of occurrences |
| Ranking.SortDescCorrect | backend/app/scraper.py:457 | the sort is a permutation, non-increasing by count, and stable |
| Ranking.MostCommonEntries | backend/app/scraper.py:954 | the top n entries are distinct items of the input with their true counts |
| Ranking.MostCommonOrdered | backend/app/scraper.py:954 | the top n entries are in non-increasing order of count |
| Ranking.MostCommonExcluded | backend/app/scraper.py:954 | an item left out occurs no more often than the last entry kept |
| Strings.Find | backend/app/llm.py:405-407 | `find` gives -1 exactly when the text is absent, otherwise its first occurrence |
| Strings.StripSetTrimmed | backend/app/scraper.py:300 | a stripped text has no stripped character at either end and occurs inside the original |
| Strings.Lower | backend/app/scraper.py:301 | lower-casing keeps the length and lowers each character |
| Strings.JoinSplit | backend/app/scraper.py:299 | joining the split parts with the separator gives the text back |
| Strings.ReplaceAllPresent | backend/app/llm.py:429 | replacing a present pattern leaves the replacement in the text |
| Strings.ParseIntDigits | backend/app/scraper.py:728 | `int` of a digit string is its decimal value |
| Strings.ParseDecimalDefined | backend/app/scraper.py:945 | `float` of captured number text succeeds exactly when it has one dot at most and a digit |
| Visual.ParseStyle | backend/app/scraper.py:559-566 | the style loop computes the style dictionary of the attribute |
| Visual.StyleLastWins | backend/app/scraper.py:563-566 | a property is in the style exactly when a declaration sets it, and it has the value of the last such declaration |
| Visual.StyleStripped | backend/app/scraper.py:566 | every style key and value is stripped |
| Visual.StyleSplitsAtFirstColon | backend/app/scraper.py:565 | a declaration splits at its first colon: "a: b:c" gives a = "b:c" |
| Visual.Buttons | backend/app/scraper.py:556-576 | no more buttons than elements |
| Visual.FindButtons | backend/app/scraper.py:555-576 | the detection loop records the buttons of the page in document order |
| Visual.ButtonsAreButtons | backend/app/scraper.py:556-558 | one record per element the button rule admits, and every record describes such an element |

## Findings

| source | as written | input that shows it | evidently intended | confidence | as-written member | corrected member |
|---|---|---|---|---|---|---|
| backend/app/scraper.py:676-684 | the element's own selector is appended after the ancestors, which were collected innermost-first; reversing the whole list then puts the element first, followed by its ancestors outermost-first | an `a` inside `html > body > div` gives "a > body > div" | "body > div > a": ancestors outermost-first and the element last, as the function's docstring ("selector path to the element") says | not executed | Dom.ElementPathAsWritten, Dom.ElementPathAsWrittenExample | Dom.ElementPath, Dom.OwnSelectorPlacement |

The rest of the model records element paths with the corrected `Dom.PathOf`.

## Left out

- Fetching the page with a browser, the screenshot and the HTTP client are network I/O and are not modelled.
- The language model and its construction are foreign calls. Its 60-second `wait_for` is a timer. The call is the `Generation` input, and the timeout is its `TimedOut` case.
- HTML parsing by BeautifulSoup, html5lib and lxml is foreign code. The page arrives already parsed as a `Dom.Element` tree. The reparse of `_extract_html_from_response` and the lxml branch of `_truncate_html` are a function input that may fail, and only the failure fallback is specified.
- Regular expressions over CSS, style text and Google Fonts links are not modelled. Their captures are inputs: the font-family captures, colour captures, spacing and media matches, @font-face URLs and the serif check's font-family capture.
- The literal prompt text is left out. Its viewport-meta, body-structure, class, id and image extractions feed only that text. The model covers the selections the prompt makes: colour tiers, fonts, font roles, the CSS block and the HTML.
- FastAPI routing, CORS, the root endpoint, the `get_asset` proxy and the WebSocket accept and receive loop are transport. `get_clone_result` only copies fields of the stored record and is not modelled.
- Background tasks run concurrently in the source. The model runs one job's pipeline sequentially, and the manager is single-threaded.
- Floating-point values (spacing values, breakpoint means) are exact reals, so float rounding is not modelled.
- Request ids from `uuid` and timestamps from `datetime` are parameters. `print` logging is dropped.
- `lower` follows Python only on ASCII letters, so non-ASCII case mapping is not modelled. Digits (`\d` in the captured number text, `int`, `float`) are ASCII digits only, while Python also accepts other Unicode decimal digits. `strip` and `split` use the full set of characters Python's `isspace` accepts.
- Relative URLs are resolved by a function input standing for `urljoin`.
- `_compute_layout_metrics` collects container `max-width` values and initialises `common_dimensions`, but uses neither in its result. The model leaves both out.
- SVG records do not carry the length of the SVG's serialised markup, because serialising the tree is BeautifulSoup code.
- Spacing frequencies are keyed in the source by `str(value)` of a float. The model keys them by the value itself.
- Dictionary key order of the emitted JSON is not modelled, except for element counts and spacing patterns, whose order the code sets.
- Forms, cards, navigation bars, content sections, colour regions and interactive elements from `_identify_visual_elements` are not modelled. Only button detection is.
- `_extract_css_content`, `_extract_js_content` and `_extract_meta_tags` are not part of this model. Their results enter as the payload's `css` and `js` lists.
- BeautifulSoup's `class_=True` filter also admits elements whose class attribute is empty. The model treats an element with no classes as unmatched.
- Cloner.ErrorCategories: it is not proved that the fixed timeout message mentions none of the keywords, so that it passes through raw. Reading the literal is beyond the verifier's budget. `Cloner.CloneOutcome` states that a timeout is reported as `ErrorReport(TimeoutMessage)`, and the general pass-through case is proved for any message without keywords.
- `get_text` skips strings inside script, style, template, rt and rp elements, following the string classes of current BeautifulSoup releases. bs4 also types every string inside a `template` as a template string, so `get_text` on an element that itself sits inside a template returns nothing there. The model treats such an element like any other.
- Assets.CatalogAssets: every record carries the corrected element path `Dom.PathOf` (ancestors first, element last), not the element-first path `_get_element_path` produces (see Findings).
- Assets.ImagePass: image and icon records carry the corrected element path `Dom.PathOf`, not the element-first path of the source.
- Assets.SvgPass: SVG records carry the corrected element path `Dom.PathOf`, not the element-first path of the source.
- Assets.VideoPass: video records carry the corrected element path `Dom.PathOf`, not the element-first path of the source.
- Assets.AudioPass: audio records carry the corrected element path `Dom.PathOf`, not the element-first path of the source.
- Assets.MediaPass: document-link records carry the corrected element path `Dom.PathOf`, not the element-first path of the source.
- Visual.FindButtons: button records carry the corrected element path `Dom.PathOf`, not the element-first path of the source.
- Orchestrator.CloneService.InitialSnapshot: a failed record without a result would make the source raise. The service invariant rules such a record out, because every failed record is stored with its error.
- Orchestrator.CloneService.ProcessCloneRequest: the `ScrapeReturnedError` outcome matches the `"error" in scrape_data` branch. The real scraper never produces it, because it re-raises every failure (backend/app/scraper.py:111-113).
- Cloner.OptimizedFacts: an asset entry under a listed kind that is not a list is left as it is. In Python, `len` of such a value could raise or cut a dictionary differently.
- Orchestrator.CloneService.Submit: the new request id is a parameter rather than a fresh `uuid4`, so overwriting an existing id is allowed by the model.
