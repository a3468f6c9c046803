# online-notes in Dafny

A model of the core of *online-notes*. It is a static notes reader: a site that lists the Markdown, PDF and Word files kept under `posts/` as a folder tree and opens them in the browser. Beside each article it shows an outline sidebar. The model covers the following parts:

- **The content tree.** `build.js` scans the `posts` directory into the `posts.json` index. The loader reads that index, or builds the same tree from the GitHub contents API. It falls back to the last tree it fetched when GitHub fails. It also turns a post's path into the URL it is loaded from. These are the `ContentTree` and `Loader` modules.
- **The outline rule.** Flat headings in document order become a tree. Every heading hangs under the nearest earlier heading of smaller level. The Markdown outline and the Word outline share this rule. The module is `Outline`, and the source's stack algorithm is the method `BuildTree`.
- **The outline sidebar.** Its width can be dragged within [200, 500]. It can be collapsed, and both states are remembered in local storage. Its links are highlighted, and their ancestors expanded, on a click or on scroll. This is the `Toc` module.
- **The Word viewer.** A three-rule cascade finds the headings of a rendered `.docx` document. Each heading gets an outline level and an id. The viewer also has a zoom and a toolbar state. This is the `Word` module.
- **The PDF viewer.** Each bookmark's destination is resolved to a page, and a failed lookup falls back to page 1. The viewer highlights the bookmark for the current page and finds the page nearest the view's centre on scroll. It also handles paging, the page input, the keyboard, zoom, view modes and the toolbar state. These are the `PdfOutline` and `PdfViewer` modules.
- **The themes.** The presets, custom themes saved as JSON, the choice restored on the next visit, and `lightenColor`. This is the `Themes` module.

`Wrappers` holds `Option` and `Result`. `Text` holds the string helpers the modules share. Among them are decimal and hexadecimal writing and JavaScript's `parseInt`, with a proof that they undo each other.

The browser and the file system are parameters of the model:

- local storage is a `map<string, string>` field;
- the requests and their answers are arguments (for a directory listing: whether it succeeded and what it listed);
- the document's lookups and `JSON.parse` are function-valued arguments;
- the measured layout is a sequence of positions;
- `localeCompare` is an ordering `le`, assumed total and transitive wherever ordering is proved.

## Model

| member | source | states |
|---|---|---|
| Outline.BuildTree | js/toc.js:184-206 | The stack algorithm (pop while the top's level is at least the new one, hang under the top, push) builds exactly `Outline(hs)`. That tree read in pre-order is the input. Every child is deeper than its parent. Every heading's parent is the nearest earlier heading with a smaller level, or the root. |
| Outline.OutlineFacts | js/word.js:232-263 | The same tree facts for the Word outline's identical stack: pre-order gives back the headings, children are strictly deeper, and each parent is the nearest earlier shallower heading. |
| Outline.ForestSnoc | js/toc.js:188-203 | One more heading at the end of the document extends the outline along its last branch, under the deepest last node shallower than it. This is the step the loop's invariant rests on. |
| Outline.ForestPreorder | js/toc.js:184-206 | No heading is lost, duplicated or reordered: the pre-order of the outline of `hs[lo..hi]` is `hs[lo..hi]`. |
| Outline.ForestNested | js/toc.js:197-202 | At every depth a child's level is strictly greater than its parent's. |
| Outline.ForestParents | js/toc.js:197-202 | Each heading's parent in the outline is the nearest earlier heading in the range with a strictly smaller level, or the range's parent. |
| Toc.ClampWidthRange | js/toc.js:83-84 | The width clamp lands in [200, 500], keeps widths already in range, and sends the others to the nearer bound. |
| Toc.StoredWidthRoundTrip | js/toc.js:157-160 | A width in range that is stored as decimal text is read back by `parseInt` and the clamp as the same width. |
| Text.DecimalRoundTrip | js/toc.js:159 | `parseInt` of a natural number's decimal writing gives the number back. |
| Text.HexRoundTrip | js/themes.js:270-275 | `parseInt(…, 16)` of a natural number's hexadecimal writing gives the number back. |
| Text.Utf16Length | js/word.js:145 | A string's JavaScript `length` counts UTF-16 code units: between its number of characters and twice that, and zero only for the empty string. |
| Toc.TocPanel.constructor | js/toc.js:14-28 | Not resizing, default width 260, expanded, with the given storage. |
| Toc.TocPanel.StartResize | js/toc.js:65-77 | A drag starts at the pointer position, from the current width; nothing else changes. |
| Toc.TocPanel.DoResize | js/toc.js:80-88 | During a drag the width becomes the clamped start width plus the leftward movement, so it stays in [200, 500]. Outside a drag nothing changes. |
| Toc.TocPanel.StopResize | js/toc.js:91-104 | A drag ends and the width reached is stored under `tocWidth`. Outside a drag nothing changes. |
| Toc.TocPanel.SetTocWidth | js/toc.js:107-121 | The panel takes the given width; no other state changes. |
| Toc.TocPanel.Toggle | js/toc.js:123-142 | The collapsed state flips, and the new state is stored as `"true"`/`"false"` under `tocCollapsed`. |
| Toc.TocPanel.RestoreState | js/toc.js:144-162 | On a window of at most 768 pixels nothing changes. Otherwise a stored `"true"` collapses the panel, and a stored non-empty width is parsed and clamped into the width. |
| Toc.LastReached | js/toc.js:294-300 | The last heading whose top is at most 150 from the viewport top, and every later heading is below that line; `None` exactly when no heading is reached. |
| Toc.CurrentHeading | js/toc.js:289-300 | The scroll loop returns the last heading reached, and `None` exactly when every heading is below the line. |
| Toc.FirstLink | js/word.js:382 | The first link pointing at a target, and no earlier one does; `None` when no link does. |
| Toc.OutlineView.constructor | js/toc.js:164-263 | The rendered outline has one link per heading in pre-order with the heading's id as target. Each link's parent is the nearest earlier shallower heading. Nothing is highlighted, and every folder is open as the caller asks. |
| Toc.OutlineView.ExpandParents | js/toc.js:318-334 | Exactly the ancestors of the link are expanded in addition to what already was; links, parents and highlights are unchanged. |
| Toc.OutlineView.HighlightItem | js/toc.js:271-287 | For a non-empty target, the links highlighted are exactly those pointing at it, and the folders expanded are the old ones plus every ancestor of such a link. An empty target changes nothing. |
| Toc.OutlineView.HighlightOnScroll | js/toc.js:289-315 | When a heading is reached, the links to it stay or become highlighted and every other highlight is cleared. Only links that were not already highlighted expand their ancestors. When no heading is reached nothing changes. |
| Toc.OutlineView.HighlightFirst | js/word.js:374-390 | Every highlight is cleared and only the first link to the target is highlighted, with its ancestors expanded. Without such a link only the clearing happens. |
| Toc.OutlineView.UpdateHighlight | js/word.js:351-369 | On scroll in a Word document, among its `h1`…`h6` elements, the first link to the last heading reached is highlighted alone and its ancestors are expanded in addition to the folders already open. Nothing changes when no heading is reached. |
| Word.Filter | js/word.js:135-155 | The blocks kept are exactly the blocks of the input that pass the test. |
| Word.FilterAppend | js/word.js:135-155 | Filtering keeps document order and multiplicity: filtering two parts one after the other gives the two filtered parts one after the other. |
| Word.FilterSingle | js/word.js:135-155 | One block is kept alone exactly when it passes the test, and dropped otherwise. |
| Word.FilterFilter | js/word.js:135-180 | Filtering the kept blocks again by a second test is one filter by both tests. |
| Word.Detect | js/word.js:119-190 | Every detected heading is a block of the document. Its order and multiplicity are those of `Filter` by each rule's test, as `DetectCascade` states. |
| Word.DetectCascade | js/word.js:120-180 | Heading tags win when there are any. Otherwise the `p`/`div` blocks with a short text and a sign of heading style are chosen if any exist. Otherwise, among the short `p`/`div` blocks, those with a font more than 15% above their mean or a bold text under 100 characters. Each rule's result is the document's blocks filtered in order by that rule's combined test. Text lengths are counted in UTF-16 code units. |
| Word.DetectedBodyShort | js/word.js:135-180 | A detected block without a heading tag is a `p`/`div` whose text is non-empty and under 200 UTF-16 code units. |
| Word.Band | js/word.js:203-210 | A font size maps to level 1 to 4. Level 1 holds exactly when the size is at least 24, and level 4 exactly when it is under 18. |
| Word.BandMonotone | js/word.js:203-210 | A larger font never gets a deeper level. |
| Word.GeneratedIdsDistinct | js/word.js:198-201 | Generated ids `word-heading-<i>` of different indices differ. |
| Word.LevelOf | js/word.js:237-245 | A heading tag gives its own digit. A block without a tag or a `data-level` gets 3. |
| Word.Label | js/word.js:197-211 | In place on the detected headings: an id is kept when present and generated from the index otherwise. A block without a heading tag gets the band of its font size as its level. |
| Word.LabelledFacts | js/word.js:198-245 | After labelling, every heading has a non-empty id and a level between 1 and 6. A tagged heading keeps its tag's level, and any other heading has its font band. |
| Word.ExtractOutline | js/word.js:107-219 | The empty-outline notice appears exactly when no rule selects anything. Otherwise the detected headings are labelled, and the outline built from them has the outline rule's properties. |
| Word.ZoomedIn | js/word.js:89-92 | Zooming in never exceeds 3 and never shrinks a scale already at most 3. |
| Word.ZoomedOut | js/word.js:94-97 | Zooming out never goes below 0.5 and never grows a scale already at least 0.5. |
| Word.ZoomRoundTrip | js/word.js:89-97 | Zooming out undoes zooming in while neither bound is hit. |
| Word.WordViewer.constructor | js/word.js:5-7 | Scale 1, toolbar expanded, the given storage. |
| Word.WordViewer.ZoomIn | js/word.js:89-92 | The scale becomes `ZoomedIn` of the old scale, at most 3; nothing else changes. |
| Word.WordViewer.ZoomOut | js/word.js:94-97 | The scale becomes `ZoomedOut` of the old scale, at least 0.5; nothing else changes. |
| Word.WordViewer.ToggleToolbar | js/word.js:431-441 | The toolbar state flips and is stored under `wordToolbarCollapsed`. |
| Word.WordViewer.RestoreToolbarState | js/word.js:443-445 | The toolbar is collapsed exactly when `"true"` is stored. |
| Word.WordViewer.Cleanup | js/word.js:478-490 | The scale returns to 1; the toolbar state and storage are kept. |
| Word.ToolbarRoundTrip | js/word.js:440-444 | A toolbar state that was stored is the state restored. |
| PdfOutline.PageOf | js/pdf.js:80-81 | The page of an explicit destination is the page index plus one, and 1 when the lookup throws. It is always at least 1. |
| PdfOutline.NewPage | js/pdf.js:70-90 | A bookmark's new page is at least 1. The one exception: a named destination that resolves to null leaves the page as it was. |
| PdfOutline.NewPageOutcomes | js/pdf.js:70-90 | No destination gives page 1, and a throwing lookup gives page 1. A found destination gives the page index plus one, or page 1 when the page lookup throws. |
| PdfOutline.DisplayPage | js/pdf.js:121 | The page the outline shows is at least 1. It is the resolved page when that is set and positive, and 1 when it is unset. |
| PdfOutline.ResolveTree | js/pdf.js:68-95 | Resolving a bookmark keeps its title, destination and number of nested bookmarks. |
| PdfOutline.ResolveOutlinePages | js/pdf.js:68-95 | The loop, recursing into nested bookmarks, produces `ResolveList`: every bookmark resolved on its own. |
| PdfOutline.EntriesResolved | js/pdf.js:68-95 | Resolution reaches every bookmark at every depth and keeps their order. Each bookmark's page depends only on its own destination and old page, so one failed lookup affects no other bookmark. |
| PdfOutline.ResolvedPagesShown | js/pdf.js:85-90 | After resolution every bookmark keeps its title and shows a page of at least 1 (or its old page), and a bookmark without a destination shows page 1. |
| PdfViewer.Largest | js/pdf.js:213-220 | The largest outline page not after the current page; `None` exactly when every page is after it. |
| PdfViewer.LastAt | js/pdf.js:216-219 | The last entry with a given page; `None` when no entry has it. |
| PdfViewer.BestEntryIsGreatestLowerBound | js/pdf.js:209-222 | The entry highlighted has the greatest page at most the current page, and no later entry has that page or a larger one within the bound. Nothing is highlighted exactly when every page is after the current one. |
| PdfViewer.BestEntryExample | js/pdf.js:213-220 | Pages 1, 5 and 9 with the reader on page 7 highlight the entry for page 5. |
| PdfViewer.HighlightCurrent | js/pdf.js:200-233 | The loop over the outline entries picks `BestEntry`. |
| PdfViewer.Distance2 | js/pdf.js:642-645 | Twice the distance between a page's centre and the view's centre is zero exactly when the centres coincide. |
| PdfViewer.MinDistance | js/pdf.js:638-651 | The smallest distance over the pages: attained by some page and at most every page's; `None` exactly when there are no pages. |
| PdfViewer.FirstAt | js/pdf.js:646-650 | The first page at a given distance; `None` when none is. |
| PdfViewer.NearestIsFirstClosest | js/pdf.js:638-651 | The page chosen on scroll is at least as near the view's centre as every page, and strictly nearer than every page before it. |
| PdfViewer.NearestPage | js/pdf.js:628-651 | The loop picks the page of `Nearest`, the first closest page. |
| PdfViewer.ZoomedIn | js/pdf.js:379-383 | Zooming in multiplies by 1.2 or stops at 5. |
| PdfViewer.ZoomedOut | js/pdf.js:385-389 | Zooming out divides by 1.2 or stops at 0.3. |
| PdfViewer.ZoomRoundTrip | js/pdf.js:379-389 | Zooming out undoes zooming in while neither bound is hit. |
| PdfViewer.OutlinePages | js/pdf.js:117-121 | Every outline entry carries its display page, which is at least 1. |
| PdfViewer.PdfViewerState.constructor | js/pdf.js:5-21 | Page 1 of 0, scale 1.5, scroll mode, no document, no outline. The toolbar is collapsed exactly when `"true"` is stored. |
| PdfViewer.PdfViewerState.Open | js/pdf.js:28-36 | A loaded document sets the page count and returns to page 1. The rebuilt toolbar's page box reads `"1"`, which parses as the current page. |
| PdfViewer.FirstPageParses | js/pdf.js:289 | The page box's initial text `"1"` reads as page 1. |
| PdfViewer.PdfViewerState.ShowOutline | js/pdf.js:98-114 | The outline pages are the display pages of every bookmark in document order, and the highlight is `BestEntry` for the current page. |
| PdfViewer.PdfViewerState.UpdatePageInput | js/pdf.js:677-683 | The page input is rewritten only when it does not already parse as the current page. It is then rewritten with the current page's decimal writing, so it parses as the current page. |
| PdfViewer.PdfViewerState.Prev | js/pdf.js:327-338 | Past page 1 the page goes back one, and the input and highlight follow. On page 1 nothing changes. |
| PdfViewer.PdfViewerState.Next | js/pdf.js:340-351 | Before the last page the page advances one, and the input and highlight follow. On the last page nothing changes. |
| PdfViewer.PdfViewerState.PageInputChanged | js/pdf.js:354-367 | A typed page between 1 and the page count becomes current, with the highlight updated. Anything else rewrites the input with the current page. |
| PdfViewer.PdfViewerState.KeyDown | js/pdf.js:396-418 | The arrow keys are handled exactly when a document is open. In paged mode, left/up go back and right/down go forward within bounds, and nothing else moves the page. When the page moves, the page box and the highlight follow it. When it does not (no document, scroll mode, a bound, another key), the page box and the highlight stay as they were. |
| PdfViewer.PdfViewerState.ZoomIn | js/pdf.js:379-383 | The scale becomes `ZoomedIn` of the old scale; nothing else changes. |
| PdfViewer.PdfViewerState.ZoomOut | js/pdf.js:385-389 | The scale becomes `ZoomedOut` of the old scale; nothing else changes. |
| PdfViewer.PdfViewerState.SwitchViewMode | js/pdf.js:502-525 | The mode becomes the one asked for. Switching to the same mode changes nothing, and a real switch re-highlights the current page's entry. |
| PdfViewer.PdfViewerState.Scrolled | js/pdf.js:437-440 | With pages laid out, the current page becomes the page nearest the view's centre, and the input is rewritten only when the page changed. The highlight follows the current page. |
| PdfViewer.PdfViewerState.ToggleToolbar | js/pdf.js:474-491 | The toolbar state flips and is stored under `pdfToolbarCollapsed`. |
| PdfViewer.PdfViewerState.RestoreToolbarState | js/pdf.js:494-499 | A stored `"true"` collapses the toolbar; anything else leaves it as it was. |
| PdfViewer.PdfViewerState.Cleanup | js/pdf.js:732-747 | The document and outline are dropped: page 1 of 0 at scale 1.5. The view mode, input, toolbar state and storage are kept. |
| ContentTree.GetFileType | build.js:22-27 | A name ending in `.md`, `.pdf` or `.docx` gets that type, checked in that order; any other name gets none. |
| ContentTree.DisplayNameDropsExtension | build.js:15-17 | A file's title plus its type's extension is its name; a name of no supported type is its own title. |
| ContentTree.SortBy | build.js:37-41 | Sorting the entries is a permutation. |
| ContentTree.SortOrdered | build.js:37-41 | Under a total, transitive order the sorted entries are in order. |
| ContentTree.EntryBeforeOrder | build.js:37-41 | Folders first, then by name, is total and transitive whenever the name order is. |
| ContentTree.Join | build.js:45 | A child's path starts with its parent's path and a `/` when the parent's path is non-empty. |
| ContentTree.Listed | build.js:47-70 | An entry adds at most one node to the tree. |
| ContentTree.ListEntry | build.js:47-70 | Listing one entry (recursing into a folder) adds exactly `Listed`. |
| ContentTree.ScanDirectory | build.js:32-74 | The recursive scan loop builds exactly `Scan`: the entries in sorted order, each listed as `Listed` says. |
| ContentTree.ScanWellFormed | build.js:32-74 | The scanned tree is well formed at every level. Folders come before files, and within each kind the nodes are ordered by name. Every folder is non-empty. Every path is its parent's path joined with its name. Every file's title is its name without its extension. |
| ContentTree.ScanCountsEveryFile | build.js:43-71 | The tree holds exactly one file node per Markdown, PDF or Word file anywhere under the directory. |
| ContentTree.FileCountAppend | build.js:83-93 | Counting files is additive over concatenation. |
| ContentTree.CountFiles | build.js:83-93 | The counting loop returns the number of file nodes at every depth. |
| Loader.FilePath | js/loader.js:61 | A repository path under `posts/` loses exactly that prefix. |
| Loader.RepoFilePath | js/loader.js:61 | Stripping `posts/` from `posts/` plus a path gives the path back. |
| Loader.Then | js/loader.js:51 | The combined listing fails exactly when either part fails, and then with the first part's failure if it has one. Otherwise it holds the first part's nodes followed by the second's. |
| Loader.ThenMonoid | js/loader.js:37-88 | Combining listings step by step is associative, and an empty listing is neutral on either side, so how the loop groups its items does not matter. |
| Loader.Fetched | js/loader.js:50-87 | An item of a successful listing adds at most one node. |
| Loader.FetchEntriesFailed | js/loader.js:37-38 | Once a request has failed, the listing stays failed. |
| Loader.FetchGitHubDirectory | js/loader.js:36-91 | The recursive listing loop builds exactly `Fetch`. That is a failure when a request fails, and otherwise the sorted items, each listed as in the index. |
| Loader.ListItem | js/loader.js:50-87 | Listing one item (recursing into a directory) adds exactly `Fetched`. |
| Loader.DisksSort | js/loader.js:43-47 | Sorting the listing sorts it exactly as the build script sorts the same directory. |
| Loader.FetchedMatch | js/loader.js:50-87 | One item of a listing that mirrors the `posts` directory becomes the same node the build script makes. |
| Loader.FetchMatchesScan | js/loader.js:36-91 | A listing that mirrors the `posts` directory, with every request succeeding, gives exactly the tree the build script writes to `posts.json`. |
| Loader.FetchedTreeWellFormed | js/loader.js:16-24 | A tree fetched from GitHub is well formed, and it counts one file node per supported file. |
| Loader.RepoPathCounterexample | js/loader.js:51-56 | For `posts/a/b/x.md`, the listing as written puts folder `b` at `posts/a/b` while its file is at `a/b/x.md`. The corrected listing puts `b` at `a/b`. |
| Loader.LoadOutcome | js/loader.js:20-32 | A successful fetch is answered. After a failure the kept tree is answered, and the failure only when no tree is kept. |
| Loader.FailedLoadServesLastSuccess | js/loader.js:22-31 | After any run of loads, a failing load answers the tree of the last one that succeeded. |
| Loader.PostsStore.constructor | js/loader.js:22-23 | The store starts from the given kept tree and time. |
| Loader.PostsStore.LoadFromGitHub | js/loader.js:16-33 | A fetched tree is kept with its time and answered. A failure answers the kept tree, or fails when there is none. |
| Loader.PostsStore.LoadPostsTree | js/loader.js:135-141 | GitHub is used only when enabled with both an owner and a repository. Otherwise the local index is answered, or a missing-index error, and storage is left alone. |
| Loader.RawUrl | js/loader.js:97-99 | The raw GitHub URL ends with `/` and the file path. |
| Loader.LocalUrl | js/loader.js:101-104 | A local URL always starts with `posts/`, and a plain relative path is just prefixed. |
| Loader.LocalUrlIdempotent | js/loader.js:101-104 | Cleaning a local URL twice is the same as once: no doubled `posts/`. |
| Loader.LoadPost | js/loader.js:94-132 | PDF and Word files answer their URL without fetching. A Markdown post answers the fetched text, and it fails exactly when that fetch fails. |
| Loader.PostMatchesFileType | js/loader.js:107-131 | A file node of the tree opens as its own type: PDF as PDF, Word as Word, Markdown with its fetched text. |
| Themes.ToInt32 | js/themes.js:272-274 | JavaScript's 32-bit conversion: in range, congruent modulo 2^32, identity on small non-negative numbers. |
| Themes.Clamp | js/themes.js:272-274 | A channel is clamped into [0, 255], unchanged when already inside. |
| Themes.ColourValue | js/themes.js:270 | The parsed colour is a signed 32-bit number, 0 when it does not parse. |
| Themes.Channels | js/themes.js:272-274 | Each moved channel lies in [0, 255]. |
| Themes.WrittenFormat | js/themes.js:275 | Three channels are written as `#` and two lower-case hex digits for each. |
| Themes.LightenColorFormat | js/themes.js:269-276 | Whatever the input, `lightenColor` answers a 7-character `#rrggbb` of lower-case hex digits. |
| Themes.ChannelsOfHex | js/themes.js:270-274 | For a `#rrggbb` colour, each channel is its two-digit pair moved by the amount and clamped. |
| Themes.ChannelsMonotone | js/themes.js:271-274 | A larger amount never darkens any channel. |
| Themes.LightenColorZero | js/themes.js:269-276 | Moving a `#rrggbb` colour by 0 gives the same colour in lower case. |
| Themes.Quote | js/themes.js:172 | A JSON string is quoted, and what is between the quotes reads back as the string, so different strings are written differently. |
| Themes.UnescapeEscapeChar | js/themes.js:172 | Each character's JSON escape reads back as that character, with its length. |
| Themes.UnescapedEscaped | js/themes.js:172 | Reading back a string's JSON escaping gives the string. |
| Themes.Stringify | js/themes.js:172 | The saved custom theme is a JSON object: it starts with `{` and ends with `}`. |
| Themes.InitChoice | js/themes.js:109-123 | A preset is applied only if it is a real preset. A custom theme is applied only with the variables its saved JSON parses to. |
| Themes.PresetRestored | js/themes.js:120-121 | A saved preset is applied again on the next visit. |
| Themes.CustomRestored | js/themes.js:113-116 | A saved custom theme whose JSON reads back is applied again on the next visit. |
| Themes.ThemeManager.constructor | js/themes.js:106 | The current theme starts as `light`. |
| Themes.ThemeManager.ApplyTheme | js/themes.js:131-158 | A preset becomes current and is saved under `theme`; an unknown name changes nothing. |
| Themes.ThemeManager.ApplyCustomTheme | js/themes.js:161-177 | The theme becomes `custom`, and its variables are saved as JSON under `theme`. |
| Themes.ThemeManager.Init | js/themes.js:109-128 | The saved choice is applied as `InitChoice` decides: nothing, a preset (`light` when custom JSON fails to parse), or the custom variables. |

## Left out

- Rendering and the DOM: the outline's HTML (`renderTree`, `buildTOCHtml`, `renderTOCTree`), the viewers' markup, loading and error screens, `escapeHtml`, icons, titles and CSS writes. The model keeps only the state these read or write. Trees are values, not DOM nodes, so no aliasing is modelled.
- The external renderers: marked, highlight.js, PDF.js page rendering and docx-preview. The PDF document's `getOutline`, `getDestination` and `getPageIndex` are parameters.
- Network, file system, clock and storage access are parameters: `fetch`, `fs.readdirSync`, `Date.now`, `localStorage`, and the write of `posts.json` with its console messages.
- Timing and concurrency: scroll throttling, `setTimeout`, smooth scrolling and the order in which awaited promises settle. `scrollIntoView` is left out.
- `JSON.parse` is a parameter. The parse of `posts.json` and of the kept tree is not modelled; those trees are values.
- `localeCompare(…, 'zh-CN')` is the ordering parameter `le`. Locale collation is not modelled.
- Floating point: scales and positions are exact reals or integers. Rounding of `0.1` steps, `Math.round` on zoom labels, `parseFloat` of computed styles and `Infinity` are not modelled.
- `Themes.LightenColor` takes the amount `Math.round(2.55 * percent)` as its integer argument, because the rounding of the float product is left out.
- `Text.ParseInt` reads digits with unbounded precision. Numbers beyond 2^53 lose no precision here, unlike JavaScript.
- `Themes.Stringify` models only string-valued colour variables, as the custom-theme form produces.
- `fitToWidth` (both viewers), Word's `updateZoom` transform and the PDF canvas sizing: they read measured layout and write only presentation.
- `WordRenderer.render` and `PDFRenderer.render`/`extractOutline` beyond the state they set are left out: library checks and the promise chains.
- The theme UI is left out: `updateThemeIcon`, `renderThemeList`, `bindEvents`, `updateThemeListSelection` and the highlight.js stylesheet swap.
- `js/app.js` and `js/config.js` are not part of this model. Routing and the sidebar file tree are presentation, and the configuration is the `Config` value.
- PDF `expandTOCParents` is a no-op as written: the highlighted item's parent element is the inner `ul.toc-list`, never a `toc-children` list, so its loop stops at once. The model's PDF highlight expands nothing.
- Toc.TocPanel.StopResize: the width stored is the panel's width field, standing for the rendered `offsetWidth`.
- PdfOutline.ResolveOutlinePages: the bookmarks are resolved into a new tree rather than updated in place.
- Loader.FetchGitHubDirectory, Loader.ListItem, Loader.PostsStore.LoadFromGitHub, Loader.PostsStore.LoadPostsTree and Loader.FetchedTreeWellFormed: model the corrected nesting of subdirectory paths; the code as written is `Loader.Fetch` with `RepoPath` (see Findings).
- Toc.OutlineView.UpdateHighlight takes the document's `h1`…`h6` elements as its argument, as the scan does. A Word outline found by the second or third rule has no such elements, so it never gets a scroll highlight; the model does not tie the argument to the detected blocks.
- The PDF keyboard handler is added again on every render and never removed. After n documents one arrow press moves n pages. PdfViewer.PdfViewerState.KeyDown models one handler.
- Themes.InitChoice and Themes.ThemeManager.ApplyTheme accept only the six presets. The source's lookup `this.themes[saved]` also finds inherited object members such as `toString`, after which `Object.entries` throws; that failure is not modelled.
- Toc.OutlineView.HighlightFirst: the source builds a CSS selector from the heading id, so an id containing `"` makes the lookup throw after every highlight was cleared. The model finds the link by comparing ids.
- A Word block's text is taken already trimmed: `textContent.trim()` is not modelled. Its length is counted in UTF-16 code units (`Text.Utf16Length`), as JavaScript's `length` does. `parseInt` skips JavaScript's white-space and line-terminator characters (`Text.IsSpace`).

## Findings

| source | as written | input that shows it | evidently intended | confidence | as-written member | corrected member |
|---|---|---|---|---|---|---|
| js/loader.js:51-56 | a subdirectory is listed with `item.path` (its repository path, starting with `posts/`) as the base of its own folders | the repository file `posts/a/b/x.md`: folder `b` gets path `posts/a/b`, while its file gets `a/b/x.md` and the build script gives `b` the path `a/b` | pass the folder's own tree path (`basePath/name`), so the GitHub tree equals the `posts.json` tree | not executed | Loader.RepoPathCounterexample | Loader.FetchMatchesScan |
