# apasnap, modelled in Dafny

apasnap is a browser gallery for open web directories. You type the URL of a
directory. The application checks that the URL is safe to fetch. It then
tries an `apasnap.json` manifest in that directory. If the manifest gives no
items, it scrapes the Apache autoindex page, either through a chain of CORS
proxies ("Turbo Proxy") or directly. The images and videos it finds are
shown in a masonry gallery, a timeline scrubber and a full-screen lightbox.

This project models the logic of that pipeline and of the views:

- `Parser`: the extension classifier, the autoindex listing scraper, and the
  manifest converter.
- `Validator`: the target-URL validator.
- `ImageOptimizer`: the wsrv.nl image-proxy rewriting.
- `App`: URL normalisation, the manifest-then-page load, the proxy chain, the
  error messages, and the application state the load updates.
- `ItemView`: the filtered and sorted list the gallery shows.
- `Gallery`: column breakpoints, paging, round-robin columns, and the
  thumbnail fallback of a tile.
- `TimelineScrubber`: the marker-density rule and the scroll spy.
- `Lightbox`: navigation, the swipe gesture, zoom tracking, and the display
  URL.

`Wrappers`, `Text` and `Types` hold `Option`, the string operations of
JavaScript the code relies on, and the `MediaItem` record.

The scraper and the proxy chain are loops in the source. Here they are
methods with loop invariants, each proved equal to a specification function:
`Listing` for the scraper and `Chain` for the proxy chain. The properties are
then proved about those functions. Component state becomes classes whose
methods state the whole new state:
`AppState`, `GalleryView`, `GalleryItem`, `Scrubber` and `LightboxView`.

The browser's services are parameters. `App.Env` bundles them: URL parsing as
`new URL` does it, `encodeURIComponent`, `fetch` (one response per URL), the
JSON reader, the anchors of the parsed document, `Date.now()` and
`decodeURIComponent`.

Two views need placement inputs. The lightbox takes the window width. The
scroll spy takes the window height and the tops of the marker elements.

## Model

| member | source | states |
|---|---|---|
| Parser.LastSegment | services/parser.ts:11 | the segment is the dot-free suffix after the last dot, or the whole name when it has no dot |
| Parser.LastSegmentUnique | services/parser.ts:11 | those three facts determine the segment |
| Parser.MediaTypeOfLastExtension | services/parser.ts:10-19 | only the extension after the last dot decides the type, and it is compared in lower case |
| Parser.MediaTypeWithoutDot | services/parser.ts:11-18 | a name without a dot is classified by the whole name |
| Parser.MediaTypeIgnoresCase | services/parser.ts:11 | classification is insensitive to ASCII case |
| Parser.MediaTypeOfPhotoJpg | services/parser.ts:4-19 | `photo.JPG` is an image |
| Parser.MediaTypeOfLastOfSeveralDots | services/parser.ts:4-19 | `clip.final.MP4` is a video |
| Parser.MediaTypeOfReportPdf | services/parser.ts:4-19 | `report.pdf` is unknown |
| Parser.CleanBase | services/parser.ts:32 | the cleaned base always ends with `/`: unchanged if it did, else exactly one `/` appended |
| Parser.CleanBaseIdempotent | services/parser.ts:89 | cleaning a cleaned base changes nothing |
| Parser.StripLeadingSlash | services/parser.ts:47 | exactly one leading `/` is removed when present |
| Parser.LinkUrl | services/parser.ts:46-50 | an href starting with `http` is kept verbatim; any other is the clean base followed by the href without its leading slash |
| Parser.MetadataNeedsTwoWords | services/parser.ts:59-66 | the text after an anchor yields a date exactly when it holds at least two words; with fewer, date and size are both empty |
| Parser.MetadataOfAutoindexLayout | services/parser.ts:60-65 | text `date time size` with any white space around gives date `date time` and that size |
| Parser.MetadataExample | services/parser.ts:60-65 | ` 2023-01-01 10:00 1.2M` plus a line break gives date `2023-01-01 10:00` and size `1.2M` |
| Parser.ListingIdInjective | services/parser.ts:69 | two listing ids are equal only when their anchor indices are equal |
| Parser.LinkItemFacts | services/parser.ts:47-75 | an item from one anchor is an image or video with a resolved URL and that anchor's id |
| Parser.KeptLink | services/parser.ts:47-75 | a kept media anchor gives the item built from the cleaned href, the resolved URL and the metadata |
| Parser.OutcomeAt | services/parser.ts:34 | the outcome at position `i` is that of anchor `i`, handled with its own index |
| Parser.ParseApacheDirectoryHtml | services/parser.ts:24-80 | the loop's result equals `Listing`: each anchor's outcome, gathered in document order, or failure when a name does not decode |
| Parser.GatherExactly | services/parser.ts:68-79 | a successful gather is exactly the items of the item-carrying anchors, in increasing order |
| Parser.GatherFails | services/parser.ts:70 | gathering fails exactly when some anchor's name fails to decode |
| Parser.ListingItems | services/parser.ts:34-79 | a listing has at most one item per anchor and only images and videos; URLs are absolute or under the clean base; ids are distinct |
| Parser.ListingFails | services/parser.ts:70 | the listing fails exactly when some kept media anchor's name cannot be decoded |
| Parser.GatherWithoutItems | services/parser.ts:54 | when no anchor gives an item the result is the empty list, not a failure |
| Parser.ListingOfNoAnchors | services/parser.ts:29-34 | a document without anchors gives the empty list |
| Parser.PhotoAnchor | services/parser.ts:39-52 | the anchor `photo.JPG` passes the skip rules, keeps its href and is an image under the base |
| Parser.ListingAutoindexExample | services/parser.ts:34-79 | a one-anchor listing of `https://s.com/p/` gives exactly the expected image with its date and size |
| Parser.EntryUrl | services/parser.ts:96-99 | a non-empty relative manifest URL goes under the clean base with one leading `/` removed; any other URL is kept |
| Parser.ManifestItems | services/parser.ts:91-111 | converted entries never include an unknown type |
| Parser.ParseManifestJson | services/parser.ts:86-111 | a document with no `items` array gives `[]`; every item is an image or a video |
| Parser.KeptIndicesExactly | services/parser.ts:101-111 | the surviving positions are exactly the entries of known type, in increasing order |
| Parser.ManifestItemsExactly | services/parser.ts:91-111 | the result is the surviving entries in manifest order, each converted with its original index (id, `File <index>`) |
| Parser.ManifestExample | services/parser.ts:86-111 | `{items: [{name: "a.jpg", url: "a.jpg"}]}` under `https://x.com/dir` gives one image at `https://x.com/dir/a.jpg` |
| Validator.AnyMatchesExists | services/validator.ts:42 | `some` over the patterns holds exactly when one pattern matches |
| Validator.IsValidTargetUrl | services/validator.ts:25-50 | the result has an error exactly when it is not valid; a valid URL passed every check |
| Validator.ValidationIsFirstFailure | services/validator.ts:29-49 | the error is the message of the first failing check, and valid means no check fails |
| Validator.ProtocolCheckedFirst | services/validator.ts:30-32 | a protocol other than `http:`/`https:` is rejected with its message whatever the hostname |
| Validator.LocalNameRejected | services/validator.ts:35-37 | a local name, compared in lower case, is rejected with the local-address message |
| Validator.MalformedRejected | services/validator.ts:47-49 | an unparseable URL is rejected as malformed |
| Validator.Block172Numeric | services/validator.ts:10 | the 172 pattern matches exactly when the second octet is written as a number from 16 to 31 |
| Validator.LexicalPrefixOnly | services/validator.ts:39-44 | `10.example.com` is rejected as a private network |
| Validator.IsPrivateTen | services/validator.ts:9 | any hostname starting with `10.` is private |
| Validator.NotLocal | services/validator.ts:17-23 | a dotted hostname is never one of the local names |
| Validator.Block172Edges | services/validator.ts:10 | `172.16.0.1` and `172.31.255.255` match the 172 block; `172.15.0.1` and `172.32.0.1` do not |
| Validator.Only172Applies | services/validator.ts:7-15 | for `172.` hostnames only the 172 block can match |
| Validator.Outside172Accepted | services/validator.ts:10 | `172.15.0.1` and `172.32.0.1` are accepted |
| ImageOptimizer.ProxyRequestOptimized | services/imageOptimizer.ts:13-22 | every rewritten URL contains `wsrv.nl` |
| ImageOptimizer.ProxyRequestParts | services/imageOptimizer.ts:13 | a request can be read back into its endpoint, encoded URL and query suffix |
| ImageOptimizer.ThumbnailUrl | services/imageOptimizer.ts:7-14 | guarded URLs are returned unchanged; others become a 500-pixel WebP proxy request for the encoded URL; the result always passes the guard |
| ImageOptimizer.FullScreenUrl | services/imageOptimizer.ts:17-23 | the same guard; otherwise a quality-85 WebP proxy request; the result always passes the guard |
| ImageOptimizer.ThumbnailIdempotent | services/imageOptimizer.ts:9 | thumb(thumb(u)) = thumb(u) |
| ImageOptimizer.FullScreenIdempotent | services/imageOptimizer.ts:18 | full(full(u)) = full(u) |
| ImageOptimizer.FullScreenOfThumbnail | services/imageOptimizer.ts:9-18 | full(thumb(u)) = thumb(u) and thumb(full(u)) = full(u) |
| ImageOptimizer.SameEncodedSource | services/imageOptimizer.ts:13-22 | both rewrites of a URL carry the same encoded source |
| ImageOptimizer.BlobUntouched | services/imageOptimizer.ts:9-18 | `blob:` URLs are never rewritten |
| App.NormalizeUrl | App.tsx:38-44 | the result is the trimmed input, prefixed with `https://` exactly when it lacks a case-insensitive http(s) scheme; the result has a scheme and is trimmed |
| App.SchemePrefixKept | App.tsx:40-41 | the prefixed string passes the scheme test |
| App.NormalizeIdempotent | App.tsx:38-44 | normalising twice is normalising once |
| App.ManifestUrl | App.tsx:75 | the manifest URL is the cleaned directory URL followed by `apasnap.json` |
| App.ProxyUrls | App.tsx:103-108 | two transports, CorsProxy.io first, then AllOrigins |
| App.Responses | App.tsx:114 | transport `i` answers with the response to its own URL |
| App.FetchHtmlViaProxy | App.tsx:102-133 | the loop's result equals `Chain` over the transports' responses, and the URLs requested are the first `Tried` transports in order |
| App.ChainStopsAtFatal | App.tsx:116-128 | a 401/403 ends the chain with that error and no later transport is asked |
| App.ChainFirstPage | App.tsx:112-122 | the first transport returning an ok page decides the result |
| App.ChainExhausted | App.tsx:112-132 | when every transport fails non-fatally, all are asked and the last error is thrown |
| App.ProxyChainNeverEmpty | App.tsx:110-132 | the initial "no proxy worked" error is never the one thrown |
| App.ProxyErrorMessage | App.tsx:138-146 | 401 maps to the password message and 403 to the forbidden one, each exactly; anything else to the generic proxy message |
| App.FinishErrorOrItems | App.tsx:163-168 | after a scrape, an error exists exactly when the list is empty |
| App.LoadRefused | App.tsx:63-68 | a refused URL ends the load with the validator's error and nothing requested |
| App.LoadFromManifest | App.tsx:84-96 | a non-empty manifest ends the load in manifest mode with one request |
| App.LoadFromPage | App.tsx:96-161 | an empty manifest leads to the proxy or the direct page scrape |
| App.ErrorOrItems | App.tsx:163-178 | every load ends with an error or with items, never both and never neither |
| App.InvalidNotFetched | App.tsx:63-68 | no fetch happens for a refused URL and the list stays empty |
| App.ManifestFirst | App.tsx:74-96 | the manifest is requested first; manifest mode holds exactly when it gave items, and then nothing else is requested |
| App.OnlyMedia | App.tsx:84-161 | every item of a load is an image or a video |
| App.ProxyAuthScrape | App.tsx:114-142 | when the first proxy answers 401 or 403, the scrape fails with the matching message after that single request |
| App.AuthStopsChain | App.tsx:114-142 | a 401 or 403 from the first proxy is reported as such and the second proxy is never asked |
| App.DirectFailureHint | App.tsx:150-159 | in direct mode a failed page fetch gives the Turbo Proxy hint after exactly two requests |
| App.FallbackNeverShown | App.tsx:63-65 | the fallback message "URL invalide" never appears, since every refusal has its own message |
| App.FinishMessage | App.tsx:163-164 | a scrape's error is its own message or the no-media message |
| App.ProxyScrapeMessages | App.tsx:138-146 | a failed proxy scrape reports one of the three proxy-mode messages |
| App.LoadManifest | App.tsx:74-93 | the manifest stage makes one request and swallows every failure as `[]` |
| App.ScrapeViaProxy | App.tsx:135-146 | the proxy stage equals `ProxyScrape`: chain, parse, errors mapped to messages |
| App.ScrapeDirect | App.tsx:150-159 | the direct stage equals `DirectScrape` |
| App.RunLoad | App.tsx:62-178 | the validation, manifest, scrape and final-message sequence reaches `LoadOutcome` |
| App.AppState.constructor | App.tsx:14-31 | empty list, no error, proxy enabled; loading exactly when opened with a `url` parameter |
| App.AppState.SetProxyEnabled | App.tsx:29 | the switch changes only the proxy flag |
| App.AppState.StartLoading | App.tsx:56-60 | a load starts by showing the spinner and clearing items, error, proxy and manifest flags |
| App.AppState.Show | App.tsx:163-180 | the outcome is shown; the loaded URL is recorded only when there are items; the spinner is hidden |
| App.AppState.HandleLoadUrl | App.tsx:54-182 | the new state and the URLs requested are those of `LoadOutcome` for the normalised URL; `loadedUrl`/`lastValidUrl` change only on success |
| ItemView.CompareText | App.tsx:250-251 | the name comparison returns -1, 0 or 1 |
| ItemView.CompareTextAntisymmetric | App.tsx:250-251 | swapping the names negates the comparison |
| ItemView.CompareTextZero | App.tsx:250-251 | two names compare equal exactly when they are the same |
| ItemView.DateValue | App.tsx:256-257 | a missing or empty date is 0; any other is its time value |
| ItemView.CompareTotal | App.tsx:249-262 | of two items under any sort key, one may go first |
| ItemView.ComparatorAntisymmetric | App.tsx:249-262 | the comparator handed to `sort` for any key is antisymmetric: when `a` goes after `b`, `b` goes before `a` |
| ItemView.InsertFacts | App.tsx:249-262 | inserting into an ordered list adds the item and keeps it ordered |
| ItemView.SortFacts | App.tsx:249-262 | for any antisymmetric comparator, the sort is a permutation of its input and leaves it ordered under that comparator |
| ItemView.UnsortedKeepsOrder | App.tsx:259-262 | an unknown key leaves the order unchanged |
| ItemView.FiltersSelect | App.tsx:242-248 | the type filter then the query filter keep exactly the shown items, in order |
| ItemView.SelectedMembers | App.tsx:242-248 | an item is selected exactly when it is loaded, has the filtered type and its lowercased name contains the lowercased query |
| ItemView.ProcessedItemsFacts | App.tsx:239-266 | the projection is a permutation of the selected items, ordered under the key, and holds exactly the loaded items that pass the filters |
| ItemView.ProcessedUnsorted | App.tsx:259-262 | with an unknown key the projection is the selection in original order |
| ItemView.UndatedSortAsZero | App.tsx:256-257 | a missing date and an empty date compare equal in both date sorts |
| Gallery.ColumnCount | components/Gallery.tsx:20-26 | the column count is between 2 and 6 |
| Gallery.ColumnCountMonotone | components/Gallery.tsx:20-26 | a wider window never has fewer columns |
| Gallery.ColumnFacts | components/Gallery.tsx:68-77 | column `c` holds exactly the visible items whose index is `c` mod `n`, each with its own index, in strictly increasing order |
| Gallery.Distribute | components/Gallery.tsx:68-77 | the loop builds `n` columns, each equal to `Column` over all visible items |
| Gallery.LoadMoreReachesEnd | components/Gallery.tsx:50 | enough page loads render the whole list and then stay there |
| Gallery.GalleryView.constructor | components/Gallery.tsx:38 | one page of 48 is rendered at first |
| Gallery.GalleryView.SetItems | components/Gallery.tsx:42-44 | new items reset the count to 48 |
| Gallery.GalleryView.LoadMore | components/Gallery.tsx:50 | the count becomes min(count + 48, length); it never exceeds the length and grows while items remain |
| Gallery.GalleryView.ScrollToItem | components/Gallery.tsx:86-87 | an index at or past the count sets it to min(index + 50, length), else nothing changes; an existing item asked for is then rendered |
| Gallery.GalleryView.VisibleItems | components/Gallery.tsx:65 | the visible items are the first min(count, length) items |
| Gallery.GalleryView.Columns | components/Gallery.tsx:68-77 | the layout deals the visible items round-robin over the columns |
| Gallery.AllRenderedWithoutLoader | components/Gallery.tsx:122 | once the loader is gone every item is rendered |
| Gallery.InitialTile | components/Gallery.tsx:138-141 | an image starts on its thumbnail, anything else on its own URL, without error |
| Gallery.ProxiedImageNeverFails | components/Gallery.tsx:144-150 | as written, an image whose URL names `wsrv.nl` never reaches the error state however often it fails |
| Gallery.AtMostOneFallback | components/Gallery.tsx:144-150 | with the corrected handler, two failures always show the error state |
| Gallery.ThumbnailFallsBack | components/Gallery.tsx:138-147 | the first failure of a rewritten thumbnail switches to the original URL without error |
| Gallery.CorrectionAgrees | components/Gallery.tsx:144-150 | the corrected handler behaves as written for every URL that does not name `wsrv.nl` |
| Gallery.GalleryItem.constructor | components/Gallery.tsx:138-142 | the tile starts in its initial state, not loaded |
| Gallery.GalleryItem.HandleError | components/Gallery.tsx:144-150 | a failure moves the tile by the corrected fallback rule |
| Gallery.GalleryItem.HandleLoad | components/Gallery.tsx:169 | a load marks the tile loaded and changes nothing else |
| TimelineScrubber.Labels | components/TimelineScrubber.tsx:26-33 | an item without a date or with an empty date has no labels; others have the formatter's labels |
| TimelineScrubber.BuildMarkers | components/TimelineScrubber.tsx:19-61 | the loop's markers equal `Markers`; no items give no markers |
| TimelineScrubber.VisitPushes | components/TimelineScrubber.tsx:35-54 | each item pushes at most one marker, for itself, labelled and spaced by the rule |
| TimelineScrubber.ScanWellFormed | components/TimelineScrubber.tsx:25-58 | markers point at dated items in increasing order; DATE markers carry the day; others carry the time, stand at least 3 after the previous marker, and are TIME exactly when the gap exceeds 20 |
| TimelineScrubber.ScanLastDay | components/TimelineScrubber.tsx:23-43 | the last day kept is that of the latest DATE marker, "" before the first |
| TimelineScrubber.UndatedHasNoMarker | components/TimelineScrubber.tsx:26-30 | an item with no usable date gets no marker |
| TimelineScrubber.MarkersIncrease | components/TimelineScrubber.tsx:25-54 | marker indices strictly increase |
| TimelineScrubber.NothingBeforeFirstDate | components/TimelineScrubber.tsx:23-30 | before the first dated item there are no markers and the last day is "" |
| TimelineScrubber.FirstDatedIsDate | components/TimelineScrubber.tsx:35-43 | with a non-empty day label the first dated item is the first marker, a DATE marker |
| TimelineScrubber.PrefixKept | components/TimelineScrubber.tsx:25-58 | later items only append markers |
| TimelineScrubber.SameDayIsNotDate | components/TimelineScrubber.tsx:35-53 | an item repeating the last day never becomes a DATE marker |
| TimelineScrubber.ActiveIndex | components/TimelineScrubber.tsx:65-80 | the result is the last marker whose element is above the scan line, or 0 if there is none (`IsActive`) |
| TimelineScrubber.ActiveUnique | components/TimelineScrubber.tsx:65-80 | the scan line determines the active marker: at most one index satisfies `IsActive` |
| TimelineScrubber.Scrubber.constructor | components/TimelineScrubber.tsx:11-61 | the markers are built from the items and the first marker is active |
| TimelineScrubber.Scrubber.HandleScroll | components/TimelineScrubber.tsx:65-81 | the new active index is the last marker above the line at 40% of the window height, or 0 when none is (`IsActive`) |
| Lightbox.SwipeStep | components/Lightbox.tsx:104-110 | the step is +1 exactly when the drag goes left past a fifth of the width and a next item exists, -1 exactly when it goes right past that threshold and a previous item exists, and 0 otherwise |
| Lightbox.SmallDragStays | components/Lightbox.tsx:104-110 | a drag within a fifth of the width changes nothing |
| Lightbox.DragOffset | components/Lightbox.tsx:90-98 | the offset is 0.3 of the travel exactly when dragging right at the first item or left at the last, and the travel itself otherwise; never larger, same sign |
| Lightbox.EdgesResist | components/Lightbox.tsx:91-95 | dragging before the first or past the last item is damped to 0.3 |
| Lightbox.LightboxView.constructor | components/Lightbox.tsx:15-33 | the viewer opens on the given index, unzoomed, loading, not dragging |
| Lightbox.LightboxView.HandleNext | components/Lightbox.tsx:37-47 | moves forward only before the last item and resets the view; otherwise nothing changes; a valid index stays valid |
| Lightbox.LightboxView.HandlePrev | components/Lightbox.tsx:49-59 | moves back only after the first item and resets the view; otherwise nothing changes; a valid index stays valid |
| Lightbox.LightboxView.ResetView | components/Lightbox.tsx:40-45 | the reset: loader on, optimised image, menu closed, scale 1, unzoomed, offset 0 |
| Lightbox.LightboxView.HandleTouchStart | components/Lightbox.tsx:62-69 | ignored when zoomed past 1.05 or with several touches; otherwise records the start point and starts dragging, every other field unchanged |
| Lightbox.LightboxView.HandleTouchMove | components/Lightbox.tsx:71-99 | ignored unless tracking; a mostly vertical move cancels the drag with offset 0; otherwise the offset is `DragOffset` of the travel; index, start point, scale, zoom, loader, fallback and menu unchanged |
| Lightbox.LightboxView.HandleTouchEnd | components/Lightbox.tsx:101-116 | the index moves by `SwipeStep`; offset, dragging and start point are cleared; a move resets the view, no move keeps scale, zoom, loader, fallback and menu; a valid index stays valid |
| Lightbox.LightboxView.HandleTransformed | components/Lightbox.tsx:277-280 | the scale is recorded and the zoomed flag is exactly scale > 1.01; every other field unchanged |
| Lightbox.LightboxView.DisplayUrl | components/Lightbox.tsx:132-136 | videos and images after failure use their own URL; other images use the full-screen rewrite, which is optimised |
| Lightbox.LightboxView.HandleError | components/Lightbox.tsx:138-142 | a failure sets the original-image flag and changes no other field; a second failure changes nothing |
| Lightbox.OriginalAfterError | components/Lightbox.tsx:132-142 | after a failure the display URL is the item's own URL |
| Lightbox.DisplayUrlStable | components/Lightbox.tsx:132-135 | an optimised display URL is not rewritten again |

## Left out

- The DOM is left out. A parsed document is given as its anchors: the `href`
  attribute, the text content, and the text of the following node when it is
  a text node. `DOMParser` and `querySelectorAll` are not modelled.
- Network I/O is abstract. `fetch` is a function from URL to response, so
  the same URL always gives the same response. `res.text()` and `res.json()`
  are assumed to succeed on an ok response. An unreadable manifest body is
  `parseJson` giving `None`.
- Concurrency is not modelled. This covers the asynchronous ordering of
  overlapping loads and React's batching of state updates. `HandleLoadUrl`
  applies the reset, then the whole load, then the outcome, as one sequence.
- URL parsing (`new URL`) is a parameter returning protocol and hostname, or
  `None` where it throws. `encodeURIComponent` and `decodeURIComponent` are
  parameters too; `None` from the decoder models its `URIError`.
- Dates are abstract. `Date.now()` is a clock indexed by anchor or entry
  position. `new Date(d).getTime()` is an integer-valued parameter. The
  French day and time labels are a parameter giving `None` for an
  unparseable date.
- ItemView.DateValue: a non-empty unparseable date gives NaN in the source.
  NaN makes the comparator inconsistent. This is left out, so `timeOf` is
  total.
- ItemView.CompareText: `localeCompare` is taken as lexicographic order of
  character codes.
- `toLowerCase` is ASCII-only. Unicode case folding is not modelled.
- ItemView.ProcessedItems: the in-place `Array.prototype.sort` on a copy is
  modelled as a stable insertion sort on a sequence value. JavaScript's sort
  is stable, but its algorithm and its in-place updates are not modelled.
- Parser.Entry: manifest entries are typed. Their `url` is a string and
  their `type` is one of the three media types or absent. Entries whose type
  is some other string, or whose `url` is missing or not a string, are not
  modelled.
- In the HTML listing, `size` and `date` are always strings, empty when
  absent. The model writes them as `Some("")`. Manifest items keep `None`
  where the entry had no such field.
- Validator works on the hostname string it is given. IPv6 hostnames come
  bracketed in real URLs, so `fc00:` and `fe80:` never match there. The
  model does not reproduce the brackets.
- `history.pushState` and updating the page `url` parameter are left out.
  So are `handleReset`, `handleDemo`, `handleShare`, `generateDemoData`
  (random sizes), the EXIF enrichment (services/exif.ts), the map view, and
  the purely presentational components.
- In the lightbox, downloads, sharing, the clipboard, `window.open`,
  keyboard shortcuts and the pan/zoom library are left out. The library only
  enters as the scale it reports.
- In the gallery and timeline, `IntersectionObserver`, `scrollIntoView`,
  `setTimeout`, hover state and `getBoundingClientRect` are left out. Element
  tops are an input of the scroll spy. The loader is modelled by
  `GalleryView.LoaderShown`, and `LoadMore` is the observer's callback.
- Gallery.GalleryItem.HandleError: the stateful tile follows the corrected
  fallback rule `Gallery.OnError`, which falls back only when the source
  differs from the item's own URL. It does not follow
  components/Gallery.tsx:144-150 as written. The as-written rule is
  `Gallery.OnErrorAsWritten`, and the difference is the entry under
  "Findings".
- Lightbox.SwipeStep: the "exactly -1" direction is stated only for a
  non-negative window width. With a negative width both thresholds can be
  passed at once, and the forward branch, checked first, wins.
- The empty-list and fewer-than-ten-items render rules are predicates
  (`GalleryView.Renders`, `Scrubber.Shown`) with no separate lemma.

## Findings

| source | as written | input that shows it | evidently intended | confidence | as-written member | corrected member |
|---|---|---|---|---|---|---|
| components/Gallery.tsx:144-150 | on error, a source containing `wsrv.nl` is replaced by the item's URL, even when the source already is that URL | an image item whose own URL contains `wsrv.nl`: the thumbnail is the URL itself, every failure sets the same source again, and the error state is never reached | fall back to the original once, then show the error state | medium, not executed | Gallery.ProxiedImageNeverFails | Gallery.AtMostOneFallback |

The corrected handler falls back only when the source differs from the
item's URL (`Gallery.OnError`, used by `Gallery.GalleryItem.HandleError`).
`Gallery.OnErrorAsWritten` is the handler as written.
