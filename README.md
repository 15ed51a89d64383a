# Gogo scraper core, modelled in Dafny

This project models the hand-written Gogo scraper of the anime API server
(`CustomGogo` and its helpers in `src/routes/anime/animepahe.ts`; the file is
named after animepahe but implements Gogo) and proves what its decision
logic guarantees:

- **search** does not search: it turns the query into a guessed series id
  (a slug) and returns one unverified result;
- **series info** tries three mirrors in order, skips pages that are empty or
  look like a WAF / verification interstitial, needs a `movie_id`, then tries
  three episode-list endpoints in order, skips "Redirecting" answers, repairs
  malformed episode ids by re-rooting them under the series id, and returns
  the first non-empty list in reverse document order; exhaustion throws
  "Gogo Info Failed";
- **stream sources** take the video id from the `vidcdn` button (else the first
  iframe), build the embtaku embed URL, and extract, in fixed priority, a direct
  `file: '...m3u8'`, else the `file` of the first `sources: [{...}]` block, else
  the embed URL itself as an `iframe` source; once a mirror yields a video id
  no later mirror is consulted; exhaustion throws
  "Gogo Watch Failed - Could not find video ID";
- **failures are data** at both ends: `fetchShield` turns every failed fetch
  into `""`, and `safeRun` turns every thrown error into a 200 reply
  `{ error, results: [] }`.

Modules, leaves first: `Wrappers` (Option, Result), `Text` (JavaScript's
`trim`, `includes`, `indexOf`, `replace` with a string pattern, regex `\s`),
`Shield` (the fetcher), `Slugs` (the search id), `Patterns` (the four regular
expressions, each as "matches at index i" plus the leftmost search),
`Pages` (the records cheerio yields), `Episodes` (episode-list building),
`Gogo` (search, info and source pipelines), `Routes` (`safeRun` and the
handlers).

The network is a parameter: a total function from the logical request
(target URL, User-Agent, Referer) to either a status and body or a thrown
error. HTML is not parsed: a `Parser` parameter supplies, for any page text,
the attribute values and list items the code selects with cheerio. The two
pipelines that loop over mirrors and endpoints are methods with loops whose
postcondition equates their result with a recursive specification function;
the first-success-wins properties are lemmas about those functions.

The code differs from what such a scraper is usually expected to do, and the
model follows the code: the code attaches no confidence flag to the guessed search id (it
only fills a placeholder cover image and the release label "Gogo Only"); a
returned stream URL is not necessarily absolute (the `file:` value is taken
as written); there is one proxy rather than a sequence of relay tunnels and
no challenge-page detection inside the fetcher; the embed candidate is a
single URL (no deduplication, no protocol-relative normalisation, no pick of
the highest resolution, no bare-URL strategy); a missing episode number is
not reconstructed from list position.

## Model

| member | source | states |
|---|---|---|
| `Text.Contains` | src/routes/anime/animepahe.ts:46 | `includes`: whether the pattern occurs at some index (stated both ways by `Text.ContainsIff`) |
| `Text.ContainsIff` | src/routes/anime/animepahe.ts:75 | the string contains the pattern exactly when the pattern occurs at some index |
| `Text.Trim` | src/routes/anime/animepahe.ts:73 | `trim()`: the result is the input minus its leading and trailing spaces: a contiguous slice starting after the leading spaces, followed only by spaces, and with no space at either end |
| `Text.TrimOfPadded` | src/routes/anime/animepahe.ts:73 | trimming spaces, a word with no space at either end, and spaces gives back exactly the word |
| `Text.ReplaceFirst` | src/routes/anime/animepahe.ts:79 | `replace` with a string pattern: the input unchanged when the pattern is absent, else the input with its first occurrence of the pattern replaced |
| `Shield.EffectiveReferer` | src/routes/anime/animepahe.ts:14 | an absent or empty referer becomes `https://gogoanimes.fi/`; any other referer is used as given; the result is never empty |
| `Shield.FetchShield` | src/routes/anime/animepahe.ts:8-24 | the body of a 2xx reply to the request with the browser User-Agent and the effective referer; `""` for a non-2xx status or a thrown error |
| `Slugs.ToLower` | src/routes/anime/animepahe.ts:30 | `toLowerCase` character by character; `Slugs.ToLowerAppend` states that it distributes over concatenation and `Slugs.ToLowerOfSlug` that it keeps a slug as it is |
| `Slugs.ToLowerAppend` | src/routes/anime/animepahe.ts:30 | lower-casing a concatenation is the concatenation of the lower-cased parts |
| `Slugs.Collapse` | src/routes/anime/animepahe.ts:30 | every run of characters outside `[a-z0-9]` becomes one dash: the result has only `[a-z0-9-]`, no `--`, is empty only for empty input, and starts with a dash exactly when the input starts outside `[a-z0-9]`; `Slugs.CollapseSeparator` says where the dashes go |
| `Slugs.CollapseSplit` | src/routes/anime/animepahe.ts:30 | a string ending in `[a-z0-9]` is replaced on its own: no run of separators crosses its end |
| `Slugs.CollapseRun` | src/routes/anime/animepahe.ts:30 | a non-empty run of characters outside `[a-z0-9]` before a letter, a digit or the end becomes exactly one dash |
| `Slugs.CollapseSeparator` | src/routes/anime/animepahe.ts:30 | the dashes go where the separator runs were: a run between two letters or digits becomes one dash between the replaced sides |
| `Slugs.CollapseOfWords` | src/routes/anime/animepahe.ts:30 | two words of `[a-z0-9]` separated by a space become the two words joined by a dash |
| `Slugs.StripEdges` | src/routes/anime/animepahe.ts:30 | removing one leading and one trailing dash from a well-dashed string leaves a slug, and the input is the result with at most one dash added at each end |
| `Slugs.Slug` | src/routes/anime/animepahe.ts:30 | the guessed id contains only `a-z`, `0-9` and `-`, never `--`, and neither starts nor ends with `-` |
| `Slugs.SlugKeepsAlnums` | src/routes/anime/animepahe.ts:30 | the guessed id keeps exactly the letters and digits of the lower-cased query, in order |
| `Slugs.SlugEmptyIff` | src/routes/anime/animepahe.ts:30 | the guessed id is empty exactly when the lower-cased query has no letter or digit |
| `Slugs.SlugIdempotent` | src/routes/anime/animepahe.ts:30 | guessing is idempotent: `Slug(Slug(q)) == Slug(q)` |
| `Slugs.SlugJoinsWords` | src/routes/anime/animepahe.ts:30 | the query `a b`, for lower-case words `a` and `b`, is guessed as `a-b` (e.g. "one piece" gives "one-piece") |
| `Gogo.Search` | src/routes/anime/animepahe.ts:29-39 | exactly one result, whose title is the query verbatim and whose id is the slug of the query |
| `Gogo.SearchIdStable` | src/routes/anime/animepahe.ts:29-39 | searching for a guessed id yields that same id |
| `Episodes.DropLeadingDashes` | src/routes/anime/animepahe.ts:76 | the result is what follows the leading run of dashes: a suffix, preceded only by dashes, not starting with a dash |
| `Episodes.StripLeadingSlash` | src/routes/anime/animepahe.ts:74 | `replace(/^\//, '')`: the id without one leading `/`; `Episodes.StripLeadingSlashInverse` states it |
| `Episodes.StripLeadingSlashInverse` | src/routes/anime/animepahe.ts:74 | an id starting with `/` is `/` followed by the stripped id; any other id is kept unchanged |
| `Episodes.RawEpisodeId` | src/routes/anime/animepahe.ts:73-74 | the trimmed href (or `""` when absent) without one leading `/`; `Episodes.RepairKeepsWellFormed` states its result on padded hrefs |
| `Episodes.NeedsRepair` | src/routes/anime/animepahe.ts:75 | the repair condition: the id starts with `-`, or the series id is non-empty and not contained in it; `Episodes.RepairReroots` and `Episodes.RepairKeepsWellFormed` state both outcomes |
| `Episodes.Reroot` | src/routes/anime/animepahe.ts:76-77 | the re-rooted id is never empty and always contains the series id |
| `Episodes.RepairId` | src/routes/anime/animepahe.ts:73-78 | with a non-empty series id every repaired episode id contains the series id; a repaired (re-rooted) id is never empty |
| `Episodes.RepairReroots` | src/routes/anime/animepahe.ts:74-77 | an id starting with `-`, or lacking a non-empty series id, becomes series id, `-`, and the id minus its leading dashes only (after one leading `/` and surrounding spaces were removed) |
| `Episodes.RepairKeepsWellFormed` | src/routes/anime/animepahe.ts:73-78 | an href made of spaces, at most one leading `/`, an id `x` that does not start with `-` or a space and already contains the series id, and spaces, is repaired to exactly `x` |
| `Episodes.ParseNumber` | src/routes/anime/animepahe.ts:79 | `Number` of the label yields a natural exactly when the label is all decimal digits (the empty label reads as 0) |
| `Episodes.DecimalRoundTrip` | src/routes/anime/animepahe.ts:79 | reading back a printed natural gives that natural |
| `Episodes.EpisodeNumber` | src/routes/anime/animepahe.ts:79 | the label with its first `EP ` removed, trimmed, read by `Number`; `Episodes.EpisodeNumberOfLabel` states the value for `EP <n>` |
| `Episodes.EpisodeNumberOfLabel` | src/routes/anime/animepahe.ts:79 | a `.name` text `EP <n>` yields episode number `n` |
| `Episodes.EpisodeIdOf` | src/routes/anime/animepahe.ts:73-78 | the step-by-step reassignments of `epId` compute the repaired id |
| `Episodes.EpisodeOf` | src/routes/anime/animepahe.ts:72-81 | one `.each` callback yields the episode of its item, or nothing when the id is empty |
| `Episodes.ToEpisode` | src/routes/anime/animepahe.ts:73-80 | one `li` gives an episode exactly when its repaired id is non-empty, with that id and the number of its label; `Episodes.EpisodeOf` computes it step by step and `Episodes.DocumentOrderWellFormed` states its ids are well formed |
| `Episodes.InDocumentOrder` | src/routes/anime/animepahe.ts:72-81 | at most one episode per `li`, and exactly one per `li` when the series id is non-empty |
| `Episodes.DocumentOrderWellFormed` | src/routes/anime/animepahe.ts:72-81 | every pushed episode has a non-empty id that contains the series id when there is one |
| `Episodes.DocumentOrderStep` | src/routes/anime/animepahe.ts:72-81 | each `li` appends its own episode, if any, after those of the earlier items |
| `Episodes.ReverseWellFormed` | src/routes/anime/animepahe.ts:85 | reversing keeps every episode id well-formed |
| `Episodes.Reverse` | src/routes/anime/animepahe.ts:85 | same length, element `k` is the old element `n-1-k`; `Episodes.ReverseInPlace` is the in-place `reverse()` proved to compute it |
| `Episodes.ReversedNumbersIncrease` | src/routes/anime/animepahe.ts:85 | numbers strictly decreasing down the page (newest first) come back strictly increasing |
| `Episodes.ReverseInPlace` | src/routes/anime/animepahe.ts:85 | `episodes.reverse()` leaves the array holding the reverse of its old contents |
| `Episodes.PushEpisode` | src/routes/anime/animepahe.ts:72-81 | one call of the `.each` callback extends the list of the earlier items to the document-order list up to and including this item |
| `Episodes.PushEpisodes` | src/routes/anime/animepahe.ts:72-81 | the `.each` loop with its step-by-step `epId` reassignments pushes exactly the document-order episode list |
| `Episodes.CollectEpisodes` | src/routes/anime/animepahe.ts:69-85 | the list returned is the reverse of document order, has well-formed ids, and has one episode per item when the series id is non-empty |
| `Gogo.AjaxStrategies` | src/routes/anime/animepahe.ts:56-60 | three endpoints, the mirror's own first |
| `Gogo.AjaxUrl` | src/routes/anime/animepahe.ts:64 | the episode-list request: the endpoint, `ep_end` from the last page link or "2000", the `movie_id`, and the alias interpolated as a template string (`undefined` when absent) |
| `Gogo.StrategyEpisodes` | src/routes/anime/animepahe.ts:64-86 | one endpoint's episodes: none on a "Redirecting" answer, else the reversed document-order list; `Gogo.StrategyOutcome` and `Gogo.StrategyWellFormed` state it |
| `Gogo.FailedEndpointYieldsNothing` | src/routes/anime/animepahe.ts:65-72 | an endpoint whose fetch fails yields no episodes, for a parser that finds no list item in an empty page |
| `Gogo.FirstEpisodes` | src/routes/anime/animepahe.ts:62-88 | the first non-empty endpoint list in order, or none; `Gogo.FirstProductiveStrategy` states it and `Gogo.TryEndpoints` is the loop proved to compute it |
| `Gogo.StrategyWellFormed` | src/routes/anime/animepahe.ts:62-86 | the episodes an endpoint yields all have well-formed ids |
| `Gogo.StrategyOutcome` | src/routes/anime/animepahe.ts:65-85 | a "Redirecting" answer yields nothing; any other answer yields one episode per list item when the series id is non-empty |
| `Gogo.FirstEpisodesWellFormed` | src/routes/anime/animepahe.ts:62-88 | the endpoints' first non-empty list has well-formed ids |
| `Gogo.TryEndpoints` | src/routes/anime/animepahe.ts:62-88 | the inner loop over the three endpoints returns the first non-empty list, or nothing |
| `Gogo.FirstProductiveStrategy` | src/routes/anime/animepahe.ts:62-88 | endpoints are tried in order and the first one yielding episodes decides the mirror's list |
| `Gogo.MirrorWellFormed` | src/routes/anime/animepahe.ts:44-89 | a mirror's episode list has well-formed ids |
| `Gogo.LooksBlocked` | src/routes/anime/animepahe.ts:46 | a series page is skipped when it is empty or contains "WAF" or "Verify"; `Gogo.BlockedMirrorSkipped` states the consequence |
| `Gogo.MirrorEpisodes` | src/routes/anime/animepahe.ts:45-89 | one mirror's episodes: none when blocked or without `movie_id`, else the endpoints' first non-empty list; `Gogo.TryMirror` computes it |
| `Gogo.FailedMirrorYieldsNothing` | src/routes/anime/animepahe.ts:45-46 | a mirror whose series page cannot be fetched yields no episodes, for any parser: the empty answer is skipped before parsing |
| `Gogo.TryMirror` | src/routes/anime/animepahe.ts:44-89 | one pass of the mirror loop (page fetch, block check, `movie_id`, endpoints) yields that mirror's list |
| `Gogo.BlockedMirrorSkipped` | src/routes/anime/animepahe.ts:45-46 | a mirror page that is `""` or contains "WAF" or "Verify" yields nothing |
| `Gogo.MirrorWithoutMovieIdSkipped` | src/routes/anime/animepahe.ts:49-53 | a mirror page without a non-empty `#movie_id` yields nothing |
| `Gogo.InfoWellFormed` | src/routes/anime/animepahe.ts:41-92 | a successful info has episodes with non-empty ids carrying the series id |
| `Gogo.ResolveInfo` | src/routes/anime/animepahe.ts:44-91 | the first mirror with episodes gives the info (id and title the queried id), else "Gogo Info Failed"; `Gogo.InfoOutcome` and `Gogo.InfoFromFirstProductiveMirror` state it |
| `Gogo.FetchAnimeInfo` | src/routes/anime/animepahe.ts:41-92 | the nested mirror and endpoint loops compute `ResolveInfo` over the declared mirrors; success has id and title equal to the queried id and a non-empty list; failure is "Gogo Info Failed" |
| `Gogo.InfoFromFirstProductiveMirror` | src/routes/anime/animepahe.ts:44-91 | when every earlier mirror failed and mirror k yields episodes, the info is mirror k's, whatever the later mirrors hold |
| `Gogo.InfoOutcome` | src/routes/anime/animepahe.ts:44-91 | info fails exactly when every mirror fails, and then with "Gogo Info Failed" |
| `Gogo.InfoFallsBackPastBlockedMirrors` | src/routes/anime/animepahe.ts:44-53 | with mirrors before k all blocked and mirror k productive, resolution succeeds through mirror k |
| `Gogo.PlayerSrc` | src/routes/anime/animepahe.ts:107-111 | a non-empty `vidcdn` `data-video` overrides the first iframe `src`, which is `""` when absent |
| `Gogo.EmbedUrl` | src/routes/anime/animepahe.ts:122 | `https://embtaku.pro/streaming.php?id=` followed by the video id; `Gogo.EmbedUrlRoundTrip` gives the id back from it |
| `Patterns.Leftmost` | src/routes/anime/animepahe.ts:114 | a regex without `g` matches at the least index of the string where it can match, and fails only when it matches at no index of the string |
| `Patterns.VideoId` | src/routes/anime/animepahe.ts:114 | `[?&]id=([^&]+)` finds a value exactly when some `?id=`/`&id=` is followed by a non-`&`; the value comes from the leftmost such position, is non-empty and has no `&` |
| `Gogo.EmbedUrlRoundTrip` | src/routes/anime/animepahe.ts:114-122 | the embtaku URL built from a non-empty, `&`-free video id gives that id back through the same extraction |
| `Patterns.QuotedFile` | src/routes/anime/animepahe.ts:130 | the captured `file:` value is non-empty and free of quote characters |
| `Patterns.M3u8File` | src/routes/anime/animepahe.ts:130 | the direct pattern matches exactly when some `file:` quoted value ends in `.m3u8`; the leftmost one is returned, quote-free and ending in `.m3u8` |
| `Patterns.LazyBlock` | src/routes/anime/animepahe.ts:138 | the text from a `[{` through the first `}]` after it opens with `[{`, closes with `}]` and holds no earlier `}]` |
| `Patterns.SourcesGroup` | src/routes/anime/animepahe.ts:138 | the captured block starts with `[{` and ends at the first `}]` after it |
| `Patterns.SourcesBlock` | src/routes/anime/animepahe.ts:138 | the first `sources: [{...}]` block is found exactly when one exists |
| `Patterns.AnyFile` | src/routes/anime/animepahe.ts:140 | the first quoted `file:` value inside the block, non-empty and quote-free, exactly when one exists |
| `Gogo.ExtractSource` | src/routes/anime/animepahe.ts:127-151 | a direct `.m3u8` match wins, with that URL; without it, the first `file:` of the first `sources: [{...}]` block is the URL; both are `default` quality with `isM3U8` true; the iframe fallback is used exactly when neither tier matches and then carries the embed URL with `isM3U8` false |
| `Gogo.FailedPlayerDegradesToIframe` | src/routes/anime/animepahe.ts:127-151 | a player fetch that failed (`""`) degrades to the embed URL as an iframe source |
| `Gogo.ScrapeEmbed` | src/routes/anime/animepahe.ts:117-151 | fetching the embed page with the mirror as referer and extracting computes `ExtractSource` |
| `Gogo.MirrorVideoId` | src/routes/anime/animepahe.ts:99-116 | a mirror whose page fetch gives `""` yields no video id; the id is non-empty and `&`-free |
| `Gogo.ResolveSources` | src/routes/anime/animepahe.ts:94-161 | success is exactly one source; failure is "Gogo Watch Failed - Could not find video ID" |
| `Gogo.FetchEpisodeSources` | src/routes/anime/animepahe.ts:94-161 | the mirror loop with its step-by-step `iframeSrc` computes `ResolveSources` over the declared mirrors |
| `Gogo.SourcesFromFirstMirrorWithVideoId` | src/routes/anime/animepahe.ts:97-158 | when earlier mirrors yield no video id and mirror k does, the sources come from mirror k's embed page and no later mirror is consulted |
| `Gogo.SourcesOutcome` | src/routes/anime/animepahe.ts:97-160 | sources fail exactly when no mirror yields a video id |
| `Routes.SafeRun` | src/routes/anime/animepahe.ts:167-177 | the reply status is always 200; a thrown error becomes `{ error: message, results: [] }`, a value is sent as is |
| `Routes.ServeSearch` | src/routes/anime/animepahe.ts:179 | the search route never replies with an error and returns one result titled by the query |
| `Routes.ServeInfo` | src/routes/anime/animepahe.ts:180 | the info route replies 200, with the error body "Gogo Info Failed" exactly when every mirror failed |
| `Routes.ServeWatch` | src/routes/anime/animepahe.ts:181 | the watch route replies 200, with the error body exactly when no mirror yielded a video id, else one source |

## Left out

- HTTP itself: `fetch`, the Cloudflare worker proxy and its URL (`?url=` with `encodeURIComponent`, `&headers=` with `JSON.stringify`) are replaced by a network function of the logical request (target, User-Agent, Referer).
- The network is a fixed function of the request, a snapshot of the upstream: a real upstream may answer a repeated request differently.
- Pages.Parser: the parser is an arbitrary function of the page text; the model does not assume that cheerio finds no list item in an empty page. The one lemma that needs it, `Gogo.FailedEndpointYieldsNothing`, requires `Pages.BlankPageIsEmpty` of the parser.
- Strings are sequences of Unicode scalar values, so a JavaScript string holding a lone surrogate is not modelled. On these strings `encodeURIComponent` (lines 9-15, outside the `try`) cannot throw, and that is the domain on which `fetchShield` never throws.
- cheerio selection: `#movie_id`, `#alias_anime`, `#episode_page a`, `li`, `.name`, `iframe`, `li.vidcdn a` are read through the `Parser` parameter, not from HTML.
- Slugs.LowerChar: `toLowerCase` is modelled for ASCII and for the two characters whose lower case is ASCII (U+212A, U+0130); every other character is kept, which changes no slug because its lower case is neither `[a-z0-9]` nor a space.
- Episodes.ParseNumber: `Number` is modelled only on decimal naturals (and the empty label as 0); NaN, fractions, signs, exponents and hex all read as `None`.
- The `try`/`catch` blocks inside both pipelines (lines 63/87, 98/157, 126/153): nothing inside them throws, since `fetchShield` never throws, so they have no modelled effect.
- Logging with chalk and `console`.
- Fastify route registration and the `/proxy` byte-forwarding route (lines 188-197): I/O only.
- src/main.ts (environment, Redis, CORS, server start-up) and src/routes/anime/hianime.ts, src/routes/anime/gogoanime.ts (thin wrappers over an extension library whose source is not part of this model).
- async/await: the code runs each request sequentially, so no concurrency is modelled.
- Stream relaying with manifest rewriting: the code has none.
