/** `CustomGogo` (src/routes/anime/animepahe.ts:26-162): search by guessed id,
    series info over mirrors and episode-list endpoints, and stream sources
    over mirrors with a three-tier extraction and an iframe fallback.
    The class holds no state that changes, so its operations are module
    members over the constant mirror list. */
module Gogo {
  import opened Wrappers
  import opened Text
  import opened Shield
  import opened Pages
  import opened Episodes
  import opened Patterns
  import opened Slugs

  /** Tried in this order (line 27). */
  const Mirrors: seq<string> := ["https://anitaku.pe", "https://gogoanimes.fi", "https://gogoanime3.co"]

  const InfoFailed: string := "Gogo Info Failed"
  const WatchFailed: string := "Gogo Watch Failed - Could not find video ID"
  const PlaceholderCover: string := "https://gogocdn.net/cover/naruto-shippuden.png"
  const EmbedPrefix: string := "https://embtaku.pro/streaming.php?id="

  datatype SearchResult = SearchResult(id: string, title: string, image: string, releaseDate: string)
  datatype SearchResponse = SearchResponse(results: seq<SearchResult>)
  datatype SeriesInfo = SeriesInfo(id: string, title: string, episodes: seq<Episode>)
  datatype StreamSource = StreamSource(url: string, quality: string, isM3U8: bool)
  datatype SourcesResponse = SourcesResponse(sources: seq<StreamSource>)

  /* ================= search (lines 29-39) ================= */

  /** Search is not performed: the query yields one unverified result whose
      id is guessed from it. */
  function Search(query: string): (r: SearchResponse)
    ensures |r.results| == 1
    ensures r.results[0].title == query
    ensures r.results[0].id == Slug(query) && IsSlug(r.results[0].id)
  {
    SearchResponse([SearchResult(Slug(query), query, PlaceholderCover, "Gogo Only")])
  }

  /** Searching for a guessed id guesses that same id again. */
  lemma SearchIdStable(query: string)
    ensures var id := Search(query).results[0].id;
            Search(id).results[0].id == id
  {
    SlugIdempotent(query);
  }

  /* ================= series info (lines 41-92) ================= */

  function CategoryUrl(domain: string, id: string): string
  {
    domain + "/category/" + id
  }

  /** The three episode-list endpoints, in the order they are tried (lines 56-60). */
  function AjaxStrategies(domain: string): (bases: seq<string>)
    ensures |bases| == 3 && bases[0] == domain + "/ajax/load-list-episode"
  {
    [domain + "/ajax/load-list-episode",
     "https://ajax.gogo-load.com/ajax/load-list-episode",
     "https://ajax.gogocdn.net/ajax/load-list-episode"]
  }

  /** A template literal shows an absent attribute as "undefined". */
  function Interpolate(v: Option<string>): string
  {
    match v
    case Some(s) => s
    case None => "undefined"
  }

  /** The episode-list request (line 64); `ep_end` defaults to "2000" (line 51). */
  function AjaxUrl(base: string, page: CategoryPage, movieId: string): string
  {
    base + "?ep_start=0&ep_end=" + OrElse(page.lastEpEnd, "2000") + "&id=" + movieId
    + "&default_ep=0&alias=" + Interpolate(page.alias)
  }

  /** A series page that is empty or a WAF / verification interstitial (line 46). */
  predicate LooksBlocked(html: string)
  {
    html == "" || Contains(html, "WAF") || Contains(html, "Verify")
  }

  /** The episodes one endpoint yields; [] means that endpoint failed
      (lines 64-86). */
  function StrategyEpisodes(net: Network, parser: Parser, id: string, domain: string,
                            page: CategoryPage, base: string): seq<Episode>
    requires Truthy(page.movieId)
  {
    var epHtml := FetchShield(net, AjaxUrl(base, page, page.movieId.value), Some(domain));
    if Contains(epHtml, "Redirecting") then []
    else Reverse(InDocumentOrder(id, parser.episodeList(epHtml)))
  }

  /** The first non-empty result among the endpoints `bases[from..]`, tried in order. */
  function FirstEpisodes(net: Network, parser: Parser, id: string, domain: string,
                         page: CategoryPage, bases: seq<string>, from: nat): seq<Episode>
    requires Truthy(page.movieId)
    decreases |bases| - from
  {
    if |bases| <= from then []
    else
      var eps := StrategyEpisodes(net, parser, id, domain, page, bases[from]);
      if eps != [] then eps else FirstEpisodes(net, parser, id, domain, page, bases, from + 1)
  }

  /** The episodes one mirror yields; [] means that mirror failed (lines 45-89). */
  function MirrorEpisodes(net: Network, parser: Parser, id: string, domain: string): seq<Episode>
  {
    var html := FetchShield(net, CategoryUrl(domain, id), None);
    if LooksBlocked(html) then []
    else
      var page := parser.category(html);
      if !Truthy(page.movieId) then []
      else FirstEpisodes(net, parser, id, domain, page, AjaxStrategies(domain), 0)
  }

  /** The outcome of `fetchAnimeInfo(id)` over the mirrors `mirrors`. */
  function ResolveInfo(net: Network, parser: Parser, id: string, mirrors: seq<string>): Result<SeriesInfo>
  {
    if mirrors == [] then Failure(InfoFailed)
    else
      var eps := MirrorEpisodes(net, parser, id, mirrors[0]);
      if eps != [] then Success(SeriesInfo(id, id, eps))
      else ResolveInfo(net, parser, id, mirrors[1..])
  }

  /** Whatever an endpoint yields has well-formed ids. */
  lemma StrategyWellFormed(net: Network, parser: Parser, id: string, domain: string,
                           page: CategoryPage, base: string)
    requires Truthy(page.movieId)
    ensures WellFormed(id, StrategyEpisodes(net, parser, id, domain, page, base))
  {
    var epHtml := FetchShield(net, AjaxUrl(base, page, page.movieId.value), Some(domain));
    DocumentOrderWellFormed(id, parser.episodeList(epHtml));
    ReverseWellFormed(id, InDocumentOrder(id, parser.episodeList(epHtml)));
  }

  lemma {:induction false} FirstEpisodesWellFormed(net: Network, parser: Parser, id: string, domain: string,
                                                   page: CategoryPage, bases: seq<string>, from: nat)
    requires Truthy(page.movieId)
    ensures WellFormed(id, FirstEpisodes(net, parser, id, domain, page, bases, from))
    decreases |bases| - from
  {
    if from < |bases| {
      StrategyWellFormed(net, parser, id, domain, page, bases[from]);
      FirstEpisodesWellFormed(net, parser, id, domain, page, bases, from + 1);
    }
  }

  lemma MirrorWellFormed(net: Network, parser: Parser, id: string, domain: string)
    ensures WellFormed(id, MirrorEpisodes(net, parser, id, domain))
  {
    var page := parser.category(FetchShield(net, CategoryUrl(domain, id), None));
    if Truthy(page.movieId) {
      FirstEpisodesWellFormed(net, parser, id, domain, page, AjaxStrategies(domain), 0);
    }
  }

  /** The episodes of a successful info lookup have well-formed ids. */
  lemma {:induction false} InfoWellFormed(net: Network, parser: Parser, id: string, mirrors: seq<string>)
    ensures var r := ResolveInfo(net, parser, id, mirrors);
            r.Success? ==> WellFormed(id, r.value.episodes)
  {
    if mirrors != [] {
      MirrorWellFormed(net, parser, id, mirrors[0]);
      InfoWellFormed(net, parser, id, mirrors[1..]);
    }
  }

  /** The inner loop of `fetchAnimeInfo` (lines 62-88) for one mirror whose
      page has a `movie_id`: the endpoints in order, until one yields
      episodes; [] when none does. */
  method TryEndpoints(net: Network, parser: Parser, id: string, domain: string, page: CategoryPage)
    returns (episodes: seq<Episode>)
    requires Truthy(page.movieId)
    ensures episodes == FirstEpisodes(net, parser, id, domain, page, AjaxStrategies(domain), 0)
  {
    var epEnd := OrElse(page.lastEpEnd, "2000");
    var strategies := AjaxStrategies(domain);
    var s := 0;
    while s < |strategies|
      invariant 0 <= s <= |strategies|
      invariant FirstEpisodes(net, parser, id, domain, page, strategies, 0)
                == FirstEpisodes(net, parser, id, domain, page, strategies, s)
    {
      var ajaxBase := strategies[s];
      var ajaxUrl := ajaxBase + "?ep_start=0&ep_end=" + epEnd + "&id=" + page.movieId.value
                     + "&default_ep=0&alias=" + Interpolate(page.alias);
      assert ajaxUrl == AjaxUrl(ajaxBase, page, page.movieId.value);
      var epHtml := FetchShield(net, ajaxUrl, Some(domain));
      if !Contains(epHtml, "Redirecting") {
        episodes := CollectEpisodes(id, parser.episodeList(epHtml));
        if |episodes| > 0 {
          return;
        }
      }
      s := s + 1;
    }
    return [];
  }

  /** One pass of the outer loop of `fetchAnimeInfo` (lines 44-89): the
      series page, the block check, `#movie_id`, then the endpoints. */
  method TryMirror(net: Network, parser: Parser, id: string, domain: string) returns (episodes: seq<Episode>)
    ensures episodes == MirrorEpisodes(net, parser, id, domain)
  {
    var html := FetchShield(net, CategoryUrl(domain, id), None);
    if html == "" || Contains(html, "WAF") || Contains(html, "Verify") {
      return [];
    }
    var page := parser.category(html);
    var movieId := page.movieId;
    if !Truthy(movieId) {
      return [];
    }
    episodes := TryEndpoints(net, parser, id, domain, page);
  }

  /** `fetchAnimeInfo`: mirrors in order, and within a mirror the endpoints in
      order; the first non-empty episode list wins. */
  method FetchAnimeInfo(net: Network, parser: Parser, id: string) returns (r: Result<SeriesInfo>)
    ensures r == ResolveInfo(net, parser, id, Mirrors)
    ensures r.Success? ==> r.value.id == id && r.value.title == id && r.value.episodes != []
    ensures r.Success? ==> WellFormed(id, r.value.episodes)
    ensures r.Failure? ==> r.error == InfoFailed
  {
    InfoOutcome(net, parser, id, Mirrors);
    InfoWellFormed(net, parser, id, Mirrors);
    var m := 0;
    while m < |Mirrors|
      invariant 0 <= m <= |Mirrors|
      invariant ResolveInfo(net, parser, id, Mirrors) == ResolveInfo(net, parser, id, Mirrors[m..])
    {
      assert Mirrors[m..][1..] == Mirrors[m + 1..];
      var episodes := TryMirror(net, parser, id, Mirrors[m]);
      if |episodes| > 0 {
        return Success(SeriesInfo(id, id, episodes));
      }
      assert ResolveInfo(net, parser, id, Mirrors[m..]) == ResolveInfo(net, parser, id, Mirrors[m + 1..]);
      m := m + 1;
    }
    return Failure(InfoFailed);
  }

  /** Every mirror before `k` failed and mirror `k` yields episodes: the info
      comes from mirror `k`, and no later mirror matters. */
  lemma {:induction false} InfoFromFirstProductiveMirror(net: Network, parser: Parser, id: string,
                                                         mirrors: seq<string>, k: nat)
    requires k < |mirrors|
    requires forall j :: 0 <= j < k ==> MirrorEpisodes(net, parser, id, mirrors[j]) == []
    requires MirrorEpisodes(net, parser, id, mirrors[k]) != []
    ensures ResolveInfo(net, parser, id, mirrors)
            == Success(SeriesInfo(id, id, MirrorEpisodes(net, parser, id, mirrors[k])))
  {
    if k > 0 {
      assert MirrorEpisodes(net, parser, id, mirrors[0]) == [];
      forall j | 0 <= j < k - 1
        ensures MirrorEpisodes(net, parser, id, mirrors[1..][j]) == []
      {
        assert mirrors[1..][j] == mirrors[j + 1];
      }
      InfoFromFirstProductiveMirror(net, parser, id, mirrors[1..], k - 1);
    }
  }

  /** Info fails exactly when every mirror fails, always with the same
      message; success carries the queried id, used as title, and a
      non-empty episode list. */
  lemma {:induction false} InfoOutcome(net: Network, parser: Parser, id: string, mirrors: seq<string>)
    ensures var r := ResolveInfo(net, parser, id, mirrors);
            && (r.Failure? <==> forall j :: 0 <= j < |mirrors| ==> MirrorEpisodes(net, parser, id, mirrors[j]) == [])
            && (r.Failure? ==> r.error == InfoFailed)
            && (r.Success? ==> r.value.id == id && r.value.title == id && r.value.episodes != [])
  {
    if mirrors != [] {
      InfoOutcome(net, parser, id, mirrors[1..]);
      if MirrorEpisodes(net, parser, id, mirrors[0]) == [] {
        forall j | 0 <= j < |mirrors| ensures
          (MirrorEpisodes(net, parser, id, mirrors[j]) == []) ==
          (j == 0 || MirrorEpisodes(net, parser, id, mirrors[1..][j - 1]) == [])
        {
          if j > 0 { assert mirrors[1..][j - 1] == mirrors[j]; }
        }
      }
    }
  }

  /** A mirror whose page is empty or a block page is skipped. */
  lemma BlockedMirrorSkipped(net: Network, parser: Parser, id: string, domain: string)
    requires LooksBlocked(FetchShield(net, CategoryUrl(domain, id), None))
    ensures MirrorEpisodes(net, parser, id, domain) == []
  {
  }

  /** A mirror whose page has no (or an empty) `#movie_id` is skipped. */
  lemma MirrorWithoutMovieIdSkipped(net: Network, parser: Parser, id: string, domain: string)
    requires !Truthy(parser.category(FetchShield(net, CategoryUrl(domain, id), None)).movieId)
    ensures MirrorEpisodes(net, parser, id, domain) == []
  {
  }

  /** An endpoint answering with a "Redirecting" page yields nothing; any other
      answer yields its list reversed, one episode per item when the series id
      is non-empty. */
  lemma StrategyOutcome(net: Network, parser: Parser, id: string, domain: string,
                        page: CategoryPage, base: string)
    requires Truthy(page.movieId)
    ensures var epHtml := FetchShield(net, AjaxUrl(base, page, page.movieId.value), Some(domain));
            var eps := StrategyEpisodes(net, parser, id, domain, page, base);
            && (Contains(epHtml, "Redirecting") ==> eps == [])
            && (!Contains(epHtml, "Redirecting") && id != "" ==> |eps| == |parser.episodeList(epHtml)|)
  {
  }

  /** An endpoint whose fetch fails yields no episodes: the shield answers "",
      in which cheerio finds no list items. */
  lemma FailedEndpointYieldsNothing(net: Network, parser: Parser, id: string, domain: string,
                                    page: CategoryPage, base: string)
    requires Truthy(page.movieId) && BlankPageIsEmpty(parser)
    requires !IsOk(net(RequestFor(AjaxUrl(base, page, page.movieId.value), Some(domain))))
    ensures StrategyEpisodes(net, parser, id, domain, page, base) == []
  {
  }

  /** A mirror whose series page cannot be fetched yields no episodes: the
      shield answers "", which line 46 skips before any parsing. */
  lemma FailedMirrorYieldsNothing(net: Network, parser: Parser, id: string, domain: string)
    requires !IsOk(net(RequestFor(CategoryUrl(domain, id), None)))
    ensures MirrorEpisodes(net, parser, id, domain) == []
  {
  }

  /** Within a mirror, the endpoints are tried in order and the first one
      yielding episodes wins. */
  lemma {:induction false} FirstProductiveStrategy(net: Network, parser: Parser, id: string, domain: string,
                                                   page: CategoryPage, bases: seq<string>, from: nat, k: nat)
    requires Truthy(page.movieId) && from <= k < |bases|
    requires forall j :: from <= j < k ==> StrategyEpisodes(net, parser, id, domain, page, bases[j]) == []
    requires StrategyEpisodes(net, parser, id, domain, page, bases[k]) != []
    ensures FirstEpisodes(net, parser, id, domain, page, bases, from)
            == StrategyEpisodes(net, parser, id, domain, page, bases[k])
    decreases k - from
  {
    var first := StrategyEpisodes(net, parser, id, domain, page, bases[from]);
    if from < k {
      assert first == [];
      FirstProductiveStrategy(net, parser, id, domain, page, bases, from + 1, k);
    }
  }

  /** Fallback past blocked mirrors: if the mirrors before `k` all serve block
      pages and mirror `k` yields episodes, the info is mirror `k`'s. */
  lemma InfoFallsBackPastBlockedMirrors(net: Network, parser: Parser, id: string,
                                        mirrors: seq<string>, k: nat)
    requires k < |mirrors|
    requires forall j :: 0 <= j < k ==> LooksBlocked(FetchShield(net, CategoryUrl(mirrors[j], id), None))
    requires MirrorEpisodes(net, parser, id, mirrors[k]) != []
    ensures ResolveInfo(net, parser, id, mirrors)
            == Success(SeriesInfo(id, id, MirrorEpisodes(net, parser, id, mirrors[k])))
  {
    forall j | 0 <= j < k
      ensures MirrorEpisodes(net, parser, id, mirrors[j]) == []
    {
      BlockedMirrorSkipped(net, parser, id, mirrors[j]);
    }
    InfoFromFirstProductiveMirror(net, parser, id, mirrors, k);
  }

  /* ================= stream sources (lines 94-161) ================= */

  /** The player URL of an episode page (lines 107-111): the first iframe's
      `src` (or ""), overridden by a non-empty `li.vidcdn a` `data-video`. */
  function PlayerSrc(page: EpisodePage): (src: string)
    ensures Truthy(page.vidcdnVideo) ==> src == page.vidcdnVideo.value
    ensures !Truthy(page.vidcdnVideo) && page.firstIframeSrc.Some? ==> src == page.firstIframeSrc.value
    ensures !Truthy(page.vidcdnVideo) && page.firstIframeSrc.None? ==> src == ""
  {
    if Truthy(page.vidcdnVideo) then page.vidcdnVideo.value else OrElse(page.firstIframeSrc, "")
  }

  /** The embed URL built from a video id (line 122). */
  function EmbedUrl(videoId: string): string
  {
    EmbedPrefix + videoId
  }

  /** The embed URL carries its video id back: extracting the id from it
      gives exactly the id it was built from. */
  lemma EmbedUrlRoundTrip(videoId: string)
    requires videoId != [] && '&' !in videoId
    ensures VideoId(EmbedUrl(videoId)) == Some(videoId)
  {
    var u := EmbedUrl(videoId);
    var q := |EmbedPrefix| - 4;
    assert u[..|EmbedPrefix|] == EmbedPrefix;
    assert u[q] == '?' && u[q + 1..q + 4] == "id=" && u[q + 4] == videoId[0];
    assert VideoIdAt(u, q);
    forall j | 0 <= j < q
      ensures !VideoIdAt(u, j)
    {
      assert u[j] == EmbedPrefix[j];
    }
    var e := ScanWhile(u, q + 4, NotAmp);
    forall j | q + 4 <= j < |u|
      ensures NotAmp(u[j])
    {
      assert u[j] == videoId[j - |EmbedPrefix|];
    }
    assert e == |u|;
    assert u[q + 4..] == videoId;
    assert VideoIdGroup(u, q) == videoId;
  }

  /** The source chosen from an embed player page (lines 127-151): a direct
      `file: '...m3u8'` first, else the `file` of the first `sources: [{...}]`
      block, else the embed page itself as an "iframe" source. */
  function ExtractSource(player: string, embedUrl: string): (src: StreamSource)
    ensures M3u8File(player).Some? ==> src == StreamSource(M3u8File(player).value, "default", true)
    ensures M3u8File(player).None? && SourcesBlock(player).Some? && AnyFile(SourcesBlock(player).value).Some? ==>
              src == StreamSource(AnyFile(SourcesBlock(player).value).value, "default", true)
    ensures src.quality == "iframe" <==>
              M3u8File(player).None? && (SourcesBlock(player).None? || AnyFile(SourcesBlock(player).value).None?)
    ensures src.quality == "iframe" ==> src.url == embedUrl && !src.isM3U8
    ensures src.quality != "iframe" ==>
              src.quality == "default" && src.isM3U8 && src.url != []
              && forall j :: 0 <= j < |src.url| ==> !IsQuote(src.url[j])
  {
    match M3u8File(player)
    case Some(url) => StreamSource(url, "default", true)
    case None =>
      match SourcesBlock(player)
      case Some(block) =>
        (match AnyFile(block)
         case Some(url) => StreamSource(url, "default", true)
         case None => StreamSource(embedUrl, "iframe", false))
      case None => StreamSource(embedUrl, "iframe", false)
  }

  /** A player fetch that failed (the shield gave "") degrades to the embed
      URL as an iframe source. */
  lemma FailedPlayerDegradesToIframe(embedUrl: string)
    ensures ExtractSource("", embedUrl) == StreamSource(embedUrl, "iframe", false)
  {
    assert !(exists i :: M3u8FileAt("", i));
    assert !(exists i :: SourcesAt("", i));
  }

  /** The video id one mirror's episode page yields (lines 99-116). */
  function MirrorVideoId(net: Network, parser: Parser, episodeId: string, domain: string): (v: Option<string>)
    ensures FetchShield(net, domain + "/" + episodeId, None) == "" ==> v.None?
    ensures v.Some? ==> v.value != [] && '&' !in v.value
  {
    var html := FetchShield(net, domain + "/" + episodeId, None);
    if html == "" then None else VideoId(PlayerSrc(parser.episodePage(html)))
  }

  /** The outcome of `fetchEpisodeSources(episodeId)` over the mirrors `mirrors`. */
  function ResolveSources(net: Network, parser: Parser, episodeId: string, mirrors: seq<string>)
    : (r: Result<SourcesResponse>)
    ensures r.Success? ==> |r.value.sources| == 1
    ensures r.Failure? ==> r.error == WatchFailed
  {
    if mirrors == [] then Failure(WatchFailed)
    else match MirrorVideoId(net, parser, episodeId, mirrors[0])
      case Some(videoId) =>
        var player := FetchShield(net, EmbedUrl(videoId), Some(mirrors[0]));
        Success(SourcesResponse([ExtractSource(player, EmbedUrl(videoId))]))
      case None => ResolveSources(net, parser, episodeId, mirrors[1..])
  }

  /** Steps 2-4 of `fetchEpisodeSources` (lines 117-151): build the embed URL,
      fetch it with the mirror as referer, and extract by priority. */
  method ScrapeEmbed(net: Network, domain: string, cleanId: string) returns (source: StreamSource)
    ensures source == ExtractSource(FetchShield(net, EmbedUrl(cleanId), Some(domain)), EmbedUrl(cleanId))
  {
    var embtakuUrl := EmbedPrefix + cleanId;
    var playerHtml := FetchShield(net, embtakuUrl, Some(domain));
    var fileMatch := M3u8File(playerHtml);
    if fileMatch.Some? {
      return StreamSource(fileMatch.value, "default", true);
    }
    var jwMatch := SourcesBlock(playerHtml);
    if jwMatch.Some? {
      var jwFile := AnyFile(jwMatch.value);
      if jwFile.Some? {
        return StreamSource(jwFile.value, "default", true);
      }
    }
    return StreamSource(embtakuUrl, "iframe", false);
  }

  /** `fetchEpisodeSources`: the first mirror whose page yields a video id
      decides the answer. */
  method FetchEpisodeSources(net: Network, parser: Parser, episodeId: string) returns (r: Result<SourcesResponse>)
    ensures r == ResolveSources(net, parser, episodeId, Mirrors)
    ensures r.Success? ==> |r.value.sources| == 1
    ensures r.Failure? ==> r.error == WatchFailed
  {
    SourcesOutcome(net, parser, episodeId, Mirrors);
    var m := 0;
    while m < |Mirrors|
      invariant 0 <= m <= |Mirrors|
      invariant ResolveSources(net, parser, episodeId, Mirrors)
                == ResolveSources(net, parser, episodeId, Mirrors[m..])
    {
      var domain := Mirrors[m];
      assert Mirrors[m..][1..] == Mirrors[m + 1..];
      var html := FetchShield(net, domain + "/" + episodeId, None);
      if html != "" {
        var page := parser.episodePage(html);
        var iframeSrc := OrElse(page.firstIframeSrc, "");
        var vidcdnSrc := page.vidcdnVideo;
        if Truthy(vidcdnSrc) {
          iframeSrc := vidcdnSrc.value;
        }
        assert iframeSrc == PlayerSrc(page);
        var idMatch := VideoId(iframeSrc);
        assert idMatch == MirrorVideoId(net, parser, episodeId, domain);
        if idMatch.Some? {
          var source := ScrapeEmbed(net, domain, idMatch.value);
          return Success(SourcesResponse([source]));
        }
      }
      m := m + 1;
    }
    return Failure(WatchFailed);
  }

  /** Every mirror before `k` yields no video id and mirror `k` does: the
      sources come from mirror `k`'s embed page, and no later mirror is
      consulted. */
  lemma {:induction false} SourcesFromFirstMirrorWithVideoId(net: Network, parser: Parser, episodeId: string,
                                                             mirrors: seq<string>, k: nat)
    requires k < |mirrors|
    requires forall j :: 0 <= j < k ==> MirrorVideoId(net, parser, episodeId, mirrors[j]).None?
    requires MirrorVideoId(net, parser, episodeId, mirrors[k]).Some?
    ensures var v := MirrorVideoId(net, parser, episodeId, mirrors[k]).value;
            ResolveSources(net, parser, episodeId, mirrors)
            == Success(SourcesResponse([ExtractSource(FetchShield(net, EmbedUrl(v), Some(mirrors[k])), EmbedUrl(v))]))
  {
    if k > 0 {
      assert MirrorVideoId(net, parser, episodeId, mirrors[0]).None?;
      forall j | 0 <= j < k - 1
        ensures MirrorVideoId(net, parser, episodeId, mirrors[1..][j]).None?
      {
        assert mirrors[1..][j] == mirrors[j + 1];
      }
      SourcesFromFirstMirrorWithVideoId(net, parser, episodeId, mirrors[1..], k - 1);
    }
  }

  /** Sources fail exactly when no mirror yields a video id, always with the
      same message; success is exactly one source. */
  lemma {:induction false} SourcesOutcome(net: Network, parser: Parser, episodeId: string, mirrors: seq<string>)
    ensures var r := ResolveSources(net, parser, episodeId, mirrors);
            && (r.Failure? <==> forall j :: 0 <= j < |mirrors| ==> MirrorVideoId(net, parser, episodeId, mirrors[j]).None?)
            && (r.Failure? ==> r.error == WatchFailed)
            && (r.Success? ==> |r.value.sources| == 1)
  {
    if mirrors != [] {
      SourcesOutcome(net, parser, episodeId, mirrors[1..]);
      if MirrorVideoId(net, parser, episodeId, mirrors[0]).None? {
        forall j | 0 <= j < |mirrors| ensures
          MirrorVideoId(net, parser, episodeId, mirrors[j]).None? ==
          (j == 0 || MirrorVideoId(net, parser, episodeId, mirrors[1..][j - 1]).None?)
        {
          if j > 0 { assert mirrors[1..][j - 1] == mirrors[j]; }
        }
      }
    }
  }
}
