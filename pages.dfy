/** The parts of the fetched HTML pages that the scraper reads through
    cheerio, as records. The selectors themselves are not modelled: a
    `Parser` supplies the records for any page text. */
module Pages {
  import opened Wrappers

  /** A series page `/category/<id>`: `#movie_id` value, `#alias_anime` value,
      and the `ep_end` attribute of the last `#episode_page a`
      (src/routes/anime/animepahe.ts:49-51). `None` is an absent attribute. */
  datatype CategoryPage = CategoryPage(movieId: Option<string>, alias: Option<string>, lastEpEnd: Option<string>)

  /** One `li` of an episode list: the `href` of its `a` and the text of its
      `.name` (src/routes/anime/animepahe.ts:73, 79). */
  datatype ListItem = ListItem(href: Option<string>, nameText: string)

  /** An episode page: `src` of the first `iframe` and `data-video` of the
      first `li.vidcdn a` (src/routes/anime/animepahe.ts:107, 110). */
  datatype EpisodePage = EpisodePage(firstIframeSrc: Option<string>, vidcdnVideo: Option<string>)

  /** What cheerio extracts from a page's text. */
  datatype Parser = Parser(
    category: string -> CategoryPage,
    episodeList: string -> seq<ListItem>,
    episodePage: string -> EpisodePage)

  /** Cheerio finds no list item in an empty document. A `Parser` is
      otherwise arbitrary, so lemmas that need this say so. */
  predicate BlankPageIsEmpty(parser: Parser)
  {
    parser.episodeList("") == []
  }

  /** JavaScript truthiness of an attribute value: present and non-empty. */
  predicate Truthy(v: Option<string>)
  {
    v.Some? && v.value != ""
  }

  /** `v || d` on an attribute value. */
  function OrElse(v: Option<string>, d: string): (r: string)
    ensures Truthy(v) ==> r == v.value
    ensures !Truthy(v) ==> r == d
  {
    if Truthy(v) then v.value else d
  }
}
