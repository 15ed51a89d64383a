/** The four regular expressions of `fetchEpisodeSources`
    (src/routes/anime/animepahe.ts:114, 130, 138, 140), each written as
    "the pattern matches at index i" plus the leftmost search that
    `String.prototype.match` performs (no `g` flag: first match, its group 1). */
module Patterns {
  import opened Wrappers
  import opened Text

  predicate NotAmp(c: char)
  {
    c != '&'
  }

  predicate NotQuote(c: char)
  {
    !IsQuote(c)
  }

  /** The four patterns, so that one leftmost search serves them all. */
  datatype Regex = IdParam | M3u8Quoted | FileQuoted | SourcesList

  predicate MatchesAt(re: Regex, s: string, i: int)
  {
    match re
    case IdParam => VideoIdAt(s, i)
    case M3u8Quoted => M3u8FileAt(s, i)
    case FileQuoted => QuotedFileAt(s, i)
    case SourcesList => SourcesAt(s, i)
  }

  /** The least index in `[from, |s|)` where `re` matches: how a regex
      without the `g` flag picks its match. */
  function Leftmost(re: Regex, s: string, from: nat): (r: Option<nat>)
    ensures r.Some? ==> from <= r.value < |s| && MatchesAt(re, s, r.value)
    ensures r.Some? ==> forall j :: from <= j < r.value ==> !MatchesAt(re, s, j)
    ensures r.None? ==> forall j :: from <= j < |s| ==> !MatchesAt(re, s, j)
    decreases |s| - from
  {
    if |s| <= from then None
    else if MatchesAt(re, s, from) then Some(from)
    else Leftmost(re, s, from + 1)
  }

  /* ---------- /[?&]id=([^&]+)/ ---------- */

  /** `[?&]id=` followed by at least one character other than `&` starts at `i`. */
  predicate VideoIdAt(s: string, i: int)
  {
    0 <= i && i + 4 < |s| && (s[i] == '?' || s[i] == '&') && s[i + 1..i + 4] == "id=" && s[i + 4] != '&'
  }

  /** Group 1 of a match at `i`: the greedy run of non-`&` characters. */
  function VideoIdGroup(s: string, i: int): string
    requires VideoIdAt(s, i)
  {
    s[i + 4..ScanWhile(s, i + 4, NotAmp)]
  }

  /** `src.match(/[?&]id=([^&]+)/)?.[1]`. */
  function VideoId(src: string): (r: Option<string>)
    ensures r.Some? <==> exists i :: VideoIdAt(src, i)
    ensures r.Some? ==> exists i :: VideoIdAt(src, i) && r.value == VideoIdGroup(src, i)
                                    && forall j :: 0 <= j < i ==> !VideoIdAt(src, j)
    ensures r.Some? ==> r.value != "" && '&' !in r.value
  {
    assert forall i :: MatchesAt(IdParam, src, i) == VideoIdAt(src, i);
    match Leftmost(IdParam, src, 0)
    case None => None
    case Some(i) => Some(VideoIdGroup(src, i))
  }

  /* ---------- file:\s*['"]( ... )['"] ---------- */

  /** Index of the opening quote candidate: just past `file:` and any spaces. */
  function AfterKey(s: string, i: nat, key: string): (w: nat)
    requires HasAt(s, i, key)
    ensures i + |key| <= w <= |s|
  {
    ScanWhile(s, i + |key|, IsSpace)
  }

  /** `file:\s*['"]([^'"]+)['"]` matches at `i`: after the key and spaces comes a
      quote, then a non-empty quote-free run closed by a quote (of either kind). */
  predicate QuotedFileAt(s: string, i: int)
  {
    && HasAt(s, i, "file:")
    && var w := AfterKey(s, i, "file:");
       && w < |s| && IsQuote(s[w])
       && var e := ScanWhile(s, w + 1, NotQuote);
          e < |s| && w + 1 < e
  }

  /** Group 1 of a `file:` match at `i`: the text between the two quotes. */
  function QuotedFile(s: string, i: int): (v: string)
    requires QuotedFileAt(s, i)
    ensures v != [] && forall j :: 0 <= j < |v| ==> !IsQuote(v[j])
  {
    var w := AfterKey(s, i, "file:");
    s[w + 1..ScanWhile(s, w + 1, NotQuote)]
  }

  predicate EndsWithM3u8(v: string)
  {
    |v| > 5 && v[|v| - 5..] == ".m3u8"
  }

  /** `file:\s*['"]([^'"]+\.m3u8)['"]` matches at `i`. The run `[^'"]+` cannot
      cross a quote and must be followed by one, so the only candidate group is
      the whole quoted text, which must end in `.m3u8` after at least one
      more character. */
  predicate M3u8FileAt(s: string, i: int)
  {
    QuotedFileAt(s, i) && EndsWithM3u8(QuotedFile(s, i))
  }

  /** `playerHtml.match(/file:\s*['"]([^'"]+\.m3u8)['"]/)?.[1]`. */
  function M3u8File(player: string): (r: Option<string>)
    ensures r.Some? <==> exists i :: M3u8FileAt(player, i)
    ensures r.Some? ==> exists i :: M3u8FileAt(player, i) && r.value == QuotedFile(player, i)
                                    && forall j :: 0 <= j < i ==> !M3u8FileAt(player, j)
    ensures r.Some? ==> EndsWithM3u8(r.value) && forall j :: 0 <= j < |r.value| ==> !IsQuote(r.value[j])
  {
    assert forall i :: MatchesAt(M3u8Quoted, player, i) == M3u8FileAt(player, i);
    match Leftmost(M3u8Quoted, player, 0)
    case None => None
    case Some(i) => Some(QuotedFile(player, i))
  }

  /** `block.match(/file:\s*['"]([^'"]+)['"]/)?.[1]`. */
  function AnyFile(block: string): (r: Option<string>)
    ensures r.Some? <==> exists i :: QuotedFileAt(block, i)
    ensures r.Some? ==> exists i :: QuotedFileAt(block, i) && r.value == QuotedFile(block, i)
                                    && forall j :: 0 <= j < i ==> !QuotedFileAt(block, j)
    ensures r.Some? ==> r.value != [] && forall j :: 0 <= j < |r.value| ==> !IsQuote(r.value[j])
  {
    assert forall i :: MatchesAt(FileQuoted, block, i) == QuotedFileAt(block, i);
    match Leftmost(FileQuoted, block, 0)
    case None => None
    case Some(i) => Some(QuotedFile(block, i))
  }

  /* ---------- /sources:\s*(\[\{.*?\}\])/s ---------- */

  /** `sources:\s*\[\{.*?\}\]` matches at `i` (with the `s` flag `.` also
      matches line breaks): after the key and spaces comes `[{`, and a `}]`
      occurs somewhere after it. */
  predicate SourcesAt(s: string, i: int)
  {
    && HasAt(s, i, "sources:")
    && var b := AfterKey(s, i, "sources:");
       HasAt(s, b, "[{") && IndexOf(s, "}]", b + 2).Some?
  }

  /** The text from a `[{` at `b` through the first `}]` after it, at `e`,
      opens with `[{`, closes with `}]` and holds no earlier `}]`. */
  lemma LazyBlock(s: string, b: nat, e: nat)
    requires HasAt(s, b, "[{") && b + 2 <= e && HasAt(s, e, "}]")
    requires forall j :: b + 2 <= j < e ==> !HasAt(s, j, "}]")
    ensures var g := s[b..e + 2];
            && |g| >= 4 && g[..2] == "[{" && g[|g| - 2..] == "}]"
            && forall j :: 0 <= j < |g| - 2 ==> !HasAt(g, j, "}]")
  {
    var g := s[b..e + 2];
    assert g[0] == '[' && g[1] == '{' by {
      assert s[b..b + 2] == "[{";
      assert g[0] == s[b..b + 2][0] && g[1] == s[b..b + 2][1];
    }
    assert g[..2] == "[{";
    assert |g| == e + 2 - b;
    assert g[|g| - 2..] == s[e..e + 2];
    forall j | 0 <= j < |g| - 2
      ensures !HasAt(g, j, "}]")
    {
      if j < 2 {
        assert g[j..j + 2][0] == g[j] != '}';
      } else {
        assert b + 2 <= b + j < e;
        assert !HasAt(s, b + j, "}]");
        assert g[j..j + 2] == s[b + j..b + j + 2];
      }
    }
  }

  /** Group 1 of a `sources:` match at `i`: from `[{` to the FIRST `}]` after
      it, since `.*?` is lazy. */
  function SourcesGroup(s: string, i: int): (g: string)
    requires SourcesAt(s, i)
    ensures |g| >= 4 && g[..2] == "[{" && g[|g| - 2..] == "}]"
    ensures forall j :: 0 <= j < |g| - 2 ==> !HasAt(g, j, "}]")
  {
    var b := AfterKey(s, i, "sources:");
    var e := IndexOf(s, "}]", b + 2).value;
    LazyBlock(s, b, e);
    s[b..e + 2]
  }

  /** `playerHtml.match(/sources:\s*(\[\{.*?\}\])/s)?.[1]`. */
  function SourcesBlock(player: string): (r: Option<string>)
    ensures r.Some? <==> exists i :: SourcesAt(player, i)
    ensures r.Some? ==> exists i :: SourcesAt(player, i) && r.value == SourcesGroup(player, i)
                                    && forall j :: 0 <= j < i ==> !SourcesAt(player, j)
  {
    assert forall i :: MatchesAt(SourcesList, player, i) == SourcesAt(player, i);
    match Leftmost(SourcesList, player, 0)
    case None => None
    case Some(i) => Some(SourcesGroup(player, i))
  }
}
