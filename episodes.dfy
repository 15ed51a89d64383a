/** The episode list of `fetchAnimeInfo` (src/routes/anime/animepahe.ts:69-85):
    each `li` becomes an episode with a repaired id, items with an empty id
    are dropped, and the list is returned in reverse document order. */
module Episodes {
  import opened Wrappers
  import opened Text
  import opened Pages

  /** `number` is `Number(label)` where the label is a decimal natural
      (or empty, which JavaScript reads as 0); `None` stands for every
      other outcome of `Number` (NaN, fractions, negatives, hex). */
  datatype Episode = Episode(id: string, number: Option<nat>)

  predicate IsDash(c: char)
  {
    c == '-'
  }

  /** `s.replace(/^\//, '')`: at most one leading slash goes. */
  function StripLeadingSlash(s: string): string
  {
    if s != [] && s[0] == '/' then s[1..] else s
  }

  /** One leading slash goes, and only a leading slash: the id with it put
      back is the original, and an id without one is kept. */
  lemma StripLeadingSlashInverse(s: string)
    ensures StartsWith(s, "/") ==> s == "/" + StripLeadingSlash(s)
    ensures !StartsWith(s, "/") ==> StripLeadingSlash(s) == s
  {
    if StartsWith(s, "/") {
      assert s[..1] == "/";
    }
  }

  /** `s.replace(/^-+/, '')`: the whole leading run of dashes goes. */
  function DropLeadingDashes(s: string): (r: string)
    ensures |r| <= |s| && r == s[|s| - |r|..]
    ensures forall j :: 0 <= j < |s| - |r| ==> s[j] == '-'
    ensures r == [] || r[0] != '-'
  {
    s[ScanWhile(s, 0, IsDash)..]
  }

  /** `$ep(el).find('a').attr('href')?.trim() || ""` with its leading slash removed. */
  function RawEpisodeId(href: Option<string>): string
  {
    StripLeadingSlash(if href.Some? then Trim(href.value) else "")
  }

  /** Whether the id is malformed for this series: it starts with a dash, or
      the series id is non-empty and does not occur in it. */
  predicate NeedsRepair(seriesId: string, epId: string)
  {
    StartsWith(epId, "-") || (seriesId != "" && !Contains(epId, seriesId))
  }

  /** `${seriesId}-${epId.replace(/^-+/, '')}` (lines 76-77). */
  function Reroot(seriesId: string, epId: string): (r: string)
    ensures Contains(r, seriesId) && r != []
  {
    var t := DropLeadingDashes(epId);
    PrefixContained(seriesId, "-" + t);
    assert seriesId + "-" + t == seriesId + ("-" + t);
    seriesId + "-" + t
  }

  /** The episode id built from one list item (src/routes/anime/animepahe.ts:73-78). */
  function RepairId(seriesId: string, href: Option<string>): (r: string)
    ensures seriesId != "" ==> Contains(r, seriesId)
    ensures NeedsRepair(seriesId, RawEpisodeId(href)) ==> r != []
  {
    var epId := RawEpisodeId(href);
    if NeedsRepair(seriesId, epId) then Reroot(seriesId, epId) else epId
  }

  /** The shape of `seriesId + "-" + raw.replace(/^-+/, '')`. */
  predicate RerootedFrom(seriesId: string, raw: string, r: string)
  {
    var n := |r| - |seriesId| - 1;
    && StartsWith(r, seriesId + "-")
    && 0 <= n <= |raw| && r[|seriesId| + 1..] == raw[|raw| - n..]
    && (forall j :: 0 <= j < |raw| - n ==> raw[j] == '-')
    && (n == 0 || r[|seriesId| + 1] != '-')
  }

  lemma RerootShape(seriesId: string, raw: string)
    ensures RerootedFrom(seriesId, raw, Reroot(seriesId, raw))
  {
    var t := DropLeadingDashes(raw);
    var r := seriesId + "-" + t;
    assert r == (seriesId + "-") + t;
    assert r[..|seriesId| + 1] == seriesId + "-";
    assert r[|seriesId| + 1..] == t;
  }

  /** A malformed id is re-rooted under the series: the series id, one dash,
      then what is left of the id once its leading dashes (and nothing else)
      are removed. */
  lemma RepairReroots(seriesId: string, href: Option<string>)
    requires NeedsRepair(seriesId, RawEpisodeId(href))
    ensures RerootedFrom(seriesId, RawEpisodeId(href), RepairId(seriesId, href))
  {
    RerootShape(seriesId, RawEpisodeId(href));
  }

  /** An href that is a well-formed id of the series (no leading dash,
      containing the series id), possibly surrounded by spaces and possibly
      behind one `/`, comes out as that id: the spaces and the one slash go,
      nothing else changes. */
  lemma RepairKeepsWellFormed(seriesId: string, pad1: string, lead: string, x: string, pad2: string)
    requires AllSpaces(pad1) && AllSpaces(pad2)
    requires x != [] && !IsSpace(x[|x| - 1]) && x[0] != '-'
    requires lead == "/" || (lead == "" && x[0] != '/' && !IsSpace(x[0]))
    requires seriesId == "" || Contains(x, seriesId)
    ensures RepairId(seriesId, Some(pad1 + lead + x + pad2)) == x
  {
    var w := lead + x;
    assert pad1 + lead + x + pad2 == pad1 + w + pad2;
    assert w[|w| - 1] == x[|x| - 1];
    TrimOfPadded(pad1, w, pad2);
    if lead == "/" {
      assert w[1..] == x;
    }
    assert RawEpisodeId(Some(pad1 + lead + x + pad2)) == x;
    assert !StartsWith(x, "-") by {
      assert x[..1] == [x[0]];
    }
  }

  predicate IsDigit(c: char)
  {
    '0' <= c <= '9'
  }

  predicate AllDigits(t: string)
  {
    forall i :: 0 <= i < |t| ==> IsDigit(t[i])
  }

  /** The value of a string of decimal digits. */
  function DecimalValue(t: string): nat
    requires AllDigits(t)
  {
    if t == [] then 0 else 10 * DecimalValue(t[..|t| - 1]) + (t[|t| - 1] as int - '0' as int)
  }

  /** `Number(t)` restricted to decimal naturals; "" is 0 as in JavaScript. */
  function ParseNumber(t: string): (r: Option<nat>)
    ensures r.Some? <==> AllDigits(t)
    ensures t == "" ==> r == Some(0)
  {
    if AllDigits(t) then Some(DecimalValue(t)) else None
  }

  /** `n.toString()` for a natural. */
  function Decimal(n: nat): (d: string)
    ensures d != [] && AllDigits(d)
  {
    if n < 10 then [('0' as int + n) as char]
    else Decimal(n / 10) + [('0' as int + n % 10) as char]
  }

  /** Reading back a printed natural gives the natural. */
  lemma {:induction false} DecimalRoundTrip(n: nat)
    ensures ParseNumber(Decimal(n)) == Some(n)
  {
    var d := Decimal(n);
    var last := ('0' as int + n % 10) as char;
    assert last as int - '0' as int == n % 10;
    if n >= 10 {
      DecimalRoundTrip(n / 10);
      assert d == Decimal(n / 10) + [last];
      assert d[..|d| - 1] == Decimal(n / 10);
      assert DecimalValue(d) == 10 * (n / 10) + n % 10;
    } else {
      assert d == [last];
      assert d[..0] == [];
      assert DecimalValue(d) == 10 * DecimalValue([]) + n % 10;
    }
  }

  /** `$ep(el).find('.name').text().replace('EP ', '').trim()` read as a number. */
  function EpisodeNumber(nameText: string): Option<nat>
  {
    ParseNumber(Trim(ReplaceFirst(nameText, "EP ", "")))
  }

  /** The label "EP <n>" is read as episode `n`. */
  lemma EpisodeNumberOfLabel(n: nat)
    ensures EpisodeNumber("EP " + Decimal(n)) == Some(n)
  {
    var d := Decimal(n);
    var s := "EP " + d;
    assert HasAt(s, 0, "EP ");
    assert IndexOf(s, "EP ", 0) == Some(0);
    assert ReplaceFirst(s, "EP ", "") == d by {
      assert s[3..] == d;
    }
    DigitsTrimmed(d);
    DecimalRoundTrip(n);
  }

  lemma DigitsTrimmed(d: string)
    requires d != [] && AllDigits(d)
    ensures Trim(d) == d
  {
    assert !IsSpace(d[0]) && !IsSpace(d[|d| - 1]);
    assert LeadingSpaces(d) == 0;
  }

  /** The episode one `li` contributes, if its id is non-empty (line 80). */
  function ToEpisode(seriesId: string, item: ListItem): (e: Option<Episode>)
  {
    var id := RepairId(seriesId, item.href);
    if id == "" then None else Some(Episode(id, EpisodeNumber(item.nameText)))
  }

  /** Every episode has a non-empty id that carries the series id when there is one. */
  predicate WellFormed(seriesId: string, eps: seq<Episode>)
  {
    forall k :: 0 <= k < |eps| ==> eps[k].id != [] && (seriesId != "" ==> Contains(eps[k].id, seriesId))
  }

  /** The episodes of the list in document order, as pushed one `li` at a time. */
  function InDocumentOrder(seriesId: string, items: seq<ListItem>): (eps: seq<Episode>)
    ensures |eps| <= |items|
    ensures seriesId != "" ==> |eps| == |items|
  {
    if items == [] then []
    else
      var front := InDocumentOrder(seriesId, items[..|items| - 1]);
      match ToEpisode(seriesId, items[|items| - 1])
      case Some(e) => front + [e]
      case None => front
  }

  /** Every episode kept from the list has a non-empty id carrying the series id. */
  lemma {:induction false} DocumentOrderWellFormed(seriesId: string, items: seq<ListItem>)
    ensures WellFormed(seriesId, InDocumentOrder(seriesId, items))
  {
    if items != [] {
      var front := items[..|items| - 1];
      DocumentOrderWellFormed(seriesId, front);
      var eps := InDocumentOrder(seriesId, front);
      var last := items[|items| - 1];
      var id := RepairId(seriesId, last.href);
      if id != "" {
        var all := eps + [Episode(id, EpisodeNumber(last.nameText))];
        assert all == InDocumentOrder(seriesId, items);
        forall k | 0 <= k < |all|
          ensures all[k].id != [] && (seriesId != "" ==> Contains(all[k].id, seriesId))
        {
          if k < |eps| { assert all[k] == eps[k]; }
        }
      }
    }
  }

  /** `Array.prototype.reverse` as a value: the k-th from the front is the
      k-th from the back. */
  function Reverse<T>(s: seq<T>): (r: seq<T>)
    ensures |r| == |s|
  {
    seq(|s|, k requires 0 <= k < |s| => s[|s| - 1 - k])
  }

  lemma ReverseWellFormed(seriesId: string, eps: seq<Episode>)
    requires WellFormed(seriesId, eps)
    ensures WellFormed(seriesId, Reverse(eps))
  {
    var r := Reverse(eps);
    forall k | 0 <= k < |r|
      ensures r[k].id != [] && (seriesId != "" ==> Contains(r[k].id, seriesId))
    {
      assert r[k] == eps[|eps| - 1 - k];
    }
  }

  /** Upstream lists newest first; if its numbers strictly decrease down the
      page, the returned list has them strictly increasing. */
  lemma ReversedNumbersIncrease(eps: seq<Episode>)
    requires forall k :: 0 <= k < |eps| ==> eps[k].number.Some?
    requires forall k :: 0 <= k < |eps| - 1 ==> eps[k].number.value > eps[k + 1].number.value
    ensures forall k :: 0 <= k < |eps| - 1 ==>
              Reverse(eps)[k].number.value < Reverse(eps)[k + 1].number.value
  {
    var r := Reverse(eps);
    forall k | 0 <= k < |eps| - 1
      ensures r[k].number.value < r[k + 1].number.value
    {
      assert r[k] == eps[|eps| - 1 - k] && r[k + 1] == eps[|eps| - 2 - k];
    }
  }

  /** `episodes.reverse()` on the array itself. */
  method ReverseInPlace(a: array<Episode>)
    modifies a
    ensures a[..] == Reverse(old(a[..]))
  {
    var lo, hi := 0, a.Length;
    while lo + 1 < hi
      invariant 0 <= lo <= a.Length && hi == a.Length - lo
      invariant forall k :: lo <= k < hi ==> a[k] == old(a[k])
      invariant forall k :: 0 <= k < lo ==> a[k] == old(a[a.Length - 1 - k]) && a[a.Length - 1 - k] == old(a[k])
    {
      a[lo], a[hi - 1] := a[hi - 1], a[lo];
      lo, hi := lo + 1, hi - 1;
    }
  }

  /** One more `li` extends the document-order list by its episode, if any. */
  lemma DocumentOrderStep(seriesId: string, items: seq<ListItem>, i: nat)
    requires i < |items|
    ensures var e := ToEpisode(seriesId, items[i]);
            InDocumentOrder(seriesId, items[..i + 1]) ==
            InDocumentOrder(seriesId, items[..i]) + (if e.Some? then [e.value] else [])
  {
    assert items[..i + 1][..i] == items[..i];
  }

  /** The id computation of the `.each` callback (lines 73-78), reassigning
      `epId` step by step. */
  method EpisodeIdOf(seriesId: string, href: Option<string>) returns (epId: string)
    ensures epId == RepairId(seriesId, href)
  {
    epId := if href.Some? then Trim(href.value) else "";
    epId := StripLeadingSlash(epId);
    assert epId == RawEpisodeId(href);
    if StartsWith(epId, "-") || (seriesId != "" && !Contains(epId, seriesId)) {
      var suffix := DropLeadingDashes(epId);
      epId := seriesId + "-" + suffix;
    }
  }

  /** The body of the `.each` callback (lines 72-81): the episode to push, if
      its id is non-empty. */
  method EpisodeOf(seriesId: string, item: ListItem) returns (e: Option<Episode>)
    ensures e == ToEpisode(seriesId, item)
  {
    var epId := EpisodeIdOf(seriesId, item.href);
    if epId != "" {
      return Some(Episode(epId, EpisodeNumber(item.nameText)));
    }
    return None;
  }

  /** One call of the `.each` callback: item `i`'s episode, if any, is pushed
      after those of the earlier items. */
  method PushEpisode(seriesId: string, items: seq<ListItem>, i: nat, pushed: seq<Episode>)
    returns (pushed': seq<Episode>)
    requires i < |items| && pushed == InDocumentOrder(seriesId, items[..i])
    ensures pushed' == InDocumentOrder(seriesId, items[..i + 1])
  {
    var e := EpisodeOf(seriesId, items[i]);
    DocumentOrderStep(seriesId, items, i);
    pushed' := pushed;
    if e.Some? {
      pushed' := pushed' + [e.value];
    }
  }

  /** The `$ep('li').each(...)` loop: one push per item with a non-empty id. */
  method PushEpisodes(seriesId: string, items: seq<ListItem>) returns (pushed: seq<Episode>)
    ensures pushed == InDocumentOrder(seriesId, items)
  {
    pushed := [];
    var i := 0;
    while i < |items|
      invariant 0 <= i <= |items|
      invariant pushed == InDocumentOrder(seriesId, items[..i])
    {
      pushed := PushEpisode(seriesId, items, i, pushed);
      i := i + 1;
    }
    assert items[..i] == items;
  }

  /** The episode list of one ajax response: pushed in document order, then
      `episodes.reverse()`. */
  method CollectEpisodes(seriesId: string, items: seq<ListItem>) returns (episodes: seq<Episode>)
    ensures episodes == Reverse(InDocumentOrder(seriesId, items))
    ensures WellFormed(seriesId, episodes)
    ensures seriesId != "" ==> |episodes| == |items|
  {
    var pushed := PushEpisodes(seriesId, items);
    var a := new Episode[|pushed|](k requires 0 <= k < |pushed| => pushed[k]);
    assert a[..] == pushed;
    ReverseInPlace(a);
    episodes := a[..];
    DocumentOrderWellFormed(seriesId, items);
    ReverseWellFormed(seriesId, pushed);
  }
}
