/** The few JavaScript string primitives the scraper relies on
    (`trim`, `includes`, `startsWith`, regex whitespace `\s`),
    written over `string` = `seq<char>`. A Dafny `char` is a Unicode scalar
    value, so these strings are JavaScript strings without lone surrogates. */
module Text {
  import opened Wrappers

  /** JavaScript's WhiteSpace and LineTerminator characters: the set that
      `String.prototype.trim` removes and that the regex class `\s` matches. */
  predicate IsSpace(c: char)
  {
    c == '\t' || c == '\n' || c == '\U{000B}' || c == '\U{000C}' || c == '\r' || c == ' '
    || c == '\U{00A0}' || c == '\U{1680}' || ('\U{2000}' <= c <= '\U{200A}')
    || c == '\U{2028}' || c == '\U{2029}' || c == '\U{202F}' || c == '\U{205F}'
    || c == '\U{3000}' || c == '\U{FEFF}'
  }

  predicate IsQuote(c: char)
  {
    c == '\'' || c == '"'
  }

  /** `p` occurs in `s` starting at index `i`. */
  predicate HasAt(s: string, i: int, p: string)
  {
    0 <= i && i + |p| <= |s| && s[i..i + |p|] == p
  }

  predicate StartsWith(s: string, p: string)
  {
    HasAt(s, 0, p)
  }

  /** `s.indexOf(p, from)`, with `None` for -1. */
  function IndexOf(s: string, p: string, from: nat): (r: Option<nat>)
    ensures r.Some? ==> from <= r.value && HasAt(s, r.value, p)
    ensures r.Some? ==> forall j :: from <= j < r.value ==> !HasAt(s, j, p)
    ensures r.None? ==> forall j :: from <= j ==> !HasAt(s, j, p)
    decreases |s| - from
  {
    if |s| < from + |p| then None
    else if HasAt(s, from, p) then Some(from)
    else IndexOf(s, p, from + 1)
  }

  /** `s.includes(p)`. */
  predicate Contains(s: string, p: string)
  {
    IndexOf(s, p, 0).Some?
  }

  /** `includes` finds exactly the patterns that occur somewhere. */
  lemma ContainsIff(s: string, p: string)
    ensures Contains(s, p) <==> exists i :: HasAt(s, i, p)
  {
    if exists i :: HasAt(s, i, p) {
      var i :| HasAt(s, i, p);
      ContainsAt(s, p, i);
    }
  }

  lemma ContainsAt(s: string, p: string, i: int)
    requires HasAt(s, i, p)
    ensures Contains(s, p)
  {
  }

  lemma {:induction false} PrefixContained(p: string, t: string)
    ensures Contains(p + t, p)
  {
    assert (p + t)[0..|p|] == p;
    ContainsAt(p + t, p, 0);
  }

  /** The first index at or after `k` whose character does not satisfy
      `keep` (or |s|): the end of a greedy `[...]*` run. */
  function ScanWhile(s: string, k: nat, keep: char -> bool): (e: nat)
    requires k <= |s|
    ensures k <= e <= |s|
    ensures forall j :: k <= j < e ==> keep(s[j])
    ensures e < |s| ==> !keep(s[e])
    decreases |s| - k
  {
    if k == |s| || !keep(s[k]) then k else ScanWhile(s, k + 1, keep)
  }

  /** Index of the first non-space character of `s` (or |s|). */
  function LeadingSpaces(s: string): (a: nat)
    ensures a <= |s|
    ensures forall j :: 0 <= j < a ==> IsSpace(s[j])
    ensures a < |s| ==> !IsSpace(s[a])
  {
    ScanWhile(s, 0, IsSpace)
  }

  function TrimEnd(s: string): (r: string)
    ensures |r| <= |s| && r == s[..|r|]
    ensures forall j :: |r| <= j < |s| ==> IsSpace(s[j])
    ensures r != [] ==> !IsSpace(r[|r| - 1])
  {
    if s != [] && IsSpace(s[|s| - 1]) then TrimEnd(s[..|s| - 1]) else s
  }

  /** `s.trim()`: what is left of `s` once the spaces at both ends are removed. */
  function Trim(s: string): (r: string)
    ensures r == [] || (!IsSpace(r[0]) && !IsSpace(r[|r| - 1]))
    ensures LeadingSpaces(s) + |r| <= |s|
    ensures r == s[LeadingSpaces(s)..LeadingSpaces(s) + |r|]
    ensures forall j :: LeadingSpaces(s) + |r| <= j < |s| ==> IsSpace(s[j])
  {
    var a := LeadingSpaces(s);
    var r := TrimEnd(s[a..]);
    assert r == s[a..][..|r|];
    r
  }

  predicate AllSpaces(s: string)
  {
    forall j :: 0 <= j < |s| ==> IsSpace(s[j])
  }

  /** Trimming a non-empty word with non-space ends, padded by spaces on both
      sides, gives back exactly the word. */
  lemma TrimOfPadded(pad1: string, w: string, pad2: string)
    requires AllSpaces(pad1) && AllSpaces(pad2)
    requires w != [] && !IsSpace(w[0]) && !IsSpace(w[|w| - 1])
    ensures Trim(pad1 + w + pad2) == w
  {
    var s := pad1 + w + pad2;
    var a := LeadingSpaces(s);
    var r := Trim(s);
    var p, q := |pad1|, |pad1| + |w|;
    assert s[p] == w[0] && s[q - 1] == w[|w| - 1];
    forall j | 0 <= j < p
      ensures IsSpace(s[j])
    {
      assert s[j] == pad1[j];
    }
    forall j | q <= j < |s|
      ensures IsSpace(s[j])
    {
      assert s[j] == pad2[j - q];
    }
    assert a == p;
    var first, last := s[p], s[q - 1];
    assert a + |r| <= p ==> IsSpace(first);
    assert r != [];
    assert a + |r| < q ==> IsSpace(last);
    assert !IsSpace(s[a + |r| - 1]) by { assert r[|r| - 1] == s[a + |r| - 1]; }
    assert a + |r| == q;
    assert s[p..q] == w;
  }

  /** A string with no space at either end is its own `trim()`. */
  lemma TrimOfBare(w: string)
    requires w != [] && !IsSpace(w[0]) && !IsSpace(w[|w| - 1])
    ensures Trim(w) == w
  {
    assert AllSpaces([]);
    TrimOfPadded([], w, []);
    assert [] + w + [] == w;
  }

  /** `s.replace(p, q)` with a string pattern: only the first occurrence. */
  function ReplaceFirst(s: string, p: string, q: string): (r: string)
    ensures !Contains(s, p) ==> r == s
    ensures Contains(s, p) ==>
              exists i :: && HasAt(s, i, p) && (forall j :: 0 <= j < i ==> !HasAt(s, j, p))
                          && r == s[..i] + q + s[i + |p|..]
  {
    match IndexOf(s, p, 0)
    case None => s
    case Some(i) => s[..i] + q + s[i + |p|..]
  }
}
