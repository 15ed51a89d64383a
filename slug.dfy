/** Identifier synthesis for search (`CustomGogo.search`,
    src/routes/anime/animepahe.ts:30): the query is guessed into a series id by
    `query.toLowerCase().trim().replace(/[^a-z0-9]+/g, '-').replace(/^-|-$/g, '')`. */
module Slugs {
  import opened Text

  /** The regex class `[a-z0-9]`. */
  predicate IsSlugChar(c: char)
  {
    'a' <= c <= 'z' || '0' <= c <= '9'
  }

  /** Only `[a-z0-9]` and single dashes. */
  predicate WellDashed(s: string)
  {
    && (forall i :: 0 <= i < |s| ==> IsSlugChar(s[i]) || s[i] == '-')
    && (forall i :: 0 <= i < |s| - 1 && s[i] == '-' ==> s[i + 1] != '-')
  }

  /** What a slug looks like: well dashed, with no dash at either end. */
  predicate IsSlug(s: string)
  {
    WellDashed(s) && (s != [] ==> s[0] != '-' && s[|s| - 1] != '-')
  }

  /** `toLowerCase` of one character. ASCII capitals are lowered, and so are the
      two non-ASCII characters whose lower case is ASCII: KELVIN SIGN gives "k"
      and CAPITAL I WITH DOT ABOVE gives "i" followed by COMBINING DOT ABOVE.
      Every other character is kept: its lower case is neither `[a-z0-9]` nor
      a space, which is all the slug can observe. */
  function LowerChar(c: char): (r: string)
    ensures |r| >= 1
    ensures IsSlugChar(c) || c == '-' ==> r == [c]
  {
    if 'A' <= c <= 'Z' then [(c as int + 32) as char]
    else if c == '\U{212A}' then "k"
    else if c == '\U{0130}' then "i\U{0307}"
    else [c]
  }

  /** `s.toLowerCase()`. */
  function ToLower(s: string): string
  {
    if s == [] then [] else LowerChar(s[0]) + ToLower(s[1..])
  }

  predicate NotSlugChar(c: char)
  {
    !IsSlugChar(c)
  }

  /** `s.replace(/[^a-z0-9]+/g, '-')`: every maximal run of characters outside
      `[a-z0-9]` becomes one dash. */
  function Collapse(s: string): (r: string)
    ensures WellDashed(r)
    ensures r == [] <==> s == []
    ensures s != [] && IsSlugChar(s[0]) ==> r[0] == s[0]
    ensures s != [] && !IsSlugChar(s[0]) ==> r[0] == '-'
    decreases |s|
  {
    if s == [] then []
    else if IsSlugChar(s[0]) then [s[0]] + Collapse(s[1..])
    else
      var k := ScanWhile(s, 0, NotSlugChar);
      "-" + Collapse(s[k..])
  }

  /** `t.replace(/^-|-$/g, '')`: one leading and one trailing dash go. */
  function StripEdges(t: string): (r: string)
    requires WellDashed(t)
    ensures IsSlug(r)
    ensures t == r || t == "-" + r || t == r + "-" || t == "-" + r + "-"
  {
    var u := if t != [] && t[0] == '-' then t[1..] else t;
    if u != [] && u[|u| - 1] == '-' then u[..|u| - 1] else u
  }

  /** The id guessed from a search query. */
  function Slug(query: string): (r: string)
    ensures IsSlug(r)
  {
    StripEdges(Collapse(Trim(ToLower(query))))
  }

  /** The characters of `s` in `[a-z0-9]`, in order. */
  function Alnums(s: string): string
  {
    if s == [] then [] else (if IsSlugChar(s[0]) then [s[0]] else []) + Alnums(s[1..])
  }

  lemma {:induction false} AlnumsAppend(a: string, b: string)
    ensures Alnums(a + b) == Alnums(a) + Alnums(b)
  {
    if a == [] {
      assert a + b == b;
    } else {
      var h := if IsSlugChar(a[0]) then [a[0]] else [];
      assert (a + b)[0] == a[0] && (a + b)[1..] == a[1..] + b;
      assert Alnums(a + b) == h + Alnums(a[1..] + b);
      AlnumsAppend(a[1..], b);
      assert Alnums(a) == h + Alnums(a[1..]);
    }
  }

  lemma {:induction false} AlnumsOfNone(s: string)
    requires forall i :: 0 <= i < |s| ==> !IsSlugChar(s[i])
    ensures Alnums(s) == []
  {
    if s != [] {
      AlnumsOfNone(s[1..]);
    }
  }

  lemma {:induction false} CollapseKeepsAlnums(s: string)
    ensures Alnums(Collapse(s)) == Alnums(s)
    decreases |s|
  {
    if s == [] {
    } else if IsSlugChar(s[0]) {
      CollapseKeepsAlnums(s[1..]);
      AlnumsAppend([s[0]], Collapse(s[1..]));
    } else {
      var k := ScanWhile(s, 0, NotSlugChar);
      CollapseKeepsAlnums(s[k..]);
      AlnumsAppend("-", Collapse(s[k..]));
      assert s == s[..k] + s[k..];
      AlnumsAppend(s[..k], s[k..]);
      AlnumsOfNone(s[..k]);
    }
  }

  lemma SpacesHaveNoAlnums(t: string)
    requires forall i :: 0 <= i < |t| ==> IsSpace(t[i])
    ensures Alnums(t) == []
  {
    forall i | 0 <= i < |t|
      ensures !IsSlugChar(t[i])
    {
      assert IsSpace(t[i]);
    }
    AlnumsOfNone(t);
  }

  lemma TrimKeepsAlnums(s: string)
    ensures Alnums(Trim(s)) == Alnums(s)
  {
    var a := LeadingSpaces(s);
    var r := Trim(s);
    var head, tail := s[..a], s[a + |r|..];
    assert s == head + r + tail;
    SpacesHaveNoAlnums(head);
    SpacesHaveNoAlnums(tail);
    AlnumsAppend(head + r, tail);
    AlnumsAppend(head, r);
  }

  lemma StripEdgesKeepsAlnums(t: string)
    requires WellDashed(t)
    ensures Alnums(StripEdges(t)) == Alnums(t)
  {
    var u := if t != [] && t[0] == '-' then t[1..] else t;
    if t != [] && t[0] == '-' {
      AlnumsAppend("-", u);
      assert t == "-" + u;
    }
    if u != [] && u[|u| - 1] == '-' {
      AlnumsAppend(u[..|u| - 1], "-");
      assert u == u[..|u| - 1] + "-";
    }
  }

  /** The slug keeps exactly the letters and digits of the lower-cased query,
      in order: only the separators between them are rewritten. */
  lemma SlugKeepsAlnums(query: string)
    ensures Alnums(Slug(query)) == Alnums(ToLower(query))
  {
    var low := ToLower(query);
    TrimKeepsAlnums(low);
    CollapseKeepsAlnums(Trim(low));
    StripEdgesKeepsAlnums(Collapse(Trim(low)));
  }

  /** The guessed id is empty exactly when the lower-cased query has no
      letter or digit. */
  lemma SlugEmptyIff(query: string)
    ensures Slug(query) == [] <==> Alnums(ToLower(query)) == []
  {
    SlugKeepsAlnums(query);
    var r := Slug(query);
    if r != [] {
      assert Alnums(r) == [r[0]] + Alnums(r[1..]);
    }
  }

  lemma {:induction false} ToLowerOfSlug(s: string)
    requires WellDashed(s)
    ensures ToLower(s) == s
  {
    if s != [] {
      ToLowerOfSlug(s[1..]);
    }
  }

  lemma TrimOfSlug(s: string)
    requires IsSlug(s)
    ensures Trim(s) == s
  {
    var r := Trim(s);
    if s != [] {
      assert LeadingSpaces(s) == 0;
      assert !IsSpace(s[|s| - 1]);
    }
  }

  lemma {:induction false} CollapseOfSlug(s: string)
    requires WellDashed(s)
    ensures Collapse(s) == s
    decreases |s|
  {
    if s != [] {
      CollapseOfSlug(s[1..]);
      if !IsSlugChar(s[0]) {
        assert ScanWhile(s, 0, NotSlugChar) == 1;
      }
    }
  }

  /** Lower-casing works character by character. */
  lemma {:induction false} ToLowerAppend(x: string, y: string)
    ensures ToLower(x + y) == ToLower(x) + ToLower(y)
  {
    if x == [] {
      assert x + y == y;
    } else {
      assert (x + y)[0] == x[0] && (x + y)[1..] == x[1..] + y;
      ToLowerAppend(x[1..], y);
      assert ToLower(x + y) == LowerChar(x[0]) + (ToLower(x[1..]) + ToLower(y));
    }
  }

  /** Two greedy scans from the same start end at the same index when the
      text agrees up to and including the first character that stops them. */
  lemma ScanAgrees(x: string, y: string, k: nat)
    requires k <= |x| && (exists j :: k <= j < |x| && !NotSlugChar(x[j]))
    ensures ScanWhile(x + y, k, NotSlugChar) == ScanWhile(x, k, NotSlugChar)
  {
    assert forall j :: 0 <= j < |x| ==> (x + y)[j] == x[j];
  }

  /** A string ending in `[a-z0-9]` is collapsed on its own: no run crosses
      its end. */
  lemma {:induction false} CollapseSplit(x: string, y: string)
    requires x == [] || IsSlugChar(x[|x| - 1])
    ensures Collapse(x + y) == Collapse(x) + Collapse(y)
    decreases |x|
  {
    if x == [] {
      assert x + y == y;
    } else if IsSlugChar(x[0]) {
      assert (x + y)[0] == x[0] && (x + y)[1..] == x[1..] + y;
      CollapseSplit(x[1..], y);
    } else {
      var k := ScanWhile(x, 0, NotSlugChar);
      ScanAgrees(x, y, 0);
      assert (x + y)[0] == x[0];
      assert (x + y)[k..] == x[k..] + y;
      CollapseSplit(x[k..], y);
    }
  }

  /** A run of characters outside `[a-z0-9]` in front of a letter or digit
      (or of the end) becomes exactly one dash. */
  lemma CollapseRun(n: string, y: string)
    requires n != [] && forall j :: 0 <= j < |n| ==> !IsSlugChar(n[j])
    requires y == [] || IsSlugChar(y[0])
    ensures Collapse(n + y) == "-" + Collapse(y)
  {
    var s := n + y;
    assert s[0] == n[0];
    assert forall j :: 0 <= j < |n| ==> s[j] == n[j];
    assert |n| < |s| ==> s[|n|] == y[0];
    assert ScanWhile(s, 0, NotSlugChar) == |n|;
    assert s[|n|..] == y;
  }

  /** Where the dashes go: a run of separators between two letters or digits
      becomes one dash between the collapsed sides. */
  lemma CollapseSeparator(x: string, n: string, y: string)
    requires x != [] && IsSlugChar(x[|x| - 1])
    requires n != [] && forall j :: 0 <= j < |n| ==> !IsSlugChar(n[j])
    requires y != [] && IsSlugChar(y[0])
    ensures Collapse(x + n + y) == Collapse(x) + "-" + Collapse(y)
  {
    assert x + n + y == x + (n + y);
    CollapseSplit(x, n + y);
    CollapseRun(n, y);
  }

  /** A non-empty run of `[a-z0-9]`. */
  predicate IsWord(s: string)
  {
    s != [] && forall j :: 0 <= j < |s| ==> IsSlugChar(s[j])
  }

  /** Two words joined by a dash are a slug. */
  lemma JoinedWordsAreSlug(a: string, b: string)
    requires IsWord(a) && IsWord(b)
    ensures IsSlug(a + "-" + b) && IsSlug(a) && IsSlug(b)
  {
    var r := a + "-" + b;
    assert forall i :: 0 <= i < |a| ==> r[i] == a[i];
    assert r[|a|] == '-';
    assert forall i :: |a| < i < |r| ==> r[i] == b[i - |a| - 1];
  }

  /** Two words and a space are already lower case. */
  lemma LowerOfWords(a: string, b: string)
    requires IsWord(a) && IsWord(b)
    ensures ToLower(a + " " + b) == a + " " + b
  {
    JoinedWordsAreSlug(a, b);
    ToLowerAppend(a + " ", b);
    ToLowerAppend(a, " ");
    ToLowerOfSlug(a);
    ToLowerOfSlug(b);
    assert ToLower(" ") == " ";
  }

  /** The query lower-cased and trimmed, when it is two words and a space. */
  lemma TrimLowerOfWords(a: string, b: string)
    requires IsWord(a) && IsWord(b)
    ensures Trim(ToLower(a + " " + b)) == a + " " + b
  {
    var q := a + " " + b;
    LowerOfWords(a, b);
    assert IsSlugChar(a[0]) && IsSlugChar(b[|b| - 1]);
    TrimOfBare(q);
  }

  /** Stripping the edge dashes leaves a slug as it is. */
  lemma StripEdgesOfSlug(s: string)
    requires IsSlug(s)
    ensures StripEdges(s) == s
  {
  }

  /** Two words and a space collapse to the words joined by a dash. */
  lemma CollapseOfWords(a: string, b: string)
    requires IsWord(a) && IsWord(b)
    ensures Collapse(a + " " + b) == a + "-" + b
  {
    JoinedWordsAreSlug(a, b);
    assert IsSlugChar(a[|a| - 1]) && IsSlugChar(b[0]);
    CollapseSeparator(a, " ", b);
    CollapseOfSlug(a);
    CollapseOfSlug(b);
  }

  /** Two lower-case words separated by a space guess to the two words joined
      by a dash: "one piece" gives "one-piece". */
  lemma SlugJoinsWords(a: string, b: string)
    requires IsWord(a) && IsWord(b)
    ensures Slug(a + " " + b) == a + "-" + b
  {
    TrimLowerOfWords(a, b);
    CollapseOfWords(a, b);
    JoinedWordsAreSlug(a, b);
    StripEdgesOfSlug(a + "-" + b);
  }

  /** Guessing is idempotent: a guessed id guesses to itself. */
  lemma SlugIdempotent(query: string)
    ensures Slug(Slug(query)) == Slug(query)
  {
    var r := Slug(query);
    ToLowerOfSlug(r);
    assert ToLower(r) == r;
    TrimOfSlug(r);
    assert Trim(r) == r;
    CollapseOfSlug(r);
    assert Collapse(r) == r;
    StripEdgesOfSlug(r);
  }
}
