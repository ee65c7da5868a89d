/** The mock image scraper: builds `count` predictable picsum.photos urls
    from a slug of the query. */
module ImageScraper {
  import opened Text

  /** `s.replace(a, b)` for single characters. */
  function ReplaceChar(s: string, a: char, b: char): (r: string)
    ensures |r| == |s|
    ensures a != b ==> a !in r
    ensures a !in s ==> r == s
    ensures forall i :: 0 <= i < |s| && s[i] != a ==> r[i] == s[i]
    ensures forall i :: 0 <= i < |s| && s[i] == a ==> r[i] == b
  {
    seq(|s|, i requires 0 <= i < |s| => if s[i] == a then b else s[i])
  }

  /** `s.replace(c, "")`. */
  function RemoveChar(s: string, c: char): (r: string)
    ensures c !in r
    ensures forall x :: x in r ==> x in s
    ensures c !in s ==> r == s
  {
    if s == [] then [] else (if s[0] == c then [] else [s[0]]) + RemoveChar(s[1..], c)
  }

  /** Every character other than `c` is kept as often as it occurs. */
  lemma {:induction false} RemoveCharCounts(s: string, c: char)
    ensures multiset(RemoveChar(s, c)) == multiset(s)[c := 0]
    decreases |s|
  {
    if s != [] {
      assert s == [s[0]] + s[1..];
      RemoveCharCounts(s[1..], c);
    }
  }

  /** Removal works piece by piece, so the characters kept stay in their
      order. */
  lemma {:induction false} RemoveCharConcat(a: string, b: string, c: char)
    ensures RemoveChar(a + b, c) == RemoveChar(a, c) + RemoveChar(b, c)
    decreases |a|
  {
    if a == [] {
      assert a + b == b;
    } else {
      var h: string := if a[0] == c then [] else [a[0]];
      assert (a + b)[0] == a[0] && (a + b)[1..] == a[1..] + b;
      RemoveCharConcat(a[1..], b, c);
      assert h + (RemoveChar(a[1..], c) + RemoveChar(b, c)) == (h + RemoveChar(a[1..], c)) + RemoveChar(b, c);
    }
  }

  /** `query.lower().replace(" ", "-").replace("[", "").replace("]", "")` */
  function Slug(query: string): (slug: string)
    ensures ' ' !in slug && '[' !in slug && ']' !in slug
    ensures forall c :: c in slug ==> c == '-' || c in Lower(query)
  {
    RemoveChar(RemoveChar(ReplaceChar(Lower(query), ' ', '-'), '['), ']')
  }

  /** Removing `c` shortens the text by the number of copies of `c`. */
  lemma {:induction false} RemoveCharLength(s: string, c: char)
    ensures |RemoveChar(s, c)| == |s| - multiset(s)[c]
    decreases |s|
  {
    if s != [] {
      assert s == [s[0]] + s[1..];
      RemoveCharLength(s[1..], c);
    }
  }

  /** Two texts of one length with `c` at the same positions hold equally
      many copies of `c`. */
  lemma {:induction false} SameCount(s: string, t: string, c: char)
    requires |s| == |t|
    requires forall i :: 0 <= i < |s| ==> (s[i] == c <==> t[i] == c)
    ensures multiset(s)[c] == multiset(t)[c]
    decreases |s|
  {
    if s != [] {
      assert s == [s[0]] + s[1..] && t == [t[0]] + t[1..];
      SameCount(s[1..], t[1..], c);
    }
  }

  /** The slug keeps every character of the query but the brackets: it is
      shorter by exactly the number of '[' and ']' in the query. */
  lemma SlugLength(query: string)
    ensures |Slug(query)| == |query| - multiset(query)['['] - multiset(query)[']']
  {
    var p := ReplaceChar(Lower(query), ' ', '-');
    SameCount(query, p, '[');
    SameCount(query, p, ']');
    var a := RemoveChar(p, '[');
    RemoveCharLength(p, '[');
    RemoveCharCounts(p, '[');
    assert multiset(a)[']'] == multiset(p)[']'];
    RemoveCharLength(a, ']');
  }

  /** A slug is its own slug: it is lower-case and has no space or bracket. */
  lemma SlugIdempotent(query: string)
    ensures Slug(Slug(query)) == Slug(query)
  {
    var s := Slug(query);
    forall i | 0 <= i < |s| ensures LowerChar(s[i]) == s[i] {
      assert s[i] in s;
      if s[i] != '-' {
        var j :| 0 <= j < |query| && Lower(query)[j] == s[i];
      }
    }
    assert Lower(s) == s;
    assert ReplaceChar(s, ' ', '-') == s;
  }

  function UrlPrefix(slug: string): string {
    "https://picsum.photos/seed/" + slug + "-"
  }

  /** The i-th url (counting from 1) for a slug. */
  function MockUrl(slug: string, n: nat): string {
    UrlPrefix(slug) + NatToDecimal(n) + "/800/600"
  }

  /** The list `scrape_images(query, count)` returns: empty when
      `count <= 0`, otherwise one url per index 1..count. */
  function MockUrls(query: string, count: int): (urls: seq<string>)
    ensures |urls| == if count > 0 then count else 0
  {
    var n := if count > 0 then count else 0;
    seq(n, i requires 0 <= i < n => MockUrl(Slug(query), i + 1))
  }

  /** The urls of one call are pairwise distinct: they differ in the index. */
  lemma MockUrlsDistinct(query: string, count: int, i: nat, j: nat)
    requires i < |MockUrls(query, count)| && j < |MockUrls(query, count)| && i != j
    ensures MockUrls(query, count)[i] != MockUrls(query, count)[j]
  {
    var p := UrlPrefix(Slug(query));
    if MockUrls(query, count)[i] == MockUrls(query, count)[j] {
      assert MockUrls(query, count)[i] == MockUrl(Slug(query), i + 1);
      assert MockUrls(query, count)[j] == MockUrl(Slug(query), j + 1);
      CancelAffixes(p, NatToDecimal(i + 1), NatToDecimal(j + 1), "/800/600");
      DecimalInjective(i + 1, j + 1);
    }
  }

  /** Every url is under the query's seed: it starts with the picsum prefix
      for the query's slug. */
  lemma MockUrlsSeeded(query: string, count: int)
    ensures forall u :: u in MockUrls(query, count) ==> UrlPrefix(Slug(query)) <= u
  {
    forall u | u in MockUrls(query, count) ensures UrlPrefix(Slug(query)) <= u {
      var i :| 0 <= i < |MockUrls(query, count)| && MockUrls(query, count)[i] == u;
      var p := UrlPrefix(Slug(query));
      var d := NatToDecimal(i + 1);
      assert MockUrls(query, count)[i] == MockUrl(Slug(query), i + 1);
      assert u == p + d + "/800/600";
      assert u[..|p|] == p;
    }
  }

  /** With `count >= 1` the scraper always finds something. */
  lemma MockUrlsNonEmpty(query: string, count: int)
    requires count >= 1
    ensures |MockUrls(query, count)| == count
    ensures MockUrls(query, count)[0] == MockUrl(Slug(query), 1)
  {
  }

  /** `ImageScraperService.scrape_images`: a loop appending one url per index. */
  method ScrapeImages(query: string, count: int) returns (urls: seq<string>)
    ensures urls == MockUrls(query, count)
  {
    var n := if count > 0 then count else 0;
    urls := [];
    for i := 0 to n
      invariant |urls| == i
      invariant forall k :: 0 <= k < i ==> urls[k] == MockUrl(Slug(query), k + 1)
    {
      var querySlug := Slug(query);
      urls := urls + [MockUrl(querySlug, i + 1)];
    }
  }
}
