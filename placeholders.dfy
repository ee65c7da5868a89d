/** Image placeholders in generated text. Extraction is the regular
    expression `image - \[(.*?)\]` applied with `re.finditer`, written out as
    a scanner: a match starts where "image - [" occurs, its query runs up to
    the first ']' and may not cross a newline (`.` without DOTALL), and the
    search resumes after the ']'. Assembly replaces, for each validated
    request in order, the first remaining placeholder with a Markdown image. */
module Placeholders {
  import opened Wrappers
  import opened Text
  import opened NotebookModel

  const Open := "image - ["

  /** `f"image - [{query}]"` */
  function Marker(query: string): string {
    Open + query + "]"
  }

  /** `f"![{query}]({url})"` */
  function Embed(query: string, url: string): string {
    "![" + query + "](" + url + ")"
  }

  /** Text that `.*?` can cover before the closing `\]`: no ']' and no newline. */
  predicate Plain(s: string) {
    forall i :: 0 <= i < |s| ==> s[i] != ']' && s[i] != '\n'
  }

  /** Text containing no "image - [", so no match can start inside it. */
  ghost predicate Clean(s: string) {
    forall j :: !OccursAt(s, Open, j)
  }

  /** The index of the ']' that closes a query starting at `k`: the first
      ']' at or after `k`, provided no newline comes before it. */
  function CloseFrom(t: string, k: nat): (r: Option<nat>)
    decreases |t| - k
    ensures r.Some? ==> k <= r.value < |t| && t[r.value] == ']'
  {
    if k >= |t| then None
    else if t[k] == ']' then Some(k)
    else if t[k] == '\n' then None
    else CloseFrom(t, k + 1)
  }

  /** The query it closes contains no ']' and no newline. */
  lemma {:induction false} CloseFromPlain(t: string, k: nat)
    requires CloseFrom(t, k).Some?
    ensures Plain(t[k..CloseFrom(t, k).value])
    decreases |t| - k
  {
    if t[k] != ']' {
      CloseFromPlain(t, k + 1);
      assert t[k..CloseFrom(t, k).value] == [t[k]] + t[k + 1..CloseFrom(t, k).value];
    }
  }

  /** The ']' found is the first one: any ']' reached over plain text is it. */
  lemma {:induction false} CloseFromFirst(t: string, k: nat, j: nat)
    requires k <= j < |t| && t[j] == ']' && Plain(t[k..j])
    ensures CloseFrom(t, k) == Some(j)
    decreases j - k
  {
    if k < j {
      assert t[k..j][0] == t[k];
      assert t[k + 1..j] == t[k..j][1..];
      CloseFromFirst(t, k + 1, j);
    }
  }

  /** Where the match attempted at index `i` ends (the index of its ']'). */
  function MatchAt(t: string, i: nat): (r: Option<nat>)
    ensures r.Some? ==> i + |Open| <= r.value < |t|
  {
    if OccursAt(t, Open, i) then CloseFrom(t, i + |Open|) else None
  }

  /** The queries of all matches at or after index `i`, in order. */
  function Scan(t: string, i: nat): seq<string>
    decreases |t| - i
  {
    if i >= |t| then []
    else match MatchAt(t, i)
      case Some(j) => [t[i + |Open|..j]] + Scan(t, j + 1)
      case None => Scan(t, i + 1)
  }

  /** `[m.group(1) for m in re.finditer(r"image - \[(.*?)\]", text)]` */
  function Markers(text: string): seq<string> {
    Scan(text, 0)
  }

  // ---------------------------------------------------------------------------
  // Every extracted query is a well-formed placeholder of the text.

  lemma {:induction false} ScanWellFormed(t: string, i: nat)
    ensures forall q :: q in Scan(t, i) ==> Plain(q) && Contains(t, Marker(q))
    decreases |t| - i
  {
    if i < |t| {
      match MatchAt(t, i)
      case Some(j) =>
        var q := t[i + |Open|..j];
        CloseFromPlain(t, i + |Open|);
        assert t[i..j + 1] == Open + q + "]" by {
          assert t[i..i + |Open|] == Open;
          assert t[i..j + 1] == t[i..i + |Open|] + t[i + |Open|..j] + [t[j]];
        }
        assert OccursAt(t, Marker(q), i);
        ScanWellFormed(t, j + 1);
      case None =>
        ScanWellFormed(t, i + 1);
    }
  }

  /** Each query extracted from `text` contains no ']' and no newline, and
      `image - [query]` occurs in `text`. */
  lemma MarkersWellFormed(text: string)
    ensures forall q :: q in Markers(text) ==> Plain(q) && Contains(text, Marker(q))
  {
    ScanWellFormed(text, 0);
  }

  // ---------------------------------------------------------------------------
  // Text without a match start is skipped.

  lemma {:induction false} ScanSkip(t: string, i: nat, k: nat)
    requires i <= k <= |t|
    requires forall j :: i <= j < k ==> !OccursAt(t, Open, j)
    ensures Scan(t, i) == Scan(t, k)
    decreases k - i
  {
    if i < k {
      ScanSkip(t, i + 1, k);
    }
  }

  /** A slice of a stretch that `t` holds at `k` is the matching slice of `t`. */
  lemma SubSlice(t: string, k: nat, s: string, a: nat, b: nat)
    requires k + |s| <= |t| && t[k..k + |s|] == s && a <= b <= |s|
    ensures t[k + a..k + b] == s[a..b]
  {
    assert forall i :: 0 <= i < |s| ==> s[i] == t[k + i];
  }

  /** A stretch `x + y` that `t` holds at `k` splits into its two parts. */
  lemma SplitAt(t: string, k: nat, x: string, y: string)
    requires k + |x| + |y| <= |t| && t[k..k + |x| + |y|] == x + y
    ensures t[k..k + |x|] == x && t[k + |x|..k + |x| + |y|] == y
  {
    SubSlice(t, k, x + y, 0, |x|);
    SubSlice(t, k, x + y, |x|, |x| + |y|);
    assert (x + y)[..|x|] == x && (x + y)[|x|..] == y;
  }

  /** "image - [" does not overlap itself, so clean text at `k` that is
      followed by the end of `t` or by a placeholder holds no match start. */
  lemma NoStartAt(t: string, k: nat, a: string)
    requires k + |a| <= |t| && t[k..k + |a|] == a && Clean(a)
    requires k + |a| == |t| || t[k + |a|] == 'i'
    ensures forall j :: k <= j < k + |a| ==> !OccursAt(t, Open, j)
  {
    assert forall d :: 1 <= d < |Open| ==> Open[d] != 'i';
    forall j | k <= j < k + |a|
      ensures !OccursAt(t, Open, j)
    {
      if j + |Open| <= k + |a| {
        SubSlice(t, k, a, j - k, j - k + |Open|);
        assert !OccursAt(a, Open, j - k);
      } else if j + |Open| <= |t| {
        assert t[j..j + |Open|][k + |a| - j] == t[k + |a|];
      }
    }
  }

  // ---------------------------------------------------------------------------
  // Extraction inverts placement: text laid out as clean stretches
  // separated by placeholders yields exactly the placed queries.

  /** A stretch of text followed by one placeholder. */
  datatype Segment = Segment(before: string, query: string)

  function Render(segs: seq<Segment>, tail: string): string {
    if segs == [] then tail else segs[0].before + Marker(segs[0].query) + Render(segs[1..], tail)
  }

  function Queries(segs: seq<Segment>): seq<string> {
    seq(|segs|, i requires 0 <= i < |segs| => segs[i].query)
  }

  ghost predicate WellLaidOut(segs: seq<Segment>, tail: string) {
    Clean(tail) && forall i :: 0 <= i < |segs| ==> Clean(segs[i].before) && Plain(segs[i].query)
  }

  /** A placeholder at `k` is matched, and the match ends at its own ']'. */
  lemma MatchAtPlaced(t: string, k: nat, q: string)
    requires k + |Marker(q)| <= |t| && t[k..k + |Marker(q)|] == Marker(q) && Plain(q)
    ensures MatchAt(t, k) == Some(k + |Open| + |q|)
    ensures t[k + |Open|..k + |Open| + |q|] == q
  {
    var m := Marker(q);
    var j := k + |Open| + |q|;
    assert m[..|Open|] == Open && m[|Open|..|Open| + |q|] == q && m[|Open| + |q|] == ']';
    SubSlice(t, k, m, 0, |Open|);
    SubSlice(t, k, m, |Open|, |Open| + |q|);
    assert t[j] == t[k..k + |m|][|Open| + |q|];
    CloseFromFirst(t, k + |Open|, j);
  }

  /** The scan passes over clean text at `k` that is followed by the end of
      `t` or by a placeholder. */
  lemma ScanSkipClean(t: string, k: nat, a: string)
    requires k + |a| <= |t| && t[k..k + |a|] == a && Clean(a)
    requires k + |a| == |t| || t[k + |a|] == 'i'
    ensures Scan(t, k) == Scan(t, k + |a|)
  {
    NoStartAt(t, k, a);
    ScanSkip(t, k, k + |a|);
  }

  /** Clean text and then a placeholder at `k` yield the placeholder's
      query, and the scan resumes right after the placeholder. */
  lemma ScanPlacedAt(t: string, k: nat, a: string, q: string)
    requires k + |a| + |Marker(q)| <= |t| && t[k..k + |a| + |Marker(q)|] == a + Marker(q)
    requires Clean(a) && Plain(q)
    ensures Scan(t, k) == [q] + Scan(t, k + |a| + |Marker(q)|)
  {
    var m := Marker(q);
    var p := k + |a|;
    SplitAt(t, k, a, m);
    assert t[p] == t[p..p + |m|][0];
    ScanSkipClean(t, k, a);
    MatchAtPlaced(t, p, q);
    ScanAtMatch(t, p, p + |Open| + |q|);
  }

  /** Scanning from `k`, where a laid-out text begins and runs to the end,
      yields the placed queries. */
  lemma {:induction false} ScanRendered(t: string, k: nat, segs: seq<Segment>, tail: string)
    requires k <= |t| && t[k..] == Render(segs, tail) && WellLaidOut(segs, tail)
    ensures Scan(t, k) == Queries(segs)
    decreases |segs|
  {
    if segs == [] {
      assert t[k..k + |tail|] == tail;
      ScanSkipClean(t, k, tail);
    } else {
      var a := segs[0].before;
      var m := Marker(segs[0].query);
      var rest := Render(segs[1..], tail);
      var n := k + |a| + |m|;
      assert t[k..] == (a + m) + rest;
      assert t[k..n] == t[k..][..|a + m|];
      assert t[n..] == t[k..][|a + m|..];
      assert WellLaidOut(segs[1..], tail);
      ScanPlacedAt(t, k, a, segs[0].query);
      ScanRendered(t, n, segs[1..], tail);
      assert Queries(segs) == [segs[0].query] + Queries(segs[1..]);
    }
  }

  /** Extraction of a laid-out text returns the placed queries in order,
      duplicates included. */
  lemma MarkersOfRender(segs: seq<Segment>, tail: string)
    requires WellLaidOut(segs, tail)
    ensures Markers(Render(segs, tail)) == Queries(segs)
  {
    var t := Render(segs, tail);
    assert t[0..] == t;
    ScanRendered(t, 0, segs, tail);
  }

  /** Text without "image - [" has no placeholders. */
  lemma NoMarkersInCleanText(text: string)
    requires Clean(text)
    ensures Markers(text) == []
  {
    MarkersOfRender([], text);
  }

  // ---------------------------------------------------------------------------
  // The extraction loop.

  /** The non-greedy `.*?\]`: advance over ordinary characters until a
      ']' (success) or a newline or the end of the text (failure). */
  method FindClose(text: string, k: nat) returns (close: Option<nat>)
    ensures close == CloseFrom(text, k)
  {
    var j := k;
    while j < |text| && text[j] != ']' && text[j] != '\n'
      invariant k <= j && (k <= |text| ==> j <= |text|)
      invariant CloseFrom(text, j) == CloseFrom(text, k)
      decreases |text| - j
    {
      j := j + 1;
    }
    close := if j < |text| && text[j] == ']' then Some(j) else None;
  }

  /** One attempt of the regex at index `i`: the literal "image - [" and
      then the closing ']'. */
  method MatchAtIndex(text: string, i: nat) returns (close: Option<nat>)
    ensures close == MatchAt(text, i)
  {
    close := None;
    if i + |Open| <= |text| && text[i..i + |Open|] == Open {
      close := FindClose(text, i + |Open|);
    }
  }

  /** One step of the scan at a match: its query, then the scan resumes
      after its ']'. */
  lemma ScanAtMatch(t: string, i: nat, j: nat)
    requires i < |t| && MatchAt(t, i) == Some(j)
    ensures Scan(t, i) == [t[i + |Open|..j]] + Scan(t, j + 1)
  {
  }

  /** One step of the scan where no match starts: it moves on by one. */
  lemma ScanAtMiss(t: string, i: nat)
    requires i < |t| && MatchAt(t, i).None?
    ensures Scan(t, i) == Scan(t, i + 1)
  {
  }

  /** The `for match in re.finditer(...)` loop that fills `image_queries`. */
  method ExtractQueries(text: string) returns (queries: seq<string>)
    ensures queries == Markers(text)
  {
    queries := [];
    var i := 0;
    while i < |text|
      invariant 0 <= i <= |text|
      invariant queries + Scan(text, i) == Markers(text)
      decreases |text| - i
    {
      var close := MatchAtIndex(text, i);
      match close
      case Some(j) =>
        ScanAtMatch(text, i, j);
        var q := text[i + |Open|..j];
        assert (queries + [q]) + Scan(text, j + 1) == queries + ([q] + Scan(text, j + 1));
        queries := queries + [q];
        i := j + 1;
      case None =>
        ScanAtMiss(text, i);
        i := i + 1;
    }
  }

  // ---------------------------------------------------------------------------
  // Assembly.

  /** `status == "VALIDATED" and validated_image_url` (a non-empty url). */
  predicate Embeddable(r: ImageRequest) {
    r.status == ImageRequestStatus.Validated && r.validatedImageUrl.Some? && r.validatedImageUrl.value != ""
  }

  /** One pass of the assembly loop. */
  function EmbedOne(content: string, r: ImageRequest): string {
    if Embeddable(r)
    then ReplaceFirst(content, Marker(r.query), Embed(r.query, r.validatedImageUrl.value))
    else content
  }

  /** The final content: the requests applied in list order. */
  function Assemble(content: string, reqs: seq<ImageRequest>): string
    decreases |reqs|
  {
    if reqs == [] then content else Assemble(EmbedOne(content, reqs[0]), reqs[1..])
  }

  /** The assembly loop over `processed_image_requests`. */
  method AssembleContent(text: string, reqs: seq<ImageRequest>) returns (finalContent: string)
    ensures finalContent == Assemble(text, reqs)
  {
    finalContent := text;
    for i := 0 to |reqs|
      invariant Assemble(finalContent, reqs[i..]) == Assemble(text, reqs)
    {
      assert reqs[i..][1..] == reqs[i + 1..];
      var r := reqs[i];
      if r.status == ImageRequestStatus.Validated && r.validatedImageUrl.Some? && r.validatedImageUrl.value != "" {
        var placeholder := Marker(r.query);
        var imageEmbedCode := Embed(r.query, r.validatedImageUrl.value);
        finalContent := ReplaceFirst(finalContent, placeholder, imageEmbedCode);
      }
    }
    assert reqs[|reqs|..] == [];
  }

  function Embeddables(reqs: seq<ImageRequest>): (r: seq<ImageRequest>)
    ensures forall x :: x in r ==> Embeddable(x) && x in reqs
  {
    if reqs == [] then []
    else (if Embeddable(reqs[0]) then [reqs[0]] else []) + Embeddables(reqs[1..])
  }

  /** Requests that are not validated have no effect on the content. */
  lemma {:induction false} AssembleIgnoresUnvalidated(content: string, reqs: seq<ImageRequest>)
    ensures Assemble(content, reqs) == Assemble(content, Embeddables(reqs))
    decreases |reqs|
  {
    if reqs != [] {
      AssembleIgnoresUnvalidated(EmbedOne(content, reqs[0]), reqs[1..]);
      if Embeddable(reqs[0]) {
        assert Embeddables(reqs) == [reqs[0]] + Embeddables(reqs[1..]);
        assert Embeddables(reqs)[1..] == Embeddables(reqs[1..]);
      } else {
        assert Embeddables(reqs) == Embeddables(reqs[1..]);
      }
    }
  }

  /** Without a validated request the generated text is kept verbatim. */
  lemma AssembleWithoutValidated(content: string, reqs: seq<ImageRequest>)
    requires forall r :: r in reqs ==> !Embeddable(r)
    ensures Assemble(content, reqs) == content
  {
    AssembleIgnoresUnvalidated(content, reqs);
  }

  /** A validated request replaces the first placeholder with its query,
      when the text before it holds no placeholder. */
  lemma EmbedFirstMarker(a: string, r: ImageRequest, b: string)
    requires Clean(a) && Embeddable(r)
    ensures EmbedOne(a + Marker(r.query) + b, r) == a + Embed(r.query, r.validatedImageUrl.value) + b
  {
    var m := Marker(r.query);
    var t := a + m + b;
    assert t[..|a|] == a && t[|a|..|a| + |m|] == m && t[|a|] == m[0];
    NoStartAt(t, 0, a);
    assert m == Open + (r.query + "]");
    forall j | 0 <= j < |a| ensures !OccursAt(t, m, j) {
      OccursPrefix(t, Open, r.query + "]", j);
    }
    assert FirstOccurrence(t, m, |a|);
    assert t[..|a|] == a && t[|a| + |m|..] == b;
  }

  lemma Regroup(a: string, m: string, b: string, n: string, c: string)
    ensures a + m + b + n + c == a + m + (b + n + c)
  {
  }

  /** Of two identical placeholders only the first is replaced. */
  lemma SecondDuplicateUntouched(a: string, r: ImageRequest, b: string, c: string)
    requires Clean(a) && Embeddable(r)
    ensures Assemble(a + Marker(r.query) + b + Marker(r.query) + c, [r])
         == a + Embed(r.query, r.validatedImageUrl.value) + b + Marker(r.query) + c
  {
    var m := Marker(r.query);
    var e := Embed(r.query, r.validatedImageUrl.value);
    var rest := b + m + c;
    Regroup(a, m, b, m, c);
    Regroup(a, e, b, m, c);
    EmbedFirstMarker(a, r, rest);
    assert [r][1..] == [];
  }
}
