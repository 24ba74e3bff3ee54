/**
 * The link markup of activity texts (src/components/LinkParser.tsx): the
 * scanner that splits a text into plain-text and link segments at every
 * `[label](url)`, the serialiser that writes that markup, and the maps
 * search URL builder.
 *
 * The regular expression `\[([^\]]+)\]\(([^)]+)\)` is deterministic: at a
 * `[` the label runs to the first `]` and must be non-empty, `(` must come
 * next, and the url runs to the first `)` and must be non-empty. `MatchAt`
 * computes that attempt; `MarkupAt` says declaratively what a match is, and
 * the two are proved to agree.
 */
module LinkParser {
  import opened Options
  import opened Text

  datatype Segment = TextSegment(content: string) | LinkSegment(content: string, url: string, isGoogleMaps: bool)

  /** `createLinkString`. */
  function CreateLinkString(text: string, url: string): string {
    "[" + text + "](" + url + ")"
  }

  /** A label the markup can carry: non-empty, with no `]`. */
  predicate ValidLabel(t: string) {
    t != [] && ']' !in t
  }

  /** A url the markup can carry: non-empty, with no `)`. */
  predicate ValidUrl(u: string) {
    u != [] && ')' !in u
  }

  /** The regular expression matches at `p` with label `t` and url `u`. */
  predicate MarkupAt(s: string, p: int, t: string, u: string) {
    ValidLabel(t) && ValidUrl(u) && OccursAt(s, CreateLinkString(t, u), p)
  }

  /** `url.includes('google.com/maps') || url.includes('maps.google.com')`. */
  predicate IsGoogleMaps(url: string) {
    Contains(url, "google.com/maps") || Contains(url, "maps.google.com")
  }

  lemma GoogleMapsIff(url: string)
    ensures IsGoogleMaps(url) <==> (exists i :: OccursAt(url, "google.com/maps", i))
                                   || (exists i :: OccursAt(url, "maps.google.com", i))
  {
    ContainsIff(url, "google.com/maps");
    ContainsIff(url, "maps.google.com");
  }

  /** The first position at or after `i` holding `c`, or the length when there is none. */
  function FirstFrom(s: string, i: nat, c: char): (j: nat)
    requires i <= |s|
    ensures i <= j <= |s|
    ensures j < |s| ==> s[j] == c
    ensures forall k :: i <= k < j ==> s[k] != c
    decreases |s| - i
  {
    if i == |s| || s[i] == c then i else FirstFrom(s, i + 1, c)
  }

  /** One match: where it starts, its two groups, and where it ends. */
  datatype Match = Match(start: nat, linkText: string, url: string, end: nat)

  /** The regular expression tried at position `p`. */
  function MatchAt(s: string, p: nat): (r: Option<Match>)
    requires p <= |s|
    ensures r.Some? ==> r.value.start == p && r.value.end == p + |r.value.linkText| + |r.value.url| + 4 <= |s|
  {
    if p < |s| && s[p] == '[' then
      var q := FirstFrom(s, p + 1, ']');
      if p + 1 < q && q + 1 < |s| && s[q + 1] == '(' then
        var e := FirstFrom(s, q + 2, ')');
        if q + 2 < e < |s| then Some(Match(p, s[p + 1..q], s[q + 2..e], e + 1)) else None
      else None
    else None
  }

  /** What `MatchAt` finds is a match, and its groups are the label and url. */
  lemma MatchAtSound(s: string, p: nat)
    requires p <= |s| && MatchAt(s, p).Some?
    ensures var m := MatchAt(s, p).value;
      MarkupAt(s, p, m.linkText, m.url) && m.end == p + |CreateLinkString(m.linkText, m.url)|
  {
    var m := MatchAt(s, p).value;
    var q := FirstFrom(s, p + 1, ']');
    var e := FirstFrom(s, q + 2, ')');
    assert m.linkText == s[p + 1..q] && m.url == s[q + 2..e] && m.end == e + 1;
    NoCharIn(s, p + 1, q, ']');
    NoCharIn(s, q + 2, e, ')');
    MarkupPieces(s, p, q, e);
  }

  /** A stretch of `s` in which `c` never occurs does not hold `c`. */
  lemma NoCharIn(s: string, i: nat, j: nat, c: char)
    requires i <= j <= |s|
    requires forall k :: i <= k < j ==> s[k] != c
    ensures c !in s[i..j]
  {
    forall k | 0 <= k < j - i ensures s[i..j][k] != c {
      assert s[i..j][k] == s[i + k];
    }
  }

  /** Brackets and parentheses at `p`, `q`, `q + 1` and `e` frame the markup of what lies between them. */
  lemma MarkupPieces(s: string, p: nat, q: nat, e: nat)
    requires p < q && q + 2 <= e < |s|
    requires s[p] == '[' && s[q] == ']' && s[q + 1] == '(' && s[e] == ')'
    ensures s[p..e + 1] == CreateLinkString(s[p + 1..q], s[q + 2..e])
  {
    assert s[p..p + 1] == "[" && s[q..q + 2] == "](" && s[e..e + 1] == ")";
    assert s[p..e + 1] == s[p..p + 1] + s[p + 1..q] + s[q..q + 2] + s[q + 2..e] + s[e..e + 1];
  }

  /** Every match is the one `MatchAt` finds: the expression has no other reading. */
  lemma MatchAtComplete(s: string, p: nat, t: string, u: string)
    requires MarkupAt(s, p, t, u)
    ensures p <= |s| && MatchAt(s, p) == Some(Match(p, t, u, p + |t| + |u| + 4))
  {
    MarkupChars(s, p, t, u);
    var q := p + 1 + |t|;
    var e := q + 2 + |u|;
    MarkupReads(s, p, q, e, t, u);
    MatchAtIs(s, p, q, e);
  }

  /** Both searches of `MatchAt` stop at the ends of the label and the url laid out at `p`. */
  lemma MarkupReads(s: string, p: nat, q: nat, e: nat, t: string, u: string)
    requires ValidLabel(t) && ValidUrl(u) && q == p + 1 + |t| && e == q + 2 + |u| < |s|
    requires s[q] == ']' && s[e] == ')'
    requires forall k :: 0 <= k < |t| ==> s[p + 1 + k] == t[k]
    requires forall k :: 0 <= k < |u| ==> s[q + 2 + k] == u[k]
    ensures FirstFrom(s, p + 1, ']') == q && FirstFrom(s, q + 2, ')') == e
    ensures s[p + 1..q] == t && s[q + 2..e] == u
  {
    AbsentAlong(s, p + 1, t, ']');
    AbsentAlong(s, q + 2, u, ')');
    FirstFromIs(s, p + 1, q, ']');
    FirstFromIs(s, q + 2, e, ')');
    SliceIs(s, p + 1, t);
    SliceIs(s, q + 2, u);
  }

  /** A character missing from `t` is missing from where `s` spells out `t`. */
  lemma AbsentAlong(s: string, i: nat, t: string, c: char)
    requires i + |t| <= |s| && c !in t
    requires forall k :: 0 <= k < |t| ==> s[i + k] == t[k]
    ensures forall k :: i <= k < i + |t| ==> s[k] != c
  {
    forall k | i <= k < i + |t| ensures s[k] != c {
      assert s[i + (k - i)] == t[k - i];
    }
  }

  /** `MatchAt` unfolded when both searches succeed. */
  lemma MatchAtIs(s: string, p: nat, q: nat, e: nat)
    requires p + 1 < q && q + 2 < e < |s| && s[p] == '[' && s[q + 1] == '('
    requires FirstFrom(s, p + 1, ']') == q && FirstFrom(s, q + 2, ')') == e
    ensures MatchAt(s, p) == Some(Match(p, s[p + 1..q], s[q + 2..e], e + 1))
  {
  }

  /** `t` read off `s` character by character from `i` is the slice of `s` there. */
  lemma SliceIs(s: string, i: nat, t: string)
    requires i + |t| <= |s|
    requires forall k :: 0 <= k < |t| ==> s[i + k] == t[k]
    ensures s[i..i + |t|] == t
  {
  }

  /** The characters of a match, position by position. */
  lemma MarkupChars(s: string, p: nat, t: string, u: string)
    requires MarkupAt(s, p, t, u)
    ensures p + |t| + |u| + 4 <= |s|
    ensures s[p] == '[' && s[p + 1 + |t|] == ']' && s[p + 2 + |t|] == '(' && s[p + 3 + |t| + |u|] == ')'
    ensures forall k :: 0 <= k < |t| ==> s[p + 1 + k] == t[k]
    ensures forall k :: 0 <= k < |u| ==> s[p + 3 + |t| + k] == u[k]
  {
    var w := CreateLinkString(t, u);
    assert forall k :: 0 <= k < |w| ==> s[p + k] == w[k];
  }

  lemma FirstFromIs(s: string, i: nat, j: nat, c: char)
    requires i <= j < |s| && s[j] == c
    requires forall k :: i <= k < j ==> s[k] != c
    ensures FirstFrom(s, i, c) == j
  {
  }

  /** `linkRegex.exec` from `from`: the leftmost match starting there or later. */
  function NextMatch(s: string, from: nat): (r: Option<Match>)
    requires from <= |s|
    ensures r.Some? ==> from <= r.value.start <= |s| && MatchAt(s, r.value.start) == r
    ensures r.Some? ==> forall p :: from <= p < r.value.start ==> MatchAt(s, p).None?
    ensures r.None? ==> forall p :: from <= p <= |s| ==> MatchAt(s, p).None?
    decreases |s| - from
  {
    if MatchAt(s, from).Some? then MatchAt(s, from)
    else if from == |s| then None
    else NextMatch(s, from + 1)
  }

  /** The segments `parseLinks` emits from `cur` on. */
  function SegmentsFrom(s: string, cur: nat): seq<Segment>
    requires cur <= |s|
    decreases |s| - cur
  {
    match NextMatch(s, cur)
    case Some(m) =>
      (if m.start > cur then [TextSegment(s[cur..m.start])] else [])
        + [LinkSegment(m.linkText, m.url, IsGoogleMaps(m.url))]
        + SegmentsFrom(s, m.end)
    case None =>
      if cur < |s| then [TextSegment(s[cur..])] else []
  }

  lemma SegmentsStep(s: string, cur: nat)
    requires cur <= |s| && NextMatch(s, cur).Some?
    ensures var m := NextMatch(s, cur).value;
      SegmentsFrom(s, cur)
      == (if m.start > cur then [TextSegment(s[cur..m.start])] else [])
         + [LinkSegment(m.linkText, m.url, IsGoogleMaps(m.url))]
         + SegmentsFrom(s, m.end)
  {
  }

  function Segments(s: string): seq<Segment> {
    SegmentsFrom(s, 0)
  }

  /** `parseLinks`: the `exec` loop advancing `currentIndex` past each match. */
  method ParseLinks(input: string) returns (links: seq<Segment>)
    ensures links == Segments(input)
  {
    links := [];
    var currentIndex: nat := 0;
    var found := NextMatch(input, currentIndex);
    while found.Some?
      invariant currentIndex <= |input|
      invariant found == NextMatch(input, currentIndex)
      invariant links + SegmentsFrom(input, currentIndex) == Segments(input)
      decreases |input| - currentIndex
    {
      var m := found.value;
      SegmentsStep(input, currentIndex);
      ghost var before := links;
      ghost var rest := SegmentsFrom(input, m.end);
      ghost var pre := if m.start > currentIndex then [TextSegment(input[currentIndex..m.start])] else [];
      ghost var link := LinkSegment(m.linkText, m.url, IsGoogleMaps(m.url));
      assert SegmentsFrom(input, currentIndex) == pre + [link] + rest;
      if m.start > currentIndex {
        links := links + [TextSegment(input[currentIndex..m.start])];
      }
      links := links + [LinkSegment(m.linkText, m.url, IsGoogleMaps(m.url))];
      assert links == before + pre + [link];
      Associative(before, pre, [link]);
      Associative(before, pre + [link], rest);
      currentIndex := m.end;
      found := NextMatch(input, currentIndex);
    }
    if currentIndex < |input| {
      links := links + [TextSegment(input[currentIndex..])];
    }
  }

  lemma Associative<T>(a: seq<T>, b: seq<T>, c: seq<T>)
    ensures a + b + c == a + (b + c)
  {
  }

  /** The markup a list of segments stands for. */
  function Render(segs: seq<Segment>): string {
    if segs == [] then [] else RenderSegment(segs[0]) + Render(segs[1..])
  }

  /** One segment written back: its text, or its link as markup. */
  function RenderSegment(g: Segment): string {
    match g
    case TextSegment(c) => c
    case LinkSegment(c, u, _) => CreateLinkString(c, u)
  }

  lemma {:induction false} RenderAppend(a: seq<Segment>, b: seq<Segment>)
    ensures Render(a + b) == Render(a) + Render(b)
  {
    if a != [] {
      var ab := a + b;
      assert ab[0] == a[0] && ab[1..] == a[1..] + b;
      RenderAppend(a[1..], b);
      var h := RenderSegment(a[0]);
      assert Render(ab) == h + Render(a[1..] + b);
      assert Render(a) == h + Render(a[1..]);
    } else {
      assert a + b == b;
    }
  }

  lemma {:induction false} RenderFrom(s: string, cur: nat)
    requires cur <= |s|
    ensures Render(SegmentsFrom(s, cur)) == s[cur..]
    decreases |s| - cur
  {
    match NextMatch(s, cur)
    case Some(m) =>
      MatchAtSound(s, m.start);
      RenderFrom(s, m.end);
      SegmentsStep(s, cur);
      RenderPieces(s, cur, m, SegmentsFrom(s, m.end));
    case None =>
      if cur < |s| {
        RenderOne(TextSegment(s[cur..]));
      }
  }

  /** The text before a match, the match and what follows it render to the stretch of `s` they cover. */
  lemma RenderPieces(s: string, cur: nat, m: Match, rest: seq<Segment>)
    requires cur <= m.start && m.end == m.start + |CreateLinkString(m.linkText, m.url)| <= |s|
    requires OccursAt(s, CreateLinkString(m.linkText, m.url), m.start)
    requires Render(rest) == s[m.end..]
    ensures Render((if m.start > cur then [TextSegment(s[cur..m.start])] else [])
                   + [LinkSegment(m.linkText, m.url, IsGoogleMaps(m.url))] + rest) == s[cur..]
  {
    var pre := if m.start > cur then [TextSegment(s[cur..m.start])] else [];
    var link := [LinkSegment(m.linkText, m.url, IsGoogleMaps(m.url))];
    assert Render(link) == s[m.start..m.end] by {
      RenderOne(link[0]);
    }
    assert Render(pre) == s[cur..m.start] by {
      if m.start > cur {
        RenderOne(pre[0]);
      }
    }
    RenderThree(pre, link, rest);
    SliceThree(s, cur, m.start, m.end);
  }

  lemma RenderThree(a: seq<Segment>, b: seq<Segment>, c: seq<Segment>)
    ensures Render(a + b + c) == Render(a) + Render(b) + Render(c)
  {
    RenderAppend(a + b, c);
    RenderAppend(a, b);
  }

  lemma SliceThree(s: string, i: nat, j: nat, k: nat)
    requires i <= j <= k <= |s|
    ensures s[i..] == s[i..j] + s[j..k] + s[k..]
  {
  }

  lemma RenderOne(g: Segment)
    ensures Render([g]) == RenderSegment(g)
  {
    assert [g][1..] == [];
  }

  /** Reconstruction: the segments, written back as text and markup, are the input exactly. */
  lemma Reconstruction(s: string)
    ensures Render(Segments(s)) == s
  {
    RenderFrom(s, 0);
  }

  /** What every segment looks like. */
  predicate GoodSegment(g: Segment) {
    match g
    case TextSegment(c) => c != []
    case LinkSegment(c, u, gm) => ValidLabel(c) && ValidUrl(u) && gm == IsGoogleMaps(u)
  }

  lemma {:induction false} GoodFrom(s: string, cur: nat)
    requires cur <= |s|
    ensures forall g :: g in SegmentsFrom(s, cur) ==> GoodSegment(g)
    decreases |s| - cur
  {
    match NextMatch(s, cur)
    case Some(m) =>
      MatchAtSound(s, m.start);
      GoodFrom(s, m.end);
    case None =>
  }

  /**
   * Text segments are never empty; link segments carry a non-empty label
   * without `]`, a non-empty url without `)`, and the maps flag of their url.
   */
  lemma SegmentsGood(s: string)
    ensures forall g :: g in Segments(s) ==> GoodSegment(g)
  {
    GoodFrom(s, 0);
  }

  /** Text with no markup anywhere is one text segment, or nothing when it is empty. */
  lemma NoMarkup(s: string)
    requires forall p, t, u :: !MarkupAt(s, p, t, u)
    ensures Segments(s) == if s == [] then [] else [TextSegment(s)]
  {
    if NextMatch(s, 0).Some? {
      MatchAtSound(s, NextMatch(s, 0).value.start);
    }
  }

  /** Serialising one label and url and parsing the result gives back exactly that link. */
  lemma RoundTrip(t: string, u: string)
    requires ValidLabel(t) && ValidUrl(u)
    ensures Segments(CreateLinkString(t, u)) == [LinkSegment(t, u, IsGoogleMaps(u))]
  {
    var s := CreateLinkString(t, u);
    assert OccursAt(s, s, 0);
    MatchAtComplete(s, 0, t, u);
    assert NextMatch(s, 0) == Some(Match(0, t, u, |s|));
    assert SegmentsFrom(s, |s|) == [] by {
      assert MatchAt(s, |s|).None?;
    }
  }
  /**
   * A url holding `)` does not survive the markup: the link read back stops
   * at the url's first `)`, and what follows it, closing `)` included, is
   * read as further segments.
   */
  lemma CloseInUrlTruncates(t: string, u: string, k: nat)
    requires ValidLabel(t) && 0 < k < |u| && u[k] == ')' && ')' !in u[..k]
    ensures var segs := Segments(CreateLinkString(t, u));
      |segs| >= 2 && segs[0] == LinkSegment(t, u[..k], IsGoogleMaps(u[..k]))
  {
    var s := CreateLinkString(t, u);
    var e := |t| + 3 + k;
    TruncatedMatch(t, u, k);
    assert NextMatch(s, 0) == Some(Match(0, t, u[..k], e + 1));
    SegmentsStep(s, 0);
    SegmentsNonEmpty(s, e + 1);
  }

  /** At the start of `createLinkString(t, u)` the expression reads the url up to its first `)`. */
  lemma TruncatedMatch(t: string, u: string, k: nat)
    requires ValidLabel(t) && 0 < k < |u| && u[k] == ')' && ')' !in u[..k]
    ensures MatchAt(CreateLinkString(t, u), 0) == Some(Match(0, t, u[..k], |t| + k + 4))
  {
    var s := CreateLinkString(t, u);
    var q := 1 + |t|;
    var e := q + 2 + k;
    var v := u[..k];
    TruncatedChars(t, u, k);
    MarkupReads(s, 0, q, e, t, v);
    MatchAtIs(s, 0, q, e);
  }

  /** What `MarkupReads` needs of `createLinkString(t, u)` with the url cut at `k`. */
  lemma TruncatedChars(t: string, u: string, k: nat)
    requires k < |u| && u[k] == ')'
    ensures var s := CreateLinkString(t, u); var q := 1 + |t|; var v := u[..k];
      && q + 2 + k < |s| && s[0] == '[' && s[q] == ']' && s[q + 1] == '(' && s[q + 2 + k] == ')'
      && (forall j :: 0 <= j < |t| ==> s[0 + 1 + j] == t[j])
      && (forall j :: 0 <= j < |v| ==> s[q + 2 + j] == v[j])
  {
    var s := CreateLinkString(t, u);
    var q := 1 + |t|;
    LinkChars(t, u);
    assert s[q + 2 + k] == u[k];
    forall j | 0 <= j < k ensures s[q + 2 + j] == u[..k][j] {
      assert u[..k][j] == u[j];
    }
  }

  /** The characters of `createLinkString(t, u)`, position by position. */
  lemma LinkChars(t: string, u: string)
    ensures var s := CreateLinkString(t, u);
      && |s| == |t| + |u| + 4 && s[0] == '[' && s[1 + |t|] == ']' && s[2 + |t|] == '('
      && (forall j :: 0 <= j < |t| ==> s[1 + j] == t[j])
      && (forall j :: 0 <= j < |u| ==> s[1 + |t| + 2 + j] == u[j])
  {
  }

  /** Some text left after the cursor gives at least one more segment. */
  lemma SegmentsNonEmpty(s: string, cur: nat)
    requires cur < |s|
    ensures SegmentsFrom(s, cur) != []
  {
  }


  /** The maps search URL starts with the fixed prefix. */
  const MapsSearchPrefix := "https://www." + MapsHost + "/search/?api=1&query="

  const MapsHost := "google.com/maps"

  /**
   * `createGoogleMapsUrl`; `encode` stands for `encodeURIComponent`. The
   * location counts when it is present and non-empty (JavaScript truthiness).
   */
  function CreateGoogleMapsUrl(query: string, location: Option<string>, encode: string -> string): (r: string)
    ensures |MapsSearchPrefix| <= |r| && r[..|MapsSearchPrefix|] == MapsSearchPrefix
    ensures location.Some? && location.value != [] ==> r[|MapsSearchPrefix|..] == encode(query + " " + location.value)
    ensures !(location.Some? && location.value != []) ==> r[|MapsSearchPrefix|..] == encode(query)
  {
    MapsSearchPrefix + encode(MapsSearchText(query, location))
  }

  /** The text searched for: the query, followed by the location when one is given. */
  function MapsSearchText(query: string, location: Option<string>): string {
    if location.Some? && location.value != [] then query + " " + location.value else query
  }

  /**
   * The search text can be read back from a maps URL: stripping the prefix
   * and undoing the encoding gives it back, so two URLs are equal only when
   * they search for the same text.
   */
  lemma MapsUrlReadBack(query: string, location: Option<string>, query2: string, location2: Option<string>,
                        encode: string -> string, decode: string -> string)
    requires forall x :: decode(encode(x)) == x
    ensures var r := CreateGoogleMapsUrl(query, location, encode);
      |MapsSearchPrefix| <= |r| && decode(r[|MapsSearchPrefix|..]) == MapsSearchText(query, location)
    ensures CreateGoogleMapsUrl(query, location, encode) == CreateGoogleMapsUrl(query2, location2, encode) ==>
      MapsSearchText(query, location) == MapsSearchText(query2, location2)
  {
    var r := CreateGoogleMapsUrl(query, location, encode);
    var r2 := CreateGoogleMapsUrl(query2, location2, encode);
    assert r[|MapsSearchPrefix|..] == encode(MapsSearchText(query, location));
    assert r2[|MapsSearchPrefix|..] == encode(MapsSearchText(query2, location2));
  }

  /** A maps search URL is recognised as a maps link when it is parsed back. */
  lemma MapsUrlIsGoogleMaps(query: string, location: Option<string>, encode: string -> string)
    ensures IsGoogleMaps(CreateGoogleMapsUrl(query, location, encode))
  {
    var r := CreateGoogleMapsUrl(query, location, encode);
    var scheme := "https://www.";
    assert r == scheme + MapsHost + (r[|scheme| + |MapsHost|..]);
    assert r[|scheme|..|scheme| + |MapsHost|] == MapsHost;
    ContainsAt(r, "google.com/maps", |scheme|);
  }
}
