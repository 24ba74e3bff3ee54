/**
 * The author profile (src/components/AuthorProfile.tsx): aggregate numbers
 * over the templates one author published, and the badges those numbers
 * earn.
 */
module AuthorProfileStats {
  import opened Arrays
  import Options
  import opened TemplateCatalogue

  datatype AuthorStats = AuthorStats(totalTemplates: int, totalUsage: int, averageRating: real, totalRatings: int)

  /** `allTemplates.filter(t => t.authorId === authorId)`. */
  function AuthorTemplates(all: seq<Template>, authorId: string): seq<Template> {
    Filter(all, (t: Template) => t.authorId == authorId)
  }

  function SumUsage(ts: seq<Template>): int {
    if ts == [] then 0 else SumUsage(ts[..|ts| - 1]) + ts[|ts| - 1].usageCount
  }

  function SumRatingCounts(ts: seq<Template>): int {
    if ts == [] then 0 else SumRatingCounts(ts[..|ts| - 1]) + ts[|ts| - 1].ratingCount
  }

  /** The sum of `rating * ratingCount`. */
  function WeightedRatings(ts: seq<Template>): real {
    if ts == [] then 0.0 else WeightedRatings(ts[..|ts| - 1]) + ts[|ts| - 1].rating * ts[|ts| - 1].ratingCount as real
  }

  /** The stats `loadAuthorData` stores: counts and sums over the author's templates, and the weighted mean rating. */
  function Stats(all: seq<Template>, authorId: string): AuthorStats {
    var mine := AuthorTemplates(all, authorId);
    var totalRatings := SumRatingCounts(mine);
    var average := if totalRatings > 0 then WeightedRatings(mine) / totalRatings as real else 0.0;
    AuthorStats(|mine|, SumUsage(mine), average, totalRatings)
  }

  lemma {:induction false} SumsAppend(a: seq<Template>, b: seq<Template>)
    ensures SumUsage(a + b) == SumUsage(a) + SumUsage(b)
    ensures SumRatingCounts(a + b) == SumRatingCounts(a) + SumRatingCounts(b)
    ensures WeightedRatings(a + b) == WeightedRatings(a) + WeightedRatings(b)
    decreases |b|
  {
    if b == [] {
      assert a + b == a;
    } else {
      var b' := b[..|b| - 1];
      SumsAppend(a, b');
      assert (a + b)[..|a + b| - 1] == a + b';
    }
  }

  /** Templates of other authors change nothing in the numbers. */
  lemma OtherAuthorsIgnored(all: seq<Template>, others: seq<Template>, authorId: string)
    requires forall t :: t in others ==> t.authorId != authorId
    ensures Stats(all + others, authorId) == Stats(all, authorId)
    ensures Stats(AuthorTemplates(all, authorId), authorId) == Stats(all, authorId)
  {
    var p := (t: Template) => t.authorId == authorId;
    FilterAppend(all, others, p);
    FilterNone(others, p);
    assert Filter(all, p) + [] == Filter(all, p);
    FilterAll(Filter(all, p), p);
  }

  /** Each sum adds a template's own number to the sum of the rest. */
  lemma SumsOfOne(ts: seq<Template>, t: Template)
    ensures SumUsage(ts + [t]) == SumUsage(ts) + t.usageCount
    ensures SumRatingCounts(ts + [t]) == SumRatingCounts(ts) + t.ratingCount
    ensures SumUsage([]) == 0 && SumRatingCounts([]) == 0
  {
    assert (ts + [t])[..|ts|] == ts;
  }

  lemma WeightedBounds(ts: seq<Template>, lo: real, hi: real)
    requires forall t :: t in ts ==> lo <= t.rating <= hi && t.ratingCount >= 0
    ensures lo * SumRatingCounts(ts) as real <= WeightedRatings(ts) <= hi * SumRatingCounts(ts) as real
  {
    WeightedAbove(ts, lo);
    WeightedBelow(ts, hi);
  }

  lemma {:induction false} WeightedAbove(ts: seq<Template>, lo: real)
    requires forall t :: t in ts ==> lo <= t.rating && t.ratingCount >= 0
    ensures lo * SumRatingCounts(ts) as real <= WeightedRatings(ts)
  {
    if ts != [] {
      var init, last := ts[..|ts| - 1], ts[|ts| - 1];
      LastStep(ts);
      WeightedAbove(init, lo);
      AddLower(lo, SumRatingCounts(init) as real, WeightedRatings(init), last.rating, last.ratingCount as real,
               SumRatingCounts(ts) as real, WeightedRatings(ts));
    }
  }

  lemma {:induction false} WeightedBelow(ts: seq<Template>, hi: real)
    requires forall t :: t in ts ==> t.rating <= hi && t.ratingCount >= 0
    ensures WeightedRatings(ts) <= hi * SumRatingCounts(ts) as real
  {
    if ts != [] {
      var init, last := ts[..|ts| - 1], ts[|ts| - 1];
      LastStep(ts);
      WeightedBelow(init, hi);
      AddUpper(hi, SumRatingCounts(init) as real, WeightedRatings(init), last.rating, last.ratingCount as real,
               SumRatingCounts(ts) as real, WeightedRatings(ts));
    }
  }

  lemma LastStep(ts: seq<Template>)
    requires ts != []
    ensures forall t :: t in ts[..|ts| - 1] ==> t in ts
    ensures ts[|ts| - 1] in ts
    ensures SumRatingCounts(ts) == SumRatingCounts(ts[..|ts| - 1]) + ts[|ts| - 1].ratingCount
    ensures WeightedRatings(ts) == WeightedRatings(ts[..|ts| - 1]) + ts[|ts| - 1].rating * ts[|ts| - 1].ratingCount as real
  {
  }

  /** One more template with `c` ratings of `x` keeps the weighted sum above the lower bound. */
  lemma AddLower(lo: real, n: real, w: real, x: real, c: real, n': real, w': real)
    requires lo * n <= w && lo <= x && c >= 0.0
    requires n' == n + c && w' == w + x * c
    ensures lo * n' <= w'
  {
    assert lo * c <= x * c;
    assert lo * (n + c) == lo * n + lo * c;
  }

  /** One more template with `c` ratings of `x` keeps the weighted sum below the upper bound. */
  lemma AddUpper(hi: real, n: real, w: real, x: real, c: real, n': real, w': real)
    requires w <= hi * n && x <= hi && c >= 0.0
    requires n' == n + c && w' == w + x * c
    ensures w' <= hi * n'
  {
    assert x * c <= hi * c;
    assert hi * (n + c) == hi * n + hi * c;
  }

  lemma DivideBounds(lo: real, w: real, hi: real, n: int)
    requires lo * n as real <= w <= hi * n as real
    ensures n > 0 ==> lo <= w / n as real <= hi
  {
    if n > 0 {
      assert w / n as real * n as real == w;
    }
  }

  /**
   * The mean rating lies between the lowest and the highest rating of the
   * author's rated templates, and is 0 when nobody rated them.
   */
  lemma AverageInRange(all: seq<Template>, authorId: string, lo: real, hi: real)
    requires forall t :: t in all && t.authorId == authorId ==> lo <= t.rating <= hi && t.ratingCount >= 0
    ensures Stats(all, authorId).totalRatings > 0 ==> lo <= Stats(all, authorId).averageRating <= hi
    ensures Stats(all, authorId).totalRatings <= 0 ==> Stats(all, authorId).averageRating == 0.0
  {
    var mine := AuthorTemplates(all, authorId);
    assert forall t :: t in mine ==> lo <= t.rating <= hi && t.ratingCount >= 0;
    MeanInRange(mine, lo, hi);
  }

  /** The weighted mean of templates whose ratings lie in `[lo, hi]` lies there too. */
  lemma MeanInRange(ts: seq<Template>, lo: real, hi: real)
    requires forall t :: t in ts ==> lo <= t.rating <= hi && t.ratingCount >= 0
    ensures SumRatingCounts(ts) > 0 ==> lo <= WeightedRatings(ts) / SumRatingCounts(ts) as real <= hi
  {
    WeightedBounds(ts, lo, hi);
    DivideBounds(lo, WeightedRatings(ts), hi, SumRatingCounts(ts));
  }

  datatype Badge = TemplateCreator | PopularAuthor | TopRated | ProlificCreator

  function BadgeName(b: Badge): string {
    match b
    case TemplateCreator => "Template Creator"
    case PopularAuthor => "Popular Author"
    case TopRated => "Top Rated"
    case ProlificCreator => "Prolific Creator"
  }

  /** The badges in the order they are listed. */
  const AllBadges: seq<Badge> := [TemplateCreator, PopularAuthor, TopRated, ProlificCreator]

  /** The threshold of each badge. */
  predicate Earned(stats: AuthorStats, b: Badge) {
    match b
    case TemplateCreator => stats.totalTemplates >= 5
    case PopularAuthor => stats.totalUsage >= 50
    case TopRated => stats.averageRating >= 4.5 && stats.totalRatings >= 10
    case ProlificCreator => stats.totalTemplates >= 10
  }

  /** A badge's place in the listing order. */
  function Rank(b: Badge): nat {
    match b
    case TemplateCreator => 0
    case PopularAuthor => 1
    case TopRated => 2
    case ProlificCreator => 3
  }

  /** The badges come in listing order, each at most once. */
  ghost predicate InListingOrder(bs: seq<Badge>) {
    forall i, j :: 0 <= i < j < |bs| ==> Rank(bs[i]) < Rank(bs[j])
  }

  /**
   * `getAuthorBadges`: one `if` per badge, pushing in listing order. The
   * result holds exactly the earned badges, in listing order.
   */
  method GetAuthorBadges(stats: AuthorStats) returns (badges: seq<Badge>)
    ensures forall b :: b in badges <==> Earned(stats, b)
    ensures InListingOrder(badges)
  {
    badges := [];
    if stats.totalTemplates >= 5 {
      badges := badges + [TemplateCreator];
    }
    if stats.totalUsage >= 50 {
      badges := badges + [PopularAuthor];
    }
    if stats.averageRating >= 4.5 && stats.totalRatings >= 10 {
      badges := badges + [TopRated];
    }
    if stats.totalTemplates >= 10 {
      badges := badges + [ProlificCreator];
    }
  }

  /** A list in listing order has no badge twice and at most four badges. */
  lemma {:induction false} ListingOrderBound(bs: seq<Badge>)
    requires InListingOrder(bs)
    ensures |bs| <= 4
    ensures forall i, j :: 0 <= i < j < |bs| ==> bs[i] != bs[j]
  {
    if |bs| > 0 {
      RankAtLeastIndex(bs, |bs| - 1);
    }
  }

  lemma {:induction false} RankAtLeastIndex(bs: seq<Badge>, i: nat)
    requires InListingOrder(bs) && i < |bs|
    ensures Rank(bs[i]) >= i
  {
    if i > 0 {
      RankAtLeastIndex(bs, i - 1);
    }
  }

  /** Prolific Creator needs ten templates, and so always comes with Template Creator, listed first. */
  lemma ProlificImpliesCreator(stats: AuthorStats, bs: seq<Badge>)
    requires forall b :: b in bs <==> Earned(stats, b)
    requires InListingOrder(bs)
    ensures ProlificCreator in bs ==> TemplateCreator in bs && bs[0] == TemplateCreator
  {
    if ProlificCreator in bs {
      assert TemplateCreator in bs;
      var k :| 0 <= k < |bs| && bs[k] == TemplateCreator;
    }
  }

  class AuthorProfile {
    const authorId: string
    var templates: seq<Template>
    var stats: AuthorStats
    var isLoading: bool

    constructor (authorId: string)
      ensures this.authorId == authorId && templates == [] && stats == AuthorStats(0, 0, 0.0, 0) && isLoading
    {
      this.authorId := authorId;
      templates := [];
      stats := AuthorStats(0, 0, 0.0, 0);
      isLoading := true;
    }

    /** `loadAuthorData`; `fetched` is what `getPublishedTemplates` returned, None when it threw. */
    method LoadAuthorData(fetched: Options.Option<seq<Template>>)
      modifies this
      ensures !isLoading
      ensures fetched.Some? ==> templates == AuthorTemplates(fetched.value, authorId)
                                && stats == Stats(fetched.value, authorId)
      ensures fetched.None? ==> templates == old(templates) && stats == old(stats)
    {
      isLoading := true;
      if fetched.Some? {
        var authorTemplates := Filter(fetched.value, (t: Template) => t.authorId == authorId);
        templates := authorTemplates;
        var totalUsage := SumUsage(authorTemplates);
        var totalRatings := SumRatingCounts(authorTemplates);
        var averageRating := if totalRatings > 0 then WeightedRatings(authorTemplates) / totalRatings as real else 0.0;
        stats := AuthorStats(|authorTemplates|, totalUsage, averageRating, totalRatings);
      }
      isLoading := false;
    }
  }
}
