/**
 * The template catalogue page (src/app/templates/page.tsx): published trip
 * templates are filtered by a search query, a category and a duration
 * class, then sorted by the chosen key; a template's length in days is
 * shown as a "W weeks R days" label.
 */
module TemplateCatalogue {
  import opened Options
  import opened Text
  import opened Arrays

  /** A published template, with the names of its itinerary's locations. */
  datatype Template = Template(
    id: string,
    authorId: string,
    title: string,
    description: string,
    tags: seq<string>,
    category: string,
    duration: int,
    rating: real,
    ratingCount: int,
    usageCount: int,
    publishedAt: Option<int>,
    locationNames: seq<string>)

  /** The categories the page offers. */
  const TripCategories: seq<string> := ["Weekend", "Week-long", "Extended", "Budget", "Luxury",
    "Adventure", "Culture", "Food", "Nature", "Family", "Romantic", "Business"]

  /** The lower-cased query occurs in the title, the description, a tag or a location name. */
  predicate MatchesSearch(t: Template, query: string) {
    || Contains(Lower(t.title), query)
    || Contains(Lower(t.description), query)
    || (exists i :: 0 <= i < |t.tags| && Contains(Lower(t.tags[i]), query))
    || (exists i :: 0 <= i < |t.locationNames| && Contains(Lower(t.locationNames[i]), query))
  }

  /** The search step: a blank query lets everything through. */
  predicate SearchOk(t: Template, searchQuery: string) {
    IsBlank(searchQuery) || MatchesSearch(t, Lower(searchQuery))
  }

  predicate CategoryOk(t: Template, categoryFilter: string) {
    categoryFilter == [] || t.category == categoryFilter
  }

  /** The day range of a duration class; anything but the two longer classes means a weekend. */
  function DurationRange(durationFilter: string): (range: (int, int))
    ensures durationFilter == "Week-long" ==> range == (4, 10)
    ensures durationFilter == "Extended" ==> range == (11, 365)
    ensures durationFilter != "Week-long" && durationFilter != "Extended" ==> range == (1, 3)
  {
    if durationFilter == "Week-long" then (4, 10)
    else if durationFilter == "Extended" then (11, 365)
    else (1, 3)
  }

  /** The three duration classes split the days of a year between them, one class per day count. */
  lemma DurationClassesPartition(d: int)
    ensures var inWeekend := DurationRange("Weekend").0 <= d <= DurationRange("Weekend").1;
      var inWeek := DurationRange("Week-long").0 <= d <= DurationRange("Week-long").1;
      var inExtended := DurationRange("Extended").0 <= d <= DurationRange("Extended").1;
      && (1 <= d <= 365 <==> inWeekend || inWeek || inExtended)
      && !(inWeekend && inWeek) && !(inWeekend && inExtended) && !(inWeek && inExtended)
    ensures forall f :: f != "Week-long" && f != "Extended" ==> DurationRange(f) == DurationRange("Weekend")
  {
  }

  predicate DurationOk(t: Template, durationFilter: string) {
    durationFilter == [] || (DurationRange(durationFilter).0 <= t.duration <= DurationRange(durationFilter).1)
  }

  /** A template survives the three filters. */
  predicate Passes(t: Template, searchQuery: string, categoryFilter: string, durationFilter: string) {
    SearchOk(t, searchQuery) && CategoryOk(t, categoryFilter) && DurationOk(t, durationFilter)
  }

  /**
   * The sort comparator as "a goes behind b": a larger rating, usage count
   * or publication time comes first. A missing publication time makes the
   * difference NaN, which the sort treats as a tie; an unknown key is a tie.
   */
  function TemplateAfter(sortBy: string): (Template, Template) -> bool {
    if sortBy == "rating" then (a: Template, b: Template) => b.rating > a.rating
    else if sortBy == "usageCount" then (a: Template, b: Template) => b.usageCount > a.usageCount
    else if sortBy == "publishedAt" then
      (a: Template, b: Template) => a.publishedAt.Some? && b.publishedAt.Some? && b.publishedAt.value > a.publishedAt.value
    else (a: Template, b: Template) => false
  }

  /** What the page shows for the current filters and sort key. */
  function Shown(templates: seq<Template>, searchQuery: string, categoryFilter: string,
                 durationFilter: string, sortBy: string): seq<Template> {
    SortBy(Filter(templates, (t: Template) => Passes(t, searchQuery, categoryFilter, durationFilter)),
           TemplateAfter(sortBy))
  }

  /** `filterTemplates`: each filter narrows `filtered` in turn, then the list is sorted. */
  method FilterTemplates(templates: seq<Template>, searchQuery: string, categoryFilter: string,
                         durationFilter: string, sortBy: string) returns (filtered: seq<Template>)
    ensures filtered == Shown(templates, searchQuery, categoryFilter, durationFilter, sortBy)
  {
    filtered := templates;
    if !IsBlank(searchQuery) {
      var query := Lower(searchQuery);
      filtered := Filter(filtered, (t: Template) => MatchesSearch(t, query));
      FilterSame(templates, (t: Template) => MatchesSearch(t, query), (t: Template) => SearchOk(t, searchQuery));
    } else {
      FilterAll(templates, (t: Template) => SearchOk(t, searchQuery));
    }
    assert filtered == Filter(templates, (t: Template) => SearchOk(t, searchQuery));
    ghost var afterSearch := filtered;

    if categoryFilter != [] {
      filtered := Filter(filtered, (t: Template) => t.category == categoryFilter);
      FilterSame(afterSearch, (t: Template) => t.category == categoryFilter, (t: Template) => CategoryOk(t, categoryFilter));
    } else {
      FilterAll(afterSearch, (t: Template) => CategoryOk(t, categoryFilter));
    }
    assert filtered == Filter(afterSearch, (t: Template) => CategoryOk(t, categoryFilter));
    ghost var afterCategory := filtered;

    if durationFilter != [] {
      var minDays, maxDays := 1, 3;
      if durationFilter == "Week-long" {
        minDays, maxDays := 4, 10;
      } else if durationFilter == "Extended" {
        minDays, maxDays := 11, 365;
      }
      filtered := Filter(filtered, (t: Template) => t.duration >= minDays && t.duration <= maxDays);
      FilterSame(afterCategory, (t: Template) => t.duration >= minDays && t.duration <= maxDays,
                 (t: Template) => DurationOk(t, durationFilter));
    } else {
      FilterAll(afterCategory, (t: Template) => DurationOk(t, durationFilter));
    }
    assert filtered == Filter(afterCategory, (t: Template) => DurationOk(t, durationFilter));
    ThreeFilters(templates, searchQuery, categoryFilter, durationFilter);

    filtered := SortBy(filtered, TemplateAfter(sortBy));
  }

  lemma ThreeFilters(templates: seq<Template>, searchQuery: string, categoryFilter: string, durationFilter: string)
    ensures Filter(Filter(Filter(templates, (t: Template) => SearchOk(t, searchQuery)),
                          (t: Template) => CategoryOk(t, categoryFilter)),
                   (t: Template) => DurationOk(t, durationFilter))
         == Filter(templates, (t: Template) => Passes(t, searchQuery, categoryFilter, durationFilter))
  {
    FilterThree(templates, (t: Template) => SearchOk(t, searchQuery), (t: Template) => CategoryOk(t, categoryFilter),
                (t: Template) => DurationOk(t, durationFilter),
                (t: Template) => Passes(t, searchQuery, categoryFilter, durationFilter));
  }

  /**
   * Filters only remove: the shown list holds each template that passes
   * every filter as often as the loaded list does, and nothing else.
   */
  lemma ShownIsFilteredPermutation(templates: seq<Template>, searchQuery: string, categoryFilter: string,
                                   durationFilter: string, sortBy: string)
    ensures var r := Shown(templates, searchQuery, categoryFilter, durationFilter, sortBy);
      && multiset(r) <= multiset(templates)
      && (forall t :: t in r <==> t in templates && Passes(t, searchQuery, categoryFilter, durationFilter))
      && (forall t :: multiset(r)[t]
            == if Passes(t, searchQuery, categoryFilter, durationFilter) then multiset(templates)[t] else 0)
  {
    var p := (t: Template) => Passes(t, searchQuery, categoryFilter, durationFilter);
    var r := Shown(templates, searchQuery, categoryFilter, durationFilter, sortBy);
    forall t ensures multiset(r)[t] == if p(t) then multiset(templates)[t] else 0 {
      FilterCount(templates, p, t);
    }
    forall t ensures t in r <==> t in multiset(Filter(templates, p)) {
    }
  }

  /** With a blank query and no category or duration filter every template is shown. */
  lemma NoFilterKeepsAll(templates: seq<Template>, searchQuery: string, sortBy: string)
    requires IsBlank(searchQuery)
    ensures multiset(Shown(templates, searchQuery, [], [], sortBy)) == multiset(templates)
  {
    FilterAll(templates, (t: Template) => Passes(t, searchQuery, [], []));
  }

  /** Sorting by rating puts higher ratings first, and equal ratings stay in loaded order. */
  lemma RatingSortDescending(templates: seq<Template>, searchQuery: string, categoryFilter: string,
                             durationFilter: string, k: real)
    ensures var f := Filter(templates, (t: Template) => Passes(t, searchQuery, categoryFilter, durationFilter));
      var r := Shown(templates, searchQuery, categoryFilter, durationFilter, "rating");
      SortedDesc(r, (t: Template) => t.rating)
      && WithKey(r, (t: Template) => t.rating, k) == WithKey(f, (t: Template) => t.rating, k)
  {
    var f := Filter(templates, (t: Template) => Passes(t, searchQuery, categoryFilter, durationFilter));
    SortSorted(f, TemplateAfter("rating"), (t: Template) => t.rating);
    SortStable(f, TemplateAfter("rating"), (t: Template) => t.rating, k);
  }

  /** Sorting by usage puts more used templates first, and ties stay in loaded order. */
  lemma UsageSortDescending(templates: seq<Template>, searchQuery: string, categoryFilter: string,
                            durationFilter: string, k: real)
    ensures var f := Filter(templates, (t: Template) => Passes(t, searchQuery, categoryFilter, durationFilter));
      var r := Shown(templates, searchQuery, categoryFilter, durationFilter, "usageCount");
      SortedDesc(r, (t: Template) => t.usageCount as real)
      && WithKey(r, (t: Template) => t.usageCount as real, k) == WithKey(f, (t: Template) => t.usageCount as real, k)
  {
    var f := Filter(templates, (t: Template) => Passes(t, searchQuery, categoryFilter, durationFilter));
    SortSorted(f, TemplateAfter("usageCount"), (t: Template) => t.usageCount as real);
    SortStable(f, TemplateAfter("usageCount"), (t: Template) => t.usageCount as real, k);
  }

  /** Sorting by publication time puts newer templates first when every template has one. */
  lemma NewestSortDescending(templates: seq<Template>, searchQuery: string, categoryFilter: string,
                             durationFilter: string)
    requires forall t :: t in templates ==> t.publishedAt.Some?
    ensures SortedDesc(Shown(templates, searchQuery, categoryFilter, durationFilter, "publishedAt"),
                       (t: Template) => t.publishedAt.GetOr(0) as real)
  {
    var f := Filter(templates, (t: Template) => Passes(t, searchQuery, categoryFilter, durationFilter));
    SortSorted(f, TemplateAfter("publishedAt"), (t: Template) => t.publishedAt.GetOr(0) as real);
  }

  /** An unknown sort key is a tie for every pair, so the filtered order is kept. */
  lemma UnknownSortKeepsOrder(templates: seq<Template>, searchQuery: string, categoryFilter: string,
                              durationFilter: string, sortBy: string)
    requires sortBy != "rating" && sortBy != "usageCount" && sortBy != "publishedAt"
    ensures Shown(templates, searchQuery, categoryFilter, durationFilter, sortBy)
         == Filter(templates, (t: Template) => Passes(t, searchQuery, categoryFilter, durationFilter))
  {
    SortKeepsOrder(Filter(templates, (t: Template) => Passes(t, searchQuery, categoryFilter, durationFilter)),
                   TemplateAfter(sortBy));
  }

  // ---------------------------------------------------------------------
  // Duration label

  /** `getDurationLabel`. */
  function DurationLabel(days: int): string {
    if days <= 3 then Counted(days, "day")
    else if days <= 7 then IntToString(days) + " days"
    else
      var weeks := days / 7;
      var remainingDays := days % 7;
      if remainingDays == 0 then Counted(weeks, "week")
      else Counted(weeks, "week") + " " + Counted(remainingDays, "day")
  }

  /**
   * The label table: up to a week the number of days, singular only for one
   * day; beyond it whole weeks and the days left over, each unit singular
   * only for a count of one, the days left out when there are none. A
   * proof step for the read-back lemmas below, which state what a label
   * means; on its own it only unfolds `DurationLabel`.
   */
  lemma DurationLabelTable(days: int)
    ensures days <= 7 ==> DurationLabel(days) == Counted(days, "day")
    ensures days > 7 ==>
      var w := days / 7;
      var r := days % 7;
      && w >= 1 && 0 <= r < 7 && days == 7 * w + r
      && DurationLabel(days) == Counted(w, "week") + (if r == 0 then "" else " " + Counted(r, "day"))
  {
  }

  /**
   * The numbers in a label read back as the duration. Up to a week the
   * label is the day count followed by " day", plural unless the count
   * is one.
   */
  lemma DurationLabelShortReadBack(days: int)
    requires 1 <= days <= 7
    ensures var text := DurationLabel(days); var dd := NatToString(days);
      && text == dd + (if days == 1 then " day" else " days")
      && DigitsValue(dd) == days
  {
    CountedNumber(days, "day");
  }

  /**
   * Beyond a week the label opens with the week count followed by " week",
   * singular only for one week, and ends with the leftover day count when
   * there is one, so that seven times the first number plus the second is
   * the number of days.
   */
  lemma DurationLabelWeeksReadBack(days: int)
    requires days > 7
    ensures var text := DurationLabel(days); var wd := NatToString(days / 7);
      && text[..|wd| + 5] == wd + " week"
      && (|wd| + 5 < |text| && text[|wd| + 5] == 's' <==> days / 7 != 1)
      && (days % 7 == 0 ==> text == wd + " weeks" && 7 * DigitsValue(wd) == days)
      && (days % 7 != 0 ==>
            var dd := NatToString(days % 7);
            var tail := " " + dd + (if days % 7 == 1 then " day" else " days");
            |tail| <= |text| && text[|text| - |tail|..] == tail
            && 7 * DigitsValue(wd) + DigitsValue(dd) == days)
  {
    DurationLabelTable(days);
    WeeksText(days / 7, days % 7);
  }

  /** The weeks-and-days label of `w` weeks and `r` leftover days, read back piece by piece. */
  lemma WeeksText(w: nat, r: nat)
    requires w >= 1 && r < 7
    ensures var text := Counted(w, "week") + (if r == 0 then "" else " " + Counted(r, "day"));
      var wd := NatToString(w);
      && text[..|wd| + 5] == wd + " week"
      && (|wd| + 5 < |text| && text[|wd| + 5] == 's' <==> w != 1)
      && (r == 0 ==> text == wd + (if w == 1 then " week" else " weeks") && DigitsValue(wd) == w)
      && (r != 0 ==>
            var dd := NatToString(r);
            var tail := " " + dd + (if r == 1 then " day" else " days");
            |tail| <= |text| && text[|text| - |tail|..] == tail
            && DigitsValue(wd) == w && DigitsValue(dd) == r)
  {
    var wd, dd := NatToString(w), NatToString(r);
    var sfx := if w == 1 then "" else "s";
    var tail := if r == 0 then "" else " " + dd + (if r == 1 then " day" else " days");
    WeeksPieces(w, r);
    LabelPieces(wd, sfx, tail);
    CountedNumber(w, "week");
    CountedNumber(r, "day");
  }

  /** The two counted pieces of a weeks-and-days label, spelled out. */
  lemma WeeksPieces(w: nat, r: nat)
    ensures Counted(w, "week") + (if r == 0 then "" else " " + Counted(r, "day"))
         == NatToString(w) + " week" + (if w == 1 then "" else "s")
            + (if r == 0 then "" else " " + NatToString(r) + (if r == 1 then " day" else " days"))
  {
    CountedWeeks(w);
    CountedDays(r);
  }

  lemma CountedWeeks(n: nat)
    ensures Counted(n, "week") == NatToString(n) + " week" + (if n == 1 then "" else "s")
  {
    var digits := NatToString(n);
    var sfx := if n == 1 then "" else "s";
    CountedShape(n, "week");
    assert " " + "week" == " week";
    assert digits + " " + "week" + sfx == digits + (" " + "week") + sfx;
  }

  lemma CountedDays(n: nat)
    ensures Counted(n, "day") == NatToString(n) + (if n == 1 then " day" else " days")
  {
    var digits := NatToString(n);
    var sfx := if n == 1 then "" else "s";
    CountedShape(n, "day");
    assert " " + "day" + sfx == (if n == 1 then " day" else " days");
    assert digits + " " + "day" + sfx == digits + (" " + "day" + sfx);
  }

  /** A label made of a count, " week", an optional "s" and a tail that starts with a space. */
  lemma LabelPieces(wd: string, sfx: string, tail: string)
    requires sfx == "" || sfx == "s"
    requires tail == [] || tail[0] == ' '
    ensures var text := wd + " week" + sfx + tail;
      && text[..|wd| + 5] == wd + " week"
      && (|wd| + 5 < |text| && text[|wd| + 5] == 's' <==> sfx == "s")
      && |tail| <= |text| && text[|text| - |tail|..] == tail
  {
    var text := wd + " week" + sfx + tail;
    assert text == (wd + " week") + (sfx + tail);
    if |wd| + 5 < |text| {
      assert text[|wd| + 5] == (sfx + tail)[0];
    }
  }
}
