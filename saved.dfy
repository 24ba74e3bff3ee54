/**
 * The saved-templates page (src/app/saved/page.tsx): the user's saved
 * records, the templates they point at, a search over title, description
 * and tags, three sort keys, and removal of one saved template.
 */
module SavedTemplates {
  import opened Options
  import opened Text
  import opened Arrays
  import opened TemplateCatalogue

  /** One saved-template record of the user. */
  datatype SavedRecord = SavedRecord(templateId: string, savedAt: int)

  /** `savedTemplates.find(s => s.templateId === id)`. */
  function FindSaved(saved: seq<SavedRecord>, id: string): (r: Option<SavedRecord>)
    ensures r.Some? ==> r.value in saved && r.value.templateId == id
    ensures r.None? ==> forall s :: s in saved ==> s.templateId != id
    ensures r.Some? ==> exists i :: 0 <= i < |saved| && saved[i] == r.value
                                    && forall j :: 0 <= j < i ==> saved[j].templateId != id
  {
    if saved == [] then None
    else if saved[0].templateId == id then Some(saved[0])
    else FindSaved(saved[1..], id)
  }

  /** The search of this page: the lower-cased query, untrimmed, in the title, description or a tag. */
  predicate SavedSearch(t: Template, searchQuery: string) {
    var q := Lower(searchQuery);
    || Contains(Lower(t.title), q)
    || Contains(Lower(t.description), q)
    || (exists i :: 0 <= i < |t.tags| && Contains(Lower(t.tags[i]), q))
  }

  /**
   * The comparator as "a goes behind b". Rating and usage sort descending;
   * every other key sorts by the matching saved record's time, newest
   * first, and is a tie when either record is missing.
   */
  function SavedAfter(sortBy: string, saved: seq<SavedRecord>): (Template, Template) -> bool {
    if sortBy == "rating" then ((a: Template, b: Template) => b.rating > a.rating)
    else if sortBy == "usageCount" then ((a: Template, b: Template) => b.usageCount > a.usageCount)
    else ((a: Template, b: Template) => SavedTimeAfter(saved, a, b))
  }

  /** `savedB.savedAt - savedA.savedAt > 0`, and a tie when either record is missing. */
  predicate SavedTimeAfter(saved: seq<SavedRecord>, a: Template, b: Template) {
    var sa := FindSaved(saved, a.id);
    var sb := FindSaved(saved, b.id);
    sa.Some? && sb.Some? && sb.value.savedAt > sa.value.savedAt
  }

  /** `filteredAndSortedTemplates`. */
  function FilteredAndSorted(templates: seq<Template>, saved: seq<SavedRecord>, searchQuery: string,
                             sortBy: string): seq<Template> {
    SortBy(Filter(templates, (t: Template) => SavedSearch(t, searchQuery)), SavedAfter(sortBy, saved))
  }

  /** The empty string occurs in every string. */
  lemma ContainsEmpty(s: string)
    ensures Contains(s, [])
  {
  }

  /** An empty query keeps every template. */
  lemma EmptyQueryKeepsAll(templates: seq<Template>, saved: seq<SavedRecord>, sortBy: string)
    ensures multiset(FilteredAndSorted(templates, saved, [], sortBy)) == multiset(templates)
  {
    forall t: Template ensures SavedSearch(t, []) {
      ContainsEmpty(Lower(t.title));
    }
    FilterAll(templates, (t: Template) => SavedSearch(t, []));
  }

  /** Location names play no part in this search. */
  lemma SearchIgnoresLocations(t: Template, searchQuery: string, names: seq<string>)
    ensures SavedSearch(t.(locationNames := names), searchQuery) == SavedSearch(t, searchQuery)
  {
  }

  /** The shown list holds exactly the loaded templates the search lets through, each as often. */
  lemma ShownAreMatches(templates: seq<Template>, saved: seq<SavedRecord>, searchQuery: string, sortBy: string)
    ensures var r := FilteredAndSorted(templates, saved, searchQuery, sortBy);
      forall t :: multiset(r)[t] == if SavedSearch(t, searchQuery) then multiset(templates)[t] else 0
  {
    forall t {
      FilterCount(templates, (t: Template) => SavedSearch(t, searchQuery), t);
    }
  }

  lemma RatingSortDescending(templates: seq<Template>, saved: seq<SavedRecord>, searchQuery: string)
    ensures SortedDesc(FilteredAndSorted(templates, saved, searchQuery, "rating"), (t: Template) => t.rating)
  {
    SortSorted(Filter(templates, (t: Template) => SavedSearch(t, searchQuery)), SavedAfter("rating", saved),
               (t: Template) => t.rating);
  }

  lemma UsageSortDescending(templates: seq<Template>, saved: seq<SavedRecord>, searchQuery: string)
    ensures SortedDesc(FilteredAndSorted(templates, saved, searchQuery, "usageCount"),
                       (t: Template) => t.usageCount as real)
  {
    SortSorted(Filter(templates, (t: Template) => SavedSearch(t, searchQuery)), SavedAfter("usageCount", saved),
               (t: Template) => t.usageCount as real);
  }

  /** The saved time of a template's record, 0 when it has none. */
  function SavedTime(saved: seq<SavedRecord>, t: Template): real {
    match FindSaved(saved, t.id)
    case Some(s) => s.savedAt as real
    case None => 0.0
  }

  /**
   * Any key other than rating and usage orders by saved time, newest
   * first, when every shown template has a saved record.
   */
  lemma SavedAtSortDescending(templates: seq<Template>, saved: seq<SavedRecord>, searchQuery: string, sortBy: string)
    requires sortBy != "rating" && sortBy != "usageCount"
    requires forall t :: t in templates ==> FindSaved(saved, t.id).Some?
    ensures SortedDesc(FilteredAndSorted(templates, saved, searchQuery, sortBy), (t: Template) => SavedTime(saved, t))
  {
    SortSorted(Filter(templates, (t: Template) => SavedSearch(t, searchQuery)), SavedAfter(sortBy, saved),
               (t: Template) => SavedTime(saved, t));
  }

  /** Templates without a saved record tie with everything, so with no records the order is kept. */
  lemma NoRecordsKeepsOrder(templates: seq<Template>, searchQuery: string, sortBy: string)
    requires sortBy != "rating" && sortBy != "usageCount"
    ensures FilteredAndSorted(templates, [], searchQuery, sortBy)
         == Filter(templates, (t: Template) => SavedSearch(t, searchQuery))
  {
    SortKeepsOrder(Filter(templates, (t: Template) => SavedSearch(t, searchQuery)), SavedAfter(sortBy, []));
  }

  /** The present results of the per-record template fetches, in order (`filter(t => t !== null)`). */
  function Present(results: seq<Option<Template>>): (r: seq<Template>)
    ensures |r| <= |results|
    ensures forall t :: t in r <==> Some(t) in results
  {
    if results == [] then []
    else
      assert results == [results[0]] + results[1..];
      (if results[0].Some? then [results[0].value] else []) + Present(results[1..])
  }

  lemma {:induction false} PresentAppend(a: seq<Option<Template>>, b: seq<Option<Template>>)
    ensures Present(a + b) == Present(a) + Present(b)
  {
    if a != [] {
      assert (a + b)[1..] == a[1..] + b;
      PresentAppend(a[1..], b);
    } else {
      assert a + b == b;
    }
  }

  /** When every fetch finds its template, nothing is dropped. */
  lemma {:induction false} PresentAll(results: seq<Option<Template>>)
    requires forall i :: 0 <= i < |results| ==> results[i].Some?
    ensures |Present(results)| == |results|
    ensures forall i :: 0 <= i < |results| ==> Present(results)[i] == results[i].value
  {
    if results != [] {
      PresentAll(results[1..]);
    }
  }

  /**
   * `saved.map(s => getPublishedTemplate(s.templateId))` answered: one
   * result per record, and each template found is the one that record names.
   */
  predicate FetchedFor(saved: seq<SavedRecord>, results: seq<Option<Template>>) {
    |results| == |saved|
    && forall i :: 0 <= i < |results| && results[i].Some? ==> results[i].value.id == saved[i].templateId
  }

  /** The templates kept from such a fetch are saved ones, at most one per record. */
  lemma PresentAreSaved(saved: seq<SavedRecord>, results: seq<Option<Template>>)
    requires FetchedFor(saved, results)
    ensures |Present(results)| <= |saved|
    ensures forall t :: t in Present(results) ==> exists s :: s in saved && s.templateId == t.id
  {
    forall t | t in Present(results) ensures exists s :: s in saved && s.templateId == t.id {
      assert Some(t) in results;
      var i :| 0 <= i < |results| && results[i] == Some(t);
      assert saved[i] in saved;
    }
  }

  /** How the two awaited loads end. */
  datatype LoadOutcome =
    | SavedLoadFailed
    | TemplateLoadFailed(saved: seq<SavedRecord>)
    | Loaded(saved: seq<SavedRecord>, results: seq<Option<Template>>)

  /** `filter(s => s.templateId !== id)` and `filter(t => t.id !== id)`. */
  function WithoutRecord(saved: seq<SavedRecord>, id: string): seq<SavedRecord> {
    Filter(saved, (s: SavedRecord) => s.templateId != id)
  }

  function WithoutTemplate(templates: seq<Template>, id: string): seq<Template> {
    Filter(templates, (t: Template) => t.id != id)
  }

  /**
   * Unsaving removes every entry with the id and keeps every other entry
   * as often as before; it works piece by piece, so the rest keep their
   * order; an id that is not there changes nothing.
   */
  lemma UnsaveRemovesExactly(templates: seq<Template>, id: string, more: seq<Template>)
    ensures var r := WithoutTemplate(templates, id);
      && (forall t :: t in r ==> t.id != id)
      && (forall t: Template :: t.id != id ==> multiset(r)[t] == multiset(templates)[t])
      && WithoutTemplate(templates + more, id) == r + WithoutTemplate(more, id)
      && ((forall t :: t in templates ==> t.id != id) ==> r == templates)
  {
    forall t: Template | t.id != id ensures multiset(WithoutTemplate(templates, id))[t] == multiset(templates)[t] {
      FilterCount(templates, (t: Template) => t.id != id, t);
    }
    FilterAppend(templates, more, (t: Template) => t.id != id);
    if forall t :: t in templates ==> t.id != id {
      FilterAll(templates, (t: Template) => t.id != id);
    }
  }

  lemma UnsaveRemovesRecords(saved: seq<SavedRecord>, id: string)
    ensures var r := WithoutRecord(saved, id);
      && (forall s :: s in r ==> s.templateId != id)
      && (forall s: SavedRecord :: s.templateId != id ==> multiset(r)[s] == multiset(saved)[s])
      && FindSaved(r, id).None?
  {
    forall s: SavedRecord | s.templateId != id ensures multiset(WithoutRecord(saved, id))[s] == multiset(saved)[s] {
      FilterCount(saved, (s: SavedRecord) => s.templateId != id, s);
    }
  }

  class SavedPage {
    var savedTemplates: seq<SavedRecord>
    var templates: seq<Template>
    var isLoading: bool

    constructor ()
      ensures savedTemplates == [] && templates == [] && isLoading
    {
      savedTemplates := [];
      templates := [];
      isLoading := true;
    }

    /**
     * `loadSavedTemplates`: the records are kept as soon as they arrive, the
     * templates only when every fetch has answered, without the missing ones.
     */
    method LoadSavedTemplates(outcome: LoadOutcome)
      modifies this
      ensures !isLoading
      ensures outcome.SavedLoadFailed? ==> savedTemplates == old(savedTemplates) && templates == old(templates)
      ensures outcome.TemplateLoadFailed? ==> savedTemplates == outcome.saved && templates == old(templates)
      ensures outcome.Loaded? ==> savedTemplates == outcome.saved && templates == Present(outcome.results)
      ensures outcome.Loaded? && FetchedFor(outcome.saved, outcome.results) ==>
        forall t :: t in templates ==> exists s :: s in savedTemplates && s.templateId == t.id
    {
      isLoading := true;
      match outcome {
        case SavedLoadFailed =>
        case TemplateLoadFailed(saved) =>
          savedTemplates := saved;
        case Loaded(saved, results) =>
          savedTemplates := saved;
          templates := Present(results);
          if FetchedFor(saved, results) {
            PresentAreSaved(saved, results);
          }
      }
      isLoading := false;
    }

    /** `handleUnsaveTemplate`; `callOk` says whether `unsaveTemplate` succeeded. */
    method HandleUnsaveTemplate(templateId: string, callOk: bool)
      modifies this
      ensures callOk ==> (savedTemplates == WithoutRecord(old(savedTemplates), templateId)
                          && templates == WithoutTemplate(old(templates), templateId))
      ensures !callOk ==> savedTemplates == old(savedTemplates) && templates == old(templates)
      ensures isLoading == old(isLoading)
    {
      if callOk {
        savedTemplates := Filter(savedTemplates, (s: SavedRecord) => s.templateId != templateId);
        templates := Filter(templates, (t: Template) => t.id != templateId);
      }
    }
  }
}
