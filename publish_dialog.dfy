/**
 * The publish dialog (src/components/PublishTripDialog.tsx): a small tag
 * editor (at most five distinct, trimmed tags) and the validation chain
 * that guards the call publishing a trip as a template.
 */
module PublishDialog {
  import opened Options
  import opened Text
  import opened TripStore

  const MaxTags := 5

  /** Why `handlePublish` stops before calling the store. */
  datatype Rejection = NoUser | BlankTitle | BlankDescription | TooFewLocations

  /** The metadata handed to `publishTrip`. */
  datatype PublishRequest = PublishRequest(
    tripId: string,
    userId: string,
    title: string,
    description: string,
    category: string,
    tags: seq<string>)

  /** The early-return chain of `handlePublish`, first failing check first. */
  function Validate(user: Option<string>, title: string, description: string, trip: Trip): Option<Rejection> {
    if user.None? then Some(NoUser)
    else if IsBlank(title) then Some(BlankTitle)
    else if IsBlank(description) then Some(BlankDescription)
    else if |trip.itinerary| < 2 then Some(TooFewLocations)
    else None
  }

  /**
   * The checks as a specification: publishing goes ahead exactly when all
   * four hold, and a rejection names the first check that fails.
   */
  lemma ValidateSpec(user: Option<string>, title: string, description: string, trip: Trip)
    ensures Validate(user, title, description, trip).None?
        <==> user.Some? && !IsBlank(title) && !IsBlank(description) && |trip.itinerary| >= 2
    ensures Validate(user, title, description, trip) == Some(NoUser) <==> user.None?
    ensures Validate(user, title, description, trip) == Some(BlankTitle) <==> user.Some? && IsBlank(title)
    ensures Validate(user, title, description, trip) == Some(BlankDescription)
        <==> user.Some? && !IsBlank(title) && IsBlank(description)
    ensures Validate(user, title, description, trip) == Some(TooFewLocations)
        <==> user.Some? && !IsBlank(title) && !IsBlank(description) && |trip.itinerary| < 2
  {
  }

  /** A tag as stored: trimmed and not empty. */
  predicate CleanTag(t: string) {
    t != [] && Trim(t) == t
  }

  /** A non-blank field, trimmed, is a clean string. */
  lemma TrimmedClean(s: string)
    requires !IsBlank(s)
    ensures CleanTag(Trim(s))
  {
    TrimIdempotent(s);
  }

  /** What `handleAddTag` appends, when it appends anything. */
  function TagToAdd(tags: seq<string>, newTag: string): Option<string> {
    var t := Trim(newTag);
    if t != [] && t !in tags && |tags| < MaxTags then Some(t) else None
  }

  /** An added tag is clean, new and fits. */
  lemma TagToAddClean(tags: seq<string>, newTag: string)
    ensures TagToAdd(tags, newTag).Some? ==>
      var t := TagToAdd(tags, newTag).value;
      CleanTag(t) && t !in tags && |tags| < MaxTags
    ensures TagToAdd(tags, newTag).None? <==> IsBlank(newTag) || Trim(newTag) in tags || |tags| >= MaxTags
  {
    TrimIdempotent(newTag);
  }

  /** Adding a tag that is already there (up to white space around it) changes nothing. */
  lemma AddTagTwice(tags: seq<string>, newTag: string)
    requires TagToAdd(tags, newTag).Some?
    ensures TagToAdd(tags + [TagToAdd(tags, newTag).value], newTag).None?
  {
  }

  class PublishTripDialog {
    const trip: Trip
    var isOpen: bool
    var title: string
    var description: string
    var category: string
    var tags: seq<string>
    var newTag: string
    var isLoading: bool

    /** The tag list never exceeds five entries, never repeats one, and holds only clean tags. */
    ghost predicate Valid()
      reads this
    {
      |tags| <= MaxTags && Distinct(tags) && forall t :: t in tags ==> CleanTag(t)
    }

    constructor (trip: Trip)
      ensures Valid()
      ensures this.trip == trip && !isOpen && title == trip.title && description == ""
      ensures category == "Adventure" && tags == [] && newTag == "" && !isLoading
    {
      this.trip := trip;
      isOpen := false;
      title := trip.title;
      description := "";
      category := "Adventure";
      tags := [];
      newTag := "";
      isLoading := false;
    }

    /** `handleAddTag`: appends the trimmed input when it is non-empty, new and fits, then clears the input. */
    method HandleAddTag()
      requires Valid()
      modifies this
      ensures Valid()
      ensures var t := Trim(old(newTag));
        if t != [] && t !in old(tags) && |old(tags)| < MaxTags
        then tags == old(tags) + [t] && newTag == ""
        else tags == old(tags) && newTag == old(newTag)
      ensures isOpen == old(isOpen) && title == old(title) && description == old(description)
      ensures category == old(category) && isLoading == old(isLoading)
    {
      var t := Trim(newTag);
      if t != [] && t !in tags && |tags| < MaxTags {
        TrimIdempotent(newTag);
        DistinctConcat(tags, [t]);
        tags := tags + [t];
        newTag := "";
      }
    }

    /** `handleRemoveTag`: drops every tag equal to the argument, keeping the others in order. */
    method HandleRemoveTag(tagToRemove: string)
      requires Valid()
      modifies this
      ensures Valid()
      ensures tags == RemoveMember(old(tags), tagToRemove)
      ensures tagToRemove !in tags && forall t :: t != tagToRemove ==> (t in tags <==> t in old(tags))
      ensures isOpen == old(isOpen) && title == old(title) && description == old(description)
      ensures category == old(category) && newTag == old(newTag) && isLoading == old(isLoading)
    {
      RemoveKeepsDistinct(tags, tagToRemove);
      tags := RemoveMember(tags, tagToRemove);
    }

    /**
     * `handlePublish`. `user` is the signed-in user's id, if any, and
     * `publishOk` whether `publishTrip` returned rather than threw. The
     * result is the call made, None when validation stopped first.
     */
    method HandlePublish(user: Option<string>, publishOk: bool) returns (call: Option<PublishRequest>)
      requires Valid()
      modifies this
      ensures Valid()
      ensures call.None? <==> Validate(user, old(title), old(description), trip).Some?
      ensures call.Some? ==> call.value == PublishRequest(trip.id, user.value, Trim(old(title)), Trim(old(description)),
                                                          old(category), old(tags))
      ensures call.Some? ==> CleanTag(call.value.title) && CleanTag(call.value.description)
      ensures call.Some? && publishOk ==>
        !isOpen && title == trip.title && description == "" && category == "Adventure" && tags == []
      ensures call.None? || !publishOk ==>
        isOpen == old(isOpen) && title == old(title) && description == old(description)
        && category == old(category) && tags == old(tags)
      ensures call.Some? ==> !isLoading
      ensures call.None? ==> isLoading == old(isLoading)
      ensures newTag == old(newTag)
    {
      if Validate(user, title, description, trip).Some? {
        return None;
      }
      isLoading := true;
      TrimmedClean(title);
      TrimmedClean(description);
      call := Some(PublishRequest(trip.id, user.value, Trim(title), Trim(description), category, tags));
      if publishOk {
        isOpen := false;
        title := trip.title;
        description := "";
        category := "Adventure";
        tags := [];
      }
      isLoading := false;
    }
  }
}
