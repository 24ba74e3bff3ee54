/**
 * The "My Trips" page (src/app/page.tsx): creating a trip from the dialog,
 * loading the user's trips (with two sample trips for a user who has
 * none), refreshing a trip's picture, and the day/night and sharing labels
 * on each card. Dates are day numbers counted from 1970-01-01.
 */
module HomePage {
  import opened Options
  import opened Text
  import opened TripStore
  import DeleteDialog

  // ---------------------------------------------------------------------
  // Card labels

  /** The duration line: the days the trip spans, both ends counted, and one night fewer. */
  function DayNightLabel(startDate: int, endDate: int): string {
    var days := endDate - startDate + 1;
    var nights := days - 1;
    Counted(days, "day") + " / " + Counted(nights, "night")
  }

  /**
   * For a trip that ends on or after its start, the line opens with the
   * number of calendar days from start to end inclusive.
   */
  lemma DayNightLeadingNumber(startDate: int, endDate: int)
    requires startDate <= endDate
    ensures var digits := NatToString(endDate - startDate + 1);
      DayNightLabel(startDate, endDate)[..|digits|] == digits && DigitsValue(digits) == endDate - startDate + 1
  {
    LeadingCount(endDate - startDate + 1, "day", " / " + Counted(endDate - startDate, "night"));
  }

  /** A count followed by anything still opens with the count's digits. */
  lemma LeadingCount(n: nat, unit: string, rest: string)
    ensures var digits := NatToString(n);
      |digits| <= |Counted(n, unit) + rest| && (Counted(n, unit) + rest)[..|digits|] == digits
      && DigitsValue(digits) == n
  {
    var digits := NatToString(n);
    var tail := " " + unit + (if n == 1 then "" else "s");
    CountedShape(n, unit);
    assert Counted(n, unit) + rest == digits + (tail + rest);
  }

  /** "day" is singular only for a one-day trip, "night" only for a two-day trip. */
  lemma DayNightPlurals(startDate: int, endDate: int)
    ensures var days := endDate - startDate + 1;
      && (Counted(days, "day")[|Counted(days, "day")| - 1] == 's' <==> endDate != startDate)
      && (Counted(days - 1, "night")[|Counted(days - 1, "night")| - 1] == 's' <==> endDate != startDate + 1)
      && DayNightLabel(startDate, endDate) == Counted(days, "day") + " / " + Counted(days - 1, "night")
  {
    var days := endDate - startDate + 1;
    CountedPlural(days, "day");
    CountedPlural(days - 1, "night");
  }

  /** A one-day trip reads "1 day / 0 nights". */
  lemma SameDayLabel(d: int)
    ensures DayNightLabel(d, d) == "1 day / 0 nights"
  {
    assert NatToString(1) == "1";
    assert NatToString(0) == "0";
  }

  /** The sharing line of a card. */
  function SharingLabel(trip: Trip): string {
    var n := |trip.editors| + |trip.viewers|;
    if n > 0 then "Shared with " + Counted(n, "other") else "Not shared"
  }

  /**
   * "Not shared" exactly when nobody else is listed; otherwise it counts
   * the editors and viewers together, singular only for one.
   */
  lemma SharingLabelSpec(trip: Trip)
    ensures SharingLabel(trip) == "Not shared" <==> trip.editors == [] && trip.viewers == []
    ensures |trip.editors| + |trip.viewers| == 1 ==> SharingLabel(trip) == "Shared with 1 other"
  {
    assert NatToString(1) == "1";
  }

  /** After an invitation is accepted, the card of that trip says it is shared. */
  lemma SharedAfterGrant(trip: Trip, permission: Permission, userId: string)
    ensures SharingLabel(Grant(trip, permission, userId)) != "Not shared"
  {
    var g := Grant(trip, permission, userId);
    SharingLabelSpec(g);
    assert userId in g.editors || userId in g.viewers;
  }

  // ---------------------------------------------------------------------
  // New trips

  /** The trip `handleCreateTrip` hands to `createTrip`; the two UUIDs are inputs. */
  function NewTripDraft(userId: string, title: string, startDate: int, locationId: string, blockId: string): TripDraft {
    TripDraft(userId, Some([]), Some([]), title, startDate, startDate, ["New Location"], "", "new trip landscape",
              [Location(locationId, "New Location", [DateBlock(blockId, startDate, [])])])
  }

  /** The copy the page keeps after `createTrip`: the draft with its new id, without the store's timestamps. */
  function LocalTrip(draft: TripDraft, id: string): Trip {
    Trip(id, draft.ownerId, draft.editors.GetOr([]), draft.viewers.GetOr([]), draft.title, draft.startDate,
         draft.endDate, draft.locations, draft.imageUrl, draft.imageHint, draft.itinerary, None, None)
  }

  /** The page's copy is the stored record without its timestamps. */
  lemma LocalMatchesStored(draft: TripDraft, id: string, now: int)
    ensures LocalTrip(draft, id) == NewTripRecord(draft, id, now).(createdAt := None, updatedAt := None)
  {
  }

  /**
   * A new trip starts and ends on its start day, lists nobody else, belongs
   * to its creator, and has one location "New Location" holding one empty
   * date block on the start day.
   */
  lemma NewTripShape(userId: string, title: string, startDate: int, locationId: string, blockId: string,
                     id: string, now: int)
    ensures var t := NewTripRecord(NewTripDraft(userId, title, startDate, locationId, blockId), id, now);
      && t.id == id && t.title == title
      && t.startDate == t.endDate == startDate
      && t.editors == [] && t.viewers == [] && t.ownerId == userId
      && HasTripAccess(t, userId, OwnerAccess)
      && (forall u :: u != userId ==> !HasTripAccess(t, u, ViewAccess))
      && t.locations == ["New Location"]
      && |t.itinerary| == 1 && t.itinerary[0].name == "New Location"
      && |t.itinerary[0].dateBlocks| == 1
      && t.itinerary[0].dateBlocks[0].date == startDate && t.itinerary[0].dateBlocks[0].activities == []
      && SharingLabel(t) == "Not shared" && DayNightLabel(t.startDate, t.endDate) == "1 day / 0 nights"
  {
    SameDayLabel(startDate);
  }

  // ---------------------------------------------------------------------
  // Sample trips

  const AsiaStart := 20425     // 2025-12-03
  const AsiaEnd := 20430       // 2025-12-08
  const EuropeStart := 20619   // 2026-06-15
  const EuropeEnd := 20632     // 2026-06-28

  /** The two trips `createSampleTrips` creates for a user who has none. */
  function SampleDrafts(userId: string): seq<TripDraft> {
    [ TripDraft(userId, Some([]), Some([]), "Asia Trip 2025", AsiaStart, AsiaEnd, ["Hong Kong", "Vancouver"],
                "", "asia landscape",
                [ Location("loc1", "Hong Kong", [DateBlock("date1", AsiaStart, []), DateBlock("date2", AsiaStart + 1, [])]),
                  Location("loc2", "Vancouver", [DateBlock("date3", AsiaStart + 1, []), DateBlock("date4", AsiaStart + 2, []),
                                                 DateBlock("date5", AsiaStart + 3, []), DateBlock("date6", AsiaStart + 4, []),
                                                 DateBlock("date7", AsiaEnd, [])]) ]),
      TripDraft(userId, Some([]), Some([]), "European Adventure", EuropeStart, EuropeEnd, ["Paris", "Rome", "Barcelona"],
                "", "europe landscape",
                [ Location("loc3", "Paris", [DateBlock("date8", EuropeStart, [])]),
                  Location("loc4", "Rome", [DateBlock("date9", EuropeStart, [])]),
                  Location("loc5", "Barcelona", [DateBlock("date10", EuropeStart, [])]) ]) ]
  }

  /** The page's copies of the first `n` samples whose creation went through, in order. */
  function CreatedSamples(drafts: seq<TripDraft>, ids: seq<string>, oks: seq<bool>, n: nat): seq<Trip>
    requires n <= |drafts| == |ids| == |oks|
  {
    if n == 0 then []
    else CreatedSamples(drafts, ids, oks, n - 1) + (if oks[n - 1] then [LocalTrip(drafts[n - 1], ids[n - 1])] else [])
  }

  /** The store after the first `n` sample creations. */
  function StoredSamples(trips: map<string, Trip>, drafts: seq<TripDraft>, ids: seq<string>, oks: seq<bool>,
                         now: int, n: nat): map<string, Trip>
    requires n <= |drafts| == |ids| == |oks|
  {
    if n == 0 then trips
    else
      var before := StoredSamples(trips, drafts, ids, oks, now, n - 1);
      if oks[n - 1] then before[ids[n - 1] := NewTripRecord(drafts[n - 1], ids[n - 1], now)] else before
  }

  /**
   * Every sample the page ends up with belongs to the user, is shared with
   * nobody and is one of the sample trips any viewer may delete; a failed
   * creation is skipped and the rest go on.
   */
  lemma {:induction false} CreatedSamplesFacts(userId: string, ids: seq<string>, oks: seq<bool>, n: nat)
    requires n <= 2 && |ids| == 2 && |oks| == 2
    ensures var c := CreatedSamples(SampleDrafts(userId), ids, oks, n);
      && |c| <= n
      && |c| == |set i | 0 <= i < n && oks[i]|
      && forall t :: t in c ==>
           t.ownerId == userId && t.editors == [] && t.viewers == [] && DeleteDialog.IsOnboardingTrip(t)
           && t.id in ids
  {
    var drafts := SampleDrafts(userId);
    forall i | 0 <= i < 2
      ensures UserSample(LocalTrip(drafts[i], ids[i]), userId, ids)
    {
      SampleCopy(userId, ids, i);
    }
    CreatedFacts(drafts, ids, oks, n, userId);
  }

  predicate UserSample(t: Trip, userId: string, ids: seq<string>) {
    t.ownerId == userId && t.editors == [] && t.viewers == [] && DeleteDialog.IsOnboardingTrip(t) && t.id in ids
  }

  lemma {:induction false} CreatedFacts(drafts: seq<TripDraft>, ids: seq<string>, oks: seq<bool>, n: nat, userId: string)
    requires n <= |drafts| == |ids| == |oks|
    requires forall i :: 0 <= i < |drafts| ==> UserSample(LocalTrip(drafts[i], ids[i]), userId, ids)
    ensures var c := CreatedSamples(drafts, ids, oks, n);
      && |c| <= n
      && |c| == |set i | 0 <= i < n && oks[i]|
      && forall t :: t in c ==> UserSample(t, userId, ids)
  {
    if n > 0 {
      CreatedFacts(drafts, ids, oks, n - 1, userId);
      var before := set i | 0 <= i < n - 1 && oks[i];
      assert (set i | 0 <= i < n && oks[i]) == before + (if oks[n - 1] then {n - 1} else {});
      assert n - 1 !in before;
    }
  }

  /** The page's copy of one sample trip. */
  lemma SampleCopy(userId: string, ids: seq<string>, i: nat)
    requires i < 2 && |ids| == 2
    ensures var t := LocalTrip(SampleDrafts(userId)[i], ids[i]);
      t.ownerId == userId && t.editors == [] && t.viewers == [] && DeleteDialog.IsOnboardingTrip(t) && t.id in ids
  {
    var d := SampleDrafts(userId)[i];
    assert d.title == DeleteDialog.OnboardingTitles[i];
  }

  /** The samples that went through are in the store under their ids, and nothing else changed. */
  lemma {:induction false} StoredSamplesFacts(trips: map<string, Trip>, drafts: seq<TripDraft>, ids: seq<string>,
                                              oks: seq<bool>, now: int, n: nat)
    requires n <= |drafts| == |ids| == |oks|
    ensures var s := StoredSamples(trips, drafts, ids, oks, now, n);
      && s.Keys == trips.Keys + (set i | 0 <= i < n && oks[i] :: ids[i])
      && forall id :: id in trips && (forall i :: 0 <= i < n && oks[i] ==> ids[i] != id) ==> s[id] == trips[id]
  {
    if n > 0 {
      StoredSamplesFacts(trips, drafts, ids, oks, now, n - 1);
      assert (set i | 0 <= i < n && oks[i] :: ids[i])
          == (set i | 0 <= i < n - 1 && oks[i] :: ids[i]) + (if oks[n - 1] then {ids[n - 1]} else {});
    }
  }

  /** The user has some trip to view in the store. */
  ghost predicate HasViewable(trips: map<string, Trip>, userId: string) {
    exists id :: id in trips && HasTripAccess(trips[id], userId, ViewAccess)
  }

  // ---------------------------------------------------------------------
  // The page

  /** `trips.map(...)` in `handleUpdateImage`: every trip with the id gets the new picture. */
  function WithImage(trips: seq<Trip>, tripId: string, url: string): (r: seq<Trip>)
    ensures |r| == |trips|
    ensures forall i :: 0 <= i < |trips| ==> r[i] == trips[i].(imageUrl := r[i].imageUrl)
    ensures forall i :: 0 <= i < |trips| ==> r[i].imageUrl == if trips[i].id == tripId then url else trips[i].imageUrl
  {
    seq(|trips|, i requires 0 <= i < |trips| => if trips[i].id == tripId then trips[i].(imageUrl := url) else trips[i])
  }

  /** Refreshing a picture twice keeps the second; with no trip of that id nothing changes. */
  lemma WithImageFacts(trips: seq<Trip>, tripId: string, u1: string, u2: string)
    ensures WithImage(WithImage(trips, tripId, u1), tripId, u2) == WithImage(trips, tripId, u2)
    ensures (forall t :: t in trips ==> t.id != tripId) ==> WithImage(trips, tripId, u1) == trips
  {
    if forall t :: t in trips ==> t.id != tripId {
      var r := WithImage(trips, tripId, u1);
      assert forall i :: 0 <= i < |trips| ==> r[i] == trips[i];
    }
  }

  class MyTripsPage {
    var trips: seq<Trip>
    var isDialogOpen: bool
    var newTripTitle: string
    var newTripStartDate: Option<int>
    var isLoading: bool

    constructor (today: int)
      ensures trips == [] && !isDialogOpen && newTripTitle == "" && newTripStartDate == Some(today) && isLoading
    {
      trips := [];
      isDialogOpen := false;
      newTripTitle := "";
      newTripStartDate := Some(today);
      isLoading := true;
    }

    /**
     * `handleCreateTrip`. Without a title, a start date and a user nothing
     * happens. Otherwise the store creates the trip under `newId` (a fresh
     * id; `createOk` says whether the call went through and the UUIDs are
     * inputs); on success the page appends its copy, clears the title,
     * resets the date to today and closes the dialog.
     */
    method HandleCreateTrip(user: Option<string>, store: Store, newId: string, locationId: string, blockId: string,
                            today: int, now: int, createOk: bool) returns (created: Option<string>)
      requires store.Valid() && newId !in store.trips
      modifies this, store
      ensures store.Valid()
      ensures var ready := old(newTripTitle) != "" && old(newTripStartDate).Some? && user.Some?;
        && (created.Some? <==> ready && createOk)
        && (created.Some? ==>
             var draft := NewTripDraft(user.value, old(newTripTitle), old(newTripStartDate).value, locationId, blockId);
             && created.value == newId
             && store.trips == old(store.trips)[newId := NewTripRecord(draft, newId, now)]
             && trips == old(trips) + [LocalTrip(draft, newId)]
             && newTripTitle == "" && newTripStartDate == Some(today) && !isDialogOpen)
        && (created.None? ==>
             store.trips == old(store.trips) && trips == old(trips) && newTripTitle == old(newTripTitle)
             && newTripStartDate == old(newTripStartDate) && isDialogOpen == old(isDialogOpen))
      ensures store.invitations == old(store.invitations) && isLoading == old(isLoading)
    {
      if newTripTitle != "" && newTripStartDate.Some? && user.Some? {
        var draft := NewTripDraft(user.value, newTripTitle, newTripStartDate.value, locationId, blockId);
        if !createOk {
          // createTrip threw: the error is shown and nothing else changes
          return None;
        }
        var tripId := store.CreateTrip(draft, newId, now);
        trips := trips + [LocalTrip(draft, tripId)];
        newTripTitle := "";
        newTripStartDate := Some(today);
        isDialogOpen := false;
        created := Some(tripId);
      } else {
        created := None;
      }
    }

    /**
     * `createSampleTrips`: creates the two samples one after the other;
     * `ids` are the ids the store hands out and `oks` whether each
     * creation went through. A failed one is skipped.
     */
    method CreateSampleTrips(user: Option<string>, store: Store, ids: seq<string>, oks: seq<bool>, now: int)
      returns (created: seq<Trip>)
      requires store.Valid()
      requires |ids| == 2 && |oks| == 2 && ids[0] != ids[1] && ids[0] !in store.trips && ids[1] !in store.trips
      modifies store
      ensures store.Valid()
      ensures user.None? ==> created == [] && store.trips == old(store.trips)
      ensures user.Some? ==>
        && created == CreatedSamples(SampleDrafts(user.value), ids, oks, 2)
        && store.trips == StoredSamples(old(store.trips), SampleDrafts(user.value), ids, oks, now, 2)
      ensures store.invitations == old(store.invitations)
    {
      if user.None? {
        return [];
      }
      var drafts := SampleDrafts(user.value);
      created := [];
      for i := 0 to 2
        invariant store.Valid()
        invariant created == CreatedSamples(drafts, ids, oks, i)
        invariant store.trips == StoredSamples(old(store.trips), drafts, ids, oks, now, i)
        invariant forall j :: i <= j < 2 ==> ids[j] !in store.trips
        invariant store.invitations == old(store.invitations)
      {
        if oks[i] {
          var tripId := store.CreateTrip(drafts[i], ids[i], now);
          created := created + [LocalTrip(drafts[i], tripId)];
        }
      }
    }

    /**
     * `loadTrips`. Without a user nothing happens. `loadOk` says whether
     * `getUserTrips` went through: when it threw the list is emptied. A
     * user with no trip to view gets the sample trips; anyone else gets
     * the store's answer, each viewable trip once, newest first.
     */
    method LoadTrips(user: Option<string>, store: Store, loadOk: bool, ids: seq<string>, oks: seq<bool>, now: int)
      requires store.Valid()
      requires |ids| == 2 && |oks| == 2 && ids[0] != ids[1] && ids[0] !in store.trips && ids[1] !in store.trips
      modifies this, store
      ensures store.Valid()
      ensures user.None? ==>
        trips == old(trips) && isLoading == old(isLoading) && store.trips == old(store.trips)
      ensures user.Some? ==> !isLoading
      ensures user.Some? && !loadOk ==> trips == [] && store.trips == old(store.trips)
      ensures user.Some? && loadOk && !HasViewable(old(store.trips), user.value) ==>
        && trips == CreatedSamples(SampleDrafts(user.value), ids, oks, 2)
        && store.trips == StoredSamples(old(store.trips), SampleDrafts(user.value), ids, oks, now, 2)
      ensures user.Some? && loadOk && HasViewable(old(store.trips), user.value) ==>
        && store.trips == old(store.trips)
        && StoredRecords(trips, store.trips)
        && (forall i, j :: 0 <= i < j < |trips| ==> trips[i].id != trips[j].id)
        && IdsOf(trips) == (set id | id in store.trips && HasTripAccess(store.trips[id], user.value, ViewAccess))
        && Arrays.SortedDesc(trips, CreatedKey)
      ensures store.invitations == old(store.invitations)
      ensures isDialogOpen == old(isDialogOpen) && newTripTitle == old(newTripTitle)
      ensures newTripStartDate == old(newTripStartDate)
    {
      if user.None? {
        return;
      }
      isLoading := true;
      if !loadOk {
        trips := [];
      } else {
        var userTrips := store.GetUserTrips(user.value);
        if |userTrips| == 0 {
          assert !HasViewable(store.trips, user.value) by {
            forall id | id in store.trips
              ensures !HasTripAccess(store.trips[id], user.value, ViewAccess)
            {
              assert id !in IdsOf(userTrips);
            }
          }
          var samples := CreateSampleTrips(user, store, ids, oks, now);
          trips := samples;
        } else {
          assert HasViewable(store.trips, user.value) by {
            assert userTrips[0].id in IdsOf(userTrips);
          }
          trips := userTrips;
        }
      }
      isLoading := false;
    }

    /**
     * `handleUpdateImage`. A missing trip, or one without locations, is
     * left alone and nothing is searched. Otherwise the picture search
     * asks for the first location followed by " iconic"; `url` is what it
     * found and `updateOk` whether `updateTrip` went through. Only the
     * picture of the trips with that id changes.
     */
    method HandleUpdateImage(tripId: string, url: Option<string>, updateOk: bool) returns (search: Option<string>)
      modifies this
      ensures search.None? <==> !HasId(old(trips), tripId) || |FirstWithId(old(trips), tripId).locations| == 0
      ensures search.Some? ==> search.value == FirstWithId(old(trips), tripId).locations[0] + " iconic"
      ensures trips == (if search.Some? && url.Some? && url.value != "" && updateOk
                        then WithImage(old(trips), tripId, url.value) else old(trips))
      ensures isDialogOpen == old(isDialogOpen) && newTripTitle == old(newTripTitle)
      ensures newTripStartDate == old(newTripStartDate) && isLoading == old(isLoading)
    {
      if !HasId(trips, tripId) {
        return None;
      }
      var tripToUpdate := FirstWithId(trips, tripId);
      if |tripToUpdate.locations| == 0 {
        return None;
      }
      search := Some(tripToUpdate.locations[0] + " iconic");
      if url.Some? && url.value != "" && updateOk {
        trips := WithImage(trips, tripId, url.value);
      }
    }
  }
}
