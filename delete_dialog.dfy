/**
 * The delete-or-leave dialog (src/components/DeleteTripDialog.tsx). Owners,
 * and anyone on one of the three sample trips, delete the whole trip;
 * editors and viewers leave it; the confirmation phrase the user must type
 * follows the same case split.
 */
module DeleteDialog {
  import opened Options
  import opened Text
  import opened TripStore

  /** Titles of the sample trips created for a new user. */
  const OnboardingTitles: seq<string> := ["Asia Trip 2025", "European Adventure", "South America Discovery"]

  predicate IsOnboardingTrip(trip: Trip) {
    trip.title in OnboardingTitles
  }

  /** `trip.ownerId === user?.uid`: never true without a user. */
  predicate IsOwner(trip: Trip, user: Option<string>) {
    user.Some? && trip.ownerId == user.value
  }

  /** `trip.editors?.includes(user?.uid || '')`: without a user the empty id is looked up. */
  predicate IsEditor(trip: Trip, user: Option<string>) {
    user.GetOr("") in trip.editors
  }

  predicate IsViewer(trip: Trip, user: Option<string>) {
    user.GetOr("") in trip.viewers
  }

  predicate CanDelete(trip: Trip, user: Option<string>) {
    IsOwner(trip, user) || IsOnboardingTrip(trip)
  }

  /** The three cases the dialog's texts and its action split on. */
  datatype Mode = DeleteMode | LeaveMode | RemoveMode

  function ModeOf(trip: Trip, user: Option<string>): Mode {
    if IsOwner(trip, user) || IsOnboardingTrip(trip) then DeleteMode
    else if IsEditor(trip, user) || IsViewer(trip, user) then LeaveMode
    else RemoveMode
  }

  /** `getActionText`. */
  function ActionText(trip: Trip, user: Option<string>): string {
    match ModeOf(trip, user)
    case DeleteMode => "Delete Trip"
    case LeaveMode => "Leave Trip"
    case RemoveMode => "Remove Trip"
  }

  /** `getConfirmationText`: the phrase the user has to type. */
  function ConfirmationText(trip: Trip, user: Option<string>): string {
    match ModeOf(trip, user)
    case DeleteMode => "DELETE TRIP"
    case LeaveMode => "LEAVE TRIP"
    case RemoveMode => "REMOVE TRIP"
  }

  const SampleNote := " This is a sample trip created to help you get started."

  /** The question each description opens with, up to the quoted title. */
  function Opening(mode: Mode): string {
    match mode
    case DeleteMode => "Are you sure you want to delete "
    case LeaveMode => "Are you sure you want to leave "
    case RemoveMode => "Are you sure you want to remove "
  }

  const DeleteWarning := "? This action cannot be undone and will permanently remove the trip for all collaborators."

  /** What follows the quoted title; the sample-trip note is added only for a sample trip. */
  function Closing(trip: Trip, mode: Mode): string {
    match mode
    case DeleteMode => DeleteWarning + (if IsOnboardingTrip(trip) then SampleNote else "")
    case LeaveMode => "? You will no longer have access to this trip, but it will remain available to other collaborators."
    case RemoveMode => " from your account?"
  }

  /** `getDescription`. */
  function Description(trip: Trip, user: Option<string>): string {
    var mode := ModeOf(trip, user);
    Opening(mode) + Quoted(trip.title) + Closing(trip, mode)
  }

  function Quoted(s: string): string {
    "\"" + s + "\""
  }

  /**
   * The case split as a specification: deleting is offered exactly when
   * `canDelete` holds, leaving exactly to a non-owner collaborator of a
   * trip that is not a sample.
   */
  lemma ModeSpec(trip: Trip, user: Option<string>)
    ensures ModeOf(trip, user) == DeleteMode <==> CanDelete(trip, user)
    ensures ModeOf(trip, user) == LeaveMode
        <==> !CanDelete(trip, user) && (IsEditor(trip, user) || IsViewer(trip, user))
    ensures ModeOf(trip, user) == RemoveMode
        <==> !CanDelete(trip, user) && !IsEditor(trip, user) && !IsViewer(trip, user)
    ensures IsOnboardingTrip(trip) <==>
      trip.title == "Asia Trip 2025" || trip.title == "European Adventure" || trip.title == "South America Discovery"
  {
  }

  /** The owner of a trip always deletes it, whoever else is listed. */
  lemma OwnerDeletes(trip: Trip, userId: string)
    requires trip.ownerId == userId
    ensures ConfirmationText(trip, Some(userId)) == "DELETE TRIP" && ActionText(trip, Some(userId)) == "Delete Trip"
  {
  }

  /** The three phrases differ, so the one typed determines the case. */
  lemma ConfirmationDetermines(trip1: Trip, user1: Option<string>, trip2: Trip, user2: Option<string>)
    requires ConfirmationText(trip1, user1) == ConfirmationText(trip2, user2)
    ensures ModeOf(trip1, user1) == ModeOf(trip2, user2)
    ensures ActionText(trip1, user1) == ActionText(trip2, user2)
  {
    var c1 := ConfirmationText(trip1, user1);
    var c2 := ConfirmationText(trip2, user2);
    assert c1[0] == c2[0];
  }

  /**
   * The description names the trip, quoted, right after the question's
   * opening, and says so when the trip is a sample one.
   */
  lemma DescriptionQuotesTitle(trip: Trip, user: Option<string>)
    ensures OccursAt(Description(trip, user), Quoted(trip.title), |Opening(ModeOf(trip, user))|)
    ensures Description(trip, user)[..|Opening(ModeOf(trip, user))|] == Opening(ModeOf(trip, user))
    ensures IsOnboardingTrip(trip) ==> Contains(Description(trip, user), SampleNote)
  {
    var mode := ModeOf(trip, user);
    OccursInMiddle(Opening(mode), Quoted(trip.title), Closing(trip, mode));
    if IsOnboardingTrip(trip) {
      SampleTripNoted(trip, user);
    }
  }

  /** The description of a sample trip says that it is one. */
  lemma SampleTripNoted(trip: Trip, user: Option<string>)
    requires IsOnboardingTrip(trip)
    ensures Contains(Description(trip, user), SampleNote)
  {
    var o, q, w, n := Opening(DeleteMode), Quoted(trip.title), DeleteWarning, SampleNote;
    assert ModeOf(trip, user) == DeleteMode;
    assert Closing(trip, DeleteMode) == w + n;
    var p := o + q + w;
    var d := Description(trip, user);
    assert d == p + n by {
      assert d == o + q + (w + n);
    }
    assert d[|p|..|p| + |n|] == n;
    ContainsAt(d, n, |p|);
  }

  /** The store call `handleDelete` makes. */
  datatype DeleteCall = NoCall | DeleteTripCall(tripId: string) | LeaveCall(tripId: string, userId: string, permission: Permission)

  /** The call `handleDelete` makes once the phrase typed is `confirmation`. */
  function Decision(trip: Trip, user: Option<string>, confirmation: string): DeleteCall {
    if user.None? || user.value == "" then NoCall
    else if confirmation != ConfirmationText(trip, user) then NoCall
    else if IsOwner(trip, user) || IsOnboardingTrip(trip) then DeleteTripCall(trip.id)
    else if IsEditor(trip, user) || IsViewer(trip, user) then
      LeaveCall(trip.id, user.value, if IsEditor(trip, user) then Edit else View)
    else NoCall
  }

  /**
   * No user, or a phrase that is not the expected one, leads to no store
   * call. A delete happens only where deleting is allowed; a leave only
   * for a collaborator who may not delete, as an editor whenever listed as
   * one and as a viewer otherwise.
   */
  lemma DecisionSpec(trip: Trip, user: Option<string>, confirmation: string)
    ensures user.None? ==> Decision(trip, user, confirmation) == NoCall
    ensures confirmation != ConfirmationText(trip, user) ==> Decision(trip, user, confirmation) == NoCall
    ensures Decision(trip, user, confirmation).DeleteTripCall? <==>
      user.Some? && user.value != "" && confirmation == "DELETE TRIP" && CanDelete(trip, user)
    ensures Decision(trip, user, confirmation).LeaveCall? <==>
      user.Some? && user.value != "" && confirmation == "LEAVE TRIP" && !CanDelete(trip, user)
      && (IsEditor(trip, user) || IsViewer(trip, user))
    ensures Decision(trip, user, confirmation).LeaveCall? ==>
      Decision(trip, user, confirmation).userId == user.value
      && (Decision(trip, user, confirmation).permission == Edit <==> user.value in trip.editors)
      && (Decision(trip, user, confirmation).permission == View ==> user.value in trip.viewers)
  {
  }

  class DeleteTripDialog {
    const trip: Trip
    var isOpen: bool
    var isLoading: bool
    var confirmationText: string

    constructor (trip: Trip)
      ensures this.trip == trip && !isOpen && !isLoading && confirmationText == ""
    {
      this.trip := trip;
      isOpen := false;
      isLoading := false;
      confirmationText := "";
    }

    /**
     * `handleDelete` against the store. `storeOk` says whether the store
     * call (`deleteTrip` or `removeTripAccess`) returned rather than threw. The dialog closes (and the
     * phrase is cleared) after a completed delete or leave, and after a
     * confirmed press by a user with no role; otherwise it stays as it was.
     */
    method HandleDelete(user: Option<string>, store: Store, storeOk: bool) returns (call: DeleteCall, closed: bool)
      requires store.Valid()
      modifies this, store
      ensures store.Valid()
      ensures call == Decision(trip, user, old(confirmationText))
      ensures call == NoCall ==> store.trips == old(store.trips)
      ensures call.DeleteTripCall? ==>
        store.trips == (if storeOk then old(store.trips) - {trip.id} else old(store.trips))
      ensures call.LeaveCall? ==>
        store.trips == (if trip.id in old(store.trips) && storeOk
                        then old(store.trips)[trip.id := Revoke(old(store.trips)[trip.id], call.permission, call.userId)]
                        else old(store.trips))
      ensures store.invitations == old(store.invitations)
      ensures closed <==>
        user.Some? && user.value != "" && old(confirmationText) == ConfirmationText(trip, user)
        && match call
           case NoCall => true
           case DeleteTripCall(_) => storeOk
           case LeaveCall(id, _, _) => id in old(store.trips) && storeOk
      ensures closed ==> !isOpen && confirmationText == ""
      ensures !closed ==> isOpen == old(isOpen) && confirmationText == old(confirmationText)
      ensures user.Some? && user.value != "" && old(confirmationText) == ConfirmationText(trip, user) ==> !isLoading
      ensures user.None? || user.value == "" || old(confirmationText) != ConfirmationText(trip, user) ==>
        isLoading == old(isLoading)
    {
      call := NoCall;
      closed := false;
      if user.None? || user.value == "" {
        return;
      }
      var uid := user.value;
      if confirmationText != ConfirmationText(trip, user) {
        return;
      }
      isLoading := true;
      if IsOwner(trip, user) || IsOnboardingTrip(trip) {
        call := DeleteTripCall(trip.id);
        if !storeOk {
          // deleteTrip threw: the catch keeps the dialog open
          isLoading := false;
          return;
        }
        store.DeleteTrip(trip.id);
      } else if IsEditor(trip, user) || IsViewer(trip, user) {
        var permission := if IsEditor(trip, user) then Edit else View;
        call := LeaveCall(trip.id, uid, permission);
        var ok := store.RemoveTripAccess(trip.id, uid, permission, storeOk);
        if !ok {
          isLoading := false;
          return;
        }
      }
      isOpen := false;
      confirmationText := "";
      closed := true;
      isLoading := false;
    }
  }
}
