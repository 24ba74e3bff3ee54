/**
 * The share dialog (src/components/ShareTripDialog.tsx): an email address
 * and a permission, checked and trimmed before the store records the
 * invitation.
 */
module ShareDialog {
  import opened Text
  import opened TripStore

  class ShareTripDialog {
    const tripId: string
    var isOpen: bool
    var email: string
    var permission: Permission
    var isLoading: bool

    /** The permission offered first is edit. */
    constructor (tripId: string)
      ensures this.tripId == tripId && !isOpen && email == "" && permission == Edit && !isLoading
    {
      this.tripId := tripId;
      isOpen := false;
      email := "";
      permission := Edit;
      isLoading := false;
    }

    /**
     * `handleShare`. A blank email stops before the store is called.
     * Otherwise the store records the invitation under the trimmed email;
     * `shareOk` says whether the write went through. Success clears the
     * email and closes the dialog; a failure leaves both as they were.
     */
    method HandleShare(store: Store, now: int, shareOk: bool) returns (called: bool)
      requires store.Valid()
      modifies this, store
      ensures store.Valid()
      ensures called <==> !IsBlank(old(email))
      ensures called && shareOk ==>
        store.invitations == Shared(old(store.invitations), tripId, Trim(old(email)), permission, now)
        && email == "" && !isOpen
      ensures !called || !shareOk ==>
        store.invitations == old(store.invitations) && email == old(email) && isOpen == old(isOpen)
      ensures store.trips == old(store.trips) && permission == old(permission)
      ensures called ==> !isLoading
      ensures !called ==> isLoading == old(isLoading)
    {
      var trimmed := Trim(email);
      if trimmed == [] {
        return false;
      }
      called := true;
      isLoading := true;
      var ok := store.ShareTrip(tripId, trimmed, permission, now, shareOk);
      if ok {
        email := "";
        isOpen := false;
      }
      isLoading := false;
    }
  }

  /** The email stored on the invitation is trimmed: trimming it again changes nothing. */
  lemma StoredEmailTrimmed(invitations: map<string, Invitation>, tripId: string, email: string,
                           permission: Permission, now: int)
    requires !IsBlank(email)
    ensures var r := Shared(invitations, tripId, Trim(email), permission, now)[InvitationKey(tripId, Trim(email))];
      r.email == Trim(email) && Trim(r.email) == r.email && r.email != [] && r.status == Pending
  {
    TrimIdempotent(email);
  }
}
