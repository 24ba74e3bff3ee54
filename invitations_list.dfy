/**
 * The pending-invitations card (src/components/PendingInvitations.tsx):
 * the list of invitations addressed to the signed-in user, from which one
 * can be accepted (through the store) or declined (locally).
 */
module InvitationsList {
  import opened Options
  import opened Arrays
  import opened TripStore

  /** One row of the card: the invitation document id and what it grants. */
  datatype PendingInvitation = PendingInvitation(
    id: string,
    tripId: string,
    permission: Permission,
    invitedAt: int,
    tripTitle: Option<string>)

  /** `prev.filter(inv => inv.id !== invitationId)`. */
  function Without(list: seq<PendingInvitation>, invitationId: string): seq<PendingInvitation> {
    Filter(list, (inv: PendingInvitation) => inv.id != invitationId)
  }

  /**
   * Removing an id drops exactly the rows with that id, keeps every other
   * row as often as it was there, and changes nothing when no row has it.
   */
  lemma WithoutSpec(list: seq<PendingInvitation>, invitationId: string)
    ensures forall inv :: inv in Without(list, invitationId) <==> inv in list && inv.id != invitationId
    ensures forall inv: PendingInvitation :: inv.id != invitationId ==>
      multiset(Without(list, invitationId))[inv] == multiset(list)[inv]
    ensures (forall inv :: inv in list ==> inv.id != invitationId) ==> Without(list, invitationId) == list
  {
    var p := (inv: PendingInvitation) => inv.id != invitationId;
    forall inv: PendingInvitation | inv.id != invitationId
      ensures multiset(Without(list, invitationId))[inv] == multiset(list)[inv]
    {
      FilterCount(list, p, inv);
    }
    if forall inv :: inv in list ==> inv.id != invitationId {
      FilterAll(list, p);
    }
  }

  /** Removing rows by id keeps the order of the rest: it distributes over concatenation. */
  lemma WithoutAppend(a: seq<PendingInvitation>, b: seq<PendingInvitation>, invitationId: string)
    ensures Without(a + b, invitationId) == Without(a, invitationId) + Without(b, invitationId)
  {
    FilterAppend(a, b, (inv: PendingInvitation) => inv.id != invitationId);
  }

  /** Removing the same id twice is removing it once. */
  lemma WithoutTwice(list: seq<PendingInvitation>, invitationId: string)
    ensures Without(Without(list, invitationId), invitationId) == Without(list, invitationId)
  {
    WithoutSpec(list, invitationId);
    WithoutSpec(Without(list, invitationId), invitationId);
  }

  class PendingInvitationsCard {
    var invitations: seq<PendingInvitation>
    var loading: bool
    var accepting: Option<string>

    constructor ()
      ensures invitations == [] && loading && accepting == None
    {
      invitations := [];
      loading := true;
      accepting := None;
    }

    /** `loadInvitations`; `fetched` is what `getPendingInvitations` returned, None when it threw. */
    method LoadInvitations(email: Option<string>, fetched: Option<seq<PendingInvitation>>)
      modifies this
      ensures email.None? || email.value == "" ==>
        invitations == old(invitations) && loading == old(loading) && accepting == old(accepting)
      ensures email.Some? && email.value != "" ==>
        !loading && accepting == old(accepting)
        && invitations == (if fetched.Some? then fetched.value else old(invitations))
    {
      if email.None? || email.value == "" {
        return;
      }
      loading := true;
      if fetched.Some? {
        invitations := fetched.value;
      }
      loading := false;
    }

    /**
     * `handleAcceptInvitation`. Without a user id nothing happens.
     * Otherwise the store accepts the invitation (`tripWriteOk` and
     * `inviteWriteOk` are the outcomes of its two writes); on success the
     * row for it leaves the list, on failure the list stays as it was; the
     * id being accepted is shown only while the call runs.
     */
    method HandleAcceptInvitation(user: Option<string>, invitationId: string, store: Store, now: int,
                                  tripWriteOk: bool, inviteWriteOk: bool)
      returns (ok: bool)
      requires store.Valid()
      modifies this, store
      ensures store.Valid()
      ensures user.None? || user.value == "" ==>
        !ok && invitations == old(invitations) && accepting == old(accepting) && loading == old(loading)
        && store.trips == old(store.trips) && store.invitations == old(store.invitations)
      ensures user.Some? && user.value != "" ==>
        && ok == (CanAccept(old(store.trips), old(store.invitations), invitationId) && tripWriteOk && inviteWriteOk)
        && invitations == (if ok then Without(old(invitations), invitationId) else old(invitations))
        && accepting == None && loading == old(loading)
      ensures ok ==> var inv := old(store.invitations)[invitationId];
        store.invitations == old(store.invitations)[invitationId := MarkAccepted(inv, user.value, now)]
      ensures !ok ==> store.invitations == old(store.invitations)
      ensures var granted := user.Some? && user.value != "" && tripWriteOk
                             && CanAccept(old(store.trips), old(store.invitations), invitationId);
        && (granted ==> var inv := old(store.invitations)[invitationId];
              store.trips == old(store.trips)[inv.tripId := Grant(old(store.trips)[inv.tripId], inv.permission, user.value)])
        && (!granted ==> store.trips == old(store.trips))
    {
      if user.None? || user.value == "" {
        return false;
      }
      accepting := Some(invitationId);
      ok := store.AcceptInvitation(invitationId, user.value, now, tripWriteOk, inviteWriteOk);
      if ok {
        invitations := Without(invitations, invitationId);
      }
      accepting := None;
    }

    /** `handleDeclineInvitation`: the row leaves the list; the store is not told. */
    method HandleDeclineInvitation(invitationId: string)
      modifies this
      ensures invitations == Without(old(invitations), invitationId)
      ensures accepting == old(accepting) && loading == old(loading)
    {
      invitations := Without(invitations, invitationId);
    }
  }
}
