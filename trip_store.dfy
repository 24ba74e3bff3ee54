/**
 * The trip and invitation documents of the document store (src/lib/firestore.ts):
 * the three-level access check, the sharing transitions over the
 * invitation table and the membership lists, trip creation and bulk
 * re-ownership, and the merge of the three membership queries that lists a
 * user's trips.
 *
 * The store itself is a class holding two maps, `trips` (document id to
 * trip) and `invitations` (document id to invitation). `arrayUnion` is
 * set-insert (AddMember) and `arrayRemove` is set-delete (RemoveMember).
 */
module TripStore {
  import opened Options
  import Arrays

  datatype Permission = Edit | View

  /** The `accessLevel` argument of `hasTripAccess`. */
  datatype AccessLevel = ViewAccess | EditAccess | OwnerAccess

  datatype DateBlock = DateBlock(id: string, date: int, activities: seq<string>)

  datatype Location = Location(id: string, name: string, dateBlocks: seq<DateBlock>)

  /** A trip document. Dates are day numbers, timestamps are integers. */
  datatype Trip = Trip(
    id: string,
    ownerId: string,
    editors: seq<string>,
    viewers: seq<string>,
    title: string,
    startDate: int,
    endDate: int,
    locations: seq<string>,
    imageUrl: string,
    imageHint: string,
    itinerary: seq<Location>,
    createdAt: Option<int>,
    updatedAt: Option<int>)

  /** The argument of `createTrip`: a trip without id and timestamps, whose lists may be absent. */
  datatype TripDraft = TripDraft(
    ownerId: string,
    editors: Option<seq<string>>,
    viewers: Option<seq<string>>,
    title: string,
    startDate: int,
    endDate: int,
    locations: seq<string>,
    imageUrl: string,
    imageHint: string,
    itinerary: seq<Location>)

  datatype InviteStatus = Pending | Accepted

  datatype Invitation = Invitation(
    tripId: string,
    email: string,
    permission: Permission,
    invitedAt: int,
    status: InviteStatus,
    acceptedAt: Option<int>,
    acceptedBy: Option<string>)

  // ---------------------------------------------------------------------
  // Access control

  function HasTripAccess(trip: Trip, userId: string, level: AccessLevel): bool {
    match level
    case OwnerAccess => trip.ownerId == userId
    case EditAccess => trip.ownerId == userId || userId in trip.editors
    case ViewAccess => trip.ownerId == userId || userId in trip.editors || userId in trip.viewers
  }

  /** The strongest role a user holds on a trip, an independent reading of the three lists. */
  datatype Role = OwnerRole | EditorRole | ViewerRole | NoRole

  function RoleOf(trip: Trip, userId: string): Role {
    if trip.ownerId == userId then OwnerRole
    else if userId in trip.editors then EditorRole
    else if userId in trip.viewers then ViewerRole
    else NoRole
  }

  function RoleRank(r: Role): nat {
    match r
    case OwnerRole => 3
    case EditorRole => 2
    case ViewerRole => 1
    case NoRole => 0
  }

  function LevelRank(level: AccessLevel): nat {
    match level
    case OwnerAccess => 3
    case EditAccess => 2
    case ViewAccess => 1
  }

  /** A level is granted exactly when the user's strongest role reaches it. */
  lemma AccessByRole(trip: Trip, userId: string, level: AccessLevel)
    ensures HasTripAccess(trip, userId, level) <==> RoleRank(RoleOf(trip, userId)) >= LevelRank(level)
  {
  }

  /** The three levels are nested: owner access gives edit access, edit access gives view access. */
  lemma AccessMonotone(trip: Trip, userId: string)
    ensures HasTripAccess(trip, userId, OwnerAccess) <==> trip.ownerId == userId
    ensures HasTripAccess(trip, userId, OwnerAccess) ==> HasTripAccess(trip, userId, EditAccess)
    ensures HasTripAccess(trip, userId, EditAccess) ==> HasTripAccess(trip, userId, ViewAccess)
    ensures HasTripAccess(trip, userId, ViewAccess)
        <==> trip.ownerId == userId || userId in trip.editors || userId in trip.viewers
  {
  }

  // ---------------------------------------------------------------------
  // Membership lists

  predicate Distinct<T(==)>(s: seq<T>) {
    forall i, j :: 0 <= i < j < |s| ==> s[i] != s[j]
  }

  /** `arrayUnion(u)`: appends `u` unless it is already there. */
  function AddMember(xs: seq<string>, u: string): (r: seq<string>)
    ensures forall v :: v in r <==> v in xs || v == u
    ensures u in xs ==> r == xs
    ensures |xs| <= |r| <= |xs| + 1 && r[..|xs|] == xs
    ensures Distinct(xs) ==> Distinct(r)
  {
    if u in xs then xs else xs + [u]
  }

  /** `arrayRemove(u)`: deletes every occurrence of `u`, keeping the others in order. */
  function RemoveMember(xs: seq<string>, u: string): (r: seq<string>)
    ensures forall v :: v in r <==> v in xs && v != u
    ensures forall v :: v != u ==> multiset(r)[v] == multiset(xs)[v]
    ensures u !in xs ==> r == xs
  {
    if xs == [] then []
    else
      assert xs == [xs[0]] + xs[1..];
      (if xs[0] == u then [] else [xs[0]]) + RemoveMember(xs[1..], u)
  }

  /** Deleting never lengthens a list, and a list without repeats stays without repeats. */
  lemma {:induction false} RemoveKeepsDistinct(xs: seq<string>, u: string)
    ensures |RemoveMember(xs, u)| <= |xs|
    ensures Distinct(xs) ==> Distinct(RemoveMember(xs, u))
  {
    if xs != [] {
      RemoveKeepsDistinct(xs[1..], u);
      var pre := if xs[0] == u then [] else [xs[0]];
      var rest := RemoveMember(xs[1..], u);
      if Distinct(xs) {
        assert xs[0] !in xs[1..] by {
          forall k | 0 <= k < |xs[1..]| ensures xs[1..][k] != xs[0] {
            assert xs[1..][k] == xs[k + 1];
          }
        }
        assert Distinct(xs[1..]) by {
          forall i, j | 0 <= i < j < |xs[1..]| ensures xs[1..][i] != xs[1..][j] {
            assert xs[1..][i] == xs[i + 1] && xs[1..][j] == xs[j + 1];
          }
        }
        DistinctConcat(pre, rest);
      }
    }
  }

  lemma DistinctConcat(a: seq<string>, b: seq<string>)
    requires Distinct(a) && Distinct(b)
    requires forall x :: x in a ==> x !in b
    ensures Distinct(a + b)
  {
    forall i, j | 0 <= i < j < |a + b| ensures (a + b)[i] != (a + b)[j] {
      if i < |a| && j >= |a| {
        assert (a + b)[i] in a && (a + b)[j] == b[j - |a|];
      }
    }
  }

  /** Deleting a member that was just added restores a list that lacked it. */
  lemma RemoveAfterAdd(xs: seq<string>, u: string)
    requires u !in xs
    ensures RemoveMember(AddMember(xs, u), u) == xs
  {
    RemoveAppend(xs, [u], u);
  }

  lemma {:induction false} RemoveAppend(xs: seq<string>, ys: seq<string>, u: string)
    ensures RemoveMember(xs + ys, u) == RemoveMember(xs, u) + RemoveMember(ys, u)
  {
    if xs != [] {
      assert (xs + ys)[1..] == xs[1..] + ys;
      RemoveAppend(xs[1..], ys, u);
    } else {
      assert xs + ys == ys;
    }
  }

  /** `acceptInvitation`'s update of the trip: the user joins `editors` for Edit, `viewers` otherwise. */
  function Grant(trip: Trip, permission: Permission, userId: string): Trip {
    if permission == Edit then trip.(editors := AddMember(trip.editors, userId))
    else trip.(viewers := AddMember(trip.viewers, userId))
  }

  /** `removeTripAccess`'s update of the trip: the user leaves exactly one list. */
  function Revoke(trip: Trip, permission: Permission, userId: string): Trip {
    if permission == Edit then trip.(editors := RemoveMember(trip.editors, userId))
    else trip.(viewers := RemoveMember(trip.viewers, userId))
  }

  lemma GrantEffect(trip: Trip, permission: Permission, userId: string)
    ensures var g := Grant(trip, permission, userId);
      && g.ownerId == trip.ownerId && g.id == trip.id
      && (permission == Edit ==> userId in g.editors && g.viewers == trip.viewers
                                 && HasTripAccess(g, userId, EditAccess))
      && (permission == View ==> userId in g.viewers && g.editors == trip.editors
                                 && HasTripAccess(g, userId, ViewAccess))
      && g == trip.(editors := g.editors, viewers := g.viewers)
  {
  }

  lemma RevokeEffect(trip: Trip, permission: Permission, userId: string)
    ensures var r := Revoke(trip, permission, userId);
      && r.ownerId == trip.ownerId && r.id == trip.id
      && (permission == Edit ==> userId !in r.editors && r.viewers == trip.viewers)
      && (permission == View ==> userId !in r.viewers && r.editors == trip.editors)
      && r == trip.(editors := r.editors, viewers := r.viewers)
  {
  }

  /** Leaving right after joining through a fresh list entry restores the trip. */
  lemma RevokeAfterGrant(trip: Trip, permission: Permission, userId: string)
    requires permission == Edit ==> userId !in trip.editors
    requires permission == View ==> userId !in trip.viewers
    ensures Revoke(Grant(trip, permission, userId), permission, userId) == trip
  {
    if permission == Edit {
      RemoveAfterAdd(trip.editors, userId);
    } else {
      RemoveAfterAdd(trip.viewers, userId);
    }
  }

  // ---------------------------------------------------------------------
  // Invitations

  /** The invitation document id `${tripId}_${email}`. */
  function InvitationKey(tripId: string, email: string): string {
    tripId + "_" + email
  }

  /**
   * The key names one (trip, email) pair as long as trip ids carry no
   * underscore, which holds for the store's generated ids.
   */
  lemma InvitationKeyInjective(t1: string, e1: string, t2: string, e2: string)
    requires '_' !in t1 && '_' !in t2
    requires InvitationKey(t1, e1) == InvitationKey(t2, e2)
    ensures t1 == t2 && e1 == e2
  {
    var k := InvitationKey(t1, e1);
    assert k[|t1|] == '_';
    assert k[|t2|] == '_';
    assert t1 == k[..|t1|] && t2 == k[..|t2|];
    assert e1 == k[|t1| + 1..] && e2 == k[|t2| + 1..];
  }

  function NewInvitation(tripId: string, email: string, permission: Permission, now: int): Invitation {
    Invitation(tripId, email, permission, now, Pending, None, None)
  }

  /** `shareTrip`'s `setDoc`: the whole invitation document is (re)written, pending. */
  function Shared(invitations: map<string, Invitation>, tripId: string, email: string,
                  permission: Permission, now: int): (r: map<string, Invitation>)
    ensures r.Keys == invitations.Keys + {InvitationKey(tripId, email)}
    ensures r[InvitationKey(tripId, email)].status == Pending
    ensures r[InvitationKey(tripId, email)].acceptedBy == None
    ensures forall k :: k in invitations && k != InvitationKey(tripId, email) ==> r[k] == invitations[k]
  {
    invitations[InvitationKey(tripId, email) := NewInvitation(tripId, email, permission, now)]
  }

  /**
   * Sharing again with the same address overwrites the single invitation:
   * only the last permission and time survive, and the table does not grow.
   */
  lemma ShareAgainOverwrites(invitations: map<string, Invitation>, tripId: string, email: string,
                             p1: Permission, n1: int, p2: Permission, n2: int)
    ensures Shared(Shared(invitations, tripId, email, p1, n1), tripId, email, p2, n2)
         == Shared(invitations, tripId, email, p2, n2)
    ensures |Shared(Shared(invitations, tripId, email, p1, n1), tripId, email, p2, n2).Keys|
         == |Shared(invitations, tripId, email, p1, n1).Keys|
  {
    var k := InvitationKey(tripId, email);
    var once := Shared(invitations, tripId, email, p1, n1);
    assert once.Keys + {k} == once.Keys;
  }

  function MarkAccepted(invitation: Invitation, userId: string, now: int): Invitation {
    invitation.(status := Accepted, acceptedAt := Some(now), acceptedBy := Some(userId))
  }

  /** Whether `acceptInvitation` gets through: the invitation and its trip both exist. */
  predicate CanAccept(trips: map<string, Trip>, invitations: map<string, Invitation>, invitationId: string) {
    invitationId in invitations && invitations[invitationId].tripId in trips
  }

  /** Re-sharing an accepted invitation sends it back to pending with no acceptor. */
  lemma ShareResetsAccepted(invitations: map<string, Invitation>, tripId: string, email: string,
                            permission: Permission, now: int, userId: string, later: int)
    requires InvitationKey(tripId, email) in invitations
    ensures var k := InvitationKey(tripId, email);
      var accepted := invitations[k := MarkAccepted(invitations[k], userId, later)];
      Shared(accepted, tripId, email, permission, now)[k] == NewInvitation(tripId, email, permission, now)
  {
  }

  // ---------------------------------------------------------------------
  // Creation and bulk re-ownership

  /** The document `createTrip` adds: lists default to empty, both timestamps are the server time. */
  function NewTripRecord(draft: TripDraft, id: string, now: int): (t: Trip)
    ensures t.id == id && t.ownerId == draft.ownerId && t.title == draft.title
    ensures t.editors == (if draft.editors.Some? then draft.editors.value else [])
    ensures t.viewers == (if draft.viewers.Some? then draft.viewers.value else [])
    ensures t.createdAt == Some(now) && t.updatedAt == Some(now)
  {
    Trip(id, draft.ownerId, draft.editors.GetOr([]), draft.viewers.GetOr([]), draft.title,
         draft.startDate, draft.endDate, draft.locations, draft.imageUrl, draft.imageHint,
         draft.itinerary, Some(now), Some(now))
  }

  /**
   * The record `updateTrip(trip.id, { ...trip, ownerId })` leaves behind over
   * `stored`: `updateDoc` writes only the keys the copy carries, so a copy
   * without a creation time keeps the stored one.
   */
  function Reowned(stored: Trip, trip: Trip, userId: string, now: int): Trip {
    trip.(ownerId := userId, updatedAt := Some(now),
          createdAt := if trip.createdAt.Some? then trip.createdAt else stored.createdAt)
  }

  /** `updateAllTrips`: every listed trip that exists is rewritten with the new owner, in list order. */
  function ReassignAll(trips: map<string, Trip>, list: seq<Trip>, userId: string, now: int): map<string, Trip>
    decreases |list|
  {
    if list == [] then trips
    else
      var prev := ReassignAll(trips, list[..|list| - 1], userId, now);
      var t := list[|list| - 1];
      if t.id in prev then prev[t.id := Reowned(prev[t.id], t, userId, now)] else prev
  }

  /** The listed trips whose `updateDoc` call returned, in list order. */
  function Written(list: seq<Trip>, writeOks: seq<bool>): (r: seq<Trip>)
    requires |writeOks| == |list|
  {
    if list == [] then []
    else
      var init := Written(list[..|list| - 1], writeOks[..|list| - 1]);
      if writeOks[|list| - 1] then init + [list[|list| - 1]] else init
  }

  /**
   * The written trips are listed ones, no more of them than were listed;
   * when every call returns they are the whole list, and when none does
   * there are none.
   */
  lemma {:induction false} WrittenFacts(list: seq<Trip>, writeOks: seq<bool>)
    requires |writeOks| == |list|
    ensures |Written(list, writeOks)| <= |list|
    ensures forall t :: t in Written(list, writeOks) ==> t in list
    ensures (forall i :: 0 <= i < |list| ==> writeOks[i]) ==> Written(list, writeOks) == list
    ensures (forall i :: 0 <= i < |list| ==> !writeOks[i]) ==> Written(list, writeOks) == []
  {
    if list != [] {
      var n := |list| - 1;
      var init, oks := list[..n], writeOks[..n];
      WrittenFacts(init, oks);
      assert list == init + [list[n]];
      forall t | t in Written(init, oks) ensures t in list {
        assert t in init;
      }
      if forall i :: 0 <= i < |list| ==> writeOks[i] {
        assert forall i :: 0 <= i < n ==> oks[i];
      }
      if forall i :: 0 <= i < |list| ==> !writeOks[i] {
        assert forall i :: 0 <= i < n ==> !oks[i];
      }
    }
  }

  /** One more call: its trip is written exactly when its call returned. */
  lemma WrittenStep(list: seq<Trip>, writeOks: seq<bool>, i: nat)
    requires |writeOks| == |list| && i < |list|
    ensures Written(list[..i + 1], writeOks[..i + 1])
      == Written(list[..i], writeOks[..i]) + (if writeOks[i] then [list[i]] else [])
  {
    assert list[..i + 1][..i] == list[..i];
    assert writeOks[..i + 1][..i] == writeOks[..i];
  }

  /** Every listed trip has a document and its call returned. */
  predicate AllWritten(keys: set<string>, list: seq<Trip>, writeOks: seq<bool>)
    requires |writeOks| == |list|
  {
    forall i :: 0 <= i < |list| ==> list[i].id in keys && writeOks[i]
  }

  lemma AllWrittenStep(keys: set<string>, list: seq<Trip>, writeOks: seq<bool>, i: nat)
    requires |writeOks| == |list| && i < |list|
    ensures AllWritten(keys, list[..i + 1], writeOks[..i + 1])
      == (AllWritten(keys, list[..i], writeOks[..i]) && list[i].id in keys && writeOks[i])
  {
    var ts, oks := list[..i + 1], writeOks[..i + 1];
    if AllWritten(keys, list[..i], writeOks[..i]) && list[i].id in keys && writeOks[i] {
      forall j | 0 <= j < i + 1 ensures ts[j].id in keys && oks[j] {
        if j < i {
          assert list[..i][j] == list[j] && writeOks[..i][j] == writeOks[j];
        }
      }
    }
    if AllWritten(keys, ts, oks) {
      assert ts[i] == list[i] && oks[i] == writeOks[i];
      forall j | 0 <= j < i ensures list[..i][j].id in keys && writeOks[..i][j] {
        assert ts[j] == list[j] && oks[j] == writeOks[j];
      }
    }
  }

  /** One more written trip re-owns its document when that document exists. */
  lemma ReassignStep(trips: map<string, Trip>, list: seq<Trip>, t: Trip, userId: string, now: int)
    ensures var prev := ReassignAll(trips, list, userId, now);
      ReassignAll(trips, list + [t], userId, now)
      == if t.id in prev then prev[t.id := Reowned(prev[t.id], t, userId, now)] else prev
  {
    assert (list + [t])[..|list|] == list;
  }

  /**
   * Bulk re-ownership keeps the set of documents, makes `userId` the owner
   * of every listed trip that exists, and leaves the unlisted trips alone.
   */
  lemma {:induction false} ReassignAllEffect(trips: map<string, Trip>, list: seq<Trip>, userId: string, now: int)
    ensures ReassignAll(trips, list, userId, now).Keys == trips.Keys
    ensures forall t :: t in list && t.id in trips ==>
      ReassignAll(trips, list, userId, now)[t.id].ownerId == userId
      && HasTripAccess(ReassignAll(trips, list, userId, now)[t.id], userId, OwnerAccess)
    ensures forall id :: id in trips && (forall t :: t in list ==> t.id != id) ==>
      ReassignAll(trips, list, userId, now)[id] == trips[id]
    ensures forall id :: id in trips && HasId(list, id) ==>
      var r := ReassignAll(trips, list, userId, now)[id]; var t := LastWithId(list, id);
      && r.(createdAt := t.createdAt) == t.(ownerId := userId, updatedAt := Some(now))
      && (t.createdAt.Some? ==> r.createdAt == t.createdAt)
      && ((forall u :: u in list && u.id == id ==> u.createdAt.None?) ==> r.createdAt == trips[id].createdAt)
  {
    ReassignKeys(trips, list, userId, now);
    ReassignOwners(trips, list, userId, now);
    ReassignUntouched(trips, list, userId, now);
    forall id | id in trips && HasId(list, id)
      ensures var r := ReassignAll(trips, list, userId, now)[id]; var t := LastWithId(list, id);
        && r.(createdAt := t.createdAt) == t.(ownerId := userId, updatedAt := Some(now))
        && (t.createdAt.Some? ==> r.createdAt == t.createdAt)
        && ((forall u :: u in list && u.id == id ==> u.createdAt.None?) ==> r.createdAt == trips[id].createdAt)
    {
      ReassignedRecord(trips, list, userId, now, id);
    }
  }

  /**
   * The record a re-owned id ends with: the last listed copy with that id,
   * owned by `userId` and stamped `now`, whose creation time is the copy's
   * when it carries one and the stored one when no copy does.
   */
  lemma {:induction false} ReassignedRecord(trips: map<string, Trip>, list: seq<Trip>, userId: string, now: int, id: string)
    requires id in trips && HasId(list, id)
    ensures id in ReassignAll(trips, list, userId, now)
    ensures var r := ReassignAll(trips, list, userId, now)[id]; var t := LastWithId(list, id);
      && r.(createdAt := t.createdAt) == t.(ownerId := userId, updatedAt := Some(now))
      && (t.createdAt.Some? ==> r.createdAt == t.createdAt)
      && ((forall u :: u in list && u.id == id ==> u.createdAt.None?) ==> r.createdAt == trips[id].createdAt)
  {
    var init, last := list[..|list| - 1], list[|list| - 1];
    assert list == init + [last];
    ReassignKeys(trips, init, userId, now);
    if HasId(init, id) {
      ReassignedRecord(trips, init, userId, now, id);
    } else {
      ReassignUntouched(trips, init, userId, now);
    }
    if last.id != id {
      var u :| u in list && u.id == id;
      assert u in init;
    }
  }

  lemma {:induction false} ReassignKeys(trips: map<string, Trip>, list: seq<Trip>, userId: string, now: int)
    ensures ReassignAll(trips, list, userId, now).Keys == trips.Keys
    ensures forall id :: id in trips ==> ReassignAll(trips, list, userId, now)[id].id == id
                                         || ReassignAll(trips, list, userId, now)[id] == trips[id]
  {
    if list != [] {
      ReassignKeys(trips, list[..|list| - 1], userId, now);
    }
  }

  lemma {:induction false} ReassignOwners(trips: map<string, Trip>, list: seq<Trip>, userId: string, now: int)
    ensures forall t :: t in list && t.id in trips ==>
      t.id in ReassignAll(trips, list, userId, now) && ReassignAll(trips, list, userId, now)[t.id].ownerId == userId
  {
    if list != [] {
      var init, last := list[..|list| - 1], list[|list| - 1];
      ReassignOwners(trips, init, userId, now);
      ReassignKeys(trips, init, userId, now);
      assert list == init + [last];
    }
  }

  lemma {:induction false} ReassignUntouched(trips: map<string, Trip>, list: seq<Trip>, userId: string, now: int)
    ensures forall id :: id in trips && (forall t :: t in list ==> t.id != id) ==>
      id in ReassignAll(trips, list, userId, now) && ReassignAll(trips, list, userId, now)[id] == trips[id]
  {
    if list != [] {
      var init := list[..|list| - 1];
      ReassignUntouched(trips, init, userId, now);
      assert forall t :: t in init ==> t in list;
    }
  }

  // ---------------------------------------------------------------------
  // getUserTrips: merging the three query results

  /** A JavaScript `Map` from trip id to trip: `keys` is the insertion order. */
  datatype TripMap = TripMap(keys: seq<string>, vals: map<string, Trip>)

  ghost predicate WellFormed(m: TripMap) {
    && Distinct(m.keys)
    && (forall k :: k in m.keys <==> k in m.vals)
    && (forall k :: k in m.vals ==> m.vals[k].id == k)
  }

  const EmptyTripMap := TripMap([], map[])

  /** `allTrips.set(t.id, t)`: a new key goes to the end, an existing key keeps its place. */
  function SetEntry(m: TripMap, t: Trip): TripMap {
    if t.id in m.vals then TripMap(m.keys, m.vals[t.id := t])
    else TripMap(m.keys + [t.id], m.vals[t.id := t])
  }

  /**
   * One `forEach` pass over a query's documents: with `overwrite` every
   * document is set (the owned pass), without it only ids not yet present
   * (the `!allTrips.has(doc.id)` passes).
   */
  function AddAll(m: TripMap, docs: seq<Trip>, overwrite: bool): TripMap
    decreases |docs|
  {
    if docs == [] then m
    else
      var prev := AddAll(m, docs[..|docs| - 1], overwrite);
      var t := docs[|docs| - 1];
      if overwrite || t.id !in prev.vals then SetEntry(prev, t) else prev
  }

  lemma AddAllStep(m: TripMap, docs: seq<Trip>, i: nat, overwrite: bool)
    requires i < |docs|
    ensures var prev := AddAll(m, docs[..i], overwrite);
      AddAll(m, docs[..i + 1], overwrite)
      == if overwrite || docs[i].id !in prev.vals then SetEntry(prev, docs[i]) else prev
  {
    assert docs[..i + 1][..i] == docs[..i];
  }

  /** `Array.from(allTrips.values())`. */
  function Values(m: TripMap): seq<Trip>
    requires forall k :: k in m.keys ==> k in m.vals
  {
    seq(|m.keys|, i requires 0 <= i < |m.keys| => m.vals[m.keys[i]])
  }

  function Merged(owned: seq<Trip>, edited: seq<Trip>, viewed: seq<Trip>): seq<Trip> {
    var m := AddAll(AddAll(AddAll(EmptyTripMap, owned, true), edited, false), viewed, false);
    AddAllWellFormed(EmptyTripMap, owned, true);
    AddAllWellFormed(AddAll(EmptyTripMap, owned, true), edited, false);
    AddAllWellFormed(AddAll(AddAll(EmptyTripMap, owned, true), edited, false), viewed, false);
    Values(m)
  }

  lemma {:induction false} AddAllWellFormed(m: TripMap, docs: seq<Trip>, overwrite: bool)
    requires WellFormed(m)
    ensures WellFormed(AddAll(m, docs, overwrite))
  {
    if docs != [] {
      AddAllWellFormed(m, docs[..|docs| - 1], overwrite);
    }
  }

  function IdsOf(s: seq<Trip>): set<string> {
    set t | t in s :: t.id
  }

  predicate HasId(docs: seq<Trip>, id: string) {
    exists t :: t in docs && t.id == id
  }

  /** The last document with the given id: the one the owned pass leaves in the map. */
  function LastWithId(docs: seq<Trip>, id: string): (r: Trip)
    requires HasId(docs, id)
    ensures r in docs && r.id == id
    ensures exists i :: 0 <= i < |docs| && docs[i] == r && forall j :: i < j < |docs| ==> docs[j].id != id
    decreases |docs|
  {
    var last := docs[|docs| - 1];
    if last.id == id then last
    else
      assert HasId(docs[..|docs| - 1], id) by {
        var t :| t in docs && t.id == id;
        assert t in docs[..|docs| - 1];
      }
      assert forall k :: 0 <= k < |docs| - 1 ==> docs[..|docs| - 1][k] == docs[k];
      LastWithId(docs[..|docs| - 1], id)
  }

  /** The first document with the given id: the one a keep-first pass leaves in the map. */
  function FirstWithId(docs: seq<Trip>, id: string): (r: Trip)
    requires HasId(docs, id)
    ensures r in docs && r.id == id
    ensures exists i :: 0 <= i < |docs| && docs[i] == r && forall j :: 0 <= j < i ==> docs[j].id != id
    decreases |docs|
  {
    var init := docs[..|docs| - 1];
    if HasId(init, id) then
      assert forall k :: 0 <= k < |init| ==> init[k] == docs[k];
      FirstWithId(init, id)
    else
      assert forall j :: 0 <= j < |docs| - 1 ==> docs[j] in init;
      docs[|docs| - 1]
  }

  /** Which record `getUserTrips` keeps for an id: owned beats edited beats viewed. */
  function Kept(owned: seq<Trip>, edited: seq<Trip>, viewed: seq<Trip>, id: string): Option<Trip> {
    if HasId(owned, id) then Some(LastWithId(owned, id))
    else if HasId(edited, id) then Some(FirstWithId(edited, id))
    else if HasId(viewed, id) then Some(FirstWithId(viewed, id))
    else None
  }

  lemma {:induction false} OverwritePass(m: TripMap, docs: seq<Trip>, id: string)
    ensures id in AddAll(m, docs, true).vals <==> id in m.vals || HasId(docs, id)
    ensures id in AddAll(m, docs, true).vals ==>
      AddAll(m, docs, true).vals[id] == if HasId(docs, id) then LastWithId(docs, id) else m.vals[id]
    decreases |docs|
  {
    if docs != [] {
      var init := docs[..|docs| - 1];
      OverwritePass(m, init, id);
      assert forall t :: t in docs <==> t in init || t == docs[|docs| - 1];
    }
  }

  lemma {:induction false} KeepFirstPass(m: TripMap, docs: seq<Trip>, id: string)
    ensures id in AddAll(m, docs, false).vals <==> id in m.vals || HasId(docs, id)
    ensures id in AddAll(m, docs, false).vals ==>
      AddAll(m, docs, false).vals[id] == if id in m.vals then m.vals[id] else FirstWithId(docs, id)
    decreases |docs|
  {
    if docs != [] {
      var init := docs[..|docs| - 1];
      KeepFirstPass(m, init, id);
      assert forall t :: t in docs <==> t in init || t == docs[|docs| - 1];
    }
  }

  /** The merged map holds, for every id any query returned, the record `Kept` names. */
  lemma MergedMap(owned: seq<Trip>, edited: seq<Trip>, viewed: seq<Trip>, id: string)
    ensures var m := AddAll(AddAll(AddAll(EmptyTripMap, owned, true), edited, false), viewed, false);
      (id in m.vals <==> Kept(owned, edited, viewed, id).Some?)
      && (id in m.vals ==> m.vals[id] == Kept(owned, edited, viewed, id).value)
  {
    var m1 := AddAll(EmptyTripMap, owned, true);
    var m2 := AddAll(m1, edited, false);
    OverwritePass(EmptyTripMap, owned, id);
    KeepFirstPass(m1, edited, id);
    KeepFirstPass(m2, viewed, id);
  }

  /**
   * The merged list: one entry per id any of the three queries returned, no
   * id twice, and for each id the record `Kept` picks (owned query first).
   */
  lemma MergedProperties(owned: seq<Trip>, edited: seq<Trip>, viewed: seq<Trip>)
    ensures var r := Merged(owned, edited, viewed);
      && (forall i, j :: 0 <= i < j < |r| ==> r[i].id != r[j].id)
      && IdsOf(r) == IdsOf(owned) + IdsOf(edited) + IdsOf(viewed)
      && (forall i :: 0 <= i < |r| ==> Kept(owned, edited, viewed, r[i].id) == Some(r[i]))
  {
    var m := AddAll(AddAll(AddAll(EmptyTripMap, owned, true), edited, false), viewed, false);
    var r := Merged(owned, edited, viewed);
    AddAllWellFormed(EmptyTripMap, owned, true);
    AddAllWellFormed(AddAll(EmptyTripMap, owned, true), edited, false);
    AddAllWellFormed(AddAll(AddAll(EmptyTripMap, owned, true), edited, false), viewed, false);
    assert r == Values(m);
    forall i | 0 <= i < |r| ensures Kept(owned, edited, viewed, r[i].id) == Some(r[i]) {
      MergedMap(owned, edited, viewed, m.keys[i]);
    }
    MergedIds(owned, edited, viewed);
  }

  /** The merged list holds exactly the ids the three queries returned. */
  lemma MergedIds(owned: seq<Trip>, edited: seq<Trip>, viewed: seq<Trip>)
    ensures IdsOf(Merged(owned, edited, viewed)) == IdsOf(owned) + IdsOf(edited) + IdsOf(viewed)
  {
    var m := AddAll(AddAll(AddAll(EmptyTripMap, owned, true), edited, false), viewed, false);
    var r := Merged(owned, edited, viewed);
    AddAllWellFormed(EmptyTripMap, owned, true);
    AddAllWellFormed(AddAll(EmptyTripMap, owned, true), edited, false);
    AddAllWellFormed(AddAll(AddAll(EmptyTripMap, owned, true), edited, false), viewed, false);
    assert r == Values(m);
    forall id | id in IdsOf(r) ensures id in IdsOf(owned) + IdsOf(edited) + IdsOf(viewed) {
      var t :| t in r && t.id == id;
      MergedMap(owned, edited, viewed, id);
    }
    forall id | id in IdsOf(owned) + IdsOf(edited) + IdsOf(viewed) ensures id in IdsOf(r) {
      MergedMap(owned, edited, viewed, id);
      var i :| 0 <= i < |m.keys| && m.keys[i] == id;
      assert r[i].id == id;
    }
  }

  /** `getUserTrips`'s comparator key: `createdAt`, or time 0 when it is missing. */
  function CreatedKey(t: Trip): real {
    (if t.createdAt.Some? then t.createdAt.value else 0) as real
  }

  /** `bTime - aTime > 0`: a trip goes behind one created later. */
  function NewestFirst(a: Trip, b: Trip): bool {
    CreatedKey(b) > CreatedKey(a)
  }

  // ---------------------------------------------------------------------
  // The store

  /** The records of `q` are stored documents, each under its own id. */
  ghost predicate StoredRecords(q: seq<Trip>, trips: map<string, Trip>) {
    forall t :: t in q ==> t.id in trips && trips[t.id] == t
  }

  class Store {
    var trips: map<string, Trip>
    var invitations: map<string, Invitation>

    /** Every trip document sits under its own id. */
    ghost predicate Valid()
      reads this
    {
      forall id :: id in trips ==> trips[id].id == id
    }

    constructor ()
      ensures Valid() && trips == map[] && invitations == map[]
    {
      trips := map[];
      invitations := map[];
    }

    /**
     * `shareTrip`: `writeOk` says whether `setDoc` returned rather than
     * threw; the catch turns a throw into a failure with nothing written.
     */
    method ShareTrip(tripId: string, email: string, permission: Permission, now: int, writeOk: bool)
      returns (ok: bool)
      modifies this
      ensures ok == writeOk
      ensures invitations == if ok then Shared(old(invitations), tripId, email, permission, now) else old(invitations)
      ensures trips == old(trips)
    {
      if !writeOk {
        return false;
      }
      invitations := invitations[InvitationKey(tripId, email) := NewInvitation(tripId, email, permission, now)];
      ok := true;
    }

    /**
     * `acceptInvitation`. The two `updateDoc` calls run one after the other:
     * `tripWriteOk` and `inviteWriteOk` say whether each returned rather
     * than threw (a missing trip document always throws). When the trip
     * write lands and the invitation write throws, the user keeps the grant,
     * the invitation stays as it was, and the call reports failure.
     */
    method AcceptInvitation(invitationId: string, userId: string, now: int, tripWriteOk: bool, inviteWriteOk: bool)
      returns (ok: bool)
      requires Valid()
      modifies this
      ensures Valid()
      ensures ok == (CanAccept(old(trips), old(invitations), invitationId) && tripWriteOk && inviteWriteOk)
      ensures CanAccept(old(trips), old(invitations), invitationId) && tripWriteOk ==>
        var inv := old(invitations)[invitationId];
        trips == old(trips)[inv.tripId := Grant(old(trips)[inv.tripId], inv.permission, userId)]
      ensures !(CanAccept(old(trips), old(invitations), invitationId) && tripWriteOk) ==> trips == old(trips)
      ensures invitations ==
        if ok then old(invitations)[invitationId := MarkAccepted(old(invitations)[invitationId], userId, now)]
        else old(invitations)
    {
      if invitationId !in invitations {
        return false;
      }
      var inv := invitations[invitationId];
      if inv.tripId !in trips || !tripWriteOk {
        // updateDoc on the trip threw; the catch reports failure
        return false;
      }
      var trip := trips[inv.tripId];
      if inv.permission == Edit {
        trips := trips[inv.tripId := trip.(editors := AddMember(trip.editors, userId))];
      } else {
        trips := trips[inv.tripId := trip.(viewers := AddMember(trip.viewers, userId))];
      }
      if !inviteWriteOk {
        // the trip already carries the grant; the invitation stays pending
        return false;
      }
      invitations := invitations[invitationId := MarkAccepted(inv, userId, now)];
      ok := true;
    }

    /**
     * `removeTripAccess`: `writeOk` says whether `updateDoc` returned
     * rather than threw (a missing trip document always throws).
     */
    method RemoveTripAccess(tripId: string, userId: string, permission: Permission, writeOk: bool) returns (ok: bool)
      requires Valid()
      modifies this
      ensures Valid()
      ensures ok == (tripId in old(trips) && writeOk)
      ensures ok ==> trips == old(trips)[tripId := Revoke(old(trips)[tripId], permission, userId)]
      ensures !ok ==> trips == old(trips)
      ensures invitations == old(invitations)
    {
      if tripId !in trips || !writeOk {
        return false;
      }
      var trip := trips[tripId];
      if permission == Edit {
        trips := trips[tripId := trip.(editors := RemoveMember(trip.editors, userId))];
      } else {
        trips := trips[tripId := trip.(viewers := RemoveMember(trip.viewers, userId))];
      }
      ok := true;
    }

    /** `createTrip`; the generated document id is an input, fresh by the store's guarantee. */
    method CreateTrip(draft: TripDraft, newId: string, now: int) returns (id: string)
      requires Valid() && newId !in trips
      modifies this
      ensures Valid()
      ensures id == newId
      ensures trips == old(trips)[newId := NewTripRecord(draft, newId, now)]
      ensures invitations == old(invitations)
    {
      var editors := if draft.editors.Some? then draft.editors.value else [];
      var viewers := if draft.viewers.Some? then draft.viewers.value else [];
      trips := trips[newId := Trip(newId, draft.ownerId, editors, viewers, draft.title,
                                   draft.startDate, draft.endDate, draft.locations, draft.imageUrl,
                                   draft.imageHint, draft.itinerary, Some(now), Some(now))];
      id := newId;
    }

    /** `deleteTrip`: deleting a missing document is not an error. */
    method DeleteTrip(tripId: string)
      requires Valid()
      modifies this
      ensures Valid()
      ensures trips == old(trips) - {tripId}
      ensures invitations == old(invitations)
    {
      trips := trips - {tripId};
    }

    /**
     * `updateAllTrips`: the updates run side by side, so every one whose
     * document exists and whose write returns (`writeOks[i]`) lands; the
     * call as a whole fails when any of them throws, for a missing id or
     * otherwise.
     */
    method UpdateAllTrips(userId: string, list: seq<Trip>, now: int, writeOks: seq<bool>) returns (ok: bool)
      requires Valid() && |writeOks| == |list|
      modifies this
      ensures Valid()
      ensures ok == forall i :: 0 <= i < |list| ==> list[i].id in old(trips) && writeOks[i]
      ensures trips == ReassignAll(old(trips), Written(list, writeOks), userId, now)
      ensures invitations == old(invitations)
    {
      ok := true;
      for i := 0 to |list|
        invariant trips == ReassignAll(old(trips), Written(list[..i], writeOks[..i]), userId, now)
        invariant trips.Keys == old(trips).Keys
        invariant Valid()
        invariant invitations == old(invitations)
        invariant ok == AllWritten(old(trips).Keys, list[..i], writeOks[..i])
      {
        ghost var written := Written(list[..i], writeOks[..i]);
        WrittenStep(list, writeOks, i);
        AllWrittenStep(old(trips).Keys, list, writeOks, i);
        var t := list[i];
        if writeOks[i] {
          ReassignStep(old(trips), written, t, userId, now);
          if t.id in trips {
            // updateDoc merges the copy's keys into the stored document
            trips := trips[t.id := Reowned(trips[t.id], t, userId, now)];
          } else {
            ok := false;
          }
        } else {
          assert written + [] == written;
          ok := false;
        }
      }
      assert list[..|list|] == list && writeOks[..|writeOks|] == writeOks;
    }

    /** One `where` query: every stored trip satisfying `matches`, once, in an order the store picks. */
    method QueryTrips(matches: Trip -> bool) returns (q: seq<Trip>)
      requires Valid()
      ensures StoredRecords(q, trips)
      ensures Distinct(q)
      ensures IdsOf(q) == Matching(trips, trips.Keys, matches)
    {
      q := [];
      var rest := trips.Keys;
      ghost var done: set<string> := {};
      while rest != {}
        invariant rest + done == trips.Keys && rest !! done
        invariant StoredRecords(q, trips)
        invariant Distinct(q)
        invariant IdsOf(q) == Matching(trips, done, matches)
        decreases rest
      {
        var id :| id in rest;
        if matches(trips[id]) {
          assert trips[id].id == id;
          assert id !in IdsOf(q);
          assert trips[id] !in q by {
            forall t | t in q ensures t != trips[id] {
              assert t.id in IdsOf(q);
            }
          }
          IdsOfAppend(q, trips[id]);
          q := q + [trips[id]];
        }
        rest := rest - {id};
        done := done + {id};
      }
    }

    /**
     * `getUserTrips`: the trips the user may view, each once, as stored,
     * newest first.
     */
    method GetUserTrips(userId: string) returns (r: seq<Trip>)
      requires Valid()
      ensures StoredRecords(r, trips)
      ensures forall i, j :: 0 <= i < j < |r| ==> r[i].id != r[j].id
      ensures IdsOf(r) == set id | id in trips && HasTripAccess(trips[id], userId, ViewAccess)
      ensures Arrays.SortedDesc(r, CreatedKey)
    {
      var owned := QueryTrips((t: Trip) => t.ownerId == userId);
      var edited := QueryTrips((t: Trip) => userId in t.editors);
      var viewed := QueryTrips((t: Trip) => userId in t.viewers);
      var merged := MergeTrips(owned, edited, viewed);
      r := Arrays.SortBy(merged, NewestFirst);
      UserTrips(trips, userId, owned, edited, viewed);
    }
  }

  /** The ids among `ids` whose stored trip satisfies `matches`. */
  ghost function Matching(trips: map<string, Trip>, ids: set<string>, matches: Trip -> bool): set<string>
    requires ids <= trips.Keys
  {
    set id | id in ids && matches(trips[id])
  }

  lemma IdsOfAppend(q: seq<Trip>, t: Trip)
    ensures IdsOf(q + [t]) == IdsOf(q) + {t.id}
  {
    assert forall x :: x in q + [t] <==> x in q || x == t;
  }

  /** What the three queries and the merge hand to the sort, and what the sort keeps. */
  lemma UserTrips(trips: map<string, Trip>, userId: string, owned: seq<Trip>, edited: seq<Trip>, viewed: seq<Trip>)
    requires StoredRecords(owned, trips) && StoredRecords(edited, trips) && StoredRecords(viewed, trips)
    requires IdsOf(owned) == Matching(trips, trips.Keys, (t: Trip) => t.ownerId == userId)
    requires IdsOf(edited) == Matching(trips, trips.Keys, (t: Trip) => userId in t.editors)
    requires IdsOf(viewed) == Matching(trips, trips.Keys, (t: Trip) => userId in t.viewers)
    ensures var r := Arrays.SortBy(Merged(owned, edited, viewed), NewestFirst);
      && StoredRecords(r, trips)
      && (forall i, j :: 0 <= i < j < |r| ==> r[i].id != r[j].id)
      && IdsOf(r) == (set id | id in trips && HasTripAccess(trips[id], userId, ViewAccess))
      && Arrays.SortedDesc(r, CreatedKey)
  {
    var merged := Merged(owned, edited, viewed);
    var r := Arrays.SortBy(merged, NewestFirst);
    MergedProperties(owned, edited, viewed);
    MergedStored(owned, edited, viewed, trips);
    Arrays.SortSorted(merged, NewestFirst, CreatedKey);
    SortKeepsRecords(merged, r, trips);
    ViewableIds(trips, userId, owned, edited, viewed);
  }

  /** The three membership queries together return exactly the trips the user may view. */
  lemma ViewableIds(trips: map<string, Trip>, userId: string, owned: seq<Trip>, edited: seq<Trip>, viewed: seq<Trip>)
    requires IdsOf(owned) == Matching(trips, trips.Keys, (t: Trip) => t.ownerId == userId)
    requires IdsOf(edited) == Matching(trips, trips.Keys, (t: Trip) => userId in t.editors)
    requires IdsOf(viewed) == Matching(trips, trips.Keys, (t: Trip) => userId in t.viewers)
    ensures IdsOf(owned) + IdsOf(edited) + IdsOf(viewed)
         == set id | id in trips && HasTripAccess(trips[id], userId, ViewAccess)
  {
    forall id | id in trips
      ensures id in IdsOf(owned) + IdsOf(edited) + IdsOf(viewed) <==> HasTripAccess(trips[id], userId, ViewAccess)
    {
      assert id in IdsOf(owned) <==> trips[id].ownerId == userId;
      assert id in IdsOf(edited) <==> userId in trips[id].editors;
      assert id in IdsOf(viewed) <==> userId in trips[id].viewers;
    }
  }

  lemma MergedStored(owned: seq<Trip>, edited: seq<Trip>, viewed: seq<Trip>, trips: map<string, Trip>)
    requires StoredRecords(owned, trips) && StoredRecords(edited, trips) && StoredRecords(viewed, trips)
    ensures StoredRecords(Merged(owned, edited, viewed), trips)
  {
    var merged := Merged(owned, edited, viewed);
    MergedProperties(owned, edited, viewed);
    forall t | t in merged ensures t.id in trips && trips[t.id] == t {
      var i :| 0 <= i < |merged| && merged[i] == t;
      assert Kept(owned, edited, viewed, t.id) == Some(t);
    }
  }

  /** Reordering stored records with distinct ids keeps them stored, distinct and with the same ids. */
  lemma SortKeepsRecords(s: seq<Trip>, r: seq<Trip>, trips: map<string, Trip>)
    requires multiset(r) == multiset(s)
    requires StoredRecords(s, trips)
    requires forall a, b :: 0 <= a < b < |s| ==> s[a].id != s[b].id
    ensures StoredRecords(r, trips)
    ensures IdsOf(r) == IdsOf(s)
    ensures forall i, j :: 0 <= i < j < |r| ==> r[i].id != r[j].id
  {
    forall t | t in r ensures t in s {
      assert t in multiset(r);
    }
    forall t | t in s ensures t in r {
      assert t in multiset(s);
    }
    forall i, j | 0 <= i < j < |r| ensures r[i].id != r[j].id {
      SortedIdsDistinct(s, r, trips, i, j);
    }
  }

  /** `Map`-merge of the three query results, as the `forEach` passes do it. */
  method MergeTrips(owned: seq<Trip>, edited: seq<Trip>, viewed: seq<Trip>) returns (r: seq<Trip>)
    ensures r == Merged(owned, edited, viewed)
  {
    var all := EmptyTripMap;
    for i := 0 to |owned|
      invariant all == AddAll(EmptyTripMap, owned[..i], true)
    {
      AddAllStep(EmptyTripMap, owned, i, true);
      all := SetEntry(all, owned[i]);
    }
    assert owned[..|owned|] == owned;
    ghost var afterOwned := all;
    for i := 0 to |edited|
      invariant all == AddAll(afterOwned, edited[..i], false)
    {
      AddAllStep(afterOwned, edited, i, false);
      if edited[i].id !in all.vals {
        all := SetEntry(all, edited[i]);
      }
    }
    assert edited[..|edited|] == edited;
    ghost var afterEdited := all;
    for i := 0 to |viewed|
      invariant all == AddAll(afterEdited, viewed[..i], false)
    {
      AddAllStep(afterEdited, viewed, i, false);
      if viewed[i].id !in all.vals {
        all := SetEntry(all, viewed[i]);
      }
    }
    assert viewed[..|viewed|] == viewed;
    AddAllWellFormed(EmptyTripMap, owned, true);
    AddAllWellFormed(afterOwned, edited, false);
    AddAllWellFormed(afterEdited, viewed, false);
    r := [];
    for i := 0 to |all.keys|
      invariant r == Values(all)[..i]
    {
      r := r + [all.vals[all.keys[i]]];
    }
  }

  /** A permutation of a list of stored records with distinct ids has distinct ids. */
  lemma SortedIdsDistinct(s: seq<Trip>, r: seq<Trip>, trips: map<string, Trip>, i: int, j: int)
    requires multiset(r) == multiset(s)
    requires StoredRecords(s, trips)
    requires forall a, b :: 0 <= a < b < |s| ==> s[a].id != s[b].id
    requires 0 <= i < j < |r|
    ensures r[i].id != r[j].id
  {
    if r[i].id == r[j].id {
      assert r[i] in multiset(s) && r[j] in multiset(s);
      assert r[i] == r[j];
      TwoPositions(r, i, j);
      DistinctCount(s, r[i]);
      assert false;
    }
  }

  lemma TwoPositions<T>(s: seq<T>, i: int, j: int)
    requires 0 <= i < j < |s| && s[i] == s[j]
    ensures multiset(s)[s[i]] >= 2
  {
    assert s == s[..j] + [s[j]] + s[j + 1..];
    assert s[i] in s[..j];
  }

  lemma {:induction false} DistinctCount(s: seq<Trip>, x: Trip)
    requires forall a, b :: 0 <= a < b < |s| ==> s[a].id != s[b].id
    ensures multiset(s)[x] <= 1
  {
    if s != [] {
      assert s == [s[0]] + s[1..];
      DistinctCount(s[1..], x);
      if s[0] == x {
        assert x !in s[1..];
      }
    }
  }
}
