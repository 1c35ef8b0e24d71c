/** casper_service/trust.py's updates, as they run on the tables. */
module TrustStore {
  import opened Prelude
  import opened Trust
  import TrustEffects

  /** The database. Each method is one transaction: it works on copies of the
    * tables and commits them at the end, so an error leaves everything alone. */
  class Store {
    var db: Db

    constructor ()
      ensures db == EMPTY
    {
      db := EMPTY;
    }

    /** UPDATE relation_tuples SET revoked_at for the current rows a sweep names. */
    method RevokeRows(tuples: seq<Tuple>, s: Sweep) returns (r: seq<Tuple>)
      ensures r == Revoke(tuples, s)
    {
      r := tuples;
      for k := 0 to |tuples|
        invariant |r| == |tuples|
        invariant forall j :: 0 <= j < k ==> r[j] == Revoke(tuples, s)[j]
        invariant forall j :: k <= j < |tuples| ==> r[j] == tuples[j]
      {
        if r[k].active && Swept(s, r[k].body) {
          r := r[k := r[k].(active := false)];
        }
      }
    }

    method DecideFriendRequest(id: nat, accept: bool)
      modifies this
      ensures db == Trust.DecideFriendRequest(old(db), id, accept)
    {
      if id >= |db.friendRequests| || db.friendRequests[id].status != Waiting {
        return;
      }
      var r := db.friendRequests[id];
      var work := db.(friendRequests := db.friendRequests[id := r.(status := if accept then Accepted else Declined)]);
      if accept {
        var ends := [(r.sender, r.receiver), (r.receiver, r.sender)];
        ghost var start := work;
        for k := 0 to |ends|
          invariant work == if k == 0 then start
                            else if k == 1 then Insert(start, Friendship(r.sender, r.receiver, None))
                            else InsertBoth(start, r.sender, r.receiver, None)
        {
          work := Insert(work, Friendship(ends[k].0, ends[k].1, None));
        }
      }
      db := work;
    }

    /** Ends a friendship, shared group memberships, and every grant between the
      * two; reports the grants it revoked, as they were. */
    method RemoveFriend(user: UserId, other: Option<UserId>) returns (r: Result<seq<Body>, Error>)
      modifies this
      ensures var spec := Trust.RemoveFriend(old(db), user, other);
              if spec.Success? then
                && r.Success? && db == spec.value
                && forall t :: t in r.value <==> t in Current(old(db).tuples) && Swept(GrantsBetween(user, other.value), t)
              else r == Failure(spec.error) && db == old(db)
      ensures r.Success? <==> other.Some? && AreFriends(old(db).tuples, user, other.value)
      ensures r.Success? ==> TrustEffects.Parted(old(db), db, user, other.value)
      ensures r.Success? ==>
                forall t :: t in r.value <==> && t in Current(old(db).tuples) && t.Grant?
                                              && ((t.subject == user && t.owner == other.value) || (t.subject == other.value && t.owner == user))
    {
      TrustEffects.RemovingParts(db, user, other);
      if other.None? || !AreFriends(db.tuples, user, other.value) {
        return Failure(NotFound);
      }
      var o := other.value;
      var tuples := RevokeRows(db.tuples, FriendsBetween(user, o));
      ghost var unfriended := tuples;
      tuples := RevokeRows(tuples, MembersBetween(user, o, db.groups));
      ghost var unshared := tuples;
      var revoked: seq<Body>;
      tuples, revoked := EndGrants(tuples, user, o);
      forall t ensures t in Current(unshared) && Swept(GrantsBetween(user, o), t) <==> t in Current(db.tuples) && Swept(GrantsBetween(user, o), t) {
        RevokeRemoves(db.tuples, FriendsBetween(user, o), t);
        RevokeRemoves(unfriended, MembersBetween(user, o, db.groups), t);
      }
      db := db.(tuples := tuples);
      r := Success(revoked);
    }

    /** revoke_grant_row for every current grant between the two, and which they were. */
    method EndGrants(before: seq<Tuple>, a: UserId, b: UserId) returns (tuples: seq<Tuple>, revoked: seq<Body>)
      ensures tuples == Revoke(before, GrantsBetween(a, b))
      ensures forall t :: t in revoked <==> t in Current(before) && Swept(GrantsBetween(a, b), t)
    {
      tuples, revoked := before, [];
      for k := 0 to |tuples|
        invariant |tuples| == |before|
        invariant forall j :: 0 <= j < k ==> tuples[j] == Revoke(before, GrantsBetween(a, b))[j]
        invariant forall j :: k <= j < |tuples| ==> tuples[j] == before[j]
        invariant forall t :: t in revoked <==> exists j :: 0 <= j < k && before[j] == Tuple(t, true) && Swept(GrantsBetween(a, b), t)
      {
        if tuples[k].active && Swept(GrantsBetween(a, b), tuples[k].body) {
          revoked := revoked + [tuples[k].body];
          tuples := tuples[k := tuples[k].(active := false)];
        }
      }
      assert tuples == Revoke(before, GrantsBetween(a, b));
      forall t {
        CurrentMeans(before, t);
      }
    }

    method DecideAccessRequest(id: nat, grant: bool)
      modifies this
      ensures db == Trust.DecideAccessRequest(old(db), id, grant)
    {
      if id >= |db.accessRequests| || db.accessRequests[id].status != Waiting || db.accessRequests[id].offering >= |db.offerings| {
        return;
      }
      var r := db.accessRequests[id];
      var o := db.offerings[r.offering];
      var work := db.(accessRequests := db.accessRequests[id := r.(status := if grant then Accepted else Declined)]);
      if grant && AreFriends(work.tuples, r.requester, o.owner) {
        work := Insert(work, Grant(r.requester, o.relation, o.host, o.owner, r.quota, r.offering, None));
      }
      db := work;
    }

    /** release_invite's loop, on a copy. */
    method Released(work: Db, i: InviteId) returns (r: Db)
      requires i < |work.invites| && work.invites[i].usedBy.Some?
      ensures r == ReleaseInvite(work, i)
    {
      var tuples := RevokeRows(work.tuples, OfInvite(i, work.invites[i].usedBy.value));
      r := work.(tuples := tuples, invites := work.invites[i := work.invites[i].(usedBy := None)]);
    }

    /** Accepts an invite, taking it over from whoever started with it before. */
    method RedeemInvite(user: UserId, found: Option<InviteId>, now: Time) returns (r: Result<InviteId, Error>)
      modifies this
      ensures var spec := Trust.RedeemInvite(old(db), user, found, now);
              if spec.Success? then db == spec.value && r == FindInvite(old(db), found, now)
              else r == Failure(spec.error) && db == old(db)
    {
      r := FindInvite(db, found, now);
      if r.Failure? {
        return;
      }
      var i := r.value;
      var inv := db.invites[i];
      var o := db.offerings[inv.offering];
      if inv.owner == user {
        return Failure(Yourself);
      }
      if inv.usedBy == Some(user) {
        return;
      }
      var work := db;
      if inv.usedBy.Some? {
        work := Released(work, i);
      }
      if HasGrant(work.tuples, user, o.host, inv.owner, o.relation) {
        return Failure(AlreadyGranted);
      }
      ghost var admitted := Admit(work, user, i);
      if !AreFriends(work.tuples, user, inv.owner) {
        work := Insert(work, Friendship(user, inv.owner, Some(i)));
        work := Insert(work, Friendship(inv.owner, user, Some(i)));
      }
      work := Insert(work, Grant(user, o.relation, o.host, inv.owner, inv.quota, inv.offering, Some(i)));
      if inv.group.Some? && !IsMember(work.tuples, user, inv.group.value) {
        work := Insert(work, Membership(user, inv.group.value, Some(i)));
      }
      work := work.(invites := work.invites[i := work.invites[i].(usedBy := Some(user))]);
      assert work == admitted;
      db := work;
    }

    method CompleteInvites(user: UserId)
      modifies this
      ensures db == Trust.CompleteInvites(old(db), user)
    {
      var invites := db.invites;
      for k := 0 to |invites|
        invariant |invites| == |db.invites|
        invariant forall j :: 0 <= j < k ==> invites[j] == Trust.CompleteInvites(db, user).invites[j]
        invariant forall j :: k <= j < |invites| ==> invites[j] == db.invites[j]
      {
        if invites[k].usedBy == Some(user) && !invites[k].completed {
          invites := invites[k := invites[k].(completed := true)];
        }
      }
      assert invites == Trust.CompleteInvites(db, user).invites;
      db := db.(invites := invites);
    }
  }
}
