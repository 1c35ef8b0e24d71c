/** What each operation on the trust tables does, said in terms of who is whose
  * friend, who holds which grant, and which rows are current. */
module TrustEffects {
  import opened Prelude
  import opened Trust
  import opened TrustRuns

  lemma GrantsAre(tuples: seq<Tuple>, grantee: UserId, host: HostId, owner: UserId, relation: Relation)
    ensures HasGrant(tuples, grantee, host, owner, relation)
            <==> exists quota, offering, tag :: Grant(grantee, relation, host, owner, quota, offering, tag) in Current(tuples)
  {
    if HasGrant(tuples, grantee, host, owner, relation) {
      var k :| 0 <= k < |tuples| && tuples[k].active && tuples[k].body.Grant? && tuples[k].body.subject == grantee
        && tuples[k].body.host == host && tuples[k].body.owner == owner && tuples[k].body.relation == relation;
      var t := tuples[k].body;
      CurrentMeans(tuples, t);
      assert Grant(grantee, relation, host, owner, t.quota, t.offering, t.tag) in Current(tuples);
    }
    if quota, offering, tag :| Grant(grantee, relation, host, owner, quota, offering, tag) in Current(tuples) {
      CurrentMeans(tuples, Grant(grantee, relation, host, owner, quota, offering, tag));
    }
  }

  lemma MembersAre(tuples: seq<Tuple>, user: UserId, group: nat)
    ensures IsMember(tuples, user, group) <==> exists tag :: Membership(user, group, tag) in Current(tuples)
  {
    if IsMember(tuples, user, group) {
      var k :| 0 <= k < |tuples| && tuples[k].active && tuples[k].body.Membership?
        && tuples[k].body.subject == user && tuples[k].body.group == group;
      CurrentMeans(tuples, tuples[k].body);
      assert Membership(user, group, tuples[k].body.tag) in Current(tuples);
    }
    if tag :| Membership(user, group, tag) in Current(tuples) {
      CurrentMeans(tuples, Membership(user, group, tag));
    }
  }

  // ---- Friends -------------------------------------------------------------------------

  /** t is a friendship between a and b, a grant from either to the other, or
    * either's membership of a group the other owns. */
  predicate Joins(t: Body, a: UserId, b: UserId, groups: seq<UserId>) {
    match t
    case Friendship(x, y, _) => (x == a && y == b) || (x == b && y == a)
    case Grant(x, _, _, owner, _, _, _) => (x == a && owner == b) || (x == b && owner == a)
    case Membership(x, g, _) => g < |groups| && ((x == a && groups[g] == b) || (x == b && groups[g] == a))
  }

  /** Nothing joins a and b any more, and every other current row stayed. */
  ghost predicate Parted(before: Db, after: Db, a: UserId, b: UserId) {
    && !AreFriends(after.tuples, a, b) && !AreFriends(after.tuples, b, a)
    && (forall host, relation :: !HasGrant(after.tuples, a, host, b, relation) && !HasGrant(after.tuples, b, host, a, relation))
    && (forall g: nat :: g < |after.groups| && after.groups[g] == b ==> !IsMember(after.tuples, a, g))
    && (forall g: nat :: g < |after.groups| && after.groups[g] == a ==> !IsMember(after.tuples, b, g))
    && (forall t :: Current(after.tuples)[t] == if Joins(t, a, b, before.groups) then 0 else Current(before.tuples)[t])
    && after == before.(tuples := after.tuples)
  }

  lemma NothingJoinsIsParted(before: Db, after: Db, a: UserId, b: UserId)
    requires after == before.(tuples := after.tuples)
    requires forall t :: Current(after.tuples)[t] == if Joins(t, a, b, before.groups) then 0 else Current(before.tuples)[t]
    ensures Parted(before, after, a, b)
  {
    FriendsAre(after.tuples, a, b);
    FriendsAre(after.tuples, b, a);
    forall host, relation
      ensures !HasGrant(after.tuples, a, host, b, relation) && !HasGrant(after.tuples, b, host, a, relation)
    {
      GrantsAre(after.tuples, a, host, b, relation);
      GrantsAre(after.tuples, b, host, a, relation);
    }
    forall g: nat
      ensures g < |after.groups| && after.groups[g] == b ==> !IsMember(after.tuples, a, g)
      ensures g < |after.groups| && after.groups[g] == a ==> !IsMember(after.tuples, b, g)
    {
      MembersAre(after.tuples, a, g);
      MembersAre(after.tuples, b, g);
    }
  }

  lemma ThreeSweeps(tuples: seq<Tuple>, groups: seq<UserId>, a: UserId, b: UserId, t: Body)
    ensures Current(Revoke(Revoke(Revoke(tuples, FriendsBetween(a, b)), MembersBetween(a, b, groups)), GrantsBetween(a, b)))[t]
            == if Joins(t, a, b, groups) then 0 else Current(tuples)[t]
  {
    var t1 := Revoke(tuples, FriendsBetween(a, b));
    var t2 := Revoke(t1, MembersBetween(a, b, groups));
    RevokeRemoves(tuples, FriendsBetween(a, b), t);
    RevokeRemoves(t1, MembersBetween(a, b, groups), t);
    RevokeRemoves(t2, GrantsBetween(a, b), t);
  }

  /** Removing works exactly on a friend, and parts the two. */
  lemma RemovingParts(db: Db, user: UserId, other: Option<UserId>)
    ensures RemoveFriend(db, user, other).Success? <==> other.Some? && AreFriends(db.tuples, user, other.value)
    ensures RemoveFriend(db, user, other).Success? ==> Parted(db, RemoveFriend(db, user, other).value, user, other.value)
  {
    if RemoveFriend(db, user, other).Success? {
      forall t {
        ThreeSweeps(db.tuples, db.groups, user, other.value, t);
      }
      NothingJoinsIsParted(db, RemoveFriend(db, user, other).value, user, other.value);
    }
  }

  /** One of the two has asked the other and has no answer yet. */
  predicate WaitingBetween(requests: seq<FriendRequest>, a: UserId, b: UserId) {
    exists k :: 0 <= k < |requests| && requests[k].status == Waiting
      && ((requests[k].sender == a && requests[k].receiver == b) || (requests[k].sender == b && requests[k].receiver == a))
  }

  lemma SameEnds(x: UserId, y: UserId, a: UserId, b: UserId)
    ensures {x, y} == {a, b} <==> (x == a && y == b) || (x == b && y == a)
  {
    if {x, y} == {a, b} {
      assert x in {a, b} && y in {a, b} && a in {x, y} && b in {x, y};
    }
  }

  /** Somebody else who is no friend, with nothing waiting between the two, is asked. */
  lemma AskingAFriend(db: Db, sender: UserId, receiver: Option<UserId>)
    ensures CreateFriendRequest(db, sender, receiver).Success?
            <==> && receiver.Some? && receiver.value != sender && !AreFriends(db.tuples, sender, receiver.value)
                 && !WaitingBetween(db.friendRequests, sender, receiver.value)
    ensures CreateFriendRequest(db, sender, receiver).Success? ==>
              var after := CreateFriendRequest(db, sender, receiver).value;
              && WaitingBetween(after.friendRequests, sender, receiver.value)
              && after == db.(friendRequests := db.friendRequests + [FriendRequest(sender, receiver.value, Waiting)])
  {
    if receiver.Some? {
      forall k | 0 <= k < |db.friendRequests| {
        SameEnds(db.friendRequests[k].sender, db.friendRequests[k].receiver, sender, receiver.value);
      }
      var asked := FriendRequest(sender, receiver.value, Waiting);
      assert (db.friendRequests + [asked])[|db.friendRequests|] == asked;
    }
  }

  /** A waiting request is answered once; accepting it makes the two friends. */
  lemma DecidingMakesFriends(db: Db, id: nat, accept: bool)
    ensures var after := DecideFriendRequest(db, id, accept);
            if id < |db.friendRequests| && db.friendRequests[id].status == Waiting then
              var r := db.friendRequests[id];
              && |after.friendRequests| == |db.friendRequests| && after.friendRequests[id].status != Waiting
              && (after.friendRequests[id].status == Accepted <==> accept)
              && after.friendRequests[id].sender == r.sender && after.friendRequests[id].receiver == r.receiver
              && (forall k :: 0 <= k < |db.friendRequests| && k != id ==> after.friendRequests[k] == db.friendRequests[k])
              && after == db.(tuples := after.tuples, friendRequests := after.friendRequests)
              && (accept ==> AreFriends(after.tuples, r.sender, r.receiver) && AreFriends(after.tuples, r.receiver, r.sender))
              && Current(after.tuples) == Current(db.tuples)
                   + (if accept then multiset{Friendship(r.sender, r.receiver, None), Friendship(r.receiver, r.sender, None)} else multiset{})
            else after == db
  {
    if id < |db.friendRequests| && db.friendRequests[id].status == Waiting && accept {
      BothAreFriends(db, db.friendRequests[id].sender, db.friendRequests[id].receiver);
    }
  }

  lemma BothAreFriends(db: Db, a: UserId, b: UserId)
    ensures var after := InsertBoth(db, a, b, None);
            && AreFriends(after.tuples, a, b) && AreFriends(after.tuples, b, a)
            && Current(after.tuples) == Current(db.tuples) + multiset{Friendship(a, b, None), Friendship(b, a, None)}
  {
    var after := InsertBoth(db, a, b, None);
    InsertedBoth(db, a, b, None);
    FriendsAre(after.tuples, a, b);
    FriendsAre(after.tuples, b, a);
    assert Friendship(a, b, None) in Current(after.tuples) && Friendship(b, a, None) in Current(after.tuples);
  }

  // ---- Access --------------------------------------------------------------------------

  predicate AskedFor(requests: seq<AccessRequest>, offering: nat, requester: UserId) {
    exists k :: 0 <= k < |requests| && requests[k].offering == offering && requests[k].requester == requester && requests[k].status == Waiting
  }

  /** Space on offer is asked for by the owner's friends, up to its limit, and
    * not by somebody who has it already or has asked. */
  lemma AskingForAccess(db: Db, requester: UserId, id: nat, quota: int)
    ensures var r := CreateAccessRequest(db, requester, id, quota);
            && (r.Success? <==> && id < |db.offerings| && !db.offerings[id].withdrawn
                                && requester != db.offerings[id].owner && AreFriends(db.tuples, requester, db.offerings[id].owner)
                                && 0 < quota <= db.offerings[id].maxQuota
                                && !HasGrant(db.tuples, requester, db.offerings[id].host, db.offerings[id].owner, db.offerings[id].relation)
                                && !AskedFor(db.accessRequests, id, requester))
            && (r.Success? ==>
                  r.value == db.(accessRequests := db.accessRequests + [AccessRequest(id, requester, quota, Waiting)]))
  {
  }

  /** A waiting request is answered once; saying yes to somebody who still is a
    * friend adds exactly the grant asked for, and otherwise nobody gains anything. */
  lemma DecidingGrants(db: Db, id: nat, grant: bool)
    ensures var after := DecideAccessRequest(db, id, grant);
            if id < |db.accessRequests| && db.accessRequests[id].status == Waiting && db.accessRequests[id].offering < |db.offerings| then
              var r := db.accessRequests[id];
              var o := db.offerings[r.offering];
              && |after.accessRequests| == |db.accessRequests| && after.accessRequests[id].status != Waiting
              && (after.accessRequests[id].status == Accepted <==> grant)
              && (forall k :: 0 <= k < |db.accessRequests| && k != id ==> after.accessRequests[k] == db.accessRequests[k])
              && after == db.(tuples := after.tuples, accessRequests := after.accessRequests)
              && (grant && AreFriends(db.tuples, r.requester, o.owner) ==>
                    && HasGrant(after.tuples, r.requester, o.host, o.owner, o.relation)
                    && Current(after.tuples) == Current(db.tuples)
                         + multiset{Grant(r.requester, o.relation, o.host, o.owner, r.quota, r.offering, None)})
              && (!(grant && AreFriends(db.tuples, r.requester, o.owner)) ==> after.tuples == db.tuples)
            else after == db
  {
    if id < |db.accessRequests| && db.accessRequests[id].offering < |db.offerings| {
      var r := db.accessRequests[id];
      var o := db.offerings[r.offering];
      var row := Grant(r.requester, o.relation, o.host, o.owner, r.quota, r.offering, None);
      CurrentAppend(db.tuples, row);
      assert (db.tuples + [Tuple(row, true)])[|db.tuples|].body == row;
    }
  }

  /** Either side ends a current grant; one row goes, and nothing else changes. */
  lemma EndingAGrant(db: Db, actor: UserId, id: nat)
    ensures var r := RevokeGrant(db, actor, id);
            && (r.Success? <==> && id < |db.tuples| && db.tuples[id].active && db.tuples[id].body.Grant?
                                && (actor == db.tuples[id].body.owner || actor == db.tuples[id].body.subject))
            && (r.Success? ==>
                  && Current(r.value.tuples) == Current(db.tuples) - multiset{db.tuples[id].body}
                  && Current(db.tuples)[db.tuples[id].body] > 0
                  && r.value == db.(tuples := r.value.tuples))
  {
    if RevokeGrant(db, actor, id).Success? {
      EndingOneRow(db.tuples, id);
      CurrentMeans(db.tuples, db.tuples[id].body);
    }
  }

  // ---- Invites -------------------------------------------------------------------------

  /** A code still works: it is known, neither it nor its offering was taken
    * back, it has not been used up, and unless somebody has started with it, it
    * has not expired. */
  predicate Usable(db: Db, i: InviteId, now: Time) {
    && i < |db.invites| && db.invites[i].offering < |db.offerings|
    && !db.invites[i].cancelled && !db.offerings[db.invites[i].offering].withdrawn
    && !db.invites[i].completed && (db.invites[i].usedBy == None ==> now <= db.invites[i].expires)
  }

  lemma FindingAnInvite(db: Db, found: Option<InviteId>, now: Time)
    ensures FindInvite(db, found, now).Success? <==> found.Some? && Usable(db, found.value, now)
    ensures FindInvite(db, found, now).Success? ==> FindInvite(db, found, now).value == found.value
  {
  }

  /** An earlier start is undone: of the rows made for that invite, those of the
    * earlier holder go, friendships to them included, and nothing else does. */
  lemma ReleasingAnInvite(db: Db, i: InviteId)
    requires i < |db.invites| && db.invites[i].usedBy.Some?
    ensures var earlier, after := db.invites[i].usedBy.value, ReleaseInvite(db, i);
            && (forall t :: Current(after.tuples)[t]
                  == if t.tag == Some(i) && (t.subject == earlier || (t.Friendship? && t.other == earlier)) then 0 else Current(db.tuples)[t])
            && after.invites[i].usedBy == None && after.invites[i] == db.invites[i].(usedBy := None)
            && (forall k :: 0 <= k < |db.invites| && k != i ==> after.invites[k] == db.invites[k])
            && |after.invites| == |db.invites| && after == db.(tuples := after.tuples, invites := after.invites)
  {
    forall t {
      RevokeRemoves(db.tuples, OfInvite(i, db.invites[i].usedBy.value), t);
    }
  }

  /** A row of the invite i, in the hands of user. */
  predicate MadeFor(t: Body, i: InviteId, user: UserId) {
    t.tag == Some(i) && (t.subject == user || (t.Friendship? && t.other == user))
  }

  /** user holds what invite i of before promised: the inviter's friendship, the
    * grant, and the group membership; every row not made for the invite stayed. */
  ghost predicate Holds(before: Db, after: Db, user: UserId, i: InviteId)
    requires i < |before.invites| && before.invites[i].offering < |before.offerings|
  {
    var inv := before.invites[i];
    var o := before.offerings[inv.offering];
    && AreFriends(after.tuples, user, inv.owner)
    && Grant(user, o.relation, o.host, inv.owner, inv.quota, inv.offering, Some(i)) in Current(after.tuples)
    && (inv.group.Some? ==> IsMember(after.tuples, user, inv.group.value))
    && (forall t: Body :: t.tag != Some(i) ==> Current(after.tuples)[t] == Current(before.tuples)[t])
    && after.invites == before.invites[i := inv.(usedBy := Some(user))]
    && after == before.(tuples := after.tuples, invites := after.invites)
  }

  lemma AdmittedRows(db: Db, user: UserId, i: InviteId)
    requires i < |db.invites| && db.invites[i].offering < |db.offerings|
    ensures var m, n := Current(db.tuples), Current(Admit(db, user, i).tuples);
            && (forall t :: !MadeFor(t, i, user) ==> n[t] == m[t])
            && (forall t :: m[t] <= n[t])
            && n[GrantRow(db, user, i)] > 0
            && (AreFriends(db.tuples, user, db.invites[i].owner)
                || (n[Friendship(user, db.invites[i].owner, Some(i))] > 0 && n[Friendship(db.invites[i].owner, user, Some(i))] > 0))
  {
    var joins := AdmitAdds(db, user, i);
    assert forall t :: t in BefriendRows(db, user, i) ==> MadeFor(t, i, user);
    assert forall t :: t in joins ==> MadeFor(t, i, user);
    assert MadeFor(GrantRow(db, user, i), i, user);
  }

  lemma AdmittedJoins(db: Db, user: UserId, i: InviteId)
    requires i < |db.invites| && db.invites[i].offering < |db.offerings| && db.invites[i].group.Some?
    ensures IsMember(Admit(db, user, i).tuples, user, db.invites[i].group.value)
  {
    var tuples := Admit(db, user, i).tuples;
    assert tuples[|tuples| - 1].active;
  }

  lemma AdmittingGives(db: Db, user: UserId, i: InviteId)
    requires i < |db.invites| && db.invites[i].offering < |db.offerings|
    ensures Holds(db, Admit(db, user, i), user, i)
    ensures !AreFriends(db.tuples, user, db.invites[i].owner) ==> AreFriends(Admit(db, user, i).tuples, db.invites[i].owner, user)
    ensures forall t :: !MadeFor(t, i, user) ==> Current(Admit(db, user, i).tuples)[t] == Current(db.tuples)[t]
  {
    var owner, after := db.invites[i].owner, Admit(db, user, i);
    AdmittedRows(db, user, i);
    AdmitFrame(db, user, i);
    if db.invites[i].group.Some? {
      AdmittedJoins(db, user, i);
    }
    FriendsAre(after.tuples, user, owner);
    FriendsAre(after.tuples, owner, user);
    FriendsAre(db.tuples, user, owner);
    if AreFriends(db.tuples, user, owner) {
      var tag :| Friendship(user, owner, tag) in Current(db.tuples);
      assert Friendship(user, owner, tag) in Current(after.tuples);
    } else {
      assert Friendship(user, owner, Some(i)) in Current(after.tuples);
      assert Friendship(owner, user, Some(i)) in Current(after.tuples);
    }
  }

  /** And whoever had started with the invite before is left with none of it. */
  ghost predicate Taken(before: Db, after: Db, user: UserId, i: InviteId)
    requires i < |before.invites| && before.invites[i].offering < |before.offerings|
  {
    && Holds(before, after, user, i)
    && (before.invites[i].usedBy.Some? ==>
          forall t :: MadeFor(t, i, before.invites[i].usedBy.value) && !MadeFor(t, i, user) ==> t !in Current(after.tuples))
  }

  lemma ReleasingLeavesGrants(db: Db, i: InviteId, user: UserId, host: HostId, owner: UserId, relation: Relation)
    requires i < |db.invites| && db.invites[i].usedBy.Some? && db.invites[i].usedBy != Some(user)
    ensures HasGrant(ReleaseInvite(db, i).tuples, user, host, owner, relation) <==> HasGrant(db.tuples, user, host, owner, relation)
  {
    ReleasingAnInvite(db, i);
    GrantsAre(db.tuples, user, host, owner, relation);
    GrantsAre(ReleaseInvite(db, i).tuples, user, host, owner, relation);
  }

  lemma TakingOver(db: Db, user: UserId, i: InviteId)
    requires i < |db.invites| && db.invites[i].offering < |db.offerings| && db.invites[i].usedBy.Some?
    ensures Taken(db, Admit(ReleaseInvite(db, i), user, i), user, i)
  {
    var released := ReleaseInvite(db, i);
    ReleasingAnInvite(db, i);
    AdmittingGives(released, user, i);
    assert released.invites[i].(usedBy := Some(user)) == db.invites[i].(usedBy := Some(user));
    assert released.invites[i := released.invites[i].(usedBy := Some(user))] == db.invites[i := db.invites[i].(usedBy := Some(user))];
  }

  /** user may accept i: somebody else's usable invite, for a grant user does not hold. */
  predicate MayTake(db: Db, user: UserId, i: InviteId, now: Time) {
    && Usable(db, i, now) && db.invites[i].owner != user
    && var o := db.offerings[db.invites[i].offering];
       !HasGrant(db.tuples, user, o.host, db.invites[i].owner, o.relation)
  }

  /** Accepting works exactly with a usable code of somebody else's, for who does
    * not hold that grant already; a second time changes nothing; otherwise what
    * the invite promised changes hands whole. */
  lemma RedeemingAnInvite(db: Db, user: UserId, i: InviteId, now: Time)
    ensures var r := RedeemInvite(db, user, Some(i), now);
            if Usable(db, i, now) && db.invites[i].owner != user && db.invites[i].usedBy == Some(user) then r == Success(db)
            else
              && (r.Success? <==> MayTake(db, user, i, now))
              && (r.Success? ==> Taken(db, r.value, user, i))
    ensures RedeemInvite(db, user, None, now).Failure?
  {
    FindingAnInvite(db, Some(i), now);
    if Usable(db, i, now) {
      var inv := db.invites[i];
      var o := db.offerings[inv.offering];
      if inv.usedBy == None {
        AdmittingGives(db, user, i);
      } else if inv.usedBy != Some(user) {
        ReleasingLeavesGrants(db, i, user, o.host, inv.owner, o.relation);
        TakingOver(db, user, i);
      }
    }
  }

  /** The invites somebody accepted are used up once their first mirror runs, and
    * no other invite is. */
  lemma CompletingInvites(db: Db, user: UserId)
    ensures var after := CompleteInvites(db, user);
            && |after.invites| == |db.invites| && after == db.(invites := after.invites)
            && forall k :: 0 <= k < |db.invites| ==>
                 && (after.invites[k].completed <==> db.invites[k].completed || db.invites[k].usedBy == Some(user))
                 && after.invites[k].(completed := false) == db.invites[k].(completed := false)
    ensures forall i: nat, now :: i < |db.invites| && db.invites[i].usedBy == Some(user) ==> !Usable(CompleteInvites(db, user), i, now)
  {
  }

  /** An open invite is taken back by its owner alone, and stops working. */
  lemma CancellingAnInvite(db: Db, owner: UserId, i: InviteId)
    ensures var r := CancelInvite(db, owner, i);
            && (r.Success? <==> i < |db.invites| && db.invites[i].owner == owner && !db.invites[i].completed && !db.invites[i].cancelled)
            && (r.Success? ==>
                  && (forall now :: !Usable(r.value, i, now))
                  && (forall k: nat, now :: k != i ==> (Usable(r.value, k, now) <==> Usable(db, k, now)))
                  && r.value.tuples == db.tuples)
  {
  }

  /** An owner's invite works at once, until it expires, for space still on offer
    * and no more of it than the offering allows; withdrawing the offering ends it. */
  lemma InvitingWorks(db: Db, owner: UserId, id: nat, quota: int, expires: Time, group: Option<nat>)
    ensures var r := CreateInvite(db, owner, id, quota, expires, group);
            && (r.Success? <==> && id < |db.offerings| && db.offerings[id].owner == owner && !db.offerings[id].withdrawn
                                && 0 < quota <= db.offerings[id].maxQuota)
            && (r.Success? ==>
                  && |r.value.invites| == |db.invites| + 1
                  && (forall now :: Usable(r.value, |db.invites|, now) <==> now <= expires)
                  && (forall k: nat, now :: k < |db.invites| ==> (Usable(r.value, k, now) <==> Usable(db, k, now)))
                  && r.value.invites[|db.invites|].quota == quota && r.value.invites[|db.invites|].group == group
                  && r.value.tuples == db.tuples)
    ensures forall k: nat, now :: k < |db.invites| && db.invites[k].offering == id && WithdrawOffering(db, owner, id).Success? ==>
              !Usable(WithdrawOffering(db, owner, id).value, k, now)
  {
  }

  /** Offers are made for one's own paired hosts, can be asked for until
    * withdrawn, and only their owner withdraws them, once. */
  lemma OfferingAndWithdrawing(db: Db, owner: UserId, host: HostId, relation: Relation, maxQuota: int, paired: bool, id: nat)
    ensures PublishOffering(db, owner, host, relation, maxQuota, paired).Success? <==> paired
    ensures paired ==>
              var after := PublishOffering(db, owner, host, relation, maxQuota, paired).value;
              && after == db.(offerings := after.offerings) && |after.offerings| == |db.offerings| + 1
              && (forall k :: 0 <= k < |db.offerings| ==> after.offerings[k] == db.offerings[k])
              && after.offerings[|db.offerings|] == Offering(owner, host, relation, maxQuota, false)
    ensures WithdrawOffering(db, owner, id).Success? <==> id < |db.offerings| && db.offerings[id].owner == owner && !db.offerings[id].withdrawn
    ensures WithdrawOffering(db, owner, id).Success? ==>
              var after := WithdrawOffering(db, owner, id).value;
              && after == db.(offerings := after.offerings) && |after.offerings| == |db.offerings|
              && after.offerings[id].withdrawn && (forall requester, quota :: CreateAccessRequest(after, requester, id, quota).Failure?)
              && forall k :: 0 <= k < |db.offerings| && k != id ==> after.offerings[k] == db.offerings[k]
  {
  }
}
