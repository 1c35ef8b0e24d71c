/** What stays true of the trust tables over every run of operations. */
module TrustRuns {
  import opened Prelude
  import opened Trust

  datatype Op =
    | Befriend(sender: UserId, receiver: Option<UserId>)
    | DecideFriend(id: nat, accept: bool)
    | Unfriend(user: UserId, other: Option<UserId>)
    | Publish(owner: UserId, host: HostId, relation: Relation, maxQuota: int, paired: bool)
    | Withdraw(owner: UserId, id: nat)
    | Ask(requester: UserId, id: nat, quota: int)
    | DecideAsk(id: nat, grant: bool)
    | EndGrant(actor: UserId, id: nat)
    | Invites(owner: UserId, id: nat, quota: int, expires: Time, group: Option<nat>)
    | Redeem(user: UserId, found: Option<InviteId>, now: Time)
    | Complete(user: UserId)
    | Cancel(owner: UserId, id: nat)
    | NewGroup(owner: UserId)

  /** An operation that fails leaves the database as it was. */
  function Or(db: Db, r: Result<Db, Error>): Db {
    if r.Success? then r.value else db
  }

  function Step(db: Db, op: Op): Db {
    match op
    case Befriend(a, b) => Or(db, CreateFriendRequest(db, a, b))
    case DecideFriend(id, accept) => DecideFriendRequest(db, id, accept)
    case Unfriend(user, other) => Or(db, RemoveFriend(db, user, other))
    case Publish(owner, host, relation, maxQuota, paired) => Or(db, PublishOffering(db, owner, host, relation, maxQuota, paired))
    case Withdraw(owner, id) => Or(db, WithdrawOffering(db, owner, id))
    case Ask(requester, id, quota) => Or(db, CreateAccessRequest(db, requester, id, quota))
    case DecideAsk(id, grant) => DecideAccessRequest(db, id, grant)
    case EndGrant(actor, id) => Or(db, RevokeGrant(db, actor, id))
    case Invites(owner, id, quota, expires, group) => Or(db, CreateInvite(db, owner, id, quota, expires, group))
    case Redeem(user, found, now) => Or(db, RedeemInvite(db, user, found, now))
    case Complete(user) => CompleteInvites(db, user)
    case Cancel(owner, id) => Or(db, CancelInvite(db, owner, id))
    case NewGroup(owner) => CreateGroup(db, owner)
  }

  function Run(ops: seq<Op>): Db {
    if ops == [] then EMPTY else Step(Run(ops[..|ops| - 1]), ops[|ops| - 1])
  }

  // ---- The invariant --------------------------------------------------------

  /** Per invite tag, as many friend rows lead from a to b as from b to a. */
  ghost predicate Symmetric(m: multiset<Body>) {
    forall a, b, tag :: m[Friendship(a, b, tag)] == m[Friendship(b, a, tag)]
  }

  /** A tagged row concerns whoever holds its invite, and the inviter. */
  predicate Concerns(t: Body, inv: Invite) {
    inv.usedBy.Some? &&
    match t
    case Friendship(a, b, _) => (a == inv.usedBy.value && b == inv.owner) || (a == inv.owner && b == inv.usedBy.value)
    case Grant(a, _, _, owner, quota, offering, _) =>
      a == inv.usedBy.value && owner == inv.owner && offering == inv.offering && quota == inv.quota
    case Membership(a, _, _) => a == inv.usedBy.value
  }

  ghost predicate TagsHeld(m: multiset<Body>, invites: seq<Invite>) {
    forall t :: t in m && t.tag.Some? ==> t.tag.value < |invites| && Concerns(t, invites[t.tag.value])
  }

  ghost predicate OneGrantPerTag(m: multiset<Body>) {
    && (forall t :: t in m && t.Grant? && t.tag.Some? ==> m[t] == 1)
    && (forall s, t :: s in m && t in m && s.Grant? && t.Grant? && s.tag.Some? && s.tag == t.tag ==> s == t)
  }

  predicate Offered(offerings: seq<Offering>, owner: UserId, offering: nat, quota: int) {
    offering < |offerings| && offerings[offering].owner == owner && quota <= offerings[offering].maxQuota
  }

  predicate InvitesOffered(invites: seq<Invite>, offerings: seq<Offering>) {
    forall k :: 0 <= k < |invites| ==> Offered(offerings, invites[k].owner, invites[k].offering, invites[k].quota)
  }

  predicate RequestsOffered(requests: seq<AccessRequest>, offerings: seq<Offering>) {
    forall k :: 0 <= k < |requests| ==>
      requests[k].offering < |offerings| && requests[k].quota <= offerings[requests[k].offering].maxQuota
  }

  ghost predicate WithinOffers(m: multiset<Body>, db: Db) {
    && (forall t :: t in m && t.Grant? ==> Offered(db.offerings, t.owner, t.offering, t.quota))
    && InvitesOffered(db.invites, db.offerings)
    && RequestsOffered(db.accessRequests, db.offerings)
  }

  ghost predicate Inv(db: Db) {
    var m := Current(db.tuples);
    Symmetric(m) && TagsHeld(m, db.invites) && OneGrantPerTag(m) && WithinOffers(m, db)
  }

  /** Every current grant joins two current friends. */
  ghost predicate GrantsJoinFriends(m: multiset<Body>) {
    forall t :: t in m && t.Grant? ==> FriendsIn(m, t.subject, t.owner)
  }

  lemma SymmetricFriends(m: multiset<Body>, a: UserId, b: UserId)
    requires Symmetric(m)
    ensures FriendsIn(m, a, b) <==> FriendsIn(m, b, a)
  {
    if FriendsIn(m, a, b) {
      var tag :| Friendship(a, b, tag) in m;
      assert m[Friendship(b, a, tag)] > 0;
    }
    if FriendsIn(m, b, a) {
      var tag :| Friendship(b, a, tag) in m;
      assert m[Friendship(a, b, tag)] > 0;
    }
  }

  // ---- Adding rows ------------------------------------------------------------

  lemma InsertedBoth(db: Db, a: UserId, b: UserId, tag: Option<InviteId>)
    ensures Current(InsertBoth(db, a, b, tag).tuples) == Current(db.tuples) + multiset{Friendship(a, b, tag), Friendship(b, a, tag)}
  {
    CurrentAppend(db.tuples, Friendship(a, b, tag));
    CurrentAppend(db.tuples + [Tuple(Friendship(a, b, tag), true)], Friendship(b, a, tag));
  }

  lemma BefriendingKeepsSymmetry(m: multiset<Body>, a: UserId, b: UserId, tag: Option<InviteId>)
    requires Symmetric(m)
    ensures Symmetric(m + multiset{Friendship(a, b, tag), Friendship(b, a, tag)})
  {
  }

  /** Rows that are not friendships do not disturb symmetry. */
  lemma OthersKeepSymmetry(m: multiset<Body>, t: Body)
    requires Symmetric(m) && !t.Friendship?
    ensures Symmetric(m + multiset{t})
  {
  }

  lemma MoreFriendsKeepGrants(m: multiset<Body>, extra: multiset<Body>)
    requires GrantsJoinFriends(m)
    requires forall t :: t in extra && t.Grant? ==> FriendsIn(m + extra, t.subject, t.owner)
    ensures GrantsJoinFriends(m + extra)
  {
    forall t | t in m + extra && t.Grant?
      ensures FriendsIn(m + extra, t.subject, t.owner)
    {
      if t in m {
        var tag :| Friendship(t.subject, t.owner, tag) in m;
        assert Friendship(t.subject, t.owner, tag) in m + extra;
      }
    }
  }

  // ---- Taking rows away ---------------------------------------------------------

  /** fewer is m without the rows gone picks out. */
  ghost predicate Without(fewer: multiset<Body>, m: multiset<Body>, s: Sweep) {
    forall t :: fewer[t] == if Swept(s, t) then 0 else m[t]
  }

  lemma RevokedIsWithout(tuples: seq<Tuple>, s: Sweep)
    ensures Without(Current(Revoke(tuples, s)), Current(tuples), s)
  {
    forall t
      ensures Current(Revoke(tuples, s))[t] == if Swept(s, t) then 0 else Current(tuples)[t]
    {
      RevokeRemoves(tuples, s, t);
    }
  }

  /** A sweep that treats both directions of a friendship alike keeps symmetry. */
  lemma SweepKeepsSymmetry(fewer: multiset<Body>, m: multiset<Body>, s: Sweep)
    requires Without(fewer, m, s) && Symmetric(m)
    ensures Symmetric(fewer)
  {
    forall a, b, tag
      ensures fewer[Friendship(a, b, tag)] == fewer[Friendship(b, a, tag)]
    {
      assert Swept(s, Friendship(a, b, tag)) == Swept(s, Friendship(b, a, tag));
    }
  }

  lemma SweepKeepsTags(fewer: multiset<Body>, m: multiset<Body>, s: Sweep, db: Db)
    requires Without(fewer, m, s) && TagsHeld(m, db.invites) && OneGrantPerTag(m) && WithinOffers(m, db)
    ensures TagsHeld(fewer, db.invites) && OneGrantPerTag(fewer) && WithinOffers(fewer, db)
  {
    assert forall t :: t in fewer ==> t in m && fewer[t] == m[t];
  }

  lemma LosingAGrant(m: multiset<Body>, gone: Body, db: Db)
    requires gone in m && gone.Grant?
    requires Symmetric(m) && TagsHeld(m, db.invites) && OneGrantPerTag(m) && WithinOffers(m, db)
    ensures var fewer := m - multiset{gone};
            Symmetric(fewer) && TagsHeld(fewer, db.invites) && OneGrantPerTag(fewer) && WithinOffers(fewer, db)
  {
    var fewer := m - multiset{gone};
    assert forall t :: t in fewer ==> t in m;
    assert forall a, b, tag :: fewer[Friendship(a, b, tag)] == m[Friendship(a, b, tag)];
    forall t | t in fewer && t.Grant? && t.tag.Some?
      ensures fewer[t] == 1
    {
      assert m[t] == 1 && t != gone;
    }
  }

  lemma LosingAGrantKeepsFriends(m: multiset<Body>, gone: Body)
    requires gone.Grant? && GrantsJoinFriends(m)
    ensures GrantsJoinFriends(m - multiset{gone})
  {
    var fewer := m - multiset{gone};
    forall t | t in fewer && t.Grant?
      ensures FriendsIn(fewer, t.subject, t.owner)
    {
      var tag :| Friendship(t.subject, t.owner, tag) in m;
      assert Friendship(t.subject, t.owner, tag) in fewer;
    }
  }

  lemma EndGrantKeepsInv(db: Db, id: nat)
    requires Inv(db) && id < |db.tuples| && db.tuples[id].active && db.tuples[id].body.Grant?
    ensures var after := db.(tuples := db.tuples[id := db.tuples[id].(active := false)]);
            Inv(after) && (GrantsJoinFriends(Current(db.tuples)) ==> GrantsJoinFriends(Current(after.tuples)))
  {
    EndingOneRow(db.tuples, id);
    CurrentMeans(db.tuples, db.tuples[id].body);
    LosingAGrant(Current(db.tuples), db.tuples[id].body, db);
    if GrantsJoinFriends(Current(db.tuples)) {
      LosingAGrantKeepsFriends(Current(db.tuples), db.tuples[id].body);
    }
  }

  // ---- Invites ------------------------------------------------------------------

  /** Releasing an invite takes away exactly the rows that carry its tag. */
  lemma ReleaseDropsItsTag(db: Db, i: InviteId, t: Body)
    requires Inv(db) && i < |db.invites| && db.invites[i].usedBy.Some?
    ensures Current(ReleaseInvite(db, i).tuples)[t] == if t.tag == Some(i) then 0 else Current(db.tuples)[t]
  {
    RevokeRemoves(db.tuples, OfInvite(i, db.invites[i].usedBy.value), t);
    if t in Current(db.tuples) && t.tag == Some(i) {
      assert Concerns(t, db.invites[i]);
    }
  }

  lemma ReleaseKeepsInv(db: Db, i: InviteId)
    requires Inv(db) && i < |db.invites| && db.invites[i].usedBy.Some?
    ensures Inv(ReleaseInvite(db, i))
  {
    var s := OfInvite(i, db.invites[i].usedBy.value);
    var m := Current(db.tuples);
    var after := ReleaseInvite(db, i);
    var fewer := Current(after.tuples);
    RevokedIsWithout(db.tuples, s);
    SweepKeepsSymmetry(fewer, m, s);
    SweepKeepsTags(fewer, m, s, db);
    forall t | t in fewer && t.tag.Some?
      ensures t.tag.value < |after.invites| && Concerns(t, after.invites[t.tag.value])
    {
      ReleaseDropsItsTag(db, i, t);
    }
  }

  function BefriendRows(db: Db, user: UserId, i: InviteId): multiset<Body>
    requires i < |db.invites|
  {
    var owner := db.invites[i].owner;
    if AreFriends(db.tuples, user, owner) then multiset{}
    else multiset{Friendship(user, owner, Some(i)), Friendship(owner, user, Some(i))}
  }

  function GrantRow(db: Db, user: UserId, i: InviteId): Body
    requires i < |db.invites| && db.invites[i].offering < |db.offerings|
  {
    var inv := db.invites[i];
    var o := db.offerings[inv.offering];
    Grant(user, o.relation, o.host, inv.owner, inv.quota, inv.offering, Some(i))
  }

  /** What accepting an invite adds: a friendship if there is none, one grant,
    * and a group membership if there is none. */
  lemma AdmitAdds(db: Db, user: UserId, i: InviteId) returns (joins: multiset<Body>)
    requires i < |db.invites| && db.invites[i].offering < |db.offerings|
    ensures joins == multiset{} || (db.invites[i].group.Some? && joins == multiset{Membership(user, db.invites[i].group.value, Some(i))})
    ensures Current(Admit(db, user, i).tuples) == Current(db.tuples) + BefriendRows(db, user, i) + multiset{GrantRow(db, user, i)} + joins
  {
    var inv := db.invites[i];
    var befriended := if AreFriends(db.tuples, user, inv.owner) then db else InsertBoth(db, user, inv.owner, Some(i));
    InsertedBoth(db, user, inv.owner, Some(i));
    assert Current(befriended.tuples) == Current(db.tuples) + BefriendRows(db, user, i);
    CurrentAppend(befriended.tuples, GrantRow(db, user, i));
    var granted := Insert(befriended, GrantRow(db, user, i));
    joins := multiset{};
    if inv.group.Some? && !IsMember(granted.tuples, user, inv.group.value) {
      joins := multiset{Membership(user, inv.group.value, Some(i))};
      CurrentAppend(granted.tuples, Membership(user, inv.group.value, Some(i)));
    }
  }

  lemma AdmitFrame(db: Db, user: UserId, i: InviteId)
    requires i < |db.invites| && db.invites[i].offering < |db.offerings|
    ensures var after := Admit(db, user, i);
            && after.offerings == db.offerings && after.accessRequests == db.accessRequests
            && after.invites == db.invites[i := db.invites[i].(usedBy := Some(user))]
  {
  }

  predicate JoinRows(joins: multiset<Body>, user: UserId, i: InviteId) {
    forall t :: t in joins ==> t.Membership? && t.subject == user && t.tag == Some(i)
  }

  /** The rows an acceptance adds are tagged, concern its holder, and hold one grant. */
  lemma NewRows(db: Db, user: UserId, i: InviteId, joins: multiset<Body>)
    requires i < |db.invites| && db.invites[i].offering < |db.offerings| && JoinRows(joins, user, i)
    ensures var friends, grant := BefriendRows(db, user, i), GrantRow(db, user, i);
            && (forall t :: t in friends + multiset{grant} + joins ==>
                  t.tag == Some(i) && Concerns(t, db.invites[i].(usedBy := Some(user))))
            && (forall t :: t in friends + joins ==> !t.Grant?)
            && (friends == multiset{} || exists a, b, tag :: friends == multiset{Friendship(a, b, tag), Friendship(b, a, tag)})
  {
    var friends := BefriendRows(db, user, i);
    if friends != multiset{} {
      assert friends == multiset{Friendship(user, db.invites[i].owner, Some(i)), Friendship(db.invites[i].owner, user, Some(i))};
    }
  }

  lemma UnusedInviteHasNoRows(db: Db, i: InviteId)
    requires Inv(db) && i < |db.invites| && db.invites[i].usedBy.None?
    ensures forall t :: t in Current(db.tuples) ==> t.tag != Some(i)
  {
  }

  lemma AdmittedInv(db: Db, user: UserId, i: InviteId, joins: multiset<Body>, after: Db)
    requires Inv(db) && i < |db.invites| && db.invites[i].usedBy.None? && JoinRows(joins, user, i)
    requires after.offerings == db.offerings && after.accessRequests == db.accessRequests
    requires after.invites == db.invites[i := db.invites[i].(usedBy := Some(user))]
    requires Current(after.tuples) == Current(db.tuples) + BefriendRows(db, user, i) + multiset{GrantRow(db, user, i)} + joins
    ensures Inv(after)
  {
    var m := Current(db.tuples);
    var friends, grant := BefriendRows(db, user, i), GrantRow(db, user, i);
    UnusedInviteHasNoRows(db, i);
    NewRows(db, user, i, joins);
    assert Symmetric(Current(after.tuples)) by {
      AdmitKeepsSymmetry(m, friends, grant, joins);
    }
    assert TagsHeld(Current(after.tuples), after.invites) by {
      AdmitKeepsTags(m, friends, grant, joins, db.invites, after.invites, i);
    }
    assert OneGrantPerTag(Current(after.tuples)) by {
      AdmitKeepsOneGrant(m, friends, grant, joins, i);
    }
    assert WithinOffers(Current(after.tuples), after) by {
      AdmitKeepsOffers(m, friends, grant, joins, db, after);
    }
  }

  lemma AdmitKeepsInv(db: Db, user: UserId, i: InviteId)
    requires Inv(db) && i < |db.invites| && db.invites[i].usedBy.None?
    ensures Inv(Admit(db, user, i))
    ensures GrantsJoinFriends(Current(db.tuples)) ==> GrantsJoinFriends(Current(Admit(db, user, i).tuples))
  {
    var joins := AdmitAdds(db, user, i);
    AdmitFrame(db, user, i);
    AdmittedInv(db, user, i, joins, Admit(db, user, i));
    if GrantsJoinFriends(Current(db.tuples)) {
      FriendsAre(db.tuples, user, db.invites[i].owner);
      AdmitKeepsFriends(Current(db.tuples), BefriendRows(db, user, i), GrantRow(db, user, i), joins);
    }
  }

  lemma AdmitKeepsTags(m: multiset<Body>, friends: multiset<Body>, grant: Body, joins: multiset<Body>,
                       before: seq<Invite>, after: seq<Invite>, i: InviteId)
    requires TagsHeld(m, before) && i < |before| && |after| == |before|
    requires forall t :: t in m ==> t.tag != Some(i)
    requires forall k :: 0 <= k < |before| && k != i ==> after[k] == before[k]
    requires forall t :: t in friends + multiset{grant} + joins ==> t.tag == Some(i) && Concerns(t, after[i])
    ensures TagsHeld(m + friends + multiset{grant} + joins, after)
  {
    var all := m + friends + multiset{grant} + joins;
    forall t | t in all && t.tag.Some?
      ensures t.tag.value < |after| && Concerns(t, after[t.tag.value])
    {
      if t !in m {
        assert t in friends + multiset{grant} + joins;
      }
    }
  }

  lemma AdmitKeepsOneGrant(m: multiset<Body>, friends: multiset<Body>, grant: Body, joins: multiset<Body>, i: InviteId)
    requires OneGrantPerTag(m) && forall t :: t in m ==> t.tag != Some(i)
    requires grant.Grant? && grant.tag == Some(i)
    requires forall t :: t in friends + joins ==> !t.Grant?
    ensures OneGrantPerTag(m + friends + multiset{grant} + joins)
  {
    var all := m + friends + multiset{grant} + joins;
    forall t: Body | t.Grant?
      ensures all[t] == if t == grant then 1 else m[t]
    {
      assert t !in friends + joins;
    }
  }

  lemma AdmitKeepsOffers(m: multiset<Body>, friends: multiset<Body>, grant: Body, joins: multiset<Body>, before: Db, after: Db)
    requires WithinOffers(m, before)
    requires after.offerings == before.offerings && after.accessRequests == before.accessRequests && |after.invites| == |before.invites|
    requires forall k :: 0 <= k < |before.invites| ==>
               after.invites[k].(usedBy := None) == before.invites[k].(usedBy := None)
    requires grant.Grant? && Offered(before.offerings, grant.owner, grant.offering, grant.quota)
    requires forall t :: t in friends + joins ==> !t.Grant?
    ensures WithinOffers(m + friends + multiset{grant} + joins, after)
  {
    var all := m + friends + multiset{grant} + joins;
    forall t | t in all && t.Grant?
      ensures Offered(after.offerings, t.owner, t.offering, t.quota)
    {
      assert t !in friends + joins;
    }
    forall k | 0 <= k < |after.invites|
      ensures Offered(after.offerings, after.invites[k].owner, after.invites[k].offering, after.invites[k].quota)
    {
      assert after.invites[k].(usedBy := None) == before.invites[k].(usedBy := None);
    }
  }

  lemma AdmitKeepsSymmetry(m: multiset<Body>, friends: multiset<Body>, grant: Body, joins: multiset<Body>)
    requires Symmetric(m) && grant.Grant?
    requires friends == multiset{} || exists a, b, tag :: friends == multiset{Friendship(a, b, tag), Friendship(b, a, tag)}
    requires forall t :: t in joins ==> t.Membership?
    ensures Symmetric(m + friends + multiset{grant} + joins)
  {
    if friends != multiset{} {
      var a, b, tag :| friends == multiset{Friendship(a, b, tag), Friendship(b, a, tag)};
      BefriendingKeepsSymmetry(m, a, b, tag);
    } else {
      assert m + friends == m;
    }
    var after := m + friends + multiset{grant} + joins;
    assert forall a, b, tag :: after[Friendship(a, b, tag)] == (m + friends)[Friendship(a, b, tag)];
  }

  lemma AdmitKeepsFriends(m: multiset<Body>, friends: multiset<Body>, grant: Body, joins: multiset<Body>)
    requires GrantsJoinFriends(m) && grant.Grant?
    requires FriendsIn(m, grant.subject, grant.owner) || exists tag :: Friendship(grant.subject, grant.owner, tag) in friends
    requires forall t :: t in joins ==> t.Membership?
    requires forall t :: t in friends ==> t.Friendship?
    ensures GrantsJoinFriends(m + friends + multiset{grant} + joins)
  {
    var extra := friends + multiset{grant} + joins;
    assert m + friends + multiset{grant} + joins == m + extra;
    if FriendsIn(m, grant.subject, grant.owner) {
      var tag :| Friendship(grant.subject, grant.owner, tag) in m;
      assert Friendship(grant.subject, grant.owner, tag) in m + extra;
    } else {
      var tag :| Friendship(grant.subject, grant.owner, tag) in friends;
      assert Friendship(grant.subject, grant.owner, tag) in m + extra;
    }
    MoreFriendsKeepGrants(m, extra);
  }

  // ---- Every step -------------------------------------------------------------------

  function Unfriended(db: Db, a: UserId, b: UserId): Db {
    db.(tuples := Revoke(Revoke(Revoke(db.tuples, FriendsBetween(a, b)), MembersBetween(a, b, db.groups)), GrantsBetween(a, b)))
  }

  lemma UnfriendKeepsInv(db: Db, a: UserId, b: UserId)
    requires Inv(db)
    ensures Inv(Unfriended(db, a, b))
  {
    var sweeps := [FriendsBetween(a, b), MembersBetween(a, b, db.groups), GrantsBetween(a, b)];
    var t1 := Revoke(db.tuples, sweeps[0]);
    var t2 := Revoke(t1, sweeps[1]);
    OneSweepKeepsInv(db, sweeps[0]);
    OneSweepKeepsInv(db.(tuples := t1), sweeps[1]);
    OneSweepKeepsInv(db.(tuples := t2), sweeps[2]);
  }

  lemma OneSweepKeepsInv(db: Db, s: Sweep)
    requires Inv(db)
    ensures Inv(db.(tuples := Revoke(db.tuples, s)))
  {
    RevokedIsWithout(db.tuples, s);
    SweepKeepsSymmetry(Current(Revoke(db.tuples, s)), Current(db.tuples), s);
    SweepKeepsTags(Current(Revoke(db.tuples, s)), Current(db.tuples), s, db);
  }

  lemma UnfriendKeepsFriends(db: Db, a: UserId, b: UserId)
    requires GrantsJoinFriends(Current(db.tuples))
    ensures GrantsJoinFriends(Current(Unfriended(db, a, b).tuples))
  {
    var m, after := Current(db.tuples), Current(Unfriended(db, a, b).tuples);
    forall t
      ensures after[t] == if Swept(FriendsBetween(a, b), t) || Swept(MembersBetween(a, b, db.groups), t) || Swept(GrantsBetween(a, b), t)
                          then 0 else m[t]
    {
      RevokeRemoves(db.tuples, FriendsBetween(a, b), t);
      RevokeRemoves(Revoke(db.tuples, FriendsBetween(a, b)), MembersBetween(a, b, db.groups), t);
      RevokeRemoves(Revoke(Revoke(db.tuples, FriendsBetween(a, b)), MembersBetween(a, b, db.groups)), GrantsBetween(a, b), t);
    }
    forall t | t in after && t.Grant?
      ensures FriendsIn(after, t.subject, t.owner)
    {
      var tag :| Friendship(t.subject, t.owner, tag) in m;
      assert after[Friendship(t.subject, t.owner, tag)] > 0;
    }
  }

  /** Whether a redemption first takes the invite away from someone else. */
  predicate TakesOver(db: Db, user: UserId, found: Option<InviteId>, now: Time) {
    var checked := FindInvite(db, found, now);
    checked.Success? && db.invites[checked.value].owner != user
    && db.invites[checked.value].usedBy.Some? && db.invites[checked.value].usedBy != Some(user)
  }

  lemma BefriendedKeeps(db: Db, decided: Db, a: UserId, b: UserId)
    requires Inv(db) && decided.tuples == db.tuples && decided.offerings == db.offerings
    requires decided.invites == db.invites && decided.accessRequests == db.accessRequests
    ensures Inv(InsertBoth(decided, a, b, None))
    ensures GrantsJoinFriends(Current(db.tuples)) ==> GrantsJoinFriends(Current(InsertBoth(decided, a, b, None).tuples))
  {
    var m := Current(db.tuples);
    var extra := multiset{Friendship(a, b, None), Friendship(b, a, None)};
    InsertedBoth(decided, a, b, None);
    BefriendingKeepsSymmetry(m, a, b, None);
    var after := m + extra;
    assert forall t :: t in after ==> t in m || t in extra;
    assert forall t: Body :: t.Grant? ==> after[t] == m[t];
    if GrantsJoinFriends(m) {
      MoreFriendsKeepGrants(m, extra);
    }
  }

  lemma GrantedRows(m: multiset<Body>, t: Body, invites: seq<Invite>)
    requires Symmetric(m) && TagsHeld(m, invites) && OneGrantPerTag(m) && t.Grant? && t.tag.None?
    ensures var after := m + multiset{t};
            Symmetric(after) && TagsHeld(after, invites) && OneGrantPerTag(after)
  {
    OthersKeepSymmetry(m, t);
    var after := m + multiset{t};
    assert forall u :: u in after ==> u in m || u == t;
    assert forall u :: u != t ==> after[u] == m[u];
  }

  lemma GrantedOffers(m: multiset<Body>, t: Body, before: Db, after: Db)
    requires WithinOffers(m, before) && after.offerings == before.offerings && after.invites == before.invites
    requires |after.accessRequests| == |before.accessRequests|
    requires forall k :: 0 <= k < |before.accessRequests| ==>
               after.accessRequests[k].(status := Waiting) == before.accessRequests[k].(status := Waiting)
    requires t.Grant? && Offered(before.offerings, t.owner, t.offering, t.quota)
    ensures WithinOffers(m + multiset{t}, after)
    ensures WithinOffers(m, after)
  {
    forall k | 0 <= k < |after.accessRequests|
      ensures after.accessRequests[k].offering < |after.offerings|
              && after.accessRequests[k].quota <= after.offerings[after.accessRequests[k].offering].maxQuota
    {
      assert after.accessRequests[k].(status := Waiting) == before.accessRequests[k].(status := Waiting);
    }
  }

  lemma GrantedFriends(m: multiset<Body>, t: Body)
    requires GrantsJoinFriends(m) && t.Grant? && FriendsIn(m, t.subject, t.owner)
    ensures GrantsJoinFriends(m + multiset{t})
  {
    var tag :| Friendship(t.subject, t.owner, tag) in m;
    assert Friendship(t.subject, t.owner, tag) in m + multiset{t};
    MoreFriendsKeepGrants(m, multiset{t});
  }

  lemma DecideAskKeeps(db: Db, id: nat, grant: bool)
    requires Inv(db)
    ensures Kept(db, DecideAsk(id, grant))
  {
    if id < |db.accessRequests| && db.accessRequests[id].status == Waiting {
      var r := db.accessRequests[id];
      var o := db.offerings[r.offering];
      var t := Grant(r.requester, o.relation, o.host, o.owner, r.quota, r.offering, None);
      var after := DecideAccessRequest(db, id, grant);
      GrantedOffers(Current(db.tuples), t, db, after);
      if grant && AreFriends(db.tuples, r.requester, o.owner) {
        CurrentAppend(db.tuples, t);
        FriendsAre(db.tuples, r.requester, o.owner);
        GrantedRows(Current(db.tuples), t, db.invites);
        if GrantsJoinFriends(Current(db.tuples)) {
          GrantedFriends(Current(db.tuples), t);
        }
      }
    }
  }

  /** A redemption does nothing, or admits the person to an invite that is free
    * or has just been released. */
  lemma RedeemIs(db: Db, user: UserId, found: Option<InviteId>, now: Time)
    requires RedeemInvite(db, user, found, now).Success?
    ensures var i := FindInvite(db, found, now).value;
            && FindInvite(db, found, now).Success? && i < |db.invites| && db.invites[i].offering < |db.offerings|
            && !db.invites[i].completed && !db.invites[i].cancelled
            && RedeemInvite(db, user, found, now).value
               == (if db.invites[i].usedBy == Some(user) then db
                   else Admit(if db.invites[i].usedBy.Some? then ReleaseInvite(db, i) else db, user, i))
            && (TakesOver(db, user, found, now) <==> db.invites[i].usedBy.Some? && db.invites[i].usedBy != Some(user))
  {
  }

  lemma RedeemKeeps(db: Db, user: UserId, found: Option<InviteId>, now: Time)
    requires Inv(db) && RedeemInvite(db, user, found, now).Success?
    ensures Inv(RedeemInvite(db, user, found, now).value)
    ensures GrantsJoinFriends(Current(db.tuples)) && !TakesOver(db, user, found, now) ==>
              GrantsJoinFriends(Current(RedeemInvite(db, user, found, now).value.tuples))
  {
    RedeemIs(db, user, found, now);
    var i := FindInvite(db, found, now).value;
    if db.invites[i].usedBy.None? {
      AdmitKeepsInv(db, user, i);
    } else if db.invites[i].usedBy != Some(user) {
      ReleaseKeepsInv(db, i);
      AdmitKeepsInv(ReleaseInvite(db, i), user, i);
    }
  }

  /** The invariant stays; so does "every grant joins friends", except where an
    * invite is taken over from somebody else. */
  ghost predicate Kept(db: Db, op: Op) {
    && Inv(Step(db, op))
    && (GrantsJoinFriends(Current(db.tuples)) && !(op.Redeem? && TakesOver(db, op.user, op.found, op.now)) ==>
          GrantsJoinFriends(Current(Step(db, op).tuples)))
  }

  lemma UnfriendStep(db: Db, user: UserId, other: Option<UserId>)
    requires Inv(db)
    ensures Kept(db, Unfriend(user, other))
  {
    if RemoveFriend(db, user, other).Success? {
      assert Step(db, Unfriend(user, other)) == Unfriended(db, user, other.value);
      UnfriendKeepsInv(db, user, other.value);
      if GrantsJoinFriends(Current(db.tuples)) {
        UnfriendKeepsFriends(db, user, other.value);
      }
    }
  }

  lemma EndGrantStep(db: Db, actor: UserId, id: nat)
    requires Inv(db)
    ensures Kept(db, EndGrant(actor, id))
  {
    if RevokeGrant(db, actor, id).Success? {
      EndGrantKeepsInv(db, id);
    }
  }

  lemma RedeemStep(db: Db, user: UserId, found: Option<InviteId>, now: Time)
    requires Inv(db)
    ensures Kept(db, Redeem(user, found, now))
  {
    if RedeemInvite(db, user, found, now).Success? {
      RedeemKeeps(db, user, found, now);
    }
  }

  lemma QuietStep(db: Db, op: Op)
    requires Inv(db) && Quiet(op)
    ensures Kept(db, op)
  {
    OffersStay(db, op);
    SameRowsKeepInv(db, Step(db, op));
  }

  /** Every operation. */
  lemma StepKeeps(db: Db, op: Op)
    requires Inv(db)
    ensures Kept(db, op)
  {
    match op
    case DecideFriend(id, accept) => DecideFriendKeeps(db, id, accept);
    case Unfriend(user, other) => UnfriendStep(db, user, other);
    case DecideAsk(id, grant) => DecideAskKeeps(db, id, grant);
    case EndGrant(actor, id) => EndGrantStep(db, actor, id);
    case Redeem(user, found, now) => RedeemStep(db, user, found, now);
    case _ => QuietStep(db, op);
  }

  lemma DecideFriendKeeps(db: Db, id: nat, accept: bool)
    requires Inv(db)
    ensures Kept(db, DecideFriend(id, accept))
  {
    if id < |db.friendRequests| && db.friendRequests[id].status == Waiting && accept {
      var r := db.friendRequests[id];
      BefriendedKeeps(db, db.(friendRequests := db.friendRequests[id := r.(status := Accepted)]), r.sender, r.receiver);
    }
  }

  predicate Quiet(op: Op) {
    op.Befriend? || op.Publish? || op.Withdraw? || op.Ask? || op.Invites? || op.Complete? || op.Cancel? || op.NewGroup?
  }

  /** Invites may be added, completed or cancelled; nothing else about them changes. */
  predicate SameInvites(before: seq<Invite>, after: seq<Invite>) {
    && |before| <= |after|
    && forall k :: 0 <= k < |before| ==>
         after[k].(cancelled := false, completed := false) == before[k].(cancelled := false, completed := false)
  }

  /** Offerings may be added or withdrawn; whose they are and their limits stay. */
  predicate SameTerms(before: seq<Offering>, after: seq<Offering>) {
    && |before| <= |after|
    && forall k :: 0 <= k < |before| ==> after[k].owner == before[k].owner && after[k].maxQuota == before[k].maxQuota
  }

  lemma QuietKeepsRows(db: Db, op: Op)
    requires Quiet(op)
    ensures Step(db, op).tuples == db.tuples && SameTerms(db.offerings, Step(db, op).offerings)
  {
  }

  lemma QuietKeepsInvites(db: Db, op: Op)
    requires Quiet(op) && InvitesOffered(db.invites, db.offerings)
    ensures SameInvites(db.invites, Step(db, op).invites)
    ensures InvitesOffered(Step(db, op).invites, Step(db, op).offerings)
  {
    QuietKeepsRows(db, op);
  }

  lemma QuietKeepsRequests(db: Db, op: Op)
    requires Quiet(op) && RequestsOffered(db.accessRequests, db.offerings)
    ensures RequestsOffered(Step(db, op).accessRequests, Step(db, op).offerings)
  {
    QuietKeepsRows(db, op);
  }

  lemma OffersStay(db: Db, op: Op)
    requires Inv(db) && Quiet(op)
    ensures var after := Step(db, op);
            after.tuples == db.tuples && SameInvites(db.invites, after.invites) && WithinOffers(Current(db.tuples), after)
  {
    QuietKeepsRows(db, op);
    QuietKeepsInvites(db, op);
    QuietKeepsRequests(db, op);
  }

  lemma SameRowsKeepInv(db: Db, after: Db)
    requires Inv(db) && after.tuples == db.tuples && SameInvites(db.invites, after.invites)
    requires WithinOffers(Current(db.tuples), after)
    ensures Inv(after)
  {
    forall t | t in Current(db.tuples) && t.tag.Some?
      ensures t.tag.value < |after.invites| && Concerns(t, after.invites[t.tag.value])
    {
      var i := t.tag.value;
      assert after.invites[i].(cancelled := false, completed := false) == db.invites[i].(cancelled := false, completed := false);
    }
  }

  lemma {:induction false} InvariantAlways(ops: seq<Op>)
    ensures Inv(Run(ops))
  {
    if ops != [] {
      InvariantAlways(ops[..|ops| - 1]);
      StepKeeps(Run(ops[..|ops| - 1]), ops[|ops| - 1]);
    }
  }

  // ---- Main results -------------------------------------------------------------------

  /** In every reachable state friendship is mutual, row for row and invite for
    * invite, however many duplicate rows there are. */
  lemma FriendshipIsMutual(ops: seq<Op>, a: UserId, b: UserId)
    ensures AreFriends(Run(ops).tuples, a, b) <==> AreFriends(Run(ops).tuples, b, a)
    ensures forall tag :: Current(Run(ops).tuples)[Friendship(a, b, tag)] == Current(Run(ops).tuples)[Friendship(b, a, tag)]
  {
    InvariantAlways(ops);
    SymmetricFriends(Current(Run(ops).tuples), a, b);
    FriendsAre(Run(ops).tuples, a, b);
    FriendsAre(Run(ops).tuples, b, a);
  }

  /** In every reachable state the current rows made by an invite all concern
    * the one person holding it and its owner, at most one of them is a grant,
    * and every grant, tagged or not, is within what its owner offered. */
  lemma InvitesHaveOneHolder(ops: seq<Op>, j: nat, k: nat)
    requires j < |Run(ops).tuples| && k < |Run(ops).tuples|
    requires Run(ops).tuples[j].active && Run(ops).tuples[k].active
    ensures var db := Run(ops);
            var s, t := db.tuples[j].body, db.tuples[k].body;
            && (s.tag.Some? ==> s.tag.value < |db.invites| && Concerns(s, db.invites[s.tag.value]))
            && (s.Grant? && t.Grant? && s.tag.Some? && s.tag == t.tag ==> j == k)
            && (s.Grant? ==> s.offering < |db.offerings| && db.offerings[s.offering].owner == s.owner
                             && s.quota <= db.offerings[s.offering].maxQuota)
  {
    InvariantAlways(ops);
    var db := Run(ops);
    CurrentMeans(db.tuples, db.tuples[j].body);
    CurrentMeans(db.tuples, db.tuples[k].body);
    if j != k && db.tuples[j] == db.tuples[k] {
      TwoRowsCountTwice(db.tuples, j, k);
    }
  }

  lemma {:induction false} TwoRowsCountTwice(tuples: seq<Tuple>, j: nat, k: nat)
    requires j < |tuples| && k < |tuples| && j != k && tuples[j].active && tuples[j] == tuples[k]
    ensures Current(tuples)[tuples[j].body] >= 2
  {
    var n := |tuples| - 1;
    if j < n && k < n {
      TwoRowsCountTwice(tuples[..n], j, k);
    } else {
      CurrentMeans(tuples[..n], tuples[j].body);
      assert tuples[..n][if j < n then j else k] == tuples[j];
    }
  }

  /** Once an invite is completed or cancelled, nothing changes who holds it. */
  lemma FinishedInviteKeepsItsHolder(db: Db, op: Op, i: InviteId)
    requires i < |db.invites| && (db.invites[i].completed || db.invites[i].cancelled)
    ensures i < |Step(db, op).invites| && Step(db, op).invites[i].usedBy == db.invites[i].usedBy
    ensures Step(db, op).invites[i].completed || Step(db, op).invites[i].cancelled
  {
    match op
    case Redeem(user, found, now) => RedeemPassesBy(db, user, found, now, i);
    case Invites(_, _, _, _, _) =>
    case Complete(_) =>
    case Cancel(_, _) =>
    case _ => OthersKeepInvites(db, op);
  }

  lemma RedeemPassesBy(db: Db, user: UserId, found: Option<InviteId>, now: Time, i: InviteId)
    requires i < |db.invites| && (db.invites[i].completed || db.invites[i].cancelled)
    ensures var after := Or(db, RedeemInvite(db, user, found, now));
            |after.invites| == |db.invites| && after.invites[i] == db.invites[i]
  {
    if RedeemInvite(db, user, found, now).Success? {
      var j := FindInvite(db, found, now).value;
      assert j != i;
      if db.invites[j].usedBy != Some(user) {
        var released := if db.invites[j].usedBy.Some? then ReleaseInvite(db, j) else db;
        AdmitFrame(released, user, j);
      }
    }
  }

  lemma OthersKeepInvites(db: Db, op: Op)
    requires !op.Redeem? && !op.Invites? && !op.Complete? && !op.Cancel?
    ensures Step(db, op).invites == db.invites
  {
  }

  /** Accepting an unused invite and releasing it again leaves exactly the rows
    * that were current before, at their old places, and the invite unused. */
  lemma ReleaseUndoesRedeem(db: Db, user: UserId, found: Option<InviteId>, now: Time)
    requires Inv(db) && RedeemInvite(db, user, found, now).Success?
    requires var i := FindInvite(db, found, now).value; db.invites[i].usedBy.None?
    ensures var i := FindInvite(db, found, now).value;
            var redeemed := RedeemInvite(db, user, found, now).value;
            && redeemed.invites[i].usedBy == Some(user)
            && var after := ReleaseInvite(redeemed, i);
            && Current(after.tuples) == Current(db.tuples)
            && |db.tuples| <= |after.tuples| && after.tuples[..|db.tuples|] == db.tuples
            && after.invites == db.invites
  {
    RedeemIs(db, user, found, now);
    RedeemKeeps(db, user, found, now);
    var i := FindInvite(db, found, now).value;
    AdmitFrame(db, user, i);
    ReleaseUndoesAdmit(db, user, i);
  }

  /** a is b without the rows tagged i. */
  ghost predicate Untagged(a: multiset<Body>, b: multiset<Body>, i: InviteId) {
    forall t :: a[t] == if t.tag == Some(i) then 0 else b[t]
  }

  lemma ReleaseUntags(db: Db, i: InviteId)
    requires Inv(db) && i < |db.invites| && db.invites[i].usedBy.Some?
    ensures Untagged(Current(ReleaseInvite(db, i).tuples), Current(db.tuples), i)
  {
    forall t
      ensures Current(ReleaseInvite(db, i).tuples)[t] == if t.tag == Some(i) then 0 else Current(db.tuples)[t]
    {
      ReleaseDropsItsTag(db, i, t);
    }
  }

  lemma AdmitAddsTagged(db: Db, user: UserId, i: InviteId) returns (extra: multiset<Body>)
    requires i < |db.invites| && db.invites[i].offering < |db.offerings|
    ensures Current(Admit(db, user, i).tuples) == Current(db.tuples) + extra
    ensures forall t :: t in extra ==> t.tag == Some(i)
  {
    var joins := AdmitAdds(db, user, i);
    NewRows(db, user, i, joins);
    extra := BefriendRows(db, user, i) + multiset{GrantRow(db, user, i)} + joins;
    assert Current(Admit(db, user, i).tuples) == Current(db.tuples) + extra;
  }

  lemma ReleaseUndoesAdmit(db: Db, user: UserId, i: InviteId)
    requires Inv(db) && i < |db.invites| && db.invites[i].offering < |db.offerings| && db.invites[i].usedBy.None?
    requires Inv(Admit(db, user, i)) && Admit(db, user, i).invites == db.invites[i := db.invites[i].(usedBy := Some(user))]
    ensures var after := ReleaseInvite(Admit(db, user, i), i);
            && Current(after.tuples) == Current(db.tuples)
            && |db.tuples| <= |after.tuples| && after.tuples[..|db.tuples|] == db.tuples
            && after.invites == db.invites
  {
    UnusedInviteHasNoRows(db, i);
    OldRowsStay(db, user, i);
    var extra := AdmitAddsTagged(db, user, i);
    ReleaseUntags(Admit(db, user, i), i);
    DroppingNewRows(Current(db.tuples), extra, Current(ReleaseInvite(Admit(db, user, i), i).tuples), i);
  }

  lemma DroppingNewRows(m: multiset<Body>, extra: multiset<Body>, after: multiset<Body>, i: InviteId)
    requires forall t :: t in m ==> t.tag != Some(i)
    requires forall t :: t in extra ==> t.tag == Some(i)
    requires Untagged(after, m + extra, i)
    ensures after == m
  {
    forall t
      ensures after[t] == m[t]
    {
      assert t !in m || t !in extra;
    }
  }

  lemma OldRowsStay(db: Db, user: UserId, i: InviteId)
    requires i < |db.invites| && db.invites[i].offering < |db.offerings|
    requires forall t :: t in Current(db.tuples) ==> t.tag != Some(i)
    ensures |db.tuples| <= |Admit(db, user, i).tuples|
    ensures Revoke(Admit(db, user, i).tuples, OfInvite(i, user))[..|db.tuples|] == db.tuples
  {
    var redeemed := Admit(db, user, i);
    assert db.tuples <= redeemed.tuples;
    forall k | 0 <= k < |db.tuples|
      ensures Revoke(redeemed.tuples, OfInvite(i, user))[k] == db.tuples[k]
    {
      if db.tuples[k].active {
        CurrentMeans(db.tuples, db.tuples[k].body);
      }
    }
  }

  /** The two are friends by other means than invite i, or have no grant by other means. */
  ghost predicate NotBy(m: multiset<Body>, i: InviteId, holder: UserId, owner: UserId) {
    || (exists tag :: tag != Some(i) && Friendship(holder, owner, tag) in m)
    || (forall t :: t in m && t.Grant? && {t.subject, t.owner} == {holder, owner} ==> t.tag == Some(i))
  }

  /** Releasing an invite keeps every grant between friends exactly when its
    * holder and its owner are also friends by other means, or no grant between
    * them came from anywhere but this invite. */
  lemma ReleaseKeepsFriendsIff(db: Db, i: InviteId)
    requires Inv(db) && i < |db.invites| && db.invites[i].usedBy.Some?
    requires GrantsJoinFriends(Current(db.tuples))
    ensures var m := Current(db.tuples);
            var holder, owner := db.invites[i].usedBy.value, db.invites[i].owner;
            GrantsJoinFriends(Current(ReleaseInvite(db, i).tuples)) <==> NotBy(m, i, holder, owner)
  {
    var m, after := Current(db.tuples), Current(ReleaseInvite(db, i).tuples);
    ReleaseUntags(db, i);
    DroppingATag(m, after, i, db.invites[i]);
  }

  lemma DroppingATag(m: multiset<Body>, after: multiset<Body>, i: InviteId, inv: Invite)
    requires Symmetric(m) && GrantsJoinFriends(m) && inv.usedBy.Some?
    requires forall t :: t in m && t.tag == Some(i) ==> Concerns(t, inv)
    requires Untagged(after, m, i)
    ensures GrantsJoinFriends(after) <==> NotBy(m, i, inv.usedBy.value, inv.owner)
  {
    var holder, owner := inv.usedBy.value, inv.owner;
    if exists tag :: tag != Some(i) && Friendship(holder, owner, tag) in m {
      var tag :| tag != Some(i) && Friendship(holder, owner, tag) in m;
      assert m[Friendship(owner, holder, tag)] > 0;
      assert Friendship(holder, owner, tag) in after && Friendship(owner, holder, tag) in after;
      assert FriendsIn(after, holder, owner) && FriendsIn(after, owner, holder);
    } else {
      assert forall tag :: after[Friendship(holder, owner, tag)] == 0;
      assert forall tag :: after[Friendship(owner, holder, tag)] == 0 by {
        assert forall tag :: m[Friendship(owner, holder, tag)] == m[Friendship(holder, owner, tag)];
      }
      assert !FriendsIn(after, holder, owner) && !FriendsIn(after, owner, holder);
      assert forall t :: t in m && t.Grant? && t.tag != Some(i) ==> t in after;
    }
    forall t | t in after && t.Grant? && {t.subject, t.owner} != {holder, owner}
      ensures FriendsIn(after, t.subject, t.owner)
    {
      var tag :| Friendship(t.subject, t.owner, tag) in m;
      assert Friendship(t.subject, t.owner, tag) in after;
    }
  }

  /** Friend rows tagged i between other people make no difference to the two. */
  lemma OnlyTheirFriendship(m: multiset<Body>, more: multiset<Body>, i: InviteId, holder: UserId, owner: UserId, user: UserId)
    requires m <= more && user != holder && user != owner
    requires forall t :: t in more && t !in m && t.Friendship? ==> {t.subject, t.other} == {user, owner}
    ensures FriendsIn(more, holder, owner) ==> FriendsIn(m, holder, owner)
    ensures FriendsIn(more, owner, holder) ==> FriendsIn(m, owner, holder)
  {
  }

  /** A takeover by Redeem keeps every grant between friends exactly when its
    * release does: when the earlier holder and the owner are friends by other
    * means, or no grant between them came from anywhere but the invite. */
  lemma TakeoverKeepsFriendsIff(db: Db, user: UserId, found: Option<InviteId>, now: Time)
    requires Inv(db) && GrantsJoinFriends(Current(db.tuples))
    requires TakesOver(db, user, found, now) && RedeemInvite(db, user, found, now).Success?
    ensures var i := FindInvite(db, found, now).value;
            GrantsJoinFriends(Current(Step(db, Redeem(user, found, now)).tuples))
            <==> NotBy(Current(db.tuples), i, db.invites[i].usedBy.value, db.invites[i].owner)
  {
    var i := TakeoverIs(db, user, found, now);
    ReleaseKeepsFriendsIff(db, i);
    AdmitAfterRelease(db, user, i);
  }

  lemma TakeoverIs(db: Db, user: UserId, found: Option<InviteId>, now: Time) returns (i: InviteId)
    requires TakesOver(db, user, found, now) && RedeemInvite(db, user, found, now).Success?
    ensures FindInvite(db, found, now) == Success(i) && i < |db.invites| && db.invites[i].offering < |db.offerings|
    ensures db.invites[i].usedBy.Some? && user != db.invites[i].usedBy.value && user != db.invites[i].owner
    ensures Step(db, Redeem(user, found, now)) == Admit(ReleaseInvite(db, i), user, i)
  {
    RedeemIs(db, user, found, now);
    i := FindInvite(db, found, now).value;
  }

  lemma AdmitAfterRelease(db: Db, user: UserId, i: InviteId)
    requires Inv(db) && GrantsJoinFriends(Current(db.tuples)) && i < |db.invites| && db.invites[i].usedBy.Some?
    requires user != db.invites[i].usedBy.value && user != db.invites[i].owner
    ensures GrantsJoinFriends(Current(Admit(ReleaseInvite(db, i), user, i).tuples))
            <==> GrantsJoinFriends(Current(ReleaseInvite(db, i).tuples))
  {
    var released := ReleaseInvite(db, i);
    ReleaseKeepsInv(db, i);
    AdmitKeepsInv(released, user, i);
    if !GrantsJoinFriends(Current(released.tuples)) {
      ReleaseUntags(db, i);
      AdmitOnlyAdds(released, user, i);
      StrandedStaysStranded(Current(db.tuples), Current(released.tuples), Current(Admit(released, user, i).tuples), i, db.invites[i], user);
    }
  }

  /** Admitting somebody adds friendships between them and the inviter only. */
  lemma AdmitOnlyAdds(db: Db, user: UserId, i: InviteId)
    requires i < |db.invites| && db.invites[i].offering < |db.offerings|
    ensures Current(db.tuples) <= Current(Admit(db, user, i).tuples)
    ensures forall t :: t in Current(Admit(db, user, i).tuples) && t !in Current(db.tuples) && t.Friendship? ==>
              {t.subject, t.other} == {user, db.invites[i].owner}
  {
    var joins := AdmitAdds(db, user, i);
    var extra := BefriendRows(db, user, i) + multiset{GrantRow(db, user, i)} + joins;
    assert Current(Admit(db, user, i).tuples) == Current(db.tuples) + extra;
    forall t | t in extra && t.Friendship? ensures {t.subject, t.other} == {user, db.invites[i].owner} {
      assert t in BefriendRows(db, user, i);
    }
  }

  lemma StrandedStaysStranded(m: multiset<Body>, fewer: multiset<Body>, more: multiset<Body>, i: InviteId, inv: Invite, user: UserId)
    requires GrantsJoinFriends(m) && inv.usedBy.Some? && Untagged(fewer, m, i)
    requires forall b :: b in m && b.tag == Some(i) ==> Concerns(b, inv)
    requires user != inv.usedBy.value && user != inv.owner && fewer <= more
    requires forall t :: t in more && t !in fewer && t.Friendship? ==> {t.subject, t.other} == {user, inv.owner}
    requires !GrantsJoinFriends(fewer)
    ensures !GrantsJoinFriends(more)
  {
    var t :| t in fewer && t.Grant? && !FriendsIn(fewer, t.subject, t.owner);
    StrandedIsTheirs(m, fewer, i, inv, t);
    OnlyTheirFriendship(fewer, more, i, inv.usedBy.value, inv.owner, user);
    assert t in more;
  }

  /** A grant a release strands is between the invite's holder and its owner. */
  lemma StrandedIsTheirs(m: multiset<Body>, fewer: multiset<Body>, i: InviteId, inv: Invite, t: Body)
    requires GrantsJoinFriends(m) && inv.usedBy.Some? && Untagged(fewer, m, i)
    requires forall b :: b in m && b.tag == Some(i) ==> Concerns(b, inv)
    requires t in fewer && t.Grant? && !FriendsIn(fewer, t.subject, t.owner)
    ensures (t.subject == inv.usedBy.value && t.owner == inv.owner) || (t.subject == inv.owner && t.owner == inv.usedBy.value)
  {
    assert t in m;
    var tag :| Friendship(t.subject, t.owner, tag) in m;
    assert Friendship(t.subject, t.owner, tag) !in fewer;
  }

  /** Taking an invite over can leave a grant between people who are no longer
    * friends: 2 accepts 1's invite, is then granted other space on request, and
    * 3 takes the invite over. */
  const STRANDING: seq<Op> := [
    Publish(1, 7, MirrorPeer, 10, true), Publish(1, 7, CatcherPeer, 10, true), Invites(1, 0, 5, 100, None),
    Redeem(2, Some(0), 0), Ask(2, 1, 5), DecideAsk(0, true), Redeem(3, Some(0), 0)]

  /** After the first three operations. */
  const INVITED: Db := Db([], [], [Offering(1, 7, MirrorPeer, 10, false), Offering(1, 7, CatcherPeer, 10, false)], [],
                          [Invite(1, 0, 5, 100, None, None, false, false)], [])

  const STRANDED: Body := Grant(2, CatcherPeer, 7, 1, 5, 1, None)

  /** After 2's own request was granted. */
  const GRANTED: Db := Db(
    [Tuple(Friendship(2, 1, Some(0)), true), Tuple(Friendship(1, 2, Some(0)), true),
     Tuple(Grant(2, MirrorPeer, 7, 1, 5, 0, Some(0)), true), Tuple(STRANDED, true)],
    [], INVITED.offerings, [AccessRequest(1, 2, 5, Accepted)], [Invite(1, 0, 5, 100, None, Some(2), false, false)], [])

  lemma StrandingSoFar()
    ensures Run(STRANDING[..3]) == INVITED
  {
    assert STRANDING[..3][..2] == STRANDING[..2] && STRANDING[..2][..1] == STRANDING[..1] && STRANDING[..1][..0] == [];
    assert Run(STRANDING[..1]) == INVITED.(offerings := INVITED.offerings[..1], invites := []);
    assert Run(STRANDING[..2]) == INVITED.(invites := []);
  }

  /** After 2 has accepted. */
  const ACCEPTED: Db := INVITED.(tuples := [GRANTED.tuples[0], GRANTED.tuples[1], GRANTED.tuples[2]], invites := GRANTED.invites)

  lemma FirstAcceptance()
    ensures RedeemInvite(INVITED, 2, Some(0), 0) == Success(ACCEPTED)
  {
    var inv := INVITED.invites[0];
    assert FindInvite(INVITED, Some(0), 0) == Success(0);
    assert !AreFriends(INVITED.tuples, 2, 1) && !HasGrant(INVITED.tuples, 2, 7, 1, MirrorPeer);
    assert InsertBoth(INVITED, 2, 1, Some(0)).tuples == [GRANTED.tuples[0], GRANTED.tuples[1]];
    assert INVITED.invites[0 := inv.(usedBy := Some(2))] == GRANTED.invites;
    assert Admit(INVITED, 2, 0).tuples == ACCEPTED.tuples;
    assert RedeemInvite(INVITED, 2, Some(0), 0) == Success(Admit(INVITED, 2, 0));
  }

  lemma ThenGranted()
    ensures Step(Step(ACCEPTED, Ask(2, 1, 5)), DecideAsk(0, true)) == GRANTED
  {
    assert ACCEPTED.tuples[0].active && ACCEPTED.tuples[0].body == Friendship(2, 1, Some(0));
    assert AreFriends(ACCEPTED.tuples, 2, 1);
    assert !HasGrant(ACCEPTED.tuples, 2, 7, 1, CatcherPeer);
    var asked := ACCEPTED.(accessRequests := [AccessRequest(1, 2, 5, Waiting)]);
    assert ACCEPTED.accessRequests == [] && ACCEPTED.offerings[1] == Offering(1, 7, CatcherPeer, 10, false);
    assert ACCEPTED.accessRequests + [AccessRequest(1, 2, 5, Waiting)] == asked.accessRequests;
    assert CreateAccessRequest(ACCEPTED, 2, 1, 5) == Success(asked);
    assert asked.accessRequests[0 := AccessRequest(1, 2, 5, Accepted)] == GRANTED.accessRequests;
    assert ACCEPTED.tuples + [Tuple(STRANDED, true)] == GRANTED.tuples;
  }

  lemma StrandingThenGranted()
    ensures Run(STRANDING[..6]) == GRANTED
  {
    StrandingSoFar();
    FirstAcceptance();
    ThenGranted();
    assert STRANDING[..4][..3] == STRANDING[..3];
    assert Run(STRANDING[..4]) == Step(INVITED, Redeem(2, Some(0), 0)) == ACCEPTED;
    assert STRANDING[..5][..4] == STRANDING[..4];
    assert Run(STRANDING[..5]) == Step(ACCEPTED, Ask(2, 1, 5));
    assert STRANDING[..6][..5] == STRANDING[..5];
    assert Run(STRANDING[..6]) == Step(Run(STRANDING[..5]), DecideAsk(0, true));
  }

  lemma GrantedIsFine()
    ensures GrantsJoinFriends(Current(GRANTED.tuples))
  {
    CurrentMeans(GRANTED.tuples, Friendship(2, 1, Some(0)));
    assert GRANTED.tuples[0] == Tuple(Friendship(2, 1, Some(0)), true);
    forall t | t in Current(GRANTED.tuples) && t.Grant?
      ensures FriendsIn(Current(GRANTED.tuples), t.subject, t.owner)
    {
      CurrentMeans(GRANTED.tuples, t);
    }
  }

  lemma TakenOver()
    ensures RedeemInvite(GRANTED, 3, Some(0), 0) == Success(Admit(ReleaseInvite(GRANTED, 0), 3, 0))
  {
    assert FindInvite(GRANTED, Some(0), 0) == Success(0);
    var released := ReleaseInvite(GRANTED, 0);
    assert !HasGrant(released.tuples, 3, 7, 1, MirrorPeer);
  }

  lemma AfterRelease()
    ensures var released := ReleaseInvite(GRANTED, 0).tuples;
            STRANDED in Current(released) && forall tag :: Friendship(2, 1, tag) !in Current(released)
  {
    var released := ReleaseInvite(GRANTED, 0).tuples;
    assert released[3] == Tuple(STRANDED, true);
    CurrentMeans(released, STRANDED);
    forall tag
      ensures Friendship(2, 1, tag) !in Current(released)
    {
      CurrentMeans(released, Friendship(2, 1, tag));
    }
  }

  lemma AfterTakeover()
    ensures var taken := Admit(ReleaseInvite(GRANTED, 0), 3, 0).tuples;
            STRANDED in Current(taken) && forall tag :: Friendship(2, 1, tag) !in Current(taken)
  {
    AfterRelease();
    var released := ReleaseInvite(GRANTED, 0);
    var joins := AdmitAdds(released, 3, 0);
    assert released.invites[0].owner == 1;
    forall tag
      ensures Friendship(2, 1, tag) !in Current(Admit(released, 3, 0).tuples)
    {
      assert Friendship(2, 1, tag) !in BefriendRows(released, 3, 0);
    }
  }

  lemma TakeoverCanStrandAGrant()
    ensures GrantsJoinFriends(Current(Run(STRANDING[..6]).tuples))
    ensures !GrantsJoinFriends(Current(Run(STRANDING).tuples))
  {
    StrandingThenGranted();
    GrantedIsFine();
    TakenOver();
    AfterTakeover();
    assert STRANDING[..6] == STRANDING[..|STRANDING| - 1];
    assert Run(STRANDING) == Step(GRANTED, Redeem(3, Some(0), 0));
  }

  // ---- Granting again after a revocation ---------------------------------------------

  /** What a host's daemon is sent about its owner's backup grants: in the order
    * they were made, revoked ones included. */
  function GrantsForDaemon(tuples: seq<Tuple>, owner: UserId, host: HostId): seq<(UserId, bool)> {
    if tuples == [] then []
    else
      var t := tuples[|tuples| - 1];
      GrantsForDaemon(tuples[..|tuples| - 1], owner, host)
      + (if t.body.Grant? && t.body.relation == BackupPeer && t.body.owner == owner && t.body.host == host
         then [(t.body.subject, t.active)] else [])
  }

  const PUBLISHED: Db := EMPTY.(offerings := [Offering(1, 7, BackupPeer, 10, false)])

  const FRIENDS: Db := PUBLISHED.(
    tuples := [Tuple(Friendship(1, 2, None), true), Tuple(Friendship(2, 1, None), true)],
    friendRequests := [FriendRequest(1, 2, Accepted)])

  function GrantedTo2(active: bool): Tuple {
    Tuple(Grant(2, BackupPeer, 7, 1, 5, 0, None), active)
  }

  lemma Befriended()
    ensures Run([Publish(1, 7, BackupPeer, 10, true), Befriend(1, Some(2)), DecideFriend(0, true)]) == FRIENDS
  {
    var ops := [Publish(1, 7, BackupPeer, 10, true), Befriend(1, Some(2)), DecideFriend(0, true)];
    assert ops[..2][..1] == ops[..1] && ops[..1][..0] == [];
    assert Run(ops[..1]) == PUBLISHED;
    var asked := PUBLISHED.(friendRequests := [FriendRequest(1, 2, Waiting)]);
    assert Run(ops[..2]) == asked;
    assert asked.friendRequests[0 := FriendRequest(1, 2, Accepted)] == FRIENDS.friendRequests;
    assert InsertBoth(asked, 1, 2, None).tuples == FRIENDS.tuples;
  }

  /** 2 asks for space and is granted it. */
  lemma AsksAndIsGranted(tuples: seq<Tuple>, requests: seq<AccessRequest>)
    requires FRIENDS.tuples <= tuples && !HasGrant(tuples, 2, 7, 1, BackupPeer)
    requires forall k :: 0 <= k < |requests| ==> requests[k].status != Waiting
    ensures var db := FRIENDS.(tuples := tuples, accessRequests := requests);
            Step(Step(db, Ask(2, 0, 5)), DecideAsk(|requests|, true))
            == db.(tuples := tuples + [GrantedTo2(true)], accessRequests := requests + [AccessRequest(0, 2, 5, Accepted)])
  {
    var db := FRIENDS.(tuples := tuples, accessRequests := requests);
    assert tuples[1] == Tuple(Friendship(2, 1, None), true);
    assert AreFriends(tuples, 2, 1);
    var asked := db.(accessRequests := requests + [AccessRequest(0, 2, 5, Waiting)]);
    assert CreateAccessRequest(db, 2, 0, 5) == Success(asked);
    assert asked.accessRequests[|requests| := AccessRequest(0, 2, 5, Accepted)] == requests + [AccessRequest(0, 2, 5, Accepted)];
  }

  lemma RunOneMore(ops: seq<Op>, op: Op)
    ensures Run(ops + [op]) == Step(Run(ops), op)
  {
    assert (ops + [op])[..|ops|] == ops;
  }

  /** 2 is granted space on 1's host, it is revoked, and granted again: the daemon
    * is sent the revoked grant before the active one. */
  lemma RegrantIsListedAfterRevoked() returns (ops: seq<Op>)
    ensures GrantsForDaemon(Run(ops).tuples, 1, 7) == [(2, false), (2, true)]
  {
    var first := [Publish(1, 7, BackupPeer, 10, true), Befriend(1, Some(2)), DecideFriend(0, true)];
    Befriended();
    AsksAndIsGranted(FRIENDS.tuples, []);
    assert [] + [AccessRequest(0, 2, 5, Accepted)] == [AccessRequest(0, 2, 5, Accepted)];
    var second := first + [Ask(2, 0, 5)] + [DecideAsk(0, true)];
    RunOneMore(first, Ask(2, 0, 5));
    RunOneMore(first + [Ask(2, 0, 5)], DecideAsk(0, true));
    var granted := FRIENDS.(tuples := FRIENDS.tuples + [GrantedTo2(true)], accessRequests := [AccessRequest(0, 2, 5, Accepted)]);
    assert Run(second) == granted;
    var third := second + [EndGrant(1, 2)];
    RunOneMore(second, EndGrant(1, 2));
    var revoked := FRIENDS.tuples + [GrantedTo2(false)];
    assert granted.tuples[2 := GrantedTo2(false)] == revoked;
    assert Run(third) == granted.(tuples := revoked);
    AsksAndIsGranted(revoked, granted.accessRequests);
    RunOneMore(third, Ask(2, 0, 5));
    RunOneMore(third + [Ask(2, 0, 5)], DecideAsk(1, true));
    ops := third + [Ask(2, 0, 5)] + [DecideAsk(1, true)];
    ListOfTwo();
  }

  lemma ListOfTwo()
    ensures GrantsForDaemon(FRIENDS.tuples + [GrantedTo2(false)] + [GrantedTo2(true)], 1, 7) == [(2, false), (2, true)]
  {
    var all := FRIENDS.tuples + [GrantedTo2(false)] + [GrantedTo2(true)];
    assert all[..3] == FRIENDS.tuples + [GrantedTo2(false)] && all[..3][..2] == FRIENDS.tuples;
    assert FRIENDS.tuples[..1] == [FRIENDS.tuples[0]] && FRIENDS.tuples[..1][..0] == [];
    assert GrantsForDaemon(FRIENDS.tuples, 1, 7) == [];
  }
}
