/** The trust framework's tuple store: casper_service/trust.py. Every operation
  * is one transaction; an error leaves the tables as they were. */
module Trust {
  import opened Prelude

  type UserId = nat
  type HostId = nat
  type InviteId = nat
  type Time = int

  datatype Relation = BackupPeer | MirrorPeer | CatcherPeer

  /** What a relation tuple says. tag is the invite recorded in its attributes. */
  datatype Body =
    | Friendship(subject: UserId, other: UserId, tag: Option<InviteId>)
    | Grant(subject: UserId, relation: Relation, host: HostId, owner: UserId, quota: int, offering: nat, tag: Option<InviteId>)
    | Membership(subject: UserId, group: nat, tag: Option<InviteId>)

  /** A row; its id is its position, and revoking only clears active. */
  datatype Tuple = Tuple(body: Body, active: bool)

  datatype Status = Waiting | Accepted | Declined

  datatype FriendRequest = FriendRequest(sender: UserId, receiver: UserId, status: Status)

  datatype Offering = Offering(owner: UserId, host: HostId, relation: Relation, maxQuota: int, withdrawn: bool)

  datatype AccessRequest = AccessRequest(offering: nat, requester: UserId, quota: int, status: Status)

  datatype Invite = Invite(
    owner: UserId, offering: nat, quota: int, expires: Time, group: Option<nat>,
    usedBy: Option<UserId>, cancelled: bool, completed: bool)

  datatype Db = Db(
    tuples: seq<Tuple>,
    friendRequests: seq<FriendRequest>,
    offerings: seq<Offering>,
    accessRequests: seq<AccessRequest>,
    invites: seq<Invite>,
    groups: seq<UserId>)

  const EMPTY := Db([], [], [], [], [], [])

  datatype Error = NotFound | Yourself | AlreadyFriends | AlreadyPending | NotFriends | NotYours | OutOfRange
    | AlreadyGranted | InviteCancelled | InviteUsed | InviteExpired

  // ---- Reading the tuples -----------------------------------------------------

  /** The bodies of the rows that are not revoked. */
  function Current(tuples: seq<Tuple>): multiset<Body> {
    if tuples == [] then multiset{}
    else
      var last := tuples[|tuples| - 1];
      Current(tuples[..|tuples| - 1]) + (if last.active then multiset{last.body} else multiset{})
  }

  predicate AreFriends(tuples: seq<Tuple>, a: UserId, b: UserId) {
    exists k :: 0 <= k < |tuples| && tuples[k].active && tuples[k].body.Friendship?
      && tuples[k].body.subject == a && tuples[k].body.other == b
  }

  predicate HasGrant(tuples: seq<Tuple>, grantee: UserId, host: HostId, owner: UserId, relation: Relation) {
    exists k :: 0 <= k < |tuples| && tuples[k].active && tuples[k].body.Grant? && tuples[k].body.subject == grantee
      && tuples[k].body.host == host && tuples[k].body.owner == owner && tuples[k].body.relation == relation
  }

  predicate IsMember(tuples: seq<Tuple>, user: UserId, group: nat) {
    exists k :: 0 <= k < |tuples| && tuples[k].active && tuples[k].body.Membership?
      && tuples[k].body.subject == user && tuples[k].body.group == group
  }

  // ---- Revoking -----------------------------------------------------------------

  /** The rows one bulk update or loop revokes. */
  datatype Sweep =
    | FriendsBetween(a: UserId, b: UserId)
    | MembersBetween(a: UserId, b: UserId, groups: seq<UserId>)
    | GrantsBetween(a: UserId, b: UserId)
    | OfInvite(invite: InviteId, earlier: UserId)

  predicate Swept(s: Sweep, t: Body) {
    match s
    case FriendsBetween(a, b) =>
      t.Friendship? && ((t.subject == a && t.other == b) || (t.subject == b && t.other == a))
    case MembersBetween(a, b, groups) =>
      t.Membership? && t.group < |groups| && ((t.subject == a && groups[t.group] == b) || (t.subject == b && groups[t.group] == a))
    case GrantsBetween(a, b) =>
      t.Grant? && ((t.subject == a && t.owner == b) || (t.subject == b && t.owner == a))
    case OfInvite(i, earlier) =>
      t.tag == Some(i) && (t.subject == earlier || (t.Friendship? && t.other == earlier))
  }

  function Revoke(tuples: seq<Tuple>, s: Sweep): (r: seq<Tuple>)
    ensures |r| == |tuples|
  {
    seq(|tuples|, k requires 0 <= k < |tuples| => if Swept(s, tuples[k].body) then tuples[k].(active := false) else tuples[k])
  }

  lemma RevokeInit(tuples: seq<Tuple>, s: Sweep)
    requires tuples != []
    ensures Revoke(tuples, s)[..|tuples| - 1] == Revoke(tuples[..|tuples| - 1], s)
  {
  }

  lemma {:induction false} RevokeRemoves(tuples: seq<Tuple>, s: Sweep, t: Body)
    ensures Current(Revoke(tuples, s))[t] == if Swept(s, t) then 0 else Current(tuples)[t]
  {
    if tuples != [] {
      var init := tuples[..|tuples| - 1];
      RevokeRemoves(init, s, t);
      RevokeInit(tuples, s);
    }
  }

  lemma CurrentAppend(tuples: seq<Tuple>, t: Body)
    ensures Current(tuples + [Tuple(t, true)]) == Current(tuples) + multiset{t}
  {
    assert (tuples + [Tuple(t, true)])[..|tuples|] == tuples;
  }

  lemma {:induction false} CurrentMeans(tuples: seq<Tuple>, t: Body)
    ensures t in Current(tuples) <==> exists k :: 0 <= k < |tuples| && tuples[k] == Tuple(t, true)
  {
    if tuples != [] {
      var init := tuples[..|tuples| - 1];
      CurrentMeans(init, t);
      assert forall k :: 0 <= k < |init| ==> init[k] == tuples[k];
    }
  }

  lemma CurrentLast(tuples: seq<Tuple>, init: seq<Tuple>, last: Tuple)
    requires tuples != [] && tuples[..|tuples| - 1] == init && tuples[|tuples| - 1] == last
    ensures Current(tuples) == Current(init) + (if last.active then multiset{last.body} else multiset{})
  {
  }

  lemma LessThenMore(m: multiset<Body>, gone: Body, more: multiset<Body>)
    requires gone in m
    ensures m - multiset{gone} + more == m + more - multiset{gone}
  {
  }

  /** Revoking one current row takes away that row, once. */
  lemma {:induction false} EndingOneRow(tuples: seq<Tuple>, id: nat)
    requires id < |tuples| && tuples[id].active
    ensures Current(tuples[id := tuples[id].(active := false)]) == Current(tuples) - multiset{tuples[id].body}
  {
    var n, row := |tuples| - 1, tuples[id].body;
    var init, last := tuples[..n], tuples[n];
    var ended := tuples[id := tuples[id].(active := false)];
    CurrentLast(tuples, init, last);
    if id < n {
      assert init[id] == Tuple(row, true);
      EndingOneRow(init, id);
      CurrentMeans(init, row);
      CurrentLast(ended, init[id := init[id].(active := false)], last);
      LessThenMore(Current(init), row, if last.active then multiset{last.body} else multiset{});
    } else {
      CurrentLast(ended, init, Tuple(row, false));
    }
  }

  ghost predicate FriendsIn(m: multiset<Body>, a: UserId, b: UserId) {
    exists tag :: Friendship(a, b, tag) in m
  }

  lemma FriendsAre(tuples: seq<Tuple>, a: UserId, b: UserId)
    ensures AreFriends(tuples, a, b) <==> FriendsIn(Current(tuples), a, b)
  {
    if AreFriends(tuples, a, b) {
      var k :| 0 <= k < |tuples| && tuples[k].active && tuples[k].body.Friendship?
        && tuples[k].body.subject == a && tuples[k].body.other == b;
      CurrentMeans(tuples, tuples[k].body);
      assert Friendship(a, b, tuples[k].body.tag) in Current(tuples);
    }
    if FriendsIn(Current(tuples), a, b) {
      var tag :| Friendship(a, b, tag) in Current(tuples);
      CurrentMeans(tuples, Friendship(a, b, tag));
    }
  }

  // ---- The operations -------------------------------------------------------------

  function Insert(db: Db, t: Body): Db {
    db.(tuples := db.tuples + [Tuple(t, true)])
  }

  function InsertBoth(db: Db, a: UserId, b: UserId, tag: Option<InviteId>): Db {
    Insert(Insert(db, Friendship(a, b, tag)), Friendship(b, a, tag))
  }

  function CreateFriendRequest(db: Db, sender: UserId, receiver: Option<UserId>): Result<Db, Error> {
    if receiver.None? then Failure(NotFound)
    else if receiver.value == sender then Failure(Yourself)
    else if AreFriends(db.tuples, sender, receiver.value) then Failure(AlreadyFriends)
    else if exists k :: 0 <= k < |db.friendRequests| && db.friendRequests[k].status == Waiting
              && {db.friendRequests[k].sender, db.friendRequests[k].receiver} == {sender, receiver.value} then Failure(AlreadyPending)
    else Success(db.(friendRequests := db.friendRequests + [FriendRequest(sender, receiver.value, Waiting)]))
  }

  function DecideFriendRequest(db: Db, id: nat, accept: bool): Db {
    if id >= |db.friendRequests| || db.friendRequests[id].status != Waiting then db
    else
      var r := db.friendRequests[id];
      var decided := db.(friendRequests := db.friendRequests[id := r.(status := if accept then Accepted else Declined)]);
      if accept then InsertBoth(decided, r.sender, r.receiver, None) else decided
  }

  function RemoveFriend(db: Db, user: UserId, other: Option<UserId>): Result<Db, Error> {
    if other.None? || !AreFriends(db.tuples, user, other.value) then Failure(NotFound)
    else
      var o := other.value;
      Success(db.(tuples := Revoke(Revoke(Revoke(db.tuples, FriendsBetween(user, o)), MembersBetween(user, o, db.groups)), GrantsBetween(user, o))))
  }

  function PublishOffering(db: Db, owner: UserId, host: HostId, relation: Relation, maxQuota: int, paired: bool): Result<Db, Error> {
    if !paired then Failure(NotYours)
    else Success(db.(offerings := db.offerings + [Offering(owner, host, relation, maxQuota, false)]))
  }

  function WithdrawOffering(db: Db, owner: UserId, id: nat): Result<Db, Error> {
    if id >= |db.offerings| || db.offerings[id].owner != owner || db.offerings[id].withdrawn then Failure(NotFound)
    else Success(db.(offerings := db.offerings[id := db.offerings[id].(withdrawn := true)]))
  }

  function CreateAccessRequest(db: Db, requester: UserId, id: nat, quota: int): Result<Db, Error> {
    if id >= |db.offerings| || db.offerings[id].withdrawn then Failure(NotFound)
    else
      var o := db.offerings[id];
      if o.owner == requester then Failure(Yourself)
      else if !AreFriends(db.tuples, requester, o.owner) then Failure(NotFriends)
      else if quota <= 0 || quota > o.maxQuota then Failure(OutOfRange)
      else if HasGrant(db.tuples, requester, o.host, o.owner, o.relation) then Failure(AlreadyGranted)
      else if exists k :: 0 <= k < |db.accessRequests| && db.accessRequests[k].offering == id
                && db.accessRequests[k].requester == requester && db.accessRequests[k].status == Waiting then Failure(AlreadyPending)
      else Success(db.(accessRequests := db.accessRequests + [AccessRequest(id, requester, quota, Waiting)]))
  }

  function DecideAccessRequest(db: Db, id: nat, grant: bool): Db {
    if id >= |db.accessRequests| || db.accessRequests[id].status != Waiting || db.accessRequests[id].offering >= |db.offerings| then db
    else
      var r := db.accessRequests[id];
      var o := db.offerings[r.offering];
      var decided := db.(accessRequests := db.accessRequests[id := r.(status := if grant then Accepted else Declined)]);
      if grant && AreFriends(db.tuples, r.requester, o.owner)
      then Insert(decided, Grant(r.requester, o.relation, o.host, o.owner, r.quota, r.offering, None))
      else decided
  }

  function RevokeGrant(db: Db, actor: UserId, id: nat): Result<Db, Error> {
    if id >= |db.tuples| || !db.tuples[id].active || !db.tuples[id].body.Grant?
       || actor !in {db.tuples[id].body.owner, db.tuples[id].body.subject} then Failure(NotFound)
    else Success(db.(tuples := db.tuples[id := db.tuples[id].(active := false)]))
  }

  function CreateInvite(db: Db, owner: UserId, id: nat, quota: int, expires: Time, group: Option<nat>): Result<Db, Error> {
    if id >= |db.offerings| || db.offerings[id].owner != owner || db.offerings[id].withdrawn then Failure(NotFound)
    else if quota <= 0 || quota > db.offerings[id].maxQuota then Failure(OutOfRange)
    else Success(db.(invites := db.invites + [Invite(owner, id, quota, expires, group, None, false, false)]))
  }

  /** Which invite a code's hash finds, if it is still good. */
  function FindInvite(db: Db, found: Option<InviteId>, now: Time): Result<InviteId, Error> {
    if found.None? || found.value >= |db.invites| || db.invites[found.value].offering >= |db.offerings| then Failure(NotFound)
    else
      var inv := db.invites[found.value];
      if inv.cancelled || db.offerings[inv.offering].withdrawn then Failure(InviteCancelled)
      else if inv.completed then Failure(InviteUsed)
      else if inv.usedBy.None? && inv.expires < now then Failure(InviteExpired)
      else Success(found.value)
  }

  /** Undoes an unfinished acceptance. */
  function ReleaseInvite(db: Db, i: InviteId): Db
    requires i < |db.invites| && db.invites[i].usedBy.Some?
  {
    db.(tuples := Revoke(db.tuples, OfInvite(i, db.invites[i].usedBy.value)),
        invites := db.invites[i := db.invites[i].(usedBy := None)])
  }

  /** The rows a fresh acceptance adds. */
  function Admit(db: Db, user: UserId, i: InviteId): Db
    requires i < |db.invites| && db.invites[i].offering < |db.offerings|
  {
    var inv := db.invites[i];
    var o := db.offerings[inv.offering];
    var befriended := if AreFriends(db.tuples, user, inv.owner) then db else InsertBoth(db, user, inv.owner, Some(i));
    var granted := Insert(befriended, Grant(user, o.relation, o.host, inv.owner, inv.quota, inv.offering, Some(i)));
    var joined := if inv.group.Some? && !IsMember(granted.tuples, user, inv.group.value)
                  then Insert(granted, Membership(user, inv.group.value, Some(i))) else granted;
    joined.(invites := joined.invites[i := inv.(usedBy := Some(user))])
  }

  function RedeemInvite(db: Db, user: UserId, found: Option<InviteId>, now: Time): Result<Db, Error> {
    var checked := FindInvite(db, found, now);
    if checked.Failure? then Failure(checked.error)
    else
      var i := checked.value;
      var inv := db.invites[i];
      var o := db.offerings[inv.offering];
      if inv.owner == user then Failure(Yourself)
      else if inv.usedBy == Some(user) then Success(db)
      else
        var released := if inv.usedBy.Some? then ReleaseInvite(db, i) else db;
        if HasGrant(released.tuples, user, o.host, inv.owner, o.relation) then Failure(AlreadyGranted)
        else Success(Admit(released, user, i))
  }

  function CompleteInvites(db: Db, user: UserId): Db {
    db.(invites := seq(|db.invites|, k requires 0 <= k < |db.invites| =>
      if db.invites[k].usedBy == Some(user) then db.invites[k].(completed := true) else db.invites[k]))
  }

  function CancelInvite(db: Db, owner: UserId, i: InviteId): Result<Db, Error> {
    if i >= |db.invites| || db.invites[i].owner != owner || db.invites[i].completed || db.invites[i].cancelled then Failure(NotFound)
    else Success(db.(invites := db.invites[i := db.invites[i].(cancelled := true)]))
  }

  /** group_named, when the owner has no group of that name yet. */
  function CreateGroup(db: Db, owner: UserId): Db {
    db.(groups := db.groups + [owner])
  }
}
