/** What each Mac is told to mirror and to hold: desired_state in
  * casper_service/mirroring.py, and the merge over paired identities in
  * agent/internal/mirrord/service.go. */
module DesiredState {
  import opened Prelude
  import opened Wanted

  type UserId = nat
  type HostId = nat
  type GrantId = nat

  datatype FolderRow = FolderRow(
    id: string, ownerUser: UserId, ownerHost: HostId, path: string, caption: string, active: bool,
    useCasperCatcher: bool, restoreHost: Option<HostId>, restorePath: string)

  datatype TargetRow = TargetRow(
    folderId: string, mirror: bool, grant: GrantId, peerOwner: UserId, peerHost: HostId, removed: bool)

  datatype GrantRow = GrantRow(revoked: bool, quotaBytes: int)

  datatype DeviceRow = DeviceRow(id: string, addresses: seq<string>, name: string)

  /** The tables desired_state reads; devices are by the host they run on. */
  datatype Db = Db(
    folders: seq<FolderRow>, targets: seq<TargetRow>, grants: map<GrantId, GrantRow>,
    devices: map<HostId, DeviceRow>, casperCatcher: Option<DeviceRow>, userNames: UserId -> string)

  predicate Live(db: Db, t: TargetRow) {
    !t.removed && t.grant in db.grants && !db.grants[t.grant].revoked
  }

  /** The devices of f's live targets in one role, in table order. */
  function Devices(db: Db, targets: seq<TargetRow>, f: FolderRow, mirror: bool): seq<string> {
    if targets == [] then []
    else
      var t := targets[|targets| - 1];
      Devices(db, targets[..|targets| - 1], f, mirror)
      + (if t.folderId == f.id && Live(db, t) && t.mirror == mirror && t.peerHost in db.devices then [db.devices[t.peerHost].id] else [])
  }

  /** The last catcher wins; Casper's own is the fallback. */
  function CatcherFor(db: Db, f: FolderRow): string {
    var catchers := Devices(db, db.targets, f, false);
    if catchers != [] && catchers[|catchers| - 1] != "" then catchers[|catchers| - 1]
    else if f.useCasperCatcher && db.casperCatcher.Some? then db.casperCatcher.value.id
    else ""
  }

  predicate RestoringOn(f: FolderRow, host: HostId) {
    f.restoreHost == Some(host) && f.ownerHost != host
  }

  function OwnedEntry(db: Db, f: FolderRow, host: HostId): OwnedFolder {
    OwnedFolder(f.id, f.caption, if RestoringOn(f, host) then f.restorePath else f.path,
                Devices(db, db.targets, f, true), CatcherFor(db, f), RestoringOn(f, host), "")
  }

  predicate OwnedOn(f: FolderRow, user: UserId, host: HostId) {
    f.ownerUser == user && f.active && (f.ownerHost == host || f.restoreHost == Some(host))
  }

  function OwnedEntries(db: Db, folders: seq<FolderRow>, user: UserId, host: HostId): seq<OwnedFolder> {
    if folders == [] then []
    else
      var f := folders[|folders| - 1];
      OwnedEntries(db, folders[..|folders| - 1], user, host) + (if OwnedOn(f, user, host) then [OwnedEntry(db, f, host)] else [])
  }

  /** The owner's usual Mac, then a replacement while it restores. */
  function OwnerDevices(db: Db, f: FolderRow): seq<string> {
    (if f.ownerHost in db.devices then [db.devices[f.ownerHost].id] else [])
    + (if f.restoreHost.Some? && f.restoreHost.value in db.devices then [db.devices[f.restoreHost.value].id] else [])
  }

  function FindFolder(folders: seq<FolderRow>, id: string): Option<FolderRow> {
    if folders == [] then None else if folders[0].id == id then Some(folders[0]) else FindFolder(folders[1..], id)
  }

  predicate HeldOn(db: Db, t: TargetRow, user: UserId, host: HostId) {
    var f := FindFolder(db.folders, t.folderId);
    t.peerHost == host && t.peerOwner == user && Live(db, t) && f.Some? && f.value.active && OwnerDevices(db, f.value) != []
  }

  function HeldEntry(db: Db, t: TargetRow): HeldFolder
    requires FindFolder(db.folders, t.folderId).Some? && t.grant in db.grants
  {
    var f := FindFolder(db.folders, t.folderId).value;
    HeldFolder(t.folderId, db.userNames(f.ownerUser) + ": " + f.caption, OwnerDevices(db, f),
               if t.mirror then MirrorKind else CatcherKind, db.grants[t.grant].quotaBytes)
  }

  function HeldEntries(db: Db, targets: seq<TargetRow>, user: UserId, host: HostId): seq<HeldFolder> {
    if targets == [] then []
    else
      var t := targets[|targets| - 1];
      HeldEntries(db, targets[..|targets| - 1], user, host) + (if HeldOn(db, t, user, host) then [HeldEntry(db, t)] else [])
  }

  predicate IsPeer(peers: seq<Peer>, id: string) {
    exists k :: 0 <= k < |peers| && peers[k].deviceId == id
  }

  ghost predicate AllPeers(peers: seq<Peer>, ids: seq<string>) {
    forall k :: 0 <= k < |ids| ==> IsPeer(peers, ids[k])
  }

  ghost predicate OwnedCovered(peers: seq<Peer>, owned: seq<OwnedFolder>) {
    forall i :: 0 <= i < |owned| ==> AllPeers(peers, owned[i].mirrors) && (owned[i].catcher != "" ==> IsPeer(peers, owned[i].catcher))
  }

  ghost predicate HeldCovered(peers: seq<Peer>, held: seq<HeldFolder>) {
    forall i :: 0 <= i < |held| ==> AllPeers(peers, held[i].owners)
  }

  /** Every device an entry names is among the peers. */
  ghost predicate Covered(d: Desired) {
    OwnedCovered(d.peers, d.owned) && HeldCovered(d.peers, d.held)
  }

  /** more has a peer for every id that fewer has one for. */
  ghost predicate PeersGrow(fewer: seq<Peer>, more: seq<Peer>) {
    forall id :: IsPeer(fewer, id) ==> IsPeer(more, id)
  }

  ghost predicate DistinctPeers(peers: seq<Peer>) {
    forall j, k :: 0 <= j < k < |peers| ==> peers[j].deviceId != peers[k].deviceId
  }

  /** Each is the device of some host, or Casper's catcher, under its own name and
    * with its own addresses. */
  ghost predicate RealDevices(db: Db, peers: seq<Peer>) {
    forall k :: 0 <= k < |peers| ==>
      || (exists h :: h in db.devices && IsDevice(peers[k], db.devices[h]))
      || (db.casperCatcher.Some? && IsDevice(peers[k], db.casperCatcher.value))
  }

  predicate IsDevice(p: Peer, dev: DeviceRow) {
    p.deviceId == dev.id && p.name == dev.name && p.addresses == dev.addresses
  }

  lemma AddingStaysReal(db: Db, peers: seq<Peer>, dev: DeviceRow)
    requires RealDevices(db, peers)
    requires (exists h :: h in db.devices && db.devices[h] == dev) || db.casperCatcher == Some(dev)
    ensures RealDevices(db, AddPeer(peers, dev))
  {
    var r := AddPeer(peers, dev);
    forall k | 0 <= k < |r|
      ensures (exists h :: h in db.devices && IsDevice(r[k], db.devices[h])) || (db.casperCatcher.Some? && IsDevice(r[k], db.casperCatcher.value))
    {
      if r[k] in peers {
        var j :| 0 <= j < |peers| && peers[j] == r[k];
      } else if h :| h in db.devices && db.devices[h] == dev {
        assert IsDevice(r[k], db.devices[h]);
      }
    }
  }

  // ---- Computing it -----------------------------------------------------------

  /** peers.setdefault */
  function AddPeer(peers: seq<Peer>, dev: DeviceRow): (r: seq<Peer>)
    ensures PeersGrow(peers, r) && IsPeer(r, dev.id)
    ensures DistinctPeers(peers) ==> DistinctPeers(r)
    ensures forall k :: 0 <= k < |r| ==> r[k] in peers || r[k] == Peer(dev.id, dev.name, dev.addresses)
  {
    if IsPeer(peers, dev.id) then peers
    else
      var r := peers + [Peer(dev.id, dev.name, dev.addresses)];
      assert r[|peers|].deviceId == dev.id;
      assert forall k :: 0 <= k < |peers| ==> r[k] == peers[k];
      r
  }

  lemma OneMoreTarget(db: Db, i: nat, f: FolderRow)
    requires i < |db.targets|
    ensures forall mirror ::
              Devices(db, db.targets[..i + 1], f, mirror)
              == Devices(db, db.targets[..i], f, mirror)
                 + (if Serves(db, db.targets[i], f, mirror) then [db.devices[db.targets[i].peerHost].id] else [])
  {
    assert db.targets[..i + 1][..i] == db.targets[..i];
  }

  /** What the loop over the targets knows after the first i of them. */
  ghost predicate AfterTargets(db: Db, f: FolderRow, i: nat, before: seq<Peer>, mirrors: seq<string>, catcher: string, peers: seq<Peer>)
    requires i <= |db.targets|
  {
    var catchers := Devices(db, db.targets[..i], f, false);
    && mirrors == Devices(db, db.targets[..i], f, true)
    && catcher == (if catchers == [] then "" else catchers[|catchers| - 1])
    && PeersGrow(before, peers) && DistinctPeers(peers)
    && AllPeers(peers, mirrors) && (catcher != "" ==> IsPeer(peers, catcher))
  }

  lemma TargetSkipped(db: Db, f: FolderRow, i: nat, before: seq<Peer>, mirrors: seq<string>, catcher: string, peers: seq<Peer>)
    requires i < |db.targets| && AfterTargets(db, f, i, before, mirrors, catcher, peers)
    requires !Serves(db, db.targets[i], f, db.targets[i].mirror)
    ensures AfterTargets(db, f, i + 1, before, mirrors, catcher, peers)
  {
    OneMoreTarget(db, i, f);
  }

  lemma MirrorAdded(db: Db, f: FolderRow, i: nat, before: seq<Peer>, mirrors: seq<string>, catcher: string, peers: seq<Peer>)
    requires i < |db.targets| && AfterTargets(db, f, i, before, mirrors, catcher, peers)
    requires db.targets[i].mirror && Serves(db, db.targets[i], f, true)
    ensures var dev := db.devices[db.targets[i].peerHost];
            AfterTargets(db, f, i + 1, before, mirrors + [dev.id], catcher, AddPeer(peers, dev))
  {
    OneMoreTarget(db, i, f);
    assert !Serves(db, db.targets[i], f, false);
  }

  lemma CatcherAdded(db: Db, f: FolderRow, i: nat, before: seq<Peer>, mirrors: seq<string>, catcher: string, peers: seq<Peer>)
    requires i < |db.targets| && AfterTargets(db, f, i, before, mirrors, catcher, peers)
    requires !db.targets[i].mirror && Serves(db, db.targets[i], f, false)
    ensures var dev := db.devices[db.targets[i].peerHost];
            AfterTargets(db, f, i + 1, before, mirrors, dev.id, AddPeer(peers, dev))
  {
    OneMoreTarget(db, i, f);
    assert !Serves(db, db.targets[i], f, true);
  }

  /** The rows of one owned folder, with the peers it needs. */
  method OwnFolder(db: Db, f: FolderRow, host: HostId, before: seq<Peer>) returns (entry: OwnedFolder, peers: seq<Peer>)
    requires DistinctPeers(before) && RealDevices(db, before)
    ensures entry == OwnedEntry(db, f, host)
    ensures PeersGrow(before, peers) && DistinctPeers(peers) && RealDevices(db, peers)
    ensures AllPeers(peers, entry.mirrors) && (entry.catcher != "" ==> IsPeer(peers, entry.catcher))
  {
    peers := before;
    var mirrors: seq<string>, catcher := [], "";
    for i := 0 to |db.targets|
      invariant AfterTargets(db, f, i, before, mirrors, catcher, peers) && RealDevices(db, peers)
    {
      var t := db.targets[i];
      if t.folderId == f.id && Live(db, t) && t.peerHost in db.devices {
        var dev := db.devices[t.peerHost];
        if t.mirror {
          MirrorAdded(db, f, i, before, mirrors, catcher, peers);
          mirrors := mirrors + [dev.id];
        } else {
          CatcherAdded(db, f, i, before, mirrors, catcher, peers);
          catcher := dev.id;
        }
        AddingStaysReal(db, peers, dev);
        peers := AddPeer(peers, dev);
      } else {
        TargetSkipped(db, f, i, before, mirrors, catcher, peers);
      }
    }
    assert db.targets[..|db.targets|] == db.targets;
    if catcher == "" && f.useCasperCatcher && db.casperCatcher.Some? {
      AddingStaysReal(db, peers, db.casperCatcher.value);
      peers := AddPeer(peers, db.casperCatcher.value);
      catcher := db.casperCatcher.value.id;
    }
    var restoring := f.restoreHost == Some(host) && f.ownerHost != host;
    entry := OwnedFolder(f.id, f.caption, if restoring then f.restorePath else f.path, mirrors, catcher, restoring, "");
  }

  /** One identity's desired state on one host. */
  method Compute(db: Db, user: UserId, host: HostId) returns (d: Desired)
    ensures d.owned == OwnedEntries(db, db.folders, user, host)
    ensures d.held == HeldEntries(db, db.targets, user, host)
    ensures Covered(d) && DistinctPeers(d.peers) && RealDevices(db, d.peers)
  {
    var owned, ownPeers := OwnedPart(db, user, host);
    var held, peers := HeldPart(db, user, host, ownPeers, owned);
    d := Desired(peers, owned, held);
  }

  /** The folders this identity owns on this host. */
  method OwnedPart(db: Db, user: UserId, host: HostId) returns (owned: seq<OwnedFolder>, peers: seq<Peer>)
    ensures owned == OwnedEntries(db, db.folders, user, host)
    ensures OwnedCovered(peers, owned) && DistinctPeers(peers) && RealDevices(db, peers)
  {
    owned, peers := [], [];
    for i := 0 to |db.folders|
      invariant owned == OwnedEntries(db, db.folders[..i], user, host)
      invariant OwnedCovered(peers, owned) && DistinctPeers(peers) && RealDevices(db, peers)
    {
      assert db.folders[..i + 1][..i] == db.folders[..i];
      var f := db.folders[i];
      if OwnedOn(f, user, host) {
        ghost var before := peers;
        var entry;
        entry, peers := OwnFolder(db, f, host, peers);
        OwnedStayCovered(before, peers, owned);
        owned := owned + [entry];
      }
    }
    assert db.folders[..|db.folders|] == db.folders;
  }

  /** The folders it holds for friends here. */
  method HeldPart(db: Db, user: UserId, host: HostId, start: seq<Peer>, ghost owned: seq<OwnedFolder>)
    returns (held: seq<HeldFolder>, peers: seq<Peer>)
    requires OwnedCovered(start, owned) && DistinctPeers(start) && RealDevices(db, start)
    ensures held == HeldEntries(db, db.targets, user, host)
    ensures OwnedCovered(peers, owned) && HeldCovered(peers, held) && DistinctPeers(peers) && RealDevices(db, peers)
  {
    held, peers := [], start;
    for i := 0 to |db.targets|
      invariant held == HeldEntries(db, db.targets[..i], user, host)
      invariant OwnedCovered(peers, owned) && HeldCovered(peers, held) && DistinctPeers(peers) && RealDevices(db, peers)
    {
      assert db.targets[..i + 1][..i] == db.targets[..i];
      var t := db.targets[i];
      if HeldOn(db, t, user, host) {
        var f := FindFolder(db.folders, t.folderId).value;
        ghost var before := peers;
        if f.ownerHost in db.devices {
          AddingStaysReal(db, peers, db.devices[f.ownerHost]);
          peers := AddPeer(peers, db.devices[f.ownerHost]);
        }
        if f.restoreHost.Some? && f.restoreHost.value in db.devices {
          AddingStaysReal(db, peers, db.devices[f.restoreHost.value]);
          peers := AddPeer(peers, db.devices[f.restoreHost.value]);
        }
        OwnedStayCovered(before, peers, owned);
        HeldStayCovered(before, peers, held);
        HeldCoveredAppend(peers, held, HeldEntry(db, t));
        held := held + [HeldEntry(db, t)];
      }
    }
    assert db.targets[..|db.targets|] == db.targets;
  }

  lemma OwnedStayCovered(fewer: seq<Peer>, more: seq<Peer>, owned: seq<OwnedFolder>)
    requires PeersGrow(fewer, more) && OwnedCovered(fewer, owned)
    ensures OwnedCovered(more, owned)
  {
  }

  lemma HeldCoveredAppend(peers: seq<Peer>, held: seq<HeldFolder>, h: HeldFolder)
    requires HeldCovered(peers, held) && AllPeers(peers, h.owners)
    ensures HeldCovered(peers, held + [h])
  {
  }

  lemma HeldStayCovered(fewer: seq<Peer>, more: seq<Peer>, held: seq<HeldFolder>)
    requires PeersGrow(fewer, more) && HeldCovered(fewer, held)
    ensures HeldCovered(more, held)
  {
  }

  // ---- Both ends of a mirror ------------------------------------------------------

  /** t makes its host a mirror (or catcher) of f. */
  predicate Serves(db: Db, t: TargetRow, f: FolderRow, mirror: bool) {
    t.folderId == f.id && Live(db, t) && t.mirror == mirror && t.peerHost in db.devices
  }

  lemma {:induction false} DevicesAre(db: Db, targets: seq<TargetRow>, f: FolderRow, mirror: bool, dev: string)
    ensures dev in Devices(db, targets, f, mirror)
            <==> exists k :: 0 <= k < |targets| && Serves(db, targets[k], f, mirror) && db.devices[targets[k].peerHost].id == dev
  {
    if targets != [] {
      var init := targets[..|targets| - 1];
      DevicesAre(db, init, f, mirror, dev);
      assert forall k :: 0 <= k < |init| ==> init[k] == targets[k];
    }
  }

  lemma {:induction false} HeldEntriesAre(db: Db, targets: seq<TargetRow>, user: UserId, host: HostId, h: HeldFolder)
    ensures h in HeldEntries(db, targets, user, host)
            <==> exists k :: 0 <= k < |targets| && HeldOn(db, targets[k], user, host) && HeldEntry(db, targets[k]) == h
  {
    if targets != [] {
      var init := targets[..|targets| - 1];
      HeldEntriesAre(db, init, user, host, h);
      assert forall k :: 0 <= k < |init| ==> init[k] == targets[k];
    }
  }

  lemma {:induction false} OwnedEntriesAre(db: Db, folders: seq<FolderRow>, user: UserId, host: HostId, e: OwnedFolder)
    ensures e in OwnedEntries(db, folders, user, host)
            <==> exists k :: 0 <= k < |folders| && OwnedOn(folders[k], user, host) && OwnedEntry(db, folders[k], host) == e
  {
    if folders != [] {
      var init := folders[..|folders| - 1];
      OwnedEntriesAre(db, init, user, host, e);
      assert forall k :: 0 <= k < |init| ==> init[k] == folders[k];
    }
  }

  /** Folder ids and, between hosts, device ids do not repeat; no device id is blank. */
  ghost predicate Keyed(db: Db) {
    && (forall j, k :: 0 <= j < k < |db.folders| ==> db.folders[j].id != db.folders[k].id)
    && (forall a, b :: a in db.devices && b in db.devices && db.devices[a].id == db.devices[b].id ==> a == b)
    && (forall a :: a in db.devices ==> db.devices[a].id != "")
  }

  lemma {:induction false} FoundByItsId(folders: seq<FolderRow>, i: nat)
    requires i < |folders| && forall j, k :: 0 <= j < k < |folders| ==> folders[j].id != folders[k].id
    ensures FindFolder(folders, folders[i].id) == Some(folders[i])
  {
    if i > 0 {
      FoundByItsId(folders[1..], i - 1);
    }
  }

  /** Some identity on host peerHost is told to hold f, in this role, for the
    * device of ownerHost. */
  ghost predicate ToldToHold(db: Db, f: FolderRow, mirror: bool, ownerHost: HostId, peerHost: HostId)
    requires ownerHost in db.devices
  {
    exists user, h :: h in HeldEntries(db, db.targets, user, peerHost)
      && h.id == f.id && h.kind == (if mirror then MirrorKind else CatcherKind) && db.devices[ownerHost].id in h.owners
  }

  /** An active folder's Mac, ownerHost, names peerHost's device in a role
    * exactly when peerHost is told to hold the folder in that role for it. */
  lemma BothEndsAgree(db: Db, i: nat, mirror: bool, ownerHost: HostId, peerHost: HostId)
    requires Keyed(db) && i < |db.folders| && db.folders[i].active
    requires ownerHost == db.folders[i].ownerHost || db.folders[i].restoreHost == Some(ownerHost)
    requires ownerHost in db.devices && peerHost in db.devices
    ensures db.devices[peerHost].id in Devices(db, db.targets, db.folders[i], mirror)
            <==> ToldToHold(db, db.folders[i], mirror, ownerHost, peerHost)
  {
    var f := db.folders[i];
    var dev := db.devices[peerHost].id;
    FoundByItsId(db.folders, i);
    DevicesAre(db, db.targets, f, mirror, dev);
    if dev in Devices(db, db.targets, f, mirror) {
      var k :| 0 <= k < |db.targets| && Serves(db, db.targets[k], f, mirror) && db.devices[db.targets[k].peerHost].id == dev;
      ServerIsTold(db, i, mirror, ownerHost, k);
    }
    if ToldToHold(db, f, mirror, ownerHost, peerHost) {
      var k := ToldMeansServes(db, i, mirror, ownerHost, peerHost);
    }
  }

  lemma ServerIsTold(db: Db, i: nat, mirror: bool, ownerHost: HostId, k: nat)
    requires Keyed(db) && i < |db.folders| && db.folders[i].active && k < |db.targets|
    requires ownerHost == db.folders[i].ownerHost || db.folders[i].restoreHost == Some(ownerHost)
    requires ownerHost in db.devices && Serves(db, db.targets[k], db.folders[i], mirror)
    ensures ToldToHold(db, db.folders[i], mirror, ownerHost, db.targets[k].peerHost)
  {
    FoundByItsId(db.folders, i);
    var t := db.targets[k];
    HeldEntriesAre(db, db.targets, t.peerOwner, t.peerHost, HeldEntry(db, t));
  }

  lemma ToldMeansServes(db: Db, i: nat, mirror: bool, ownerHost: HostId, peerHost: HostId) returns (k: nat)
    requires Keyed(db) && i < |db.folders|
    requires ownerHost in db.devices && peerHost in db.devices
    requires ToldToHold(db, db.folders[i], mirror, ownerHost, peerHost)
    ensures k < |db.targets| && Serves(db, db.targets[k], db.folders[i], mirror) && db.targets[k].peerHost == peerHost
  {
    var f := db.folders[i];
    FoundByItsId(db.folders, i);
    var user, h :| h in HeldEntries(db, db.targets, user, peerHost)
      && h.id == f.id && h.kind == (if mirror then MirrorKind else CatcherKind) && db.devices[ownerHost].id in h.owners;
    HeldEntriesAre(db, db.targets, user, peerHost, h);
    k :| 0 <= k < |db.targets| && HeldOn(db, db.targets[k], user, peerHost) && HeldEntry(db, db.targets[k]) == h;
  }

  /** For mirrors that settles it: the owner is told to mirror there exactly
    * when the peer is told to hold. An owner is told of only one catcher, the
    * last live one, so on any tables a catcher told to hold is the one the owner
    * sends to exactly when no other live catcher comes after it. */
  lemma BothEndsAgreeIff(db: Db, i: nat, ownerHost: HostId, peerHost: HostId)
    requires Keyed(db) && i < |db.folders| && db.folders[i].active
    requires ownerHost == db.folders[i].ownerHost || db.folders[i].restoreHost == Some(ownerHost)
    requires ownerHost in db.devices && peerHost in db.devices
    ensures var f := db.folders[i];
            var entry := OwnedEntry(db, f, ownerHost);
            && entry in OwnedEntries(db, db.folders, f.ownerUser, ownerHost)
            && (db.devices[peerHost].id in entry.mirrors <==> ToldToHold(db, f, true, ownerHost, peerHost))
            && (ToldToHold(db, f, false, ownerHost, peerHost) ==>
                  (entry.catcher == db.devices[peerHost].id
                   <==> exists k :: 0 <= k < |db.targets| && Serves(db, db.targets[k], f, false) && db.targets[k].peerHost == peerHost
                          && forall j :: k < j < |db.targets| ==> !Serves(db, db.targets[j], f, false)))
  {
    var f := db.folders[i];
    OwnedEntriesAre(db, db.folders, f.ownerUser, ownerHost, OwnedEntry(db, f, ownerHost));
    BothEndsAgree(db, i, true, ownerHost, peerHost);
    BothEndsAgree(db, i, false, ownerHost, peerHost);
    if ToldToHold(db, f, false, ownerHost, peerHost) {
      LastCatcherIsNamed(db, f, peerHost);
    }
  }

  lemma LastCatcherIsNamed(db: Db, f: FolderRow, peerHost: HostId)
    requires Keyed(db) && peerHost in db.devices && Devices(db, db.targets, f, false) != []
    ensures CatcherFor(db, f) == db.devices[peerHost].id
            <==> exists k :: 0 <= k < |db.targets| && Serves(db, db.targets[k], f, false) && db.targets[k].peerHost == peerHost
                   && forall j :: k < j < |db.targets| ==> !Serves(db, db.targets[j], f, false)
  {
    var last := LastServer(db, db.targets, f);
    forall k | 0 <= k < |db.targets| && Serves(db, db.targets[k], f, false)
               && (forall j :: k < j < |db.targets| ==> !Serves(db, db.targets[j], f, false))
      ensures k == last
    {
    }
  }

  lemma {:induction false} LastServer(db: Db, targets: seq<TargetRow>, f: FolderRow) returns (k: nat)
    requires Devices(db, targets, f, false) != []
    ensures k < |targets| && Serves(db, targets[k], f, false) && forall j :: k < j < |targets| ==> !Serves(db, targets[j], f, false)
    ensures var devs := Devices(db, targets, f, false); devs[|devs| - 1] == db.devices[targets[k].peerHost].id
  {
    var n := |targets| - 1;
    if Serves(db, targets[n], f, false) {
      k := n;
    } else {
      k := LastServer(db, targets[..n], f);
    }
  }

  /** Who serves a folder: the hosts of its targets that were not removed, under
    * grants that were not revoked, with a device to reach them. */
  predicate HasServer(db: Db, f: FolderRow, mirror: bool, dev: string) {
    exists k :: 0 <= k < |db.targets| && db.targets[k].folderId == f.id && !db.targets[k].removed && db.targets[k].mirror == mirror
      && db.targets[k].grant in db.grants && !db.grants[db.targets[k].grant].revoked
      && db.targets[k].peerHost in db.devices && db.devices[db.targets[k].peerHost].id == dev
  }

  lemma ServersAre(db: Db, f: FolderRow, mirror: bool, dev: string)
    ensures dev in Devices(db, db.targets, f, mirror) <==> HasServer(db, f, mirror, dev)
  {
    DevicesAre(db, db.targets, f, mirror, dev);
    if k :| 0 <= k < |db.targets| && Serves(db, db.targets[k], f, mirror) && db.devices[db.targets[k].peerHost].id == dev {
      assert !db.targets[k].removed;
    }
    if HasServer(db, f, mirror, dev) {
      var k :| 0 <= k < |db.targets| && db.targets[k].folderId == f.id && !db.targets[k].removed && db.targets[k].mirror == mirror
        && db.targets[k].grant in db.grants && !db.grants[db.targets[k].grant].revoked
        && db.targets[k].peerHost in db.devices && db.devices[db.targets[k].peerHost].id == dev;
      assert Serves(db, db.targets[k], f, mirror);
    }
  }

  /** What an owner's Mac is told of a folder: on the usual Mac it is at its path
    * and sent; on a replacement it is received, at the path chosen there; it goes
    * to all its mirrors, and to a friend's catcher if there is one, or else to
    * Casper's if that was chosen. */
  lemma OwnedEntryIs(db: Db, f: FolderRow, host: HostId)
    ensures var e := OwnedEntry(db, f, host);
            && e.id == f.id && e.caption == f.caption && e.password == ""
            && (host == f.ownerHost ==> e.path == f.path && !e.restore)
            && (host != f.ownerHost && f.restoreHost == Some(host) ==> e.path == f.restorePath && e.restore)
            && (forall dev :: dev in e.mirrors <==> HasServer(db, f, true, dev))
            && (e.catcher != "" && !(f.useCasperCatcher && db.casperCatcher.Some? && e.catcher == db.casperCatcher.value.id) ==>
                  HasServer(db, f, false, e.catcher))
            && ((forall dev :: !HasServer(db, f, false, dev)) ==>
                  e.catcher == if f.useCasperCatcher && db.casperCatcher.Some? then db.casperCatcher.value.id else "")
            && ((forall dev :: HasServer(db, f, false, dev) ==> dev != "") && (exists dev :: HasServer(db, f, false, dev)) ==>
                  HasServer(db, f, false, e.catcher))
  {
    var catchers := Devices(db, db.targets, f, false);
    forall dev ensures (dev in Devices(db, db.targets, f, true) <==> HasServer(db, f, true, dev)) && (dev in catchers <==> HasServer(db, f, false, dev)) {
      ServersAre(db, f, true, dev);
      ServersAre(db, f, false, dev);
    }
    if catchers != [] {
      assert catchers[|catchers| - 1] in catchers;
    }
  }

  /** What a holder's Mac is told of a target: whose folder it is, in which role,
    * for the owner's usual device and then the replacement, within the grant's quota. */
  lemma HeldEntryIs(db: Db, t: TargetRow, user: UserId, host: HostId)
    requires HeldOn(db, t, user, host)
    ensures t.peerHost == host && t.peerOwner == user && !t.removed && t.grant in db.grants && !db.grants[t.grant].revoked
    ensures FindFolder(db.folders, t.folderId).Some?
    ensures var f, h := FindFolder(db.folders, t.folderId).value, HeldEntry(db, t);
            && f.active && h.id == t.folderId && (h.kind == MirrorKind <==> t.mirror) && h.quotaBytes == db.grants[t.grant].quotaBytes
            && h.caption == db.userNames(f.ownerUser) + ": " + f.caption
            && 1 <= |h.owners| <= 2
            && (f.ownerHost in db.devices ==> h.owners[0] == db.devices[f.ownerHost].id)
            && (f.restoreHost.Some? && f.restoreHost.value in db.devices ==>
                  h.owners[|h.owners| - 1] == db.devices[f.restoreHost.value].id)
            && (forall o :: o in h.owners ==>
                  || (f.ownerHost in db.devices && o == db.devices[f.ownerHost].id)
                  || (f.restoreHost.Some? && f.restoreHost.value in db.devices && o == db.devices[f.restoreHost.value].id))
  {
  }

  // ---- How the tables come about --------------------------------------------------

  /** A grant chosen for a new folder, and the host it is for. */
  datatype Placement = Placement(grant: GrantId, owner: UserId, host: HostId)

  function TargetsFor(id: string, mirrors: seq<Placement>, catcher: Option<Placement>): seq<TargetRow> {
    seq(|mirrors|, k requires 0 <= k < |mirrors| => TargetRow(id, true, mirrors[k].grant, mirrors[k].owner, mirrors[k].host, false))
    + (if catcher.Some? then [TargetRow(id, false, catcher.value.grant, catcher.value.owner, catcher.value.host, false)] else [])
  }

  function NewFolder(db: Db, f: FolderRow, mirrors: seq<Placement>, catcher: Option<Placement>): Db {
    db.(folders := db.folders + [f], targets := db.targets + TargetsFor(f.id, mirrors, catcher))
  }

  /** A new folder gets one target per chosen mirror, in order, and one more if a
    * friend's catcher was chosen, each for that grant's owner and host; nothing
    * that was there changes. */
  lemma NewTargetsAre(db: Db, f: FolderRow, mirrors: seq<Placement>, catcher: Option<Placement>, k: nat)
    ensures var after := NewFolder(db, f, mirrors, catcher);
            && after == db.(folders := db.folders + [f], targets := after.targets)
            && |after.targets| == |db.targets| + |mirrors| + (if catcher.Some? then 1 else 0) && db.targets <= after.targets
            && (k < |mirrors| ==>
                  var t := after.targets[|db.targets| + k];
                  && t.folderId == f.id && t.mirror && !t.removed
                  && t.grant == mirrors[k].grant && t.peerOwner == mirrors[k].owner && t.peerHost == mirrors[k].host)
            && (catcher.Some? ==>
                  var t := after.targets[|after.targets| - 1];
                  && t.folderId == f.id && !t.mirror && !t.removed
                  && t.grant == catcher.value.grant && t.peerOwner == catcher.value.owner && t.peerHost == catcher.value.host)
  {
  }

  class Tables {
    var db: Db

    constructor (db: Db)
      ensures this.db == db
    {
      this.db := db;
    }

    /** create_folder: the folder waits for consent; one row per mirror, and one
      * more if a friend's catcher was named. */
    method CreateFolder(id: string, user: UserId, host: HostId, path: string, caption: string, mirrors: seq<Placement>,
                        catcher: Option<Placement>, useCasperCatcher: bool)
      modifies this
      ensures db == NewFolder(old(db), FolderRow(id, user, host, path, caption, false, useCasperCatcher, None, ""), mirrors, catcher)
    {
      var f := FolderRow(id, user, host, path, caption, false, useCasperCatcher, None, "");
      db := db.(folders := db.folders + [f]);
      ghost var before := db.targets;
      for k := 0 to |mirrors|
        invariant db == old(db).(folders := old(db).folders + [f], targets := before + TargetsFor(id, mirrors[..k], None))
      {
        var g := mirrors[k];
        db := db.(targets := db.targets + [TargetRow(id, true, g.grant, g.owner, g.host, false)]);
        assert TargetsFor(id, mirrors[..k + 1], None) == TargetsFor(id, mirrors[..k], None) + [TargetRow(id, true, g.grant, g.owner, g.host, false)];
      }
      assert mirrors[..|mirrors|] == mirrors;
      if catcher.Some? {
        db := db.(targets := db.targets + [TargetRow(id, false, catcher.value.grant, catcher.value.owner, catcher.value.host, false)]);
      }
      assert TargetsFor(id, mirrors, catcher)
          == TargetsFor(id, mirrors, None)
             + (if catcher.Some? then [TargetRow(id, false, catcher.value.grant, catcher.value.owner, catcher.value.host, false)] else []);
    }
  }

  /** Everything that changes these tables: a new folder, any update of the
    * existing folder rows, and whatever happens to grants, devices and Casper's
    * own catcher. */
  datatype Change =
    | Created(f: FolderRow, mirrors: seq<Placement>, catcher: Option<Placement>)
    | Updated(folders: seq<FolderRow>)
    | Elsewhere(grants: map<GrantId, GrantRow>, devices: map<HostId, DeviceRow>, casperCatcher: Option<DeviceRow>)

  /** A new folder's id is new (it is drawn at random), and no update changes ids. */
  ghost predicate Proper(db: Db, c: Change) {
    match c
    case Created(f, _, _) => forall k :: 0 <= k < |db.folders| ==> db.folders[k].id != f.id
    case Updated(folders) => |folders| == |db.folders| && forall k :: 0 <= k < |folders| ==> folders[k].id == db.folders[k].id
    case Elsewhere(_, _, _) => true
  }

  function Changed(db: Db, c: Change): Db {
    match c
    case Created(f, mirrors, catcher) => NewFolder(db, f, mirrors, catcher)
    case Updated(folders) => db.(folders := folders)
    case Elsewhere(grants, devices, casperCatcher) => db.(grants := grants, devices := devices, casperCatcher := casperCatcher)
  }

  ghost predicate HasFolder(db: Db, id: string) {
    exists k :: 0 <= k < |db.folders| && db.folders[k].id == id
  }

  /** Folder ids differ, targets belong to folders, and no folder has two friends' catchers. */
  ghost predicate Orderly(db: Db) {
    && (forall j, k :: 0 <= j < k < |db.folders| ==> db.folders[j].id != db.folders[k].id)
    && (forall k :: 0 <= k < |db.targets| ==> HasFolder(db, db.targets[k].folderId))
    && (forall j, k :: 0 <= j < k < |db.targets| && !db.targets[j].mirror && !db.targets[k].mirror ==>
          db.targets[j].folderId != db.targets[k].folderId)
  }

  lemma ChangeKeepsOrder(db: Db, c: Change)
    requires Orderly(db) && Proper(db, c)
    ensures Orderly(Changed(db, c))
  {
    var after := Changed(db, c);
    forall k | 0 <= k < |after.targets| ensures HasFolder(after, after.targets[k].folderId) {
      if k < |db.targets| {
        var n :| 0 <= n < |db.folders| && db.folders[n].id == db.targets[k].folderId;
        assert after.folders[n].id == db.folders[n].id;
      } else {
        assert after.folders[|db.folders|].id == after.targets[k].folderId;
      }
    }
    if c.Created? {
      var added := TargetsFor(c.f.id, c.mirrors, c.catcher);
      assert forall k :: 0 <= k < |added| && !added[k].mirror ==> k == |c.mirrors|;
      forall j, k | 0 <= j < k < |after.targets| && !after.targets[j].mirror && !after.targets[k].mirror
        ensures after.targets[j].folderId != after.targets[k].folderId
      {
        if j < |db.targets| <= k {
          assert HasFolder(db, db.targets[j].folderId);
        }
      }
    }
  }

  /** Casper's own catcher is nobody's Mac. */
  ghost predicate CatcherApart(db: Db) {
    db.casperCatcher.Some? ==> forall h :: h in db.devices ==> db.devices[h].id != db.casperCatcher.value.id
  }

  /** With at most one friend's catcher per folder the two ends agree on it. */
  lemma CatchersAgree(db: Db, i: nat, ownerHost: HostId, peerHost: HostId)
    requires Keyed(db) && Orderly(db) && CatcherApart(db) && i < |db.folders| && db.folders[i].active
    requires ownerHost == db.folders[i].ownerHost || db.folders[i].restoreHost == Some(ownerHost)
    requires ownerHost in db.devices && peerHost in db.devices
    ensures CatcherFor(db, db.folders[i]) == db.devices[peerHost].id <==> ToldToHold(db, db.folders[i], false, ownerHost, peerHost)
  {
    var f := db.folders[i];
    if ToldToHold(db, f, false, ownerHost, peerHost) {
      var k := ToldMeansServes(db, i, false, ownerHost, peerHost);
      DevicesAre(db, db.targets, f, false, db.devices[peerHost].id);
      LastCatcherIsNamed(db, f, peerHost);
    } else if Devices(db, db.targets, f, false) != [] {
      var k := LastServer(db, db.targets, f);
      if db.targets[k].peerHost == peerHost {
        ServerIsTold(db, i, false, ownerHost, k);
      }
    }
  }

  ghost predicate AllProper(start: Db, cs: seq<Change>) {
    forall k :: 0 <= k < |cs| ==> Proper(ChangedBy(start, cs[..k]), cs[k])
  }

  function ChangedBy(start: Db, cs: seq<Change>): Db {
    if cs == [] then start else Changed(ChangedBy(start, cs[..|cs| - 1]), cs[|cs| - 1])
  }

  lemma {:induction false} AlwaysOrderly(start: Db, cs: seq<Change>)
    requires start.folders == [] && start.targets == [] && AllProper(start, cs)
    ensures Orderly(ChangedBy(start, cs))
  {
    if cs != [] {
      var init := cs[..|cs| - 1];
      assert forall k :: 0 <= k < |init| ==> init[k] == cs[k] && init[..k] == cs[..k];
      AlwaysOrderly(start, init);
      ChangeKeepsOrder(ChangedBy(start, init), cs[|cs| - 1]);
    }
  }

  /** Device ids do not repeat, none is blank, and Casper's catcher has its own. */
  ghost predicate DevicesDiffer(db: Db) {
    && (forall a, b :: a in db.devices && b in db.devices && db.devices[a].id == db.devices[b].id ==> a == b)
    && (forall a :: a in db.devices ==> db.devices[a].id != "") && CatcherApart(db)
  }

  /** In every state the tables can reach, an owner's Mac is told to mirror a
    * folder to a peer's device, or to use it as the catcher, exactly when that
    * peer's Mac is told to hold the folder in that role from the owner's device. */
  lemma BothEndsAlwaysAgree(start: Db, cs: seq<Change>, i: nat, ownerHost: HostId, peerHost: HostId)
    requires start.folders == [] && start.targets == [] && AllProper(start, cs)
    requires var db := ChangedBy(start, cs);
             && DevicesDiffer(db) && ownerHost in db.devices && peerHost in db.devices
             && i < |db.folders| && db.folders[i].active
             && (ownerHost == db.folders[i].ownerHost || db.folders[i].restoreHost == Some(ownerHost))
    ensures var db := ChangedBy(start, cs);
            var f := db.folders[i];
            var entry := OwnedEntry(db, f, ownerHost);
            && entry in OwnedEntries(db, db.folders, f.ownerUser, ownerHost)
            && (db.devices[peerHost].id in entry.mirrors <==> ToldToHold(db, f, true, ownerHost, peerHost))
            && (entry.catcher == db.devices[peerHost].id <==> ToldToHold(db, f, false, ownerHost, peerHost))
  {
    AlwaysOrderly(start, cs);
    var db := ChangedBy(start, cs);
    BothEndsAgreeIff(db, i, ownerHost, peerHost);
    CatchersAgree(db, i, ownerHost, peerHost);
  }

  // ---- Revoking ---------------------------------------------------------------------

  function Revoke(db: Db, grant: GrantId): Db
    requires grant in db.grants
  {
    db.(grants := db.grants[grant := db.grants[grant].(revoked := true)])
  }

  /** Revoking the only grant under which a host serves a folder removes both
    * ends at once, for every identity. */
  lemma RevokingRemovesBothEnds(db: Db, i: nat, mirror: bool, grant: GrantId, ownerHost: HostId, peerHost: HostId)
    requires Keyed(db) && i < |db.folders| && db.folders[i].active && grant in db.grants
    requires ownerHost == db.folders[i].ownerHost || db.folders[i].restoreHost == Some(ownerHost)
    requires ownerHost in db.devices && peerHost in db.devices
    requires forall k :: 0 <= k < |db.targets| && Serves(db, db.targets[k], db.folders[i], mirror) && db.targets[k].peerHost == peerHost ==>
               db.targets[k].grant == grant
    ensures db.devices[peerHost].id !in Devices(Revoke(db, grant), db.targets, db.folders[i], mirror)
    ensures !ToldToHold(Revoke(db, grant), db.folders[i], mirror, ownerHost, peerHost)
  {
    var after := Revoke(db, grant);
    DevicesAre(after, db.targets, db.folders[i], mirror, db.devices[peerHost].id);
    BothEndsAgree(after, i, mirror, ownerHost, peerHost);
  }

  // ---- One Mac, several identities -------------------------------------------------

  /** An identity paired to this Mac: its own desired state, if it could be
    * fetched, and the folder passwords in its keychain. */
  datatype Identity = Identity(name: string, fetched: Option<Desired>, passwords: map<string, string>)

  method Union(a: seq<string>, b: seq<string>) returns (r: seq<string>)
    ensures forall x :: x in r <==> x in a || x in b
    ensures forall j, k :: 0 <= j < k < |r| ==> r[j] != r[k]
  {
    r := [];
    var all := a + b;
    for i := 0 to |all|
      invariant forall x :: x in r <==> x in all[..i]
      invariant forall j, k :: 0 <= j < k < |r| ==> r[j] != r[k]
    {
      assert all[..i + 1] == all[..i] + [all[i]];
      if all[i] !in r {
        r := r + [all[i]];
      }
    }
    assert all[..|all|] == all;
  }

  /** Those folders this Mac has a password for, with it. */
  function WithPasswords(owned: seq<OwnedFolder>, passwords: map<string, string>): seq<OwnedFolder> {
    if owned == [] then []
    else
      var f := owned[|owned| - 1];
      WithPasswords(owned[..|owned| - 1], passwords)
      + (if f.id in passwords && passwords[f.id] != "" then [f.(password := passwords[f.id])] else [])
  }

  lemma {:induction false} PasswordsKeepCover(peers: seq<Peer>, owned: seq<OwnedFolder>, passwords: map<string, string>)
    requires OwnedCovered(peers, owned)
    ensures OwnedCovered(peers, WithPasswords(owned, passwords))
  {
    if owned != [] {
      PasswordsKeepCover(peers, owned[..|owned| - 1], passwords);
    }
  }

  function MergedOwned(ids: seq<Identity>): seq<OwnedFolder> {
    if ids == [] then []
    else
      var id := ids[|ids| - 1];
      MergedOwned(ids[..|ids| - 1]) + (if id.fetched.Some? then WithPasswords(id.fetched.value.owned, id.passwords) else [])
  }

  function MergedHeld(ids: seq<Identity>): seq<HeldFolder> {
    if ids == [] then []
    else
      var id := ids[|ids| - 1];
      MergedHeld(ids[..|ids| - 1]) + (if id.fetched.Some? then id.fetched.value.held else [])
  }

  lemma {:induction false} WithPasswordsAre(owned: seq<OwnedFolder>, passwords: map<string, string>, o: OwnedFolder)
    ensures o in WithPasswords(owned, passwords)
            <==> exists k :: 0 <= k < |owned| && owned[k].id in passwords && passwords[owned[k].id] != ""
                   && o == owned[k].(password := passwords[owned[k].id])
  {
    if owned != [] {
      var init := owned[..|owned| - 1];
      WithPasswordsAre(init, passwords, o);
      assert forall k :: 0 <= k < |init| ==> init[k] == owned[k];
    }
  }

  /** The merged folders are every identity's own, each with its password from the
    * keychain, less those there is none for; and all it holds for others. */
  lemma {:induction false} MergedAre(ids: seq<Identity>, o: OwnedFolder, h: HeldFolder)
    ensures o in MergedOwned(ids)
            <==> exists i, k :: 0 <= i < |ids| && ids[i].fetched.Some? && 0 <= k < |ids[i].fetched.value.owned|
                   && var f := ids[i].fetched.value.owned[k];
                      f.id in ids[i].passwords && ids[i].passwords[f.id] != "" && o == f.(password := ids[i].passwords[f.id])
    ensures h in MergedHeld(ids) <==> exists i :: 0 <= i < |ids| && ids[i].fetched.Some? && h in ids[i].fetched.value.held
  {
    if ids != [] {
      var init, last := ids[..|ids| - 1], ids[|ids| - 1];
      MergedAre(init, o, h);
      assert forall i :: 0 <= i < |init| ==> init[i] == ids[i];
      if last.fetched.Some? {
        WithPasswordsAre(last.fetched.value.owned, last.passwords, o);
      }
    }
  }

  lemma PeersAppended(peers: seq<Peer>, p: Peer)
    ensures forall id :: IsPeer(peers + [p], id) <==> IsPeer(peers, id) || id == p.deviceId
  {
    var more := peers + [p];
    assert more[|peers|] == p;
    forall id ensures IsPeer(more, id) <==> IsPeer(peers, id) || id == p.deviceId {
      if IsPeer(peers, id) {
        var j :| 0 <= j < |peers| && peers[j].deviceId == id;
        assert more[j] == peers[j];
      }
    }
  }

  /** Some peer with this id lists the address. */
  ghost predicate Listed(peers: seq<Peer>, id: string, address: string) {
    exists k :: 0 <= k < |peers| && peers[k].deviceId == id && address in peers[k].addresses
  }

  lemma ListedAppended(peers: seq<Peer>, p: Peer)
    ensures forall id, x :: Listed(peers + [p], id, x) <==> Listed(peers, id, x) || (id == p.deviceId && x in p.addresses)
  {
    var more := peers + [p];
    assert more[|peers|] == p;
    forall id, x ensures Listed(more, id, x) <==> Listed(peers, id, x) || (id == p.deviceId && x in p.addresses) {
      if Listed(peers, id, x) {
        var j :| 0 <= j < |peers| && peers[j].deviceId == id && x in peers[j].addresses;
        assert more[j] == peers[j];
      }
    }
  }

  /** The peers of before are still there in order, under their own names; after
    * them come the devices only more has, each as named where more first lists
    * it (at the index in added). */
  ghost predicate KeptThenAdded(before: seq<Peer>, more: seq<Peer>, peers: seq<Peer>, added: seq<nat>) {
    && |peers| == |before| + |added|
    && (forall k :: 0 <= k < |before| ==> peers[k].deviceId == before[k].deviceId && peers[k].name == before[k].name)
    && (forall j, k :: 0 <= j < k < |added| ==> added[j] < added[k])
    && (forall k :: 0 <= k < |added| ==>
          && added[k] < |more| && !IsPeer(before, more[added[k]].deviceId)
          && !IsPeer(more[..added[k]], more[added[k]].deviceId)
          && peers[|before| + k].deviceId == more[added[k]].deviceId && peers[|before| + k].name == more[added[k]].name)
  }

  lemma KeptThenAddedStep(before: seq<Peer>, more: seq<Peer>, p: Peer, was: seq<Peer>, peers: seq<Peer>, added: seq<nat>)
    requires KeptThenAdded(before, more, was, added)
    ensures (&& |peers| == |was|
             && forall k :: 0 <= k < |was| ==> peers[k].deviceId == was[k].deviceId && peers[k].name == was[k].name)
            ==> KeptThenAdded(before, more + [p], peers, added)
    ensures peers == was + [p] && !IsPeer(before, p.deviceId) && !IsPeer(more, p.deviceId)
            ==> KeptThenAdded(before, more + [p], peers, added + [|more|])
  {
    forall k | 0 <= k < |added| ensures (more + [p])[..added[k]] == more[..added[k]] {
    }
    assert (more + [p])[..|more|] == more;
  }

  /** Adds one identity's peers: a known device keeps its place and name and
    * gains addresses, a new one is appended. */
  method MergePeers(before: seq<Peer>, more: seq<Peer>) returns (peers: seq<Peer>, ghost added: seq<nat>)
    requires DistinctPeers(before)
    ensures DistinctPeers(peers) && KeptThenAdded(before, more, peers, added)
    ensures forall id :: IsPeer(peers, id) <==> IsPeer(before, id) || IsPeer(more, id)
    ensures forall id, x :: Listed(peers, id, x) <==> Listed(before, id, x) || Listed(more, id, x)
  {
    peers, added := before, [];
    for i := 0 to |more|
      invariant DistinctPeers(peers) && KeptThenAdded(before, more[..i], peers, added)
      invariant forall id :: IsPeer(peers, id) <==> IsPeer(before, id) || IsPeer(more[..i], id)
      invariant forall id, x :: Listed(peers, id, x) <==> Listed(before, id, x) || Listed(more[..i], id, x)
    {
      ghost var was := peers;
      var known;
      peers, known := MergePeer(peers, more[i]);
      KeptThenAddedStep(before, more[..i], more[i], was, peers, added);
      if !known {
        added := added + [i];
      }
      PeersAppended(more[..i], more[i]);
      ListedAppended(more[..i], more[i]);
      assert more[..i + 1] == more[..i] + [more[i]];
    }
    assert more[..|more|] == more;
  }

  /** The loop's body, for one peer. */
  method MergePeer(before: seq<Peer>, p: Peer) returns (peers: seq<Peer>, known: bool)
    requires DistinctPeers(before)
    ensures DistinctPeers(peers) && (known <==> IsPeer(before, p.deviceId))
    ensures known ==> |peers| == |before|
                      && forall k :: 0 <= k < |before| ==> peers[k].deviceId == before[k].deviceId && peers[k].name == before[k].name
    ensures !known ==> peers == before + [p]
    ensures forall id :: IsPeer(peers, id) <==> IsPeer(before, id) || id == p.deviceId
    ensures forall id, x :: Listed(peers, id, x) <==> Listed(before, id, x) || (id == p.deviceId && x in p.addresses)
  {
    var k := 0;
    while k < |before| && before[k].deviceId != p.deviceId
      invariant 0 <= k <= |before|
      invariant forall j :: 0 <= j < k ==> before[j].deviceId != p.deviceId
    {
      k := k + 1;
    }
    known := k < |before|;
    if !known {
      peers := before + [p];
      PeersAppended(before, p);
      ListedAppended(before, p);
      return;
    }
    var addresses := Union(before[k].addresses, p.addresses);
    peers := before[k := before[k].(addresses := addresses)];
    GainedAddresses(before, k, p, peers);
  }

  lemma GainedAddresses(before: seq<Peer>, k: nat, p: Peer, peers: seq<Peer>)
    requires k < |before| == |peers| && before[k].deviceId == p.deviceId == peers[k].deviceId
    requires forall j :: 0 <= j < |before| && j != k ==> peers[j] == before[j]
    requires forall x :: x in peers[k].addresses <==> x in before[k].addresses || x in p.addresses
    ensures forall id :: IsPeer(peers, id) <==> IsPeer(before, id) || id == p.deviceId
    ensures forall id, x :: Listed(peers, id, x) <==> Listed(before, id, x) || (id == p.deviceId && x in p.addresses)
  {
    forall id ensures IsPeer(peers, id) <==> IsPeer(before, id) || id == p.deviceId {
      if IsPeer(before, id) {
        var j :| 0 <= j < |before| && before[j].deviceId == id;
        assert peers[j].deviceId == id;
      }
    }
    forall id, x ensures Listed(peers, id, x) <==> Listed(before, id, x) || (id == p.deviceId && x in p.addresses) {
      if Listed(before, id, x) {
        var j :| 0 <= j < |before| && before[j].deviceId == id && x in before[j].addresses;
        assert peers[j].deviceId == id && x in peers[j].addresses;
      }
    }
  }

  /** The merge of Step: every device any merged entry names is still a peer, so
    * reconciling configures every mirror and owner but this Mac itself (see
    * Wanted.OnlySelfIsDropped). */
  method Merge(ids: seq<Identity>) returns (merged: Desired)
    requires forall i :: 0 <= i < |ids| && ids[i].fetched.Some? ==> Covered(ids[i].fetched.value)
    ensures merged.owned == MergedOwned(ids) && merged.held == MergedHeld(ids)
    ensures Covered(merged) && DistinctPeers(merged.peers)
  {
    merged := Desired([], [], []);
    for i := 0 to |ids|
      invariant merged.owned == MergedOwned(ids[..i]) && merged.held == MergedHeld(ids[..i])
      invariant Covered(merged) && DistinctPeers(merged.peers)
    {
      assert ids[..i + 1][..i] == ids[..i];
      if ids[i].fetched.Some? {
        var d := ids[i].fetched.value;
        var owned := WithPasswords(d.owned, ids[i].passwords);
        PasswordsKeepCover(d.peers, d.owned, ids[i].passwords);
        var peers, _ := MergePeers(merged.peers, d.peers);
        OwnedStayCovered(merged.peers, peers, merged.owned);
        HeldStayCovered(merged.peers, peers, merged.held);
        OwnedStayCovered(d.peers, peers, owned);
        HeldStayCovered(d.peers, peers, d.held);
        merged := Desired(peers, merged.owned + owned, merged.held + d.held);
      }
    }
    assert ids[..|ids|] == ids;
  }

  ghost predicate NoBlankIds(ids: seq<string>) {
    forall k :: 0 <= k < |ids| ==> ids[k] != ""
  }

  /** With every named device a peer, the folders Syncthing is given name every
    * mirror of an owned folder, its catcher, and every owner of a held one,
    * leaving out only this Mac itself. */
  lemma NothingNamedIsDropped(d: Desired, self: string, i: nat)
    requires Covered(d)
    ensures i < |d.owned| && NoBlankIds(d.owned[i].mirrors) ==>
              Known(d.owned[i].mirrors, WantDevices(d.peers, self), d.owned[i].password)
              == WithoutSelf(d.owned[i].mirrors, self, d.owned[i].password)
    ensures i < |d.owned| && d.owned[i].catcher != "" ==>
              (d.owned[i].catcher in WantDevices(d.peers, self) <==> d.owned[i].catcher != self)
    ensures i < |d.held| && NoBlankIds(d.held[i].owners) ==>
              Known(d.held[i].owners, WantDevices(d.peers, self), "") == WithoutSelf(d.held[i].owners, self, "")
  {
    if i < |d.owned| && NoBlankIds(d.owned[i].mirrors) {
      NamedPeersStay(d.owned[i].mirrors, d.peers, self, d.owned[i].password);
    }
    if i < |d.owned| && d.owned[i].catcher != "" {
      assert IsPeer(d.peers, d.owned[i].catcher);
      WantedDevicesAre(d.peers, self, d.owned[i].catcher);
    }
    if i < |d.held| && NoBlankIds(d.held[i].owners) {
      NamedPeersStay(d.held[i].owners, d.peers, self, "");
    }
  }

  lemma NamedPeersStay(ids: seq<string>, peers: seq<Peer>, self: string, password: string)
    requires AllPeers(peers, ids) && NoBlankIds(ids)
    ensures Known(ids, WantDevices(peers, self), password) == WithoutSelf(ids, self, password)
  {
    forall k | 0 <= k < |ids| ensures exists j :: 0 <= j < |peers| && peers[j].deviceId == ids[k] {
      assert IsPeer(peers, ids[k]);
    }
    OnlySelfIsDropped(ids, peers, self, password);
  }
}
