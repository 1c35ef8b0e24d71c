/** What Syncthing is set to do once the configuration is reconciled, folder by
  * folder: Apply in agent/internal/mirror/manager.go, said without its steps. */
module Configured {
  import opened Prelude
  import opened Wanted

  // ---- The configuration, in its own terms ------------------------------------------

  /** Some peer other than this machine has this id. */
  predicate IsRemote(d: Desired, mac: Machine, id: string) {
    id != "" && id != mac.self && exists k :: 0 <= k < |d.peers| && d.peers[k].deviceId == id
  }

  /** Shared with exactly the remote devices among ids, under this password. */
  ghost predicate SharedWith(devices: seq<FolderDevice>, ids: seq<string>, password: string, d: Desired, mac: Machine) {
    && (forall k :: 0 <= k < |devices| ==>
          devices[k].password == password && devices[k].deviceId in ids && IsRemote(d, mac, devices[k].deviceId))
    && (forall id :: id in ids && IsRemote(d, mac, id) ==> FolderDevice(id, password) in devices)
  }

  /** An owner's folder is sent, never received, unless this Mac is restoring it. */
  predicate OwnersType(kind: FolderType, restoring: bool) {
    if restoring then kind == ReceiveOnly else kind == SendOnly
  }

  /** folder is f's own, at its own path. */
  ghost predicate IsMain(folder: Folder, f: OwnedFolder, d: Desired, mac: Machine) {
    && OwnersType(folder.kind, f.restore) && folder.path == f.path && folder.caption == f.caption
    && SharedWith(folder.devices, f.mirrors, f.password, d, mac)
    && folder.watched && folder.rescan == 3600 && folder.versioning == NoVersions && !folder.paused
  }

  /** folder is f's staging folder, shared with its catcher alone. */
  predicate IsStaging(folder: Folder, f: OwnedFolder, mac: Machine) {
    && OwnersType(folder.kind, f.restore) && folder.path == mac.dataDir + "/staging/" + f.id
    && folder.caption == f.caption + " (catcher)" && folder.devices == [FolderDevice(f.catcher, f.password)]
    && folder.watched && folder.rescan == 600 && folder.versioning == NoVersions && !folder.paused
  }

  /** Under this id a held folder is kept. */
  function HeldId(h: HeldFolder): string {
    match h.kind
    case MirrorKind => h.id
    case CatcherKind => h.id + ".catch"
  }

  /** folder holds h for its owners: encrypted, 30 days of history unless it is
    * only a catcher, and paused exactly when more than 110% of its quota is used. */
  ghost predicate IsHeld(folder: Folder, h: HeldFolder, d: Desired, mac: Machine) {
    && folder.kind == ReceiveEncrypted && folder.path == mac.dataDir + "/held/" + HeldId(h)
    && SharedWith(folder.devices, h.owners, "", d, mac) && !folder.watched && folder.rescan == 3600
    && (h.kind == MirrorKind ==> folder.caption == h.caption && folder.versioning == Staggered(2592000, 3600))
    && (h.kind == CatcherKind ==> folder.caption == h.caption + " (catcher)" && folder.versioning == NoVersions)
    && (folder.paused <==> h.quotaBytes > 0 && mac.dirSize(folder.path) > h.quotaBytes + h.quotaBytes / 10)
  }

  /** A folder this Mac may share: one of Casper's, with a password for it. */
  predicate Shareable(f: OwnedFolder) {
    FOLDER_PREFIX <= f.id && f.password != ""
  }

  predicate Holdable(h: HeldFolder, d: Desired, mac: Machine) {
    FOLDER_PREFIX <= h.id && exists k :: 0 <= k < |h.owners| && IsRemote(d, mac, h.owners[k])
  }

  /** No two entries ask for folders of the same id. */
  ghost predicate Apart(d: Desired) {
    && (forall i, j :: 0 <= i < j < |d.owned| ==> d.owned[i].id != d.owned[j].id)
    && (forall i, j :: 0 <= i < |d.owned| && 0 <= j < |d.owned| ==> d.owned[i].id != d.owned[j].id + ".catch")
    && (forall i, j :: 0 <= i < |d.owned| && 0 <= j < |d.held| ==>
          HeldId(d.held[j]) != d.owned[i].id && HeldId(d.held[j]) != d.owned[i].id + ".catch")
    && (forall i, j :: 0 <= i < j < |d.held| ==> HeldId(d.held[i]) != HeldId(d.held[j]))
  }

  /** The folders are as d says. */
  ghost predicate FoldersAsDesired(folders: map<string, Folder>, d: Desired, mac: Machine) {
    && (forall i :: 0 <= i < |d.owned| && Shareable(d.owned[i]) ==>
          d.owned[i].id in folders && IsMain(folders[d.owned[i].id], d.owned[i], d, mac))
    && (forall i :: 0 <= i < |d.owned| && Shareable(d.owned[i]) && IsRemote(d, mac, d.owned[i].catcher) ==>
          d.owned[i].id + ".catch" in folders && IsStaging(folders[d.owned[i].id + ".catch"], d.owned[i], mac))
    && (forall i :: 0 <= i < |d.held| && Holdable(d.held[i], d, mac) ==>
          HeldId(d.held[i]) in folders && IsHeld(folders[HeldId(d.held[i])], d.held[i], d, mac))
  }

  /** Nothing of Casper's is configured but what some entry asks for. */
  ghost predicate FoldersOnlyDesired(folders: map<string, Folder>, d: Desired, mac: Machine) {
    forall id :: id in folders && FOLDER_PREFIX <= id ==>
      || (exists i :: 0 <= i < |d.owned| && Shareable(d.owned[i]) && id == d.owned[i].id)
      || (exists i :: 0 <= i < |d.owned| && Shareable(d.owned[i]) && IsRemote(d, mac, d.owned[i].catcher) && id == d.owned[i].id + ".catch")
      || (exists i :: 0 <= i < |d.held| && Holdable(d.held[i], d, mac) && id == HeldId(d.held[i]))
  }

  /** Every remote peer is a device under Casper's name for it, reachable at its
    * addresses or by discovery; of several peers with one id, the last counts. */
  ghost predicate DevicesAsDesired(devices: map<string, Device>, d: Desired, mac: Machine) {
    forall k :: 0 <= k < |d.peers| && IsRemote(d, mac, d.peers[k].deviceId)
                && (forall j :: k < j < |d.peers| ==> d.peers[j].deviceId != d.peers[k].deviceId) ==>
      && d.peers[k].deviceId in devices
      && devices[d.peers[k].deviceId] == Device("casper:" + d.peers[k].name, d.peers[k].addresses + ["dynamic"])
  }

  // ---- Devices -----------------------------------------------------------------------

  lemma {:induction false} DeviceIs(peers: seq<Peer>, self: string, k: nat)
    requires k < |peers| && peers[k].deviceId != "" && peers[k].deviceId != self
    requires forall j :: k < j < |peers| ==> peers[j].deviceId != peers[k].deviceId
    ensures peers[k].deviceId in WantDevices(peers, self)
    ensures WantDevices(peers, self)[peers[k].deviceId] == Device("casper:" + peers[k].name, peers[k].addresses + ["dynamic"])
  {
    if k < |peers| - 1 {
      DeviceIs(peers[..|peers| - 1], self, k);
    }
  }

  lemma WantedIsRemote(d: Desired, mac: Machine)
    ensures forall id :: id in WantDevices(d.peers, mac.self) <==> IsRemote(d, mac, id)
  {
    forall id {
      WantedDevicesAre(d.peers, mac.self, id);
    }
  }

  lemma {:induction false} KnownAreShared(ids: seq<string>, d: Desired, mac: Machine, password: string)
    ensures SharedWith(Known(ids, WantDevices(d.peers, mac.self), password), ids, password, d, mac)
  {
    WantedIsRemote(d, mac);
    if ids != [] {
      KnownAreShared(ids[..|ids| - 1], d, mac, password);
    }
  }

  // ---- Folders -----------------------------------------------------------------------

  /** Entries from the n-th on leave the folder of this id alone. */
  ghost predicate OwnedSpare(owned: seq<OwnedFolder>, n: int, id: string) {
    forall k :: 0 <= n <= k < |owned| ==> owned[k].id != id && owned[k].id + ".catch" != id
  }

  ghost predicate HeldSpare(held: seq<HeldFolder>, n: int, id: string) {
    forall k :: 0 <= n <= k < |held| ==> HeldId(held[k]) != id
  }

  lemma {:induction false} OwnedKeep(owned: seq<OwnedFolder>, wanted: map<string, Device>, mac: Machine, n: nat, id: string)
    requires n <= |owned| && OwnedSpare(owned, n, id)
    ensures id in WantOwned(owned, wanted, mac) <==> id in WantOwned(owned[..n], wanted, mac)
    ensures id in WantOwned(owned, wanted, mac) ==> WantOwned(owned, wanted, mac)[id] == WantOwned(owned[..n], wanted, mac)[id]
  {
    if n == |owned| {
      assert owned[..n] == owned;
    } else {
      var init := owned[..|owned| - 1];
      assert init[..n] == owned[..n];
      OwnedKeep(init, wanted, mac, n, id);
    }
  }

  lemma {:induction false} HeldKeep(start: map<string, Folder>, held: seq<HeldFolder>, wanted: map<string, Device>, mac: Machine, n: nat, id: string)
    requires n <= |held| && HeldSpare(held, n, id)
    ensures id in WantHeld(start, held, wanted, mac) <==> id in WantHeld(start, held[..n], wanted, mac)
    ensures id in WantHeld(start, held, wanted, mac) ==>
              WantHeld(start, held, wanted, mac)[id] == WantHeld(start, held[..n], wanted, mac)[id]
  {
    if n == |held| {
      assert held[..n] == held;
    } else {
      var init := held[..|held| - 1];
      assert init[..n] == held[..n];
      HeldKeep(start, init, wanted, mac, n, id);
    }
  }

  /** What one owned entry adds. */
  lemma OwnedAdds(folders: map<string, Folder>, f: OwnedFolder, d: Desired, mac: Machine)
    requires Shareable(f)
    ensures var after := AddOwned(folders, f, WantDevices(d.peers, mac.self), mac);
            && f.id in after && IsMain(after[f.id], f, d, mac)
            && (IsRemote(d, mac, f.catcher) ==> f.id + ".catch" in after && IsStaging(after[f.id + ".catch"], f, mac))
  {
    WantedIsRemote(d, mac);
    KnownAreShared(f.mirrors, d, mac, f.password);
    assert f.id + ".catch" != f.id;
  }

  lemma HeldAdds(folders: map<string, Folder>, h: HeldFolder, d: Desired, mac: Machine)
    requires Holdable(h, d, mac)
    ensures var after := AddHeld(folders, h, WantDevices(d.peers, mac.self), mac);
            HeldId(h) in after && IsHeld(after[HeldId(h)], h, d, mac)
  {
    WantedIsRemote(d, mac);
    KnownAreShared(h.owners, d, mac, "");
    var k :| 0 <= k < |h.owners| && IsRemote(d, mac, h.owners[k]);
    assert h.owners[k] in h.owners;
  }

  lemma OwnedIsConfigured(d: Desired, mac: Machine, i: nat)
    requires Apart(d) && i < |d.owned| && Shareable(d.owned[i])
    ensures var f, folders := d.owned[i], Want(d, mac).folders;
            && f.id in folders && IsMain(folders[f.id], f, d, mac)
            && (IsRemote(d, mac, f.catcher) ==> f.id + ".catch" in folders && IsStaging(folders[f.id + ".catch"], f, mac))
  {
    var f, wanted := d.owned[i], WantDevices(d.peers, mac.self);
    assert d.owned[..i + 1][..i] == d.owned[..i];
    OwnedAdds(WantOwned(d.owned[..i], wanted, mac), f, d, mac);
    var start := WantOwned(d.owned, wanted, mac);
    assert d.held[..0] == [];
    assert forall k :: i < k < |d.owned| ==> d.owned[k].id + ".catch" != f.id + ".catch" by {
      forall k | i < k < |d.owned| ensures d.owned[k].id + ".catch" != f.id + ".catch" {
        SuffixesDiffer(d.owned[k].id, f.id);
      }
    }
    OwnedKeep(d.owned, wanted, mac, i + 1, f.id);
    HeldKeep(start, d.held, wanted, mac, 0, f.id);
    OwnedKeep(d.owned, wanted, mac, i + 1, f.id + ".catch");
    HeldKeep(start, d.held, wanted, mac, 0, f.id + ".catch");
  }

  lemma SuffixesDiffer(a: string, b: string)
    ensures a + ".catch" == b + ".catch" <==> a == b
  {
    if a + ".catch" == b + ".catch" {
      assert |a| == |b|;
      assert (a + ".catch")[..|a|] == a && (b + ".catch")[..|b|] == b;
    }
  }

  lemma HeldIsConfigured(d: Desired, mac: Machine, i: nat)
    requires Apart(d) && i < |d.held| && Holdable(d.held[i], d, mac)
    ensures var folders := Want(d, mac).folders; HeldId(d.held[i]) in folders && IsHeld(folders[HeldId(d.held[i])], d.held[i], d, mac)
  {
    var wanted := WantDevices(d.peers, mac.self);
    var start := WantOwned(d.owned, wanted, mac);
    assert d.held[..i + 1][..i] == d.held[..i];
    HeldAdds(WantHeld(start, d.held[..i], wanted, mac), d.held[i], d, mac);
    HeldKeep(start, d.held, wanted, mac, i + 1, HeldId(d.held[i]));
  }

  // ---- Nothing else --------------------------------------------------------------------

  lemma {:induction false} OnlyOwnedWanted(owned: seq<OwnedFolder>, d: Desired, mac: Machine, id: string)
    requires id in WantOwned(owned, WantDevices(d.peers, mac.self), mac)
    ensures exists i :: 0 <= i < |owned| && Shareable(owned[i])
              && (id == owned[i].id || (IsRemote(d, mac, owned[i].catcher) && id == owned[i].id + ".catch"))
  {
    var init, f := owned[..|owned| - 1], owned[|owned| - 1];
    WantedIsRemote(d, mac);
    if id in WantOwned(init, WantDevices(d.peers, mac.self), mac) {
      OnlyOwnedWanted(init, d, mac, id);
      var i :| 0 <= i < |init| && Shareable(init[i])
               && (id == init[i].id || (IsRemote(d, mac, init[i].catcher) && id == init[i].id + ".catch"));
      assert owned[i] == init[i];
    } else {
      assert owned[|owned| - 1] == f && Shareable(f);
    }
  }

  lemma {:induction false} OnlyHeldWanted(start: map<string, Folder>, held: seq<HeldFolder>, d: Desired, mac: Machine, id: string)
    requires id in WantHeld(start, held, WantDevices(d.peers, mac.self), mac)
    ensures id in start || exists i :: 0 <= i < |held| && Holdable(held[i], d, mac) && id == HeldId(held[i])
  {
    if held != [] {
      var init, h := held[..|held| - 1], held[|held| - 1];
      var wanted := WantDevices(d.peers, mac.self);
      if id in WantHeld(start, init, wanted, mac) {
        OnlyHeldWanted(start, init, d, mac, id);
        if id !in start {
          var i :| 0 <= i < |init| && Holdable(init[i], d, mac) && id == HeldId(init[i]);
          assert held[i] == init[i];
        }
      } else {
        KnownAreShared(h.owners, d, mac, "");
        var first := Known(h.owners, wanted, "")[0];
        assert first.deviceId in h.owners && IsRemote(d, mac, first.deviceId);
        assert Holdable(held[|held| - 1], d, mac);
      }
    }
  }

  // ---- All of it -------------------------------------------------------------------------

  /** The configuration does what the desired state asks: owners send, restoring
    * Macs receive, holders keep ciphertext, at the paths and with the devices
    * meant for it, and no other folder is Casper's. */
  ghost predicate AsDesired(cfg: Config, d: Desired, mac: Machine) {
    && DevicesAsDesired(cfg.devices, d, mac) && FoldersOnlyDesired(cfg.folders, d, mac)
    && (Apart(d) ==> FoldersAsDesired(cfg.folders, d, mac))
  }

  /** What else is configured outside Casper's names makes no difference. */
  lemma MoreIsAsDesired(want: Config, cfg: Config, d: Desired, mac: Machine)
    requires AsDesired(want, d, mac)
    requires forall id :: id in want.devices ==> id in cfg.devices && cfg.devices[id] == want.devices[id]
    requires forall id :: id in want.folders ==> id in cfg.folders && cfg.folders[id] == want.folders[id]
    requires forall id :: id in cfg.folders && FOLDER_PREFIX <= id ==> id in want.folders
    ensures AsDesired(cfg, d, mac)
  {
    MoreFolders(want.folders, cfg.folders, d, mac);
  }

  lemma MoreFolders(want: map<string, Folder>, folders: map<string, Folder>, d: Desired, mac: Machine)
    requires forall id :: id in want ==> id in folders && folders[id] == want[id]
    requires forall id :: id in folders && FOLDER_PREFIX <= id ==> id in want
    ensures FoldersOnlyDesired(want, d, mac) ==> FoldersOnlyDesired(folders, d, mac)
    ensures FoldersAsDesired(want, d, mac) ==> FoldersAsDesired(folders, d, mac)
  {
  }

  lemma WantIsAsDesired(d: Desired, mac: Machine)
    ensures AsDesired(Want(d, mac), d, mac)
  {
    DesiredDevicesAreWanted(d, mac);
    OnlyDesiredAreWanted(d, mac);
    if Apart(d) {
      DesiredAreWanted(d, mac);
    }
  }

  lemma DesiredDevicesAreWanted(d: Desired, mac: Machine)
    ensures DevicesAsDesired(Want(d, mac).devices, d, mac)
  {
    forall k | 0 <= k < |d.peers| && IsRemote(d, mac, d.peers[k].deviceId)
               && (forall j :: k < j < |d.peers| ==> d.peers[j].deviceId != d.peers[k].deviceId)
      ensures d.peers[k].deviceId in Want(d, mac).devices
      ensures Want(d, mac).devices[d.peers[k].deviceId] == Device("casper:" + d.peers[k].name, d.peers[k].addresses + ["dynamic"])
    {
      DeviceIs(d.peers, mac.self, k);
    }
  }

  lemma DesiredAreWanted(d: Desired, mac: Machine)
    requires Apart(d)
    ensures FoldersAsDesired(Want(d, mac).folders, d, mac)
  {
    forall i | 0 <= i < |d.owned| && Shareable(d.owned[i]) {
      OwnedIsConfigured(d, mac, i);
    }
    forall i | 0 <= i < |d.held| && Holdable(d.held[i], d, mac) {
      HeldIsConfigured(d, mac, i);
    }
  }

  lemma OnlyDesiredAreWanted(d: Desired, mac: Machine)
    ensures FoldersOnlyDesired(Want(d, mac).folders, d, mac)
  {
    var cfg := Want(d, mac);
    forall id | id in cfg.folders && FOLDER_PREFIX <= id
      ensures (exists i :: 0 <= i < |d.owned| && Shareable(d.owned[i]) && id == d.owned[i].id)
           || (exists i :: 0 <= i < |d.owned| && Shareable(d.owned[i]) && IsRemote(d, mac, d.owned[i].catcher) && id == d.owned[i].id + ".catch")
           || (exists i :: 0 <= i < |d.held| && Holdable(d.held[i], d, mac) && id == HeldId(d.held[i]))
    {
      var begun := WantOwned(d.owned, WantDevices(d.peers, mac.self), mac);
      OnlyHeldWanted(begun, d.held, d, mac, id);
      if id in begun {
        OnlyOwnedWanted(d.owned, d, mac, id);
      }
    }
  }
}
