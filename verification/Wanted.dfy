/** The configuration a desired state asks for: the first half of Apply in
  * agent/internal/mirror/manager.go. */
module Wanted {
  import opened Prelude

  const FOLDER_PREFIX := "casper-"
  const DEVICE_PREFIX := "casper:"
  /** 30 days, in seconds. */
  const HISTORY_MAX_AGE: nat := 30 * 24 * 3600

  datatype Peer = Peer(deviceId: string, name: string, addresses: seq<string>)

  datatype OwnedFolder = OwnedFolder(
    id: string, caption: string, path: string, mirrors: seq<string>, catcher: string, restore: bool, password: string)

  datatype Kind = MirrorKind | CatcherKind

  datatype HeldFolder = HeldFolder(id: string, caption: string, owners: seq<string>, kind: Kind, quotaBytes: int)

  datatype Desired = Desired(peers: seq<Peer>, owned: seq<OwnedFolder>, held: seq<HeldFolder>)

  datatype Device = Device(name: string, addresses: seq<string>)

  datatype FolderDevice = FolderDevice(deviceId: string, password: string)

  datatype FolderType = SendOnly | ReceiveOnly | ReceiveEncrypted | SendReceive

  datatype Versioning = NoVersions | Staggered(maxAge: nat, cleanupInterval: nat)

  datatype Folder = Folder(
    caption: string, path: string, kind: FolderType, devices: seq<FolderDevice>,
    watched: bool, rescan: nat, versioning: Versioning, paused: bool)

  datatype Config = Config(devices: map<string, Device>, folders: map<string, Folder>)

  /** This machine: its own device id, its data directory, and how many bytes
    * lie under a path. */
  datatype Machine = Machine(self: string, dataDir: string, dirSize: string -> int)

  predicate CasperFolder(id: string) {
    FOLDER_PREFIX <= id
  }

  predicate CasperDevice(d: Device) {
    DEVICE_PREFIX <= d.name
  }

  function CatchFolderId(id: string): string {
    id + ".catch"
  }

  // ---- What is wanted -------------------------------------------------------

  function WantDevices(peers: seq<Peer>, self: string): map<string, Device> {
    if peers == [] then map[]
    else
      var rest := WantDevices(peers[..|peers| - 1], self);
      var p := peers[|peers| - 1];
      if p.deviceId == "" || p.deviceId == self then rest
      else rest[p.deviceId := Device(DEVICE_PREFIX + p.name, p.addresses + ["dynamic"])]
  }

  /** Those of ids that are wanted devices, in order. */
  function Known(ids: seq<string>, wanted: map<string, Device>, password: string): seq<FolderDevice> {
    if ids == [] then []
    else
      Known(ids[..|ids| - 1], wanted, password)
      + (if ids[|ids| - 1] in wanted then [FolderDevice(ids[|ids| - 1], password)] else [])
  }

  function AddOwned(folders: map<string, Folder>, f: OwnedFolder, wanted: map<string, Device>, mac: Machine): map<string, Folder> {
    if !CasperFolder(f.id) || f.password == "" then folders
    else
      var kind := if f.restore then ReceiveOnly else SendOnly;
      var main := folders[f.id := Folder(f.caption, f.path, kind, Known(f.mirrors, wanted, f.password), true, 3600, NoVersions, false)];
      if f.catcher != "" && f.catcher in wanted then
        main[CatchFolderId(f.id) :=
          Folder(f.caption + " (catcher)", mac.dataDir + "/staging/" + f.id, kind,
                 [FolderDevice(f.catcher, f.password)], true, 600, NoVersions, false)]
      else main
  }

  function OverQuota(h: HeldFolder, size: int): bool {
    h.quotaBytes > 0 && size > h.quotaBytes + h.quotaBytes / 10
  }

  function AddHeld(folders: map<string, Folder>, h: HeldFolder, wanted: map<string, Device>, mac: Machine): map<string, Folder> {
    var owners := Known(h.owners, wanted, "");
    if owners == [] || !CasperFolder(h.id) then folders
    else
      var catching := h.kind.CatcherKind?;
      var id := if catching then CatchFolderId(h.id) else h.id;
      var path := mac.dataDir + "/held/" + id;
      folders[id := Folder(
        if catching then h.caption + " (catcher)" else h.caption, path, ReceiveEncrypted, owners, false, 3600,
        if catching then NoVersions else Staggered(HISTORY_MAX_AGE, 3600),
        OverQuota(h, mac.dirSize(path)))]
  }

  function WantOwned(owned: seq<OwnedFolder>, wanted: map<string, Device>, mac: Machine): map<string, Folder> {
    if owned == [] then map[]
    else AddOwned(WantOwned(owned[..|owned| - 1], wanted, mac), owned[|owned| - 1], wanted, mac)
  }

  function WantHeld(start: map<string, Folder>, held: seq<HeldFolder>, wanted: map<string, Device>, mac: Machine): map<string, Folder> {
    if held == [] then start
    else AddHeld(WantHeld(start, held[..|held| - 1], wanted, mac), held[|held| - 1], wanted, mac)
  }

  function Want(d: Desired, mac: Machine): Config {
    var devices := WantDevices(d.peers, mac.self);
    Config(devices, WantHeld(WantOwned(d.owned, devices, mac), d.held, devices, mac))
  }

  /** Builds the wanted devices and folders, list entry by list entry. */
  method Plan(d: Desired, mac: Machine) returns (want: Config)
    ensures want == Want(d, mac)
  {
    var devices: map<string, Device> := map[];
    for i := 0 to |d.peers|
      invariant devices == WantDevices(d.peers[..i], mac.self)
    {
      assert d.peers[..i + 1][..i] == d.peers[..i];
      var p := d.peers[i];
      if p.deviceId != "" && p.deviceId != mac.self {
        devices := devices[p.deviceId := Device(DEVICE_PREFIX + p.name, p.addresses + ["dynamic"])];
      }
    }
    assert d.peers[..|d.peers|] == d.peers;
    var folders: map<string, Folder> := map[];
    for i := 0 to |d.owned|
      invariant folders == WantOwned(d.owned[..i], devices, mac)
    {
      assert d.owned[..i + 1][..i] == d.owned[..i];
      var f := d.owned[i];
      if CasperFolder(f.id) && f.password != "" {
        var mirrors := KnownDevices(f.mirrors, devices, f.password);
        var kind := if f.restore then ReceiveOnly else SendOnly;
        folders := folders[f.id := Folder(f.caption, f.path, kind, mirrors, true, 3600, NoVersions, false)];
        if f.catcher != "" && f.catcher in devices {
          folders := folders[CatchFolderId(f.id) :=
            Folder(f.caption + " (catcher)", mac.dataDir + "/staging/" + f.id, kind,
                   [FolderDevice(f.catcher, f.password)], true, 600, NoVersions, false)];
        }
      }
    }
    assert d.owned[..|d.owned|] == d.owned;
    ghost var start := folders;
    for i := 0 to |d.held|
      invariant folders == WantHeld(start, d.held[..i], devices, mac)
    {
      assert d.held[..i + 1][..i] == d.held[..i];
      var h := d.held[i];
      var owners := KnownDevices(h.owners, devices, "");
      if owners != [] && CasperFolder(h.id) {
        var id, caption, versioning := h.id, h.caption, Staggered(HISTORY_MAX_AGE, 3600);
        if h.kind.CatcherKind? {
          id, caption, versioning := CatchFolderId(h.id), h.caption + " (catcher)", NoVersions;
        }
        var path := mac.dataDir + "/held/" + id;
        folders := folders[id := Folder(caption, path, ReceiveEncrypted, owners, false, 3600, versioning,
                                        OverQuota(h, mac.dirSize(path)))];
      }
    }
    assert d.held[..|d.held|] == d.held;
    want := Config(devices, folders);
  }

  method KnownDevices(ids: seq<string>, wanted: map<string, Device>, password: string) returns (devs: seq<FolderDevice>)
    ensures devs == Known(ids, wanted, password)
  {
    devs := [];
    for i := 0 to |ids|
      invariant devs == Known(ids[..i], wanted, password)
    {
      assert ids[..i + 1][..i] == ids[..i];
      if ids[i] in wanted {
        devs := devs + [FolderDevice(ids[i], password)];
      }
    }
    assert ids[..|ids|] == ids;
  }

  lemma {:induction false} WantedDevicesAre(peers: seq<Peer>, self: string, id: string)
    ensures id in WantDevices(peers, self)
            <==> id != "" && id != self && exists k :: 0 <= k < |peers| && peers[k].deviceId == id
  {
    if peers != [] {
      var init := peers[..|peers| - 1];
      WantedDevicesAre(init, self, id);
      if exists k :: 0 <= k < |init| && init[k].deviceId == id {
        var k :| 0 <= k < |init| && init[k].deviceId == id;
        assert peers[k] == init[k];
      }
      if id in WantDevices(peers, self) && id !in WantDevices(init, self) {
        assert peers[|peers| - 1].deviceId == id;
      }
      if exists k :: 0 <= k < |peers| && peers[k].deviceId == id {
        var k :| 0 <= k < |peers| && peers[k].deviceId == id;
        if k < |init| {
          assert init[k] == peers[k];
        }
      }
    }
  }

  /** When every id a folder names is some peer's, the configured folder names
    * all of them in order; only this machine itself is left out. */
  lemma {:induction false} OnlySelfIsDropped(ids: seq<string>, peers: seq<Peer>, self: string, password: string)
    requires forall k :: 0 <= k < |ids| ==> ids[k] != "" && exists j :: 0 <= j < |peers| && peers[j].deviceId == ids[k]
    ensures Known(ids, WantDevices(peers, self), password) == WithoutSelf(ids, self, password)
  {
    if ids != [] {
      var init := ids[..|ids| - 1];
      assert forall k :: 0 <= k < |init| ==> init[k] == ids[k];
      OnlySelfIsDropped(ids[..|ids| - 1], peers, self, password);
      WantedDevicesAre(peers, self, ids[|ids| - 1]);
    }
  }

  function WithoutSelf(ids: seq<string>, self: string, password: string): seq<FolderDevice> {
    if ids == [] then []
    else
      WithoutSelf(ids[..|ids| - 1], self, password)
      + (if ids[|ids| - 1] == self then [] else [FolderDevice(ids[|ids| - 1], password)])
  }}
