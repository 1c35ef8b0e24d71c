/** Bringing Syncthing's configuration to the desired state, one REST call at a
  * time: Apply in agent/internal/mirror/manager.go. */
module Reconcile {
  import opened Prelude
  import opened Wanted
  import opened Configured

  /** Where reconciliation leads from cfg: everything wanted as wanted, other
    * Casper-named things gone, the rest as it was. */
  function Reconciled(cfg: Config, want: Config): Config {
    Config(
      ForeignDevices(cfg.devices) + want.devices,
      ForeignFolders(cfg.folders) + want.folders)
  }

  function ForeignDevices(devices: map<string, Device>): map<string, Device> {
    map id | id in devices && !CasperDevice(devices[id]) :: devices[id]
  }

  function ForeignFolders(folders: map<string, Folder>): map<string, Folder> {
    map id | id in folders && !CasperFolder(id) :: folders[id]
  }

  // ---- States along the way ----------------------------------------------------

  ghost predicate DevicesBetween(start: map<string, Device>, now: map<string, Device>, want: map<string, Device>) {
    && (forall id :: id in now ==> (id in want && now[id] == want[id]) || (id in start && now[id] == start[id]))
    && (forall id :: id in start && id !in now ==> CasperDevice(start[id]) && id !in want)
  }

  ghost predicate FoldersBetween(start: map<string, Folder>, now: map<string, Folder>, want: map<string, Folder>) {
    && (forall id :: id in now ==> (id in want && now[id] == want[id]) || (id in start && now[id] == start[id]))
    && (forall id :: id in start && id !in now ==> CasperFolder(id) && id !in want)
  }

  /** cfg can be reached from start by some of the calls that lead to want. */
  ghost predicate Between(start: Config, cfg: Config, want: Config) {
    DevicesBetween(start.devices, cfg.devices, want.devices) && FoldersBetween(start.folders, cfg.folders, want.folders)
  }

  /** Every device a folder names is configured. */
  ghost predicate DevicesConfigured(cfg: Config) {
    forall id, k :: id in cfg.folders && 0 <= k < |cfg.folders[id].devices| ==> cfg.folders[id].devices[k].deviceId in cfg.devices
  }

  /** Folders outside Casper's namespace name only devices that will stay. */
  ghost predicate ForeignFoldersSafe(cfg: Config, want: Config) {
    forall id, k :: id in cfg.folders && !CasperFolder(id) && 0 <= k < |cfg.folders[id].devices| ==>
      var device := cfg.folders[id].devices[k].deviceId;
      device in cfg.devices && (device in want.devices || !CasperDevice(cfg.devices[device]))
  }

  ghost predicate WellFormed(want: Config) {
    && (forall id :: id in want.devices ==> CasperDevice(want.devices[id]))
    && (forall id :: id in want.folders ==> CasperFolder(id))
    && (forall id, k :: id in want.folders && 0 <= k < |want.folders[id].devices| ==>
          want.folders[id].devices[k].deviceId in want.devices)
  }

  // ---- Syncthing and the reconciler ---------------------------------------------

  class Syncthing {
    var config: Config
    /** Every configuration so far, oldest first. */
    ghost var trace: seq<Config>

    constructor (config: Config)
      ensures this.config == config && trace == []
    {
      this.config := config;
      trace := [];
    }

    /** One REST call that would change the configuration to next. It may fail
      * without effect, or fail to report that it worked. */
    method Call(next: Config) returns (ok: bool)
      modifies this
      ensures config == next || (!ok && config == old(config))
      ensures trace == old(trace) + [config]
    {
      var arrives: bool := *;
      ok := *;
      if arrives {
        config := next;
      } else {
        ok := false;
      }
      trace := trace + [config];
    }
  }

  /** cfg lies on the way from have to want and, if it was safe to start, every
    * device its folders name is configured. */
  ghost predicate Good(have: Config, cfg: Config, want: Config) {
    && Between(have, cfg, want)
    && (DevicesConfigured(have) && ForeignFoldersSafe(have, want) ==> DevicesConfigured(cfg))
  }

  /** The four stages of Apply; left holds the keys a stage has yet to visit. */
  datatype Stage = PuttingDevices | PuttingFolders | DroppingFolders | DroppingDevices

  function StageDevices(have: Config, want: Config, stage: Stage, left: set<string>): map<string, Device> {
    var all := have.devices + want.devices;
    match stage
    case PuttingDevices => have.devices + (want.devices - left)
    case DroppingDevices => map id | id in all && (id in left || id in want.devices || !CasperDevice(all[id])) :: all[id]
    case _ => all
  }

  function StageFolders(have: Config, want: Config, stage: Stage, left: set<string>): map<string, Folder> {
    var all := have.folders + want.folders;
    match stage
    case PuttingDevices => have.folders
    case PuttingFolders => have.folders + (want.folders - left)
    case DroppingFolders => map id | id in all && (id in left || id in want.folders || !CasperFolder(id)) :: all[id]
    case DroppingDevices => Reconciled(have, want).folders
  }

  function StageConfig(have: Config, want: Config, stage: Stage, left: set<string>): Config {
    Config(StageDevices(have, want, stage, left), StageFolders(have, want, stage, left))
  }

  lemma StageIsBetween(have: Config, want: Config, stage: Stage, left: set<string>)
    requires WellFormed(want)
    ensures Between(have, StageConfig(have, want, stage, left), want)
  {
    var devices := StageDevices(have, want, stage, left);
    var folders := StageFolders(have, want, stage, left);
    assert forall id :: id in devices ==>
      (id in want.devices && devices[id] == want.devices[id]) || (id in have.devices && devices[id] == have.devices[id]);
    assert forall id :: id in folders ==>
      (id in want.folders && folders[id] == want.folders[id]) || (id in have.folders && folders[id] == have.folders[id]);
    assert forall id :: id in have.devices && id !in devices ==> CasperDevice(have.devices[id]) && id !in want.devices;
    assert forall id :: id in have.folders && id !in folders ==> CasperFolder(id) && id !in want.folders;
  }

  lemma StageIsConfigured(have: Config, want: Config, stage: Stage, left: set<string>)
    requires WellFormed(want) && DevicesConfigured(have) && ForeignFoldersSafe(have, want)
    ensures DevicesConfigured(StageConfig(have, want, stage, left))
  {
    var devices := StageDevices(have, want, stage, left);
    var folders := StageFolders(have, want, stage, left);
    forall id, k | id in folders && 0 <= k < |folders[id].devices|
      ensures folders[id].devices[k].deviceId in devices
    {
      var device := folders[id].devices[k].deviceId;
      if !stage.PuttingDevices? && id in want.folders && folders[id] == want.folders[id] {
        assert device in want.devices;
      } else {
        assert folders[id] == have.folders[id] && device in have.devices;
      }
    }
  }

  ghost predicate OnTheWay(have: Config, cfg: Config, want: Config) {
    exists stage, left :: cfg == StageConfig(have, want, stage, left)
  }

  lemma OnTheWayIsGood(have: Config, cfg: Config, want: Config)
    requires WellFormed(want) && OnTheWay(have, cfg, want)
    ensures Good(have, cfg, want)
  {
    var stage, left :| cfg == StageConfig(have, want, stage, left);
    StageIsBetween(have, want, stage, left);
    if DevicesConfigured(have) && ForeignFoldersSafe(have, want) {
      StageIsConfigured(have, want, stage, left);
    }
  }

  /** What one visited key does to the configuration of its stage. */
  function Visit(have: Config, want: Config, stage: Stage, cfg: Config, id: string): Config {
    match stage
    case PuttingDevices => if id in want.devices then Config(cfg.devices[id := want.devices[id]], cfg.folders) else cfg
    case PuttingFolders => if id in want.folders then Config(cfg.devices, cfg.folders[id := want.folders[id]]) else cfg
    case DroppingFolders => if CasperFolder(id) && id !in want.folders then Config(cfg.devices, cfg.folders - {id}) else cfg
    case DroppingDevices =>
      if id in have.devices && CasperDevice(have.devices[id]) && id !in want.devices then Config(cfg.devices - {id}, cfg.folders) else cfg
  }

  /** The keys a stage goes through. */
  function Keys(have: Config, want: Config, stage: Stage): set<string> {
    match stage
    case PuttingDevices => want.devices.Keys
    case PuttingFolders => want.folders.Keys
    case DroppingFolders => have.folders.Keys
    case DroppingDevices => have.devices.Keys
  }

  lemma PutAdvances<V>(base: map<string, V>, want: map<string, V>, left: set<string>, id: string)
    requires id in left && left <= want.Keys
    ensures (base + (want - left))[id := want[id]] == base + (want - (left - {id}))
  {
    assert want - (left - {id}) == (want - left)[id := want[id]];
  }

  lemma VisitAdvances(have: Config, want: Config, stage: Stage, left: set<string>, id: string)
    requires id in left && left <= Keys(have, want, stage)
    ensures Visit(have, want, stage, StageConfig(have, want, stage, left), id) == StageConfig(have, want, stage, left - {id})
  {
    match stage
    case PuttingDevices => PutAdvances(have.devices, want.devices, left, id);
    case PuttingFolders => PutAdvances(have.folders, want.folders, left, id);
    case DroppingFolders => FolderDropAdvances(have, want, left, id);
    case DroppingDevices => DeviceDropAdvances(have, want, left, id);
  }

  lemma FolderDropAdvances(have: Config, want: Config, left: set<string>, id: string)
    requires id in left && left <= have.folders.Keys
    ensures var before, after := StageFolders(have, want, DroppingFolders, left), StageFolders(have, want, DroppingFolders, left - {id});
            after == if CasperFolder(id) && id !in want.folders then before - {id} else before
  {
  }

  lemma DeviceDropAdvances(have: Config, want: Config, left: set<string>, id: string)
    requires id in left && left <= have.devices.Keys
    ensures var before, after := StageDevices(have, want, DroppingDevices, left), StageDevices(have, want, DroppingDevices, left - {id});
            after == if CasperDevice(have.devices[id]) && id !in want.devices then before - {id} else before
  {
  }

  lemma StagesJoin(have: Config, want: Config)
    ensures StageConfig(have, want, PuttingDevices, want.devices.Keys) == have
    ensures StageConfig(have, want, PuttingDevices, {}) == StageConfig(have, want, PuttingFolders, want.folders.Keys)
    ensures StageConfig(have, want, PuttingFolders, {}) == StageConfig(have, want, DroppingFolders, have.folders.Keys)
  {
    assert want.devices - want.devices.Keys == map[] && want.folders - want.folders.Keys == map[];
    assert want.devices - {} == want.devices && want.folders - {} == want.folders;
    assert StageFolders(have, want, DroppingFolders, have.folders.Keys) == have.folders + want.folders;
  }

  lemma FoldersEnd(have: Config, want: Config)
    ensures StageConfig(have, want, DroppingFolders, {}) == StageConfig(have, want, DroppingDevices, have.devices.Keys)
  {
    assert StageFolders(have, want, DroppingFolders, {}) == Reconciled(have, want).folders;
    assert StageDevices(have, want, DroppingDevices, have.devices.Keys) == have.devices + want.devices;
  }

  lemma DevicesEnd(have: Config, want: Config)
    requires WellFormed(want)
    ensures StageConfig(have, want, DroppingDevices, {}) == Reconciled(have, want)
  {
    assert StageDevices(have, want, DroppingDevices, {}) == Reconciled(have, want).devices;
  }

  /** Whether a stage makes a call for this key. */
  predicate NeedsCall(have: Config, want: Config, stage: Stage, id: string) {
    match stage
    case PuttingDevices => true
    case PuttingFolders => true
    case DroppingFolders => CasperFolder(id) && id !in want.folders
    case DroppingDevices => id in have.devices && CasperDevice(have.devices[id]) && id !in want.devices
  }

  ghost predicate AllOnTheWay(have: Config, trace: seq<Config>, from: nat, want: Config) {
    forall k :: from <= k < |trace| ==> OnTheWay(have, trace[k], want)
  }

  lemma StageOnTheWay(have: Config, want: Config, stage: Stage, left: set<string>)
    ensures OnTheWay(have, StageConfig(have, want, stage, left), want)
  {
  }

  /** One turn of such a loop. */
  method VisitOne(st: Syncthing, have: Config, want: Config, stage: Stage, ghost left: set<string>, id: string, ghost from: nat)
    returns (ok: bool)
    requires id in left && left <= Keys(have, want, stage) && st.config == StageConfig(have, want, stage, left)
    requires from <= |st.trace| && AllOnTheWay(have, st.trace, from, want)
    modifies st
    ensures old(st.trace) <= st.trace && AllOnTheWay(have, st.trace, from, want) && OnTheWay(have, st.config, want)
    ensures ok ==> st.config == StageConfig(have, want, stage, left - {id})
  {
    VisitAdvances(have, want, stage, left, id);
    StageOnTheWay(have, want, stage, left);
    StageOnTheWay(have, want, stage, left - {id});
    var next := Visit(have, want, stage, st.config, id);
    ok := true;
    if NeedsCall(have, want, stage, id) {
      ok := st.Call(next);
    }
  }

  /** One of Apply's four loops: a call for every key that needs one, in
    * whatever order the map hands them out. */
  method RunStage(st: Syncthing, have: Config, want: Config, stage: Stage, ghost from: nat) returns (ok: bool)
    requires WellFormed(want) && st.config == StageConfig(have, want, stage, Keys(have, want, stage))
    requires from <= |st.trace| && AllOnTheWay(have, st.trace, from, want)
    modifies st
    ensures old(st.trace) <= st.trace && AllOnTheWay(have, st.trace, from, want) && OnTheWay(have, st.config, want)
    ensures ok ==> st.config == StageConfig(have, want, stage, {})
  {
    var left := Keys(have, want, stage);
    StageOnTheWay(have, want, stage, left);
    ok := true;
    while left != {}
      invariant ok && left <= Keys(have, want, stage)
      invariant st.config == StageConfig(have, want, stage, left) && OnTheWay(have, st.config, want)
      invariant old(st.trace) <= st.trace && AllOnTheWay(have, st.trace, from, want)
      decreases |left|
    {
      var id :| id in left;
      ok := VisitOne(st, have, want, stage, left, id, from);
      if !ok {
        return;
      }
      left := left - {id};
    }
  }

  lemma {:induction false} KnownAreWanted(ids: seq<string>, wanted: map<string, Device>, password: string)
    ensures forall k :: 0 <= k < |Known(ids, wanted, password)| ==> Known(ids, wanted, password)[k].deviceId in wanted
  {
    if ids != [] {
      KnownAreWanted(ids[..|ids| - 1], wanted, password);
    }
  }

  lemma {:induction false} DevicesAreCaspers(peers: seq<Peer>, self: string)
    ensures forall id :: id in WantDevices(peers, self) ==> CasperDevice(WantDevices(peers, self)[id])
  {
    if peers != [] {
      DevicesAreCaspers(peers[..|peers| - 1], self);
    }
  }

  lemma {:induction false} OwnedAreWellFormed(owned: seq<OwnedFolder>, wanted: map<string, Device>, mac: Machine)
    requires forall id :: id in wanted ==> CasperDevice(wanted[id])
    ensures WellFormed(Config(wanted, WantOwned(owned, wanted, mac)))
  {
    if owned != [] {
      var f := owned[|owned| - 1];
      OwnedAreWellFormed(owned[..|owned| - 1], wanted, mac);
      KnownAreWanted(f.mirrors, wanted, f.password);
      assert CasperFolder(f.id) ==> CasperFolder(CatchFolderId(f.id));
    }
  }

  lemma {:induction false} HeldAreWellFormed(start: map<string, Folder>, held: seq<HeldFolder>, wanted: map<string, Device>, mac: Machine)
    requires WellFormed(Config(wanted, start))
    ensures WellFormed(Config(wanted, WantHeld(start, held, wanted, mac)))
  {
    if held != [] {
      var h := held[|held| - 1];
      HeldAreWellFormed(start, held[..|held| - 1], wanted, mac);
      KnownAreWanted(h.owners, wanted, "");
      assert CasperFolder(h.id) ==> CasperFolder(CatchFolderId(h.id));
    }
  }

  /** Everything wanted is in Casper's namespace and refers only to wanted devices. */
  lemma WantIsWellFormed(d: Desired, mac: Machine)
    ensures WellFormed(Want(d, mac))
  {
    var devices := WantDevices(d.peers, mac.self);
    DevicesAreCaspers(d.peers, mac.self);
    OwnedAreWellFormed(d.owned, devices, mac);
    HeldAreWellFormed(WantOwned(d.owned, devices, mac), d.held, devices, mac);
  }

  /** Reconciling keeps it so, whatever was configured before. */
  lemma ReconciledDoesWhatIsDesired(start: Config, d: Desired, mac: Machine)
    ensures AsDesired(Reconciled(start, Want(d, mac)), d, mac)
  {
    var want := Want(d, mac);
    WantIsAsDesired(d, mac);
    var cfg := Reconciled(start, want);
    assert forall id :: id in cfg.folders && FOLDER_PREFIX <= id ==> id in want.folders;
    MoreIsAsDesired(want, cfg, d, mac);
  }

  /** Reconciles. It stops at the first call that fails; when none does, the
    * configuration is the reconciled one. At every moment in between, every
    * device a folder names is configured. */
  method Apply(st: Syncthing, d: Desired, mac: Machine) returns (ok: bool)
    modifies st
    ensures ok ==> st.config == Reconciled(old(st.config), Want(d, mac))
    ensures ok ==> AsDesired(st.config, d, mac)
    ensures Between(old(st.config), st.config, Want(d, mac))
    ensures old(st.trace) <= st.trace
    ensures DevicesConfigured(old(st.config)) && ForeignFoldersSafe(old(st.config), Want(d, mac)) ==>
              forall k :: |old(st.trace)| <= k < |st.trace| ==> DevicesConfigured(st.trace[k])
  {
    var prepared: bool := *; // relays applied, directories made, both lists fetched
    if !prepared {
      return false;
    }
    var want := Plan(d, mac);
    WantIsWellFormed(d, mac);
    var have := st.config;
    ghost var from := |st.trace|;
    StagesJoin(have, want);
    FoldersEnd(have, want);
    DevicesEnd(have, want);
    ok := RunStage(st, have, want, PuttingDevices, from);
    if ok {
      ok := RunStage(st, have, want, PuttingFolders, from);
    }
    if ok {
      ok := RunStage(st, have, want, DroppingFolders, from);
    }
    if ok {
      ok := RunStage(st, have, want, DroppingDevices, from);
    }
    ReconciledDoesWhatIsDesired(have, d, mac);
    OnTheWayIsGood(have, st.config, want);
    forall k | from <= k < |st.trace|
      ensures Good(have, st.trace[k], want)
    {
      OnTheWayIsGood(have, st.trace[k], want);
    }
  }

  // ---- Consequences ---------------------------------------------------------------

  /** A run cut off anywhere, then repeated, reaches what one uninterrupted run
    * reaches; and a reconciled configuration stays as it is. */
  lemma RetryReachesTheSame(start: Config, cut: Config, want: Config)
    requires Between(start, cut, want) && WellFormed(want)
    ensures Reconciled(cut, want) == Reconciled(start, want)
    ensures Reconciled(Reconciled(start, want), want) == Reconciled(start, want)
  {
    DevicesRetried(start.devices, cut.devices, want.devices);
    FoldersRetried(start.folders, cut.folders, want.folders);
    DevicesSettled(start.devices, want.devices);
    FoldersSettled(start.folders, want.folders);
  }

  lemma FoldersSettled(start: map<string, Folder>, want: map<string, Folder>)
    requires forall id :: id in want ==> CasperFolder(id)
    ensures ForeignFolders(ForeignFolders(start) + want) + want == ForeignFolders(start) + want
  {
    assert ForeignFolders(ForeignFolders(start) + want) == ForeignFolders(start);
  }

  lemma DevicesRetried(start: map<string, Device>, cut: map<string, Device>, want: map<string, Device>)
    requires DevicesBetween(start, cut, want)
    ensures ForeignDevices(cut) + want == ForeignDevices(start) + want
  {
  }

  lemma FoldersRetried(start: map<string, Folder>, cut: map<string, Folder>, want: map<string, Folder>)
    requires FoldersBetween(start, cut, want)
    ensures ForeignFolders(cut) + want == ForeignFolders(start) + want
  {
  }

  lemma DevicesSettled(start: map<string, Device>, want: map<string, Device>)
    ensures ForeignDevices(ForeignDevices(start) + want) + want == ForeignDevices(start) + want
  {
  }

  /** Any number of cut-off runs, one after the other, lead to the same place. */
  lemma {:induction false} ManyRetriesReachTheSame(cfgs: seq<Config>, want: Config)
    requires cfgs != [] && WellFormed(want)
    requires forall i :: 0 <= i < |cfgs| - 1 ==> Between(cfgs[i], cfgs[i + 1], want)
    ensures Reconciled(cfgs[|cfgs| - 1], want) == Reconciled(cfgs[0], want)
  {
    if |cfgs| > 1 {
      ManyRetriesReachTheSame(cfgs[..|cfgs| - 1], want);
      RetryReachesTheSame(cfgs[|cfgs| - 2], cfgs[|cfgs| - 1], want);
    }
  }

  /** A cut-off run leaves a configuration a retry is safe in. */
  lemma CutStaysSafe(start: Config, cut: Config, want: Config)
    requires Between(start, cut, want) && WellFormed(want) && ForeignFoldersSafe(start, want)
    ensures ForeignFoldersSafe(cut, want)
  {
  }

  /** In the end the Casper-named folders and devices are exactly those wanted,
    * and every other folder, and every other device no peer shares its id with,
    * is as it was. */
  lemma ReconciledExactly(start: Config, want: Config)
    requires WellFormed(want)
    ensures var cfg := Reconciled(start, want);
            && (forall id :: id in cfg.folders && CasperFolder(id) <==> id in want.folders)
            && (forall id :: id in cfg.devices && CasperDevice(cfg.devices[id]) <==> id in want.devices)
            && (forall id :: id in want.folders ==> cfg.folders[id] == want.folders[id])
            && (forall id :: id in want.devices ==> cfg.devices[id] == want.devices[id])
            && (forall id :: !CasperFolder(id) ==>
                  (id in start.folders <==> id in cfg.folders) && (id in cfg.folders ==> cfg.folders[id] == start.folders[id]))
  {
  }

  /** A device Casper did not configure survives unchanged exactly when it is
    * not also a wanted peer; one that is gets renamed into Casper's namespace,
    * and is removed once it is no longer wanted. */
  lemma ForeignDeviceKeptIff(start: Config, want: Config, later: Config, id: string)
    requires WellFormed(want) && id in start.devices && !CasperDevice(start.devices[id])
    ensures (id in Reconciled(start, want).devices && Reconciled(start, want).devices[id] == start.devices[id])
            <==> id !in want.devices
    ensures id in want.devices && id !in later.devices ==> id !in Reconciled(Reconciled(start, want), later).devices
  {
  }

  /** So a device configured by hand is lost in two steps: its owner becomes a
    * peer, and later no longer is one. */
  lemma ForeignPeerIsLost(mac: Machine)
    requires mac.self != "NAS-ID"
    ensures var start := Config(map["NAS-ID" := Device("my nas", ["tcp://10.0.0.9"])], map[]);
            var asPeer := Reconciled(start, Want(Desired([Peer("NAS-ID", "sam", [])], [], []), mac));
            && asPeer.devices["NAS-ID"] == Device("casper:sam", ["dynamic"])
            && Reconciled(asPeer, Want(Desired([], [], []), mac)).devices == map[]
  {
    var peers := [Peer("NAS-ID", "sam", [])];
    assert peers[..0] == [] && peers[0].addresses + ["dynamic"] == ["dynamic"];
    assert DEVICE_PREFIX + "sam" == "casper:sam";
    assert !(DEVICE_PREFIX <= "my nas") by {
      assert "my nas"[0] != DEVICE_PREFIX[0];
    }
  }


}
