/** A peer daemon's store of other accounts' chunks:
  * agent/internal/backup/peer.go. Time is in nanoseconds; one clock reading
  * serves a whole operation. */
module PeerStore {
  import opened Prelude
  import opened Manifests

  type Time = int

  const SECOND: Time := 1_000_000_000
  const GRANTS_MAX_AGE: Time := 60 * SECOND
  const REVOCATION_GRACE: Time := 7 * 24 * 3600 * SECOND

  datatype Tier = Allow | Ask | Deny | OtherTier(text: string)

  datatype Grant = Grant(
    grantee: string,
    signingKeys: seq<PublicKey>,
    quotaBytes: int,
    writeTier: Tier,
    revokedAt: Option<Time>)

  /** One stored backup: manifest.json, the chunk files, the complete marker. */
  datatype BackupDir = BackupDir(manifest: Option<SignedManifest>, chunks: map<int, Bytes>, complete: bool)

  const NO_DIR := BackupDir(None, map[], false)

  /** One grantee's directory. */
  type Shelf = map<string, BackupDir>

  datatype PeerState = PeerState(grants: Option<seq<Grant>>, grantsAt: Time, stored: map<string, Shelf>)

  /** What asking casper_service for the grant list gives. */
  datatype Fetch = NoFetcher | FetchFailed | Fetched(grants: seq<Grant>)

  datatype Error = InvalidGrantee | InvalidId | NoGrantList | Unreadable | OutOfRange | NotEncoded | NoBackup | NeverFinished | NoChunk

  datatype Reason = NoReason | NoSpace | OverQuota | WritesOff | NeedsManifest | BadManifest | OtherBackup | ChunkZeroFirst | ChunkMismatch

  datatype WriteReply = Verdict(tier: Tier, reason: Reason, complete: bool) | Failed(error: Error)

  datatype WriteRequest = WriteRequest(
    grantee: string,
    backupId: string,
    index: int,
    content: Base64<Bytes>,
    manifest: SignedManifest,
    approved: bool)

  predicate IdChar(c: char) {
    'A' <= c <= 'Z' || 'a' <= c <= 'z' || '0' <= c <= '9' || c == '_' || c == '-'
  }

  predicate ValidId(id: string) {
    8 <= |id| <= 64 && forall i :: 0 <= i < |id| ==> IdChar(id[i])
  }

  predicate ValidUser(name: string) {
    1 <= |name| <= 64 && forall i :: 0 <= i < |name| ==> IdChar(name[i]) || name[i] == '.'
  }

  // ---- What each operation does ------------------------------------------

  predicate CacheFresh(st: PeerState, now: Time) {
    st.grants.Some? && now - st.grantsAt < GRANTS_MAX_AGE
  }

  function ConsultGrants(st: PeerState, force: bool, now: Time, fetch: Fetch): (PeerState, Option<seq<Grant>>) {
    if CacheFresh(st, now) && !force then (st, st.grants)
    else if fetch.Fetched? then (st.(grants := Some(fetch.grants), grantsAt := now), Some(fetch.grants))
    else (st, None)
  }

  /** The first entry for grantee. */
  function FirstGrant(grants: seq<Grant>, grantee: string): Option<Grant> {
    if grants == [] then None
    else if grants[0].grantee == grantee then Some(grants[0])
    else FirstGrant(grants[1..], grantee)
  }

  function ShelfOf(st: PeerState, grantee: string): Shelf {
    if grantee in st.stored then st.stored[grantee] else map[]
  }

  function DirOf(shelf: Shelf, id: string): BackupDir {
    if id in shelf then shelf[id] else NO_DIR
  }

  /** The manifest a stored directory decodes to. */
  function Declared(dir: BackupDir): Option<Manifest> {
    if dir.manifest.Some? then Decoded(dir.manifest.value) else None
  }

  ghost function Totals(shelf: Shelf): map<string, int> {
    map id | id in shelf && Declared(shelf[id]).Some? :: Declared(shelf[id]).value.totalBytes
  }

  /** Declared bytes of every backup on the shelf. */
  ghost function Used(shelf: Shelf): int {
    SumOf(Totals(shelf))
  }

  ghost function UsedExcluding(shelf: Shelf, id: string): int {
    SumOf(Totals(shelf) - {id})
  }

  lemma UsedWithout(shelf: Shelf, id: string, excluding: string)
    requires id in shelf
    ensures UsedExcluding(shelf, excluding)
            == (if id != excluding && Declared(shelf[id]).Some? then Declared(shelf[id]).value.totalBytes else 0)
               + UsedExcluding(shelf - {id}, excluding)
  {
    var totals := Totals(shelf) - {excluding};
    assert Totals(shelf - {id}) - {excluding} == totals - {id};
    if id in totals {
      SumWithout(totals, id);
    } else {
      assert totals - {id} == totals;
    }
  }

  predicate Active(g: Option<Grant>) {
    g.Some? && g.value.revokedAt.None?
  }

  ghost function TierVerdict(grants: seq<Grant>, shelf: Shelf, grantee: string, id: string, total: int): (Tier, Reason) {
    var g := FirstGrant(grants, grantee);
    if !Active(g) then (Deny, NoSpace)
    else if UsedExcluding(shelf, id) + total > g.value.quotaBytes then (Deny, OverQuota)
    else if g.value.writeTier.Allow? || g.value.writeTier.Ask? then (g.value.writeTier, NoReason)
    else (Deny, WritesOff)
  }

  datatype Judgement = Answer(reply: WriteReply) | Accept(tier: Tier, manifest: Manifest, data: Bytes)

  /** Which manifest governs this write. */
  function Governing(g: Grant, dir: BackupDir, q: WriteRequest): Result<Manifest, WriteReply> {
    if q.index == 0 then
      if q.manifest.manifest == EMPTY_TEXT then Failure(Verdict(Deny, NeedsManifest, false))
      else
        var v := VerifyManifest(q.manifest, g.signingKeys);
        if v.Failure? then Failure(Verdict(Deny, BadManifest, false))
        else if v.value.backupId != q.backupId then Failure(Verdict(Deny, OtherBackup, false))
        else Success(v.value)
    else if dir.manifest.None? then Failure(Verdict(Deny, ChunkZeroFirst, false))
    else if Declared(dir).None? then Failure(Failed(Unreadable))
    else Success(Declared(dir).value)
  }

  /** Everything WriteChunk decides before it touches the disk. */
  ghost function Judge(grants: seq<Grant>, shelf: Shelf, q: WriteRequest): Judgement {
    var g := FirstGrant(grants, q.grantee);
    if !Active(g) then Answer(Verdict(Deny, NoSpace, false))
    else
      var m := Governing(g.value, DirOf(shelf, q.backupId), q);
      if m.Failure? then Answer(m.error)
      else
        var (tier, reason) := TierVerdict(grants, shelf, q.grantee, q.backupId, m.value.totalBytes);
        if tier == Deny then Answer(Verdict(tier, reason, false))
        else if tier == Ask && !q.approved then Answer(Verdict(Ask, NoReason, false))
        else if q.index < 0 || q.index >= |m.value.chunkHashes| then Answer(Failed(OutOfRange))
        else if q.content.NotBase64? then Answer(Failed(NotEncoded))
        else if Sha256Hex(q.content.value) != m.value.chunkHashes[q.index] then Answer(Verdict(Deny, ChunkMismatch, false))
        else Accept(tier, m.value, q.content.value)
  }

  predicate AllPresent(m: Manifest, chunks: map<int, Bytes>) {
    forall i :: 0 <= i < |m.chunkHashes| ==> i in chunks
  }

  /** A directory after an accepted chunk. */
  function WithChunk(dir: BackupDir, q: WriteRequest, m: Manifest, data: Bytes): BackupDir {
    var chunks := dir.chunks[q.index := data];
    BackupDir(if q.index == 0 then Some(q.manifest) else dir.manifest, chunks, dir.complete || AllPresent(m, chunks))
  }

  function PutDir(st: PeerState, grantee: string, id: string, dir: BackupDir): PeerState {
    st.(stored := st.stored[grantee := ShelfOf(st, grantee)[id := dir]])
  }

  ghost function Write(st: PeerState, now: Time, fetch: Fetch, q: WriteRequest): (PeerState, WriteReply) {
    if !ValidUser(q.grantee) then (st, Failed(InvalidGrantee))
    else if !ValidId(q.backupId) then (st, Failed(InvalidId))
    else
      var (st1, grants) := ConsultGrants(st, false, now, fetch);
      if grants.None? then (st1, Failed(NoGrantList))
      else
        var shelf := ShelfOf(st1, q.grantee);
        match Judge(grants.value, shelf, q)
        case Answer(reply) => (st1, reply)
        case Accept(tier, m, data) =>
          var dir := DirOf(shelf, q.backupId);
          (PutDir(st1, q.grantee, q.backupId, WithChunk(dir, q, m, data)),
           Verdict(tier, NoReason, AllPresent(m, dir.chunks[q.index := data])))
  }

  predicate Readable(grants: seq<Grant>, now: Time, grantee: string) {
    var g := FirstGrant(grants, grantee);
    g.Some? && (g.value.revokedAt.None? || now - g.value.revokedAt.value < REVOCATION_GRACE)
  }

  function ReadableBy(st: PeerState, now: Time, fetch: Fetch, grantee: string): (PeerState, Result<bool, Error>) {
    if !ValidUser(grantee) then (st, Failure(InvalidGrantee))
    else
      var (st1, grants) := ConsultGrants(st, false, now, fetch);
      (st1, if grants.None? then Failure(NoGrantList) else Success(Readable(grants.value, now, grantee)))
  }

  datatype ManifestReply = ManifestReply(manifest: SignedManifest, chunkCount: nat)

  function GetManifest(st: PeerState, now: Time, fetch: Fetch, grantee: string, id: string): (PeerState, Result<ManifestReply, Error>) {
    if !ValidId(id) then (st, Failure(InvalidId))
    else
      var (st1, ok) := ReadableBy(st, now, fetch, grantee);
      var dir := DirOf(ShelfOf(st1, grantee), id);
      (st1,
       if ok.Failure? then Failure(ok.error)
       else if !ok.value || dir.manifest.None? then Failure(NoBackup)
       else if !dir.complete then Failure(NeverFinished)
       else if Declared(dir).None? then Failure(Unreadable)
       else Success(ManifestReply(dir.manifest.value, |Declared(dir).value.chunkHashes|)))
  }

  function GetChunk(st: PeerState, now: Time, fetch: Fetch, grantee: string, id: string, index: int): (PeerState, Result<Base64<Bytes>, Error>) {
    if !ValidId(id) then (st, Failure(InvalidId))
    else
      var (st1, ok) := ReadableBy(st, now, fetch, grantee);
      var dir := DirOf(ShelfOf(st1, grantee), id);
      (st1,
       if ok.Failure? then Failure(ok.error)
       else if !ok.value then Failure(NoBackup)
       else if index !in dir.chunks then Failure(NoChunk)
       else Success(Encoded(dir.chunks[index])))
  }

  function Delete(st: PeerState, now: Time, fetch: Fetch, grantee: string, id: string): (PeerState, Result<(), Error>) {
    if !ValidId(id) then (st, Failure(InvalidId))
    else
      var (st1, ok) := ReadableBy(st, now, fetch, grantee);
      if ok.Failure? then (st1, Failure(ok.error))
      else if !ok.value then (st1, Failure(NoBackup))
      else if grantee !in st1.stored then (st1, Success(()))
      else (st1.(stored := st1.stored[grantee := st1.stored[grantee] - {id}]), Success(()))
  }

  predicate ExpiredEntry(g: Grant, now: Time) {
    g.revokedAt.Some? && now - g.revokedAt.value >= REVOCATION_GRACE && ValidUser(g.grantee)
  }

  predicate Expired(grants: seq<Grant>, now: Time, grantee: string) {
    exists i :: 0 <= i < |grants| && grants[i].grantee == grantee && ExpiredEntry(grants[i], now)
  }

  lemma ExpiredAppend(grants: seq<Grant>, g: Grant, now: Time)
    ensures forall h :: Expired(grants + [g], now, h) <==> Expired(grants, now, h) || (g.grantee == h && ExpiredEntry(g, now))
  {
    var more := grants + [g];
    assert more[|grants|] == g;
    assert forall k :: 0 <= k < |grants| ==> more[k] == grants[k];
  }

  function Refresh(st: PeerState, now: Time, fetch: Fetch): PeerState {
    var (st1, grants) := ConsultGrants(st, true, now, fetch);
    if grants.None? then st1
    else st1.(stored := map g | g in st1.stored && !Expired(grants.value, now, g) :: st1.stored[g])
  }

  // ---- The daemon ----------------------------------------------------------

  class Daemon {
    var grants: Option<seq<Grant>>
    var grantsAt: Time
    var stored: map<string, Shelf>

    ghost function State(): PeerState
      reads this
    {
      PeerState(grants, grantsAt, stored)
    }

    constructor ()
      ensures State() == PeerState(None, 0, map[])
    {
      grants, grantsAt, stored := None, 0, map[];
    }

    method CurrentGrants(force: bool, now: Time, fetch: Fetch) returns (r: Option<seq<Grant>>)
      modifies this
      ensures (State(), r) == ConsultGrants(old(State()), force, now, fetch)
    {
      if grants.Some? && now - grantsAt < GRANTS_MAX_AGE && !force {
        return grants;
      }
      match fetch
      case NoFetcher => r := None;
      case FetchFailed => r := None;
      case Fetched(list) =>
        grants, grantsAt := Some(list), now;
        r := grants;
    }

    method FindGrant(list: seq<Grant>, grantee: string) returns (g: Option<Grant>)
      ensures g == FirstGrant(list, grantee)
    {
      var i := 0;
      assert list[0..] == list;
      while i < |list|
        invariant 0 <= i <= |list|
        invariant FirstGrant(list, grantee) == FirstGrant(list[i..], grantee)
      {
        if list[i].grantee == grantee {
          return Some(list[i]);
        }
        i := i + 1;
      }
      g := None;
    }

    /** Adds up the declared sizes, directory by directory. */
    method UsedBytes(grantee: string, excluding: string) returns (used: int)
      ensures used == UsedExcluding(ShelfOf(State(), grantee), excluding)
    {
      var entries := if grantee in stored then stored[grantee] else map[];
      used := 0;
      while entries != map[]
        invariant used + UsedExcluding(entries, excluding) == UsedExcluding(ShelfOf(State(), grantee), excluding)
        decreases |entries|
      {
        var id :| id in entries;
        UsedWithout(entries, id, excluding);
        var m := if entries[id].manifest.Some? then Decoded(entries[id].manifest.value) else None;
        if id != excluding && m.Some? {
          used := used + m.value.totalBytes;
        }
        entries := entries - {id};
      }
      assert Totals(entries) - {excluding} == map[];
    }

    method WriteVerdict(list: seq<Grant>, grantee: string, id: string, total: int) returns (tier: Tier, reason: Reason)
      ensures (tier, reason) == TierVerdict(list, ShelfOf(State(), grantee), grantee, id, total)
    {
      var g := FindGrant(list, grantee);
      if g.None? || g.value.revokedAt.Some? {
        return Deny, NoSpace;
      }
      var used := UsedBytes(grantee, id);
      if used + total > g.value.quotaBytes {
        return Deny, OverQuota;
      }
      match g.value.writeTier
      case Allow => return Allow, NoReason;
      case Ask => return Ask, NoReason;
      case _ => return Deny, WritesOff;
    }

    /** A verdict on a write that has not happened: it stores nothing. */
    method Authorize(now: Time, fetch: Fetch, grantee: string, id: string, total: int) returns (r: Result<(Tier, Reason), Error>)
      modifies this
      ensures stored == old(stored)
      ensures ValidUser(grantee) && ValidId(id) ==> State() == ConsultGrants(old(State()), true, now, fetch).0
      ensures ValidUser(grantee) && ValidId(id) && fetch.Fetched? ==>
                r == Success(TierVerdict(fetch.grants, ShelfOf(State(), grantee), grantee, id, total))
      ensures !(ValidUser(grantee) && ValidId(id) && fetch.Fetched?) ==> r.Failure? && State() == old(State())
    {
      if !ValidUser(grantee) {
        return Failure(InvalidGrantee);
      }
      if !ValidId(id) {
        return Failure(InvalidId);
      }
      var list := CurrentGrants(true, now, fetch);
      if list.None? {
        return Failure(NoGrantList);
      }
      var tier, reason := WriteVerdict(list.value, grantee, id, total);
      r := Success((tier, reason));
    }

    /** The part of WriteChunk that only decides. */
    method Decide(list: seq<Grant>, q: WriteRequest) returns (j: Judgement)
      ensures j == Judge(list, ShelfOf(State(), q.grantee), q)
    {
      var g := FindGrant(list, q.grantee);
      if g.None? || g.value.revokedAt.Some? {
        return Answer(Verdict(Deny, NoSpace, false));
      }
      var m := Governing(g.value, DirOf(ShelfOf(PeerState(grants, grantsAt, stored), q.grantee), q.backupId), q);
      if m.Failure? {
        return Answer(m.error);
      }
      var tier, reason := WriteVerdict(list, q.grantee, q.backupId, m.value.totalBytes);
      if tier == Deny {
        return Answer(Verdict(tier, reason, false));
      }
      if tier == Ask && !q.approved {
        return Answer(Verdict(Ask, NoReason, false));
      }
      if q.index < 0 || q.index >= |m.value.chunkHashes| {
        return Answer(Failed(OutOfRange));
      }
      if q.content.NotBase64? {
        return Answer(Failed(NotEncoded));
      }
      if Sha256Hex(q.content.value) != m.value.chunkHashes[q.index] {
        return Answer(Verdict(Deny, ChunkMismatch, false));
      }
      j := Accept(tier, m.value, q.content.value);
    }

    method WriteChunk(now: Time, fetch: Fetch, q: WriteRequest) returns (reply: WriteReply)
      modifies this
      ensures (State(), reply) == Write(old(State()), now, fetch, q)
    {
      if !ValidUser(q.grantee) {
        return Failed(InvalidGrantee);
      }
      if !ValidId(q.backupId) {
        return Failed(InvalidId);
      }
      var list := CurrentGrants(false, now, fetch);
      if list.None? {
        return Failed(NoGrantList);
      }
      var j := Decide(list.value, q);
      if j.Answer? {
        return j.reply;
      }
      var shelf := if q.grantee in stored then stored[q.grantee] else map[];
      var dir := if q.backupId in shelf then shelf[q.backupId] else NO_DIR;
      if q.index == 0 {
        dir := dir.(manifest := Some(q.manifest));
      }
      dir := dir.(chunks := dir.chunks[q.index := j.data]);
      var complete := true;
      var i := 0;
      while i < |j.manifest.chunkHashes|
        invariant 0 <= i <= |j.manifest.chunkHashes| && complete
        invariant forall k :: 0 <= k < i ==> k in dir.chunks
      {
        if i !in dir.chunks {
          complete := false;
          break;
        }
        i := i + 1;
      }
      if complete {
        dir := dir.(complete := true);
      }
      stored := stored[q.grantee := shelf[q.backupId := dir]];
      reply := Verdict(j.tier, NoReason, complete);
    }

    method CheckReadable(now: Time, fetch: Fetch, grantee: string) returns (r: Result<bool, Error>)
      modifies this
      ensures (State(), r) == ReadableBy(old(State()), now, fetch, grantee)
    {
      if !ValidUser(grantee) {
        return Failure(InvalidGrantee);
      }
      var list := CurrentGrants(false, now, fetch);
      if list.None? {
        return Failure(NoGrantList);
      }
      var g := FindGrant(list.value, grantee);
      r := Success(g.Some? && (g.value.revokedAt.None? || now - g.value.revokedAt.value < REVOCATION_GRACE));
    }

    method ManifestOf(now: Time, fetch: Fetch, grantee: string, id: string) returns (r: Result<ManifestReply, Error>)
      modifies this
      ensures (State(), r) == GetManifest(old(State()), now, fetch, grantee, id)
    {
      if !ValidId(id) {
        return Failure(InvalidId);
      }
      var ok := CheckReadable(now, fetch, grantee);
      if ok.Failure? {
        return Failure(ok.error);
      }
      if !ok.value || grantee !in stored || id !in stored[grantee] || stored[grantee][id].manifest.None? {
        return Failure(NoBackup);
      }
      var dir := stored[grantee][id];
      if !dir.complete {
        return Failure(NeverFinished);
      }
      var m := Decoded(dir.manifest.value);
      if m.None? {
        return Failure(Unreadable);
      }
      r := Success(ManifestReply(dir.manifest.value, |m.value.chunkHashes|));
    }

    method ChunkOf(now: Time, fetch: Fetch, grantee: string, id: string, index: int) returns (r: Result<Base64<Bytes>, Error>)
      modifies this
      ensures (State(), r) == GetChunk(old(State()), now, fetch, grantee, id, index)
    {
      if !ValidId(id) {
        return Failure(InvalidId);
      }
      var ok := CheckReadable(now, fetch, grantee);
      if ok.Failure? {
        return Failure(ok.error);
      }
      if !ok.value {
        return Failure(NoBackup);
      }
      if grantee !in stored || id !in stored[grantee] || index !in stored[grantee][id].chunks {
        return Failure(NoChunk);
      }
      r := Success(Encoded(stored[grantee][id].chunks[index]));
    }

    method Remove(now: Time, fetch: Fetch, grantee: string, id: string) returns (r: Result<(), Error>)
      modifies this
      ensures (State(), r) == Delete(old(State()), now, fetch, grantee, id)
    {
      if !ValidId(id) {
        return Failure(InvalidId);
      }
      var ok := CheckReadable(now, fetch, grantee);
      if ok.Failure? {
        return Failure(ok.error);
      }
      if !ok.value {
        return Failure(NoBackup);
      }
      if grantee in stored {
        stored := stored[grantee := stored[grantee] - {id}];
      }
      r := Success(());
    }

    /** Purges, entry by entry, whoever's revocation has run out. */
    method RefreshGrants(now: Time, fetch: Fetch) returns (purged: seq<string>)
      modifies this
      ensures State() == Refresh(old(State()), now, fetch)
      ensures forall g :: g in purged <==> g in old(stored) && g !in stored
    {
      purged := [];
      var list := CurrentGrants(true, now, fetch);
      if list.None? {
        return;
      }
      var i := 0;
      while i < |list.value|
        invariant 0 <= i <= |list.value|
        invariant grants == list && grantsAt == now
        invariant stored == map g | g in old(stored) && !Expired(list.value[..i], now, g) :: old(stored)[g]
        invariant forall g :: g in purged <==> g in old(stored) && g !in stored
      {
        var g := list.value[i];
        assert list.value[..i + 1] == list.value[..i] + [g];
        ExpiredAppend(list.value[..i], g, now);
        if g.revokedAt.Some? && now - g.revokedAt.value >= REVOCATION_GRACE && ValidUser(g.grantee) && g.grantee in stored {
          stored := stored - {g.grantee};
          purged := purged + [g.grantee];
        }
        i := i + 1;
      }
      assert list.value[..i] == list.value;
    }
  }
}
