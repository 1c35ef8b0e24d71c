/** What a peer's store guarantees over whole runs of requests. */
module PeerRuns {
  import opened Prelude
  import opened Manifests
  import opened PeerStore
  import opened ChunkStream

  datatype Op =
    | DoWrite(q: WriteRequest)
    | DoAuthorize(grantee: string, id: string)
    | DoRead(grantee: string, id: string)
    | DoDelete(grantee: string, id: string)
    | DoRefresh

  /** One request: when it arrived, and what casper_service would answer if asked. */
  datatype Event = Event(now: Time, fetch: Fetch, op: Op)

  ghost function Step(st: PeerState, ev: Event): PeerState {
    match ev.op
    case DoWrite(q) => Write(st, ev.now, ev.fetch, q).0
    case DoAuthorize(g, id) => if ValidUser(g) && ValidId(id) then ConsultGrants(st, true, ev.now, ev.fetch).0 else st
    case DoRead(g, id) => GetManifest(st, ev.now, ev.fetch, g, id).0
    case DoDelete(g, id) => Delete(st, ev.now, ev.fetch, g, id).0
    case DoRefresh => Refresh(st, ev.now, ev.fetch)
  }

  ghost function Run(st: PeerState, evs: seq<Event>): PeerState {
    if evs == [] then st else Step(Run(st, evs[..|evs| - 1]), evs[|evs| - 1])
  }

  const EMPTY := PeerState(None, 0, map[])

  /** The reply says the chunk was written. */
  predicate Stored(reply: WriteReply, q: WriteRequest) {
    reply.Verdict? && (reply.tier == Allow || (reply.tier == Ask && q.approved))
  }

  /** The grant list a request relied on. */
  function ReliedOn(st: PeerState, now: Time, fetch: Fetch): seq<Grant>
    requires CacheFresh(st, now) || fetch.Fetched?
  {
    if CacheFresh(st, now) then st.grants.value else fetch.grants
  }

  // ---- One write ---------------------------------------------------------

  /** What a stored write leaves behind in its own directory. */
  ghost predicate ChunkWritten(before: BackupDir, after: BackupDir, q: WriteRequest, complete: bool) {
    && Declared(after).Some? && 0 <= q.index < |Declared(after).value.chunkHashes|
    && q.content.Encoded? && after.chunks == before.chunks[q.index := q.content.value]
    && Declared(after).value.chunkHashes[q.index] == Sha256Hex(q.content.value)
    && after.manifest == (if q.index == 0 then Some(q.manifest) else before.manifest)
    && complete == AllPresent(Declared(after).value, after.chunks)
    && after.complete == (complete || before.complete)
  }

  /** The grant a stored write was made under. */
  predicate Licensed(grant: Option<Grant>, reply: WriteReply, q: WriteRequest, m: Manifest)
    requires reply.Verdict?
  {
    && Active(grant) && reply.tier == grant.value.writeTier
    && (q.index == 0 ==> SelfSigned(q.manifest, m) && m.signingKey in grant.value.signingKeys && m.backupId == q.backupId)
  }

  lemma AcceptMeans(grants: seq<Grant>, shelf: Shelf, q: WriteRequest)
    requires Judge(grants, shelf, q).Accept?
    ensures var j := Judge(grants, shelf, q);
            var dir := WithChunk(DirOf(shelf, q.backupId), q, j.manifest, j.data);
            var complete := AllPresent(j.manifest, dir.chunks);
            && Stored(Verdict(j.tier, NoReason, complete), q)
            && ChunkWritten(DirOf(shelf, q.backupId), dir, q, complete)
            && Licensed(FirstGrant(grants, q.grantee), Verdict(j.tier, NoReason, complete), q, j.manifest)
            && Declared(dir) == Some(j.manifest)
            && UsedExcluding(shelf, q.backupId) + j.manifest.totalBytes <= FirstGrant(grants, q.grantee).value.quotaBytes
  {
  }

  /** A write is stored only under an active grant for its sender whose tier
    * lets it in, whose quota covers everything now declared, and a manifest
    * that lists exactly this content; any other write leaves the disk alone. */
  lemma WriteIsJustified(st: PeerState, now: Time, fetch: Fetch, q: WriteRequest)
    ensures var (st', reply) := Write(st, now, fetch, q);
            var before := DirOf(ShelfOf(st, q.grantee), q.backupId);
            var after := DirOf(ShelfOf(st', q.grantee), q.backupId);
            if Stored(reply, q) then
              && (CacheFresh(st, now) || fetch.Fetched?)
              && var grant := FirstGrant(ReliedOn(st, now, fetch), q.grantee);
              && ChunkWritten(before, after, q, reply.complete)
              && Licensed(grant, reply, q, Declared(after).value)
              && Used(ShelfOf(st', q.grantee)) <= grant.value.quotaBytes
            else st'.stored == st.stored
  {
    var (st1, grants) := ConsultGrants(st, false, now, fetch);
    if ValidUser(q.grantee) && ValidId(q.backupId) && grants.Some? {
      var shelf := ShelfOf(st1, q.grantee);
      var j := Judge(grants.value, shelf, q);
      if j.Accept? {
        AcceptMeans(grants.value, shelf, q);
        UsedAfterPut(shelf, q.backupId, WithChunk(DirOf(shelf, q.backupId), q, j.manifest, j.data));
      }
    }
  }

  /** Whatever text a grant's tier holds, a reply says allow, ask or deny. */
  lemma RepliesAreKnown(st: PeerState, now: Time, fetch: Fetch, q: WriteRequest)
    ensures var reply := Write(st, now, fetch, q).1;
            reply.Verdict? ==> reply.tier in {Allow, Ask, Deny}
  {
    var (st1, grants) := ConsultGrants(st, false, now, fetch);
    if grants.Some? {
      JudgementsAreKnown(grants.value, ShelfOf(st1, q.grantee), q);
    }
  }

  lemma JudgementsAreKnown(grants: seq<Grant>, shelf: Shelf, q: WriteRequest)
    ensures var j := Judge(grants, shelf, q);
            if j.Accept? then j.tier in {Allow, Ask, Deny} else j.reply.Verdict? ==> j.reply.tier in {Allow, Ask, Deny}
  {
  }

  lemma StoredMeansWritten(st: PeerState, now: Time, fetch: Fetch, q: WriteRequest)
    requires Stored(Write(st, now, fetch, q).1, q)
    ensures ChunkWritten(DirOf(ShelfOf(st, q.grantee), q.backupId),
                         DirOf(ShelfOf(Write(st, now, fetch, q).0, q.grantee), q.backupId), q,
                         Write(st, now, fetch, q).1.complete)
  {
    WriteIsJustified(st, now, fetch, q);
  }

  lemma WriteTouchesOneBackup(st: PeerState, now: Time, fetch: Fetch, q: WriteRequest, g: string, id: string)
    requires (g, id) != (q.grantee, q.backupId)
    ensures var st' := Write(st, now, fetch, q).0;
            DirOf(ShelfOf(st', g), id) == DirOf(ShelfOf(st, g), id)
            && (g in st'.stored && id in st'.stored[g] <==> g in st.stored && id in st.stored[g])
  {
  }

  lemma UsedAfterPut(shelf: Shelf, id: string, dir: BackupDir)
    requires Declared(dir).Some?
    ensures Used(shelf[id := dir]) == UsedExcluding(shelf, id) + Declared(dir).value.totalBytes
  {
    var totals := Totals(shelf[id := dir]);
    SumWithout(totals, id);
    assert totals - {id} == Totals(shelf) - {id};
  }

  // ---- Quota over runs ----------------------------------------------------

  predicate QuotaAtMost(grants: seq<Grant>, grantee: string, quota: int) {
    var g := FirstGrant(grants, grantee);
    g.Some? ==> g.value.quotaBytes <= quota
  }

  /** Every stored manifest of grantee declares a size of at least zero. */
  ghost predicate NoNegativeSizes(st: PeerState, grantee: string) {
    forall id :: id in ShelfOf(st, grantee) && Declared(ShelfOf(st, grantee)[id]).Some? ==>
      Declared(ShelfOf(st, grantee)[id]).value.totalBytes >= 0
  }

  ghost predicate WithinQuota(st: PeerState, grantee: string, quota: int) {
    && Used(ShelfOf(st, grantee)) <= quota
    && (st.grants.Some? ==> QuotaAtMost(st.grants.value, grantee, quota))
  }

  /** No fetched list gives grantee more than quota. */
  predicate QuotaInput(ev: Event, grantee: string, quota: int) {
    ev.fetch.Fetched? ==> QuotaAtMost(ev.fetch.grants, grantee, quota)
  }

  /** grantee may delete id now, and id is stored with a declared size. */
  predicate Deletes(st: PeerState, ev: Event, grantee: string) {
    && ev.op.DoDelete? && ev.op.grantee == grantee && Delete(st, ev.now, ev.fetch, grantee, ev.op.id).1.Success?
    && ev.op.id in ShelfOf(st, grantee) && Declared(ShelfOf(st, grantee)[ev.op.id]).Some?
  }

  /** Without the size of what it deletes, more than quota is left. */
  ghost predicate Overshoots(st: PeerState, ev: Event, grantee: string, quota: int) {
    Deletes(st, ev, grantee) && Used(ShelfOf(st, grantee)) - Declared(ShelfOf(st, grantee)[ev.op.id]).value.totalBytes > quota
  }

  lemma UsedAfterRemoval(shelf: Shelf, id: string)
    ensures Used(shelf - {id}) == UsedExcluding(shelf, id)
  {
    assert Totals(shelf - {id}) == Totals(shelf) - {id};
  }

  lemma OthersShelfStays(st: PeerState, now: Time, fetch: Fetch, q: WriteRequest, grantee: string)
    requires q.grantee != grantee
    ensures ShelfOf(Write(st, now, fetch, q).0, grantee) == ShelfOf(st, grantee)
  {
  }

  lemma WriteKeepsSizes(st: PeerState, now: Time, fetch: Fetch, q: WriteRequest)
    requires NoNegativeSizes(st, q.grantee) && Stored(Write(st, now, fetch, q).1, q)
    requires Decoded(q.manifest).Some? ==> Decoded(q.manifest).value.totalBytes >= 0
    ensures NoNegativeSizes(Write(st, now, fetch, q).0, q.grantee)
  {
    var st' := Write(st, now, fetch, q).0;
    WriteIsJustified(st, now, fetch, q);
    forall id | id in ShelfOf(st', q.grantee) && Declared(ShelfOf(st', q.grantee)[id]).Some?
      ensures Declared(ShelfOf(st', q.grantee)[id]).value.totalBytes >= 0
    {
      assert ShelfOf(st', q.grantee)[id] == DirOf(ShelfOf(st', q.grantee), id);
      if id != q.backupId {
        WriteTouchesOneBackup(st, now, fetch, q, q.grantee, id);
      }
    }
  }

  /** The cached list stays one of those seen. */
  lemma CacheKeepsQuota(st: PeerState, ev: Event, grantee: string, quota: int)
    requires st.grants.Some? ==> QuotaAtMost(st.grants.value, grantee, quota)
    requires ev.fetch.Fetched? ==> QuotaAtMost(ev.fetch.grants, grantee, quota)
    ensures Step(st, ev).grants.Some? ==> QuotaAtMost(Step(st, ev).grants.value, grantee, quota)
  {
  }

  lemma WriteKeepsQuota(st: PeerState, ev: Event, grantee: string, quota: nat)
    requires ev.op.DoWrite? && WithinQuota(st, grantee, quota) && QuotaInput(ev, grantee, quota)
    ensures WithinQuota(Step(st, ev), grantee, quota)
  {
    CacheKeepsQuota(st, ev, grantee, quota);
    WriteIsJustified(st, ev.now, ev.fetch, ev.op.q);
    if ev.op.q.grantee != grantee {
      OthersShelfStays(st, ev.now, ev.fetch, ev.op.q, grantee);
    }
  }

  lemma DeletedShelf(st: PeerState, ev: Event, grantee: string)
    requires ev.op.DoDelete?
    ensures ShelfOf(Step(st, ev), grantee)
            == if ev.op.grantee == grantee && Delete(st, ev.now, ev.fetch, grantee, ev.op.id).1.Success?
               then ShelfOf(st, grantee) - {ev.op.id} else ShelfOf(st, grantee)
  {
  }

  lemma DeleteKeepsQuota(st: PeerState, ev: Event, grantee: string, quota: nat)
    requires ev.op.DoDelete? && WithinQuota(st, grantee, quota) && QuotaInput(ev, grantee, quota)
    ensures WithinQuota(Step(st, ev), grantee, quota) <==> !Overshoots(st, ev, grantee, quota)
  {
    CacheKeepsQuota(st, ev, grantee, quota);
    DeletedShelf(st, ev, grantee);
    var shelf, id := ShelfOf(st, grantee), ev.op.id;
    UsedAfterRemoval(shelf, id);
    if id in shelf {
      UsedDropsBy(shelf, id);
    } else {
      assert shelf - {id} == shelf;
    }
  }

  lemma RefreshKeepsQuota(st: PeerState, ev: Event, grantee: string, quota: nat)
    requires ev.op.DoRefresh? && WithinQuota(st, grantee, quota) && QuotaInput(ev, grantee, quota)
    ensures WithinQuota(Step(st, ev), grantee, quota)
  {
    CacheKeepsQuota(st, ev, grantee, quota);
    assert Totals(map[]) == map[];
    assert ShelfOf(Step(st, ev), grantee) == ShelfOf(st, grantee) || ShelfOf(Step(st, ev), grantee) == map[];
  }

  /** Whatever sizes the stored manifests declare, one request keeps the quota
    * exactly unless it is such a delete. */
  lemma StepKeepsQuota(st: PeerState, ev: Event, grantee: string, quota: nat)
    requires WithinQuota(st, grantee, quota) && QuotaInput(ev, grantee, quota)
    ensures WithinQuota(Step(st, ev), grantee, quota) <==> !Overshoots(st, ev, grantee, quota)
  {
    match ev.op
    case DoWrite(_) => WriteKeepsQuota(st, ev, grantee, quota);
    case DoDelete(_, _) => DeleteKeepsQuota(st, ev, grantee, quota);
    case DoRefresh => RefreshKeepsQuota(st, ev, grantee, quota);
    case _ => CacheKeepsQuota(st, ev, grantee, quota);
  }

  /** No request of the run is a delete that overshoots where it comes. */
  ghost predicate NeverOvershoots(evs: seq<Event>, grantee: string, quota: int) {
    forall k :: 0 <= k < |evs| ==> !Overshoots(Run(EMPTY, evs[..k]), evs[k], grantee, quota)
  }

  ghost predicate AlwaysWithin(evs: seq<Event>, grantee: string, quota: int) {
    forall k :: 0 <= k <= |evs| ==> WithinQuota(Run(EMPTY, evs[..k]), grantee, quota)
  }

  lemma WithinOneMore(evs: seq<Event>, ev: Event, grantee: string, quota: int)
    ensures AlwaysWithin(evs + [ev], grantee, quota)
            <==> AlwaysWithin(evs, grantee, quota) && WithinQuota(Run(EMPTY, evs + [ev]), grantee, quota)
  {
    var all := evs + [ev];
    assert forall k :: 0 <= k <= |evs| ==> all[..k] == evs[..k];
    assert all[..|all|] == all;
  }

  lemma OvershootsOneMore(evs: seq<Event>, ev: Event, grantee: string, quota: int)
    ensures NeverOvershoots(evs + [ev], grantee, quota)
            <==> NeverOvershoots(evs, grantee, quota) && !Overshoots(Run(EMPTY, evs), ev, grantee, quota)
  {
    var all := evs + [ev];
    assert forall k :: 0 <= k < |evs| ==> all[..k] == evs[..k] && all[k] == evs[k];
    assert all[..|evs|] == evs;
  }

  /** From an empty store, whatever is requested and declared and whenever the
    * lists change, grantee's declared bytes stay within the largest quota any
    * list ever gave it, all along the run, exactly if no delete overshoots. */
  lemma {:induction false} QuotaAlwaysHolds(evs: seq<Event>, grantee: string, quota: nat)
    requires forall i :: 0 <= i < |evs| ==> QuotaInput(evs[i], grantee, quota)
    ensures AlwaysWithin(evs, grantee, quota) <==> NeverOvershoots(evs, grantee, quota)
  {
    if evs == [] {
      assert Totals(map[]) == map[];
      assert evs[..0] == [];
    } else {
      var init, ev := evs[..|evs| - 1], evs[|evs| - 1];
      QuotaAlwaysHolds(init, grantee, quota);
      assert evs == init + [ev];
      WithinOneMore(init, ev, grantee, quota);
      OvershootsOneMore(init, ev, grantee, quota);
      if AlwaysWithin(init, grantee, quota) {
        LastWithin(init, grantee, quota);
        StepKeepsQuota(Run(EMPTY, init), ev, grantee, quota);
      }
    }
  }

  lemma LastWithin(evs: seq<Event>, grantee: string, quota: int)
    requires AlwaysWithin(evs, grantee, quota)
    ensures WithinQuota(Run(EMPTY, evs), grantee, quota)
  {
    assert evs[..|evs|] == evs;
  }

  /** Every manifest ev sends for grantee declares a size of at least zero, as
    * those made from real chunks do. */
  predicate HonestSizes(ev: Event, grantee: string) {
    ev.op.DoWrite? && ev.op.q.grantee == grantee && Decoded(ev.op.q.manifest).Some? ==>
      Decoded(ev.op.q.manifest).value.totalBytes >= 0
  }

  lemma StepKeepsSizes(st: PeerState, ev: Event, grantee: string)
    requires NoNegativeSizes(st, grantee) && HonestSizes(ev, grantee)
    ensures NoNegativeSizes(Step(st, ev), grantee)
  {
    if ev.op.DoWrite? {
      WriteIsJustified(st, ev.now, ev.fetch, ev.op.q);
      if ev.op.q.grantee != grantee {
        OthersShelfStays(st, ev.now, ev.fetch, ev.op.q, grantee);
      } else if Stored(Write(st, ev.now, ev.fetch, ev.op.q).1, ev.op.q) {
        WriteKeepsSizes(st, ev.now, ev.fetch, ev.op.q);
      }
    } else if ev.op.DoDelete? {
      DeletedShelf(st, ev, grantee);
    } else {
      assert ShelfOf(Step(st, ev), grantee) == ShelfOf(st, grantee) || ShelfOf(Step(st, ev), grantee) == map[];
    }
  }

  /** Overshooting takes a negative declared size. */
  lemma OvershootIsNegative(st: PeerState, ev: Event, grantee: string, quota: int)
    requires WithinQuota(st, grantee, quota) && Overshoots(st, ev, grantee, quota)
    ensures Declared(ShelfOf(st, grantee)[ev.op.id]).value.totalBytes < 0
  {
  }

  /** With honest sizes the quota therefore holds in every reachable state. */
  lemma {:induction false} HonestSizesKeepQuota(evs: seq<Event>, grantee: string, quota: nat)
    requires forall i :: 0 <= i < |evs| ==> QuotaInput(evs[i], grantee, quota) && HonestSizes(evs[i], grantee)
    ensures WithinQuota(Run(EMPTY, evs), grantee, quota) && NoNegativeSizes(Run(EMPTY, evs), grantee)
  {
    if evs == [] {
      assert Totals(map[]) == map[];
    } else {
      var before, ev := Run(EMPTY, evs[..|evs| - 1]), evs[|evs| - 1];
      HonestSizesKeepQuota(evs[..|evs| - 1], grantee, quota);
      StepKeepsSizes(before, ev, grantee);
      StepKeepsQuota(before, ev, grantee, quota);
      if Overshoots(before, ev, grantee, quota) {
        OvershootIsNegative(before, ev, grantee, quota);
      }
    }
  }

  lemma UsedDropsBy(shelf: Shelf, id: string)
    requires id in shelf
    ensures Used(shelf) == UsedExcluding(shelf, id) + (if Declared(shelf[id]).Some? then Declared(shelf[id]).value.totalBytes else 0)
  {
    if Declared(shelf[id]).Some? {
      SumWithout(Totals(shelf), id);
    } else {
      assert Totals(shelf) - {id} == Totals(shelf);
    }
  }

  ghost predicate Fits(shelf: Shelf, quota: int) {
    Used(shelf) <= quota
  }

  /** Sizes are the signer's own word. Deleting a stored backup keeps every
    * quota that held exactly when its declared size is not negative. */
  lemma DeleteKeepsQuotaIff(shelf: Shelf, id: string)
    requires id in shelf && Declared(shelf[id]).Some?
    ensures (forall quota :: Fits(shelf, quota) ==> Fits(shelf - {id}, quota))
            <==> Declared(shelf[id]).value.totalBytes >= 0
  {
    UsedAfterRemoval(shelf, id);
    UsedDropsBy(shelf, id);
    if Declared(shelf[id]).value.totalBytes < 0 {
      assert Fits(shelf, Used(shelf)) && !Fits(shelf - {id}, Used(shelf));
    }
  }

  // ---- Complete backups ----------------------------------------------------

  /** dir holds (part of) the one backup m describes. */
  ghost predicate Holds(dir: BackupDir, m: Manifest) {
    && (dir.manifest.Some? ==> Declared(dir) == Some(m))
    && (dir.manifest.None? ==> dir.chunks == map[] && !dir.complete)
    && (forall i :: i in dir.chunks ==> 0 <= i < |m.chunkHashes| && m.chunkHashes[i] == Sha256Hex(dir.chunks[i]))
    && (dir.complete ==> |m.chunkHashes| > 0 && AllPresent(m, dir.chunks))
  }

  /** The one manifest that exists under grantee's backup id. */
  type Canon = map<(string, string), Manifest>

  ghost predicate Faithful(st: PeerState, canon: Canon) {
    forall g, id :: g in st.stored && id in st.stored[g] ==> (g, id) in canon && Holds(st.stored[g][id], canon[(g, id)])
  }

  /** Whatever self-signed manifest arrives for an id is that id's one manifest. */
  ghost predicate OneManifest(ev: Event, canon: Canon) {
    ev.op.DoWrite? ==>
      forall m :: SelfSigned(ev.op.q.manifest, m) && m.backupId == ev.op.q.backupId ==>
        (ev.op.q.grantee, ev.op.q.backupId) in canon && canon[(ev.op.q.grantee, ev.op.q.backupId)] == m
  }

  /** A stored write keeps its own directory one of the backup's. */
  lemma WrittenDirHolds(before: BackupDir, after: BackupDir, q: WriteRequest, complete: bool, m: Manifest)
    requires Holds(before, m) && ChunkWritten(before, after, q, complete) && Declared(after) == Some(m)
    ensures Holds(after, m)
  {
  }

  lemma WriteKeepsFaithful(st: PeerState, ev: Event, canon: Canon)
    requires ev.op.DoWrite? && Faithful(st, canon) && OneManifest(ev, canon)
    requires Stored(Write(st, ev.now, ev.fetch, ev.op.q).1, ev.op.q)
    ensures Faithful(Step(st, ev), canon)
  {
    var q := ev.op.q;
    var (st', reply) := Write(st, ev.now, ev.fetch, q);
    WriteIsJustified(st, ev.now, ev.fetch, q);
    var before := DirOf(ShelfOf(st, q.grantee), q.backupId);
    var after := DirOf(ShelfOf(st', q.grantee), q.backupId);
    var m := Declared(after).value;
    assert q.index != 0 ==> before.manifest.Some?;
    assert (q.grantee, q.backupId) in canon && canon[(q.grantee, q.backupId)] == m;
    WrittenDirHolds(before, after, q, reply.complete, m);
    forall g, id | g in st'.stored && id in st'.stored[g]
      ensures (g, id) in canon && Holds(st'.stored[g][id], canon[(g, id)])
    {
      assert st'.stored[g][id] == DirOf(ShelfOf(st', g), id);
      if (g, id) != (q.grantee, q.backupId) {
        WriteTouchesOneBackup(st, ev.now, ev.fetch, q, g, id);
      }
    }
  }

  lemma StepKeepsFaithful(st: PeerState, ev: Event, canon: Canon)
    requires Faithful(st, canon) && OneManifest(ev, canon)
    ensures Faithful(Step(st, ev), canon)
  {
    if ev.op.DoWrite? {
      WriteIsJustified(st, ev.now, ev.fetch, ev.op.q);
      if Stored(Write(st, ev.now, ev.fetch, ev.op.q).1, ev.op.q) {
        WriteKeepsFaithful(st, ev, canon);
      }
    }
  }

  /** With one signed manifest per backup id, whatever the order, repetition or
    * refusal of requests, every stored chunk is the one its manifest lists and
    * a complete marker means none is missing. */
  lemma {:induction false} BackupsStayFaithful(evs: seq<Event>, canon: Canon)
    requires forall i :: 0 <= i < |evs| ==> OneManifest(evs[i], canon)
    ensures Faithful(Run(EMPTY, evs), canon)
  {
    if evs != [] {
      BackupsStayFaithful(evs[..|evs| - 1], canon);
      StepKeepsFaithful(Run(EMPTY, evs[..|evs| - 1]), evs[|evs| - 1], canon);
    }
  }

  /** Once the manifest can be fetched, so can every chunk it lists, and each
    * one is what the manifest says. */
  lemma ManifestMeansWholeBackup(st: PeerState, now: Time, fetch: Fetch, g: string, id: string, canon: Canon)
    requires Faithful(st, canon)
    requires GetManifest(st, now, fetch, g, id).1.Success?
    ensures (g, id) in canon
    ensures var reply := GetManifest(st, now, fetch, g, id).1.value;
            Decoded(reply.manifest) == Some(canon[(g, id)]) && reply.chunkCount == |canon[(g, id)].chunkHashes| > 0
    ensures var st1 := GetManifest(st, now, fetch, g, id).0;
            forall i :: 0 <= i < |canon[(g, id)].chunkHashes| ==>
              var chunk := GetChunk(st1, now, fetch, g, id, i).1;
              chunk.Success? && chunk.value.Encoded? && canon[(g, id)].chunkHashes[i] == Sha256Hex(chunk.value.value)
  {
  }

  /** Without that assumption: chunk 0 replaces the manifest and keeps whatever
    * chunk files and marker are there. The directory still describes the new
    * manifest exactly when the kept chunks happen to match it. */
  lemma ReplacedManifestIff(st: PeerState, now: Time, fetch: Fetch, q: WriteRequest, was: Manifest)
    requires q.index == 0 && Stored(Write(st, now, fetch, q).1, q)
    requires Holds(DirOf(ShelfOf(st, q.grantee), q.backupId), was)
    ensures var before := DirOf(ShelfOf(st, q.grantee), q.backupId);
            var after := DirOf(ShelfOf(Write(st, now, fetch, q).0, q.grantee), q.backupId);
            var m := Decoded(q.manifest).value;
            Holds(after, m)
            <==> (forall i :: i in before.chunks && i != 0 ==> i < |m.chunkHashes| && m.chunkHashes[i] == was.chunkHashes[i])
                 && (before.complete ==> |m.chunkHashes| <= |was.chunkHashes|)
  {
    WriteIsJustified(st, now, fetch, q);
    ReplacedDirIff(DirOf(ShelfOf(st, q.grantee), q.backupId),
                   DirOf(ShelfOf(Write(st, now, fetch, q).0, q.grantee), q.backupId), q,
                   Write(st, now, fetch, q).1.complete, was);
  }

  lemma ReplacedDirIff(before: BackupDir, after: BackupDir, q: WriteRequest, complete: bool, was: Manifest)
    requires q.index == 0 && Holds(before, was) && ChunkWritten(before, after, q, complete)
    ensures var m := Decoded(q.manifest).value;
            Holds(after, m)
            <==> (forall i :: i in before.chunks && i != 0 ==> i < |m.chunkHashes| && m.chunkHashes[i] == was.chunkHashes[i])
                 && (before.complete ==> |m.chunkHashes| <= |was.chunkHashes|)
  {
    var m := Decoded(q.manifest).value;
    assert Declared(after) == Some(m);
    assert forall i :: i in before.chunks && i != 0 ==> i in after.chunks && after.chunks[i] == before.chunks[i];
    if before.complete && |m.chunkHashes| > |was.chunkHashes| {
      var i := |was.chunkHashes|;
      assert i !in before.chunks && i !in after.chunks;
    }
  }

  // ---- Stored bytes ----------------------------------------------------------

  /** The manifest was made from real chunks, as encryptToChunks makes it. */
  ghost predicate MadeFrom(m: Manifest, chunks: seq<Bytes>) {
    m.chunkHashes == Hashes(chunks) && m.totalBytes == |Flatten(chunks)|
  }

  ghost function Sizes(chunks: map<int, Bytes>): map<int, int> {
    map i | i in chunks :: |chunks[i]|
  }

  ghost function SeqSizes(chunks: seq<Bytes>): map<int, int> {
    map i | 0 <= i < |chunks| :: |chunks[i]|
  }

  lemma {:induction false} SeqSizesAddUp(chunks: seq<Bytes>)
    ensures SumOf(SeqSizes(chunks)) == |Flatten(chunks)|
  {
    if chunks == [] {
      assert SeqSizes(chunks) == map[];
    } else {
      var n := |chunks| - 1;
      var init := chunks[..n];
      SeqSizesAddUp(init);
      SumWithout(SeqSizes(chunks), n);
      assert SeqSizes(chunks) - {n} == SeqSizes(init);
      assert chunks == init + [chunks[n]];
      FlattenAppend(init, [chunks[n]]);
      FlattenOne(chunks[n]);
    }
  }

  /** The chunk files of a backup take no more room than its manifest declares,
    * and exactly that much when it is complete. */
  lemma StoredBytesBounded(dir: BackupDir, m: Manifest, chunks: seq<Bytes>)
    requires Holds(dir, m) && MadeFrom(m, chunks)
    ensures SumOf(Sizes(dir.chunks)) <= m.totalBytes
    ensures dir.complete ==> SumOf(Sizes(dir.chunks)) == m.totalBytes
  {
    SeqSizesAddUp(chunks);
    forall i | i in dir.chunks
      ensures 0 <= i < |chunks| && dir.chunks[i] == chunks[i]
    {
      assert m.chunkHashes[i] == Hashes(chunks)[i];
    }
    SumDominated(Sizes(dir.chunks), SeqSizes(chunks));
    if dir.complete {
      assert Sizes(dir.chunks) == SeqSizes(chunks);
    }
  }

  /** Every manifest of grantee was made from real chunks. */
  ghost predicate AllMade(canon: Canon, grantee: string) {
    forall id :: (grantee, id) in canon ==> exists chunks :: MadeFrom(canon[(grantee, id)], chunks)
  }

  /** What the chunk files of each backup on the shelf take. */
  ghost function BytesOn(shelf: Shelf): map<string, int> {
    map id | id in shelf :: SumOf(Sizes(shelf[id].chunks))
  }

  lemma MadeSizesAreHonest(st: PeerState, grantee: string, canon: Canon)
    requires Faithful(st, canon) && AllMade(canon, grantee)
    ensures NoNegativeSizes(st, grantee)
  {
    forall id | id in ShelfOf(st, grantee) && Declared(ShelfOf(st, grantee)[id]).Some?
      ensures Declared(ShelfOf(st, grantee)[id]).value.totalBytes >= 0
    {
      var chunks :| MadeFrom(canon[(grantee, id)], chunks);
    }
  }

  /** No backup's chunk files take more than it declares; nothing declared, nothing stored. */
  lemma BytesWithinDeclared(st: PeerState, grantee: string, canon: Canon)
    requires Faithful(st, canon) && AllMade(canon, grantee)
    ensures SumOf(BytesOn(ShelfOf(st, grantee))) <= Used(ShelfOf(st, grantee))
  {
    var shelf := ShelfOf(st, grantee);
    MadeSizesAreHonest(st, grantee, canon);
    forall id | id in shelf
      ensures BytesOn(shelf)[id] <= if id in Totals(shelf) then Totals(shelf)[id] else 0
    {
      var dir, m := shelf[id], canon[(grantee, id)];
      if dir.manifest.Some? {
        var chunks :| MadeFrom(m, chunks);
        StoredBytesBounded(dir, m, chunks);
      } else {
        assert Sizes(dir.chunks) == map[];
      }
    }
    SumDominated(BytesOn(shelf), Totals(shelf));
  }

  /** As long as the grantee's manifests, one per id, were made from real chunks,
    * the chunk bytes a peer really stores for them fit the quota in every
    * reachable state. */
  lemma {:induction false} StoredBytesWithinQuota(evs: seq<Event>, grantee: string, quota: nat, canon: Canon)
    requires forall i :: 0 <= i < |evs| ==> OneManifest(evs[i], canon) && QuotaInput(evs[i], grantee, quota)
    requires AllMade(canon, grantee)
    ensures WithinQuota(Run(EMPTY, evs), grantee, quota)
    ensures SumOf(BytesOn(ShelfOf(Run(EMPTY, evs), grantee))) <= quota
  {
    if evs == [] {
      assert Totals(map[]) == map[] && BytesOn(map[]) == map[];
    } else {
      var before, ev := Run(EMPTY, evs[..|evs| - 1]), evs[|evs| - 1];
      StoredBytesWithinQuota(evs[..|evs| - 1], grantee, quota, canon);
      BackupsStayFaithful(evs[..|evs| - 1], canon);
      MadeSizesAreHonest(before, grantee, canon);
      StepKeepsQuota(before, ev, grantee, quota);
      if Overshoots(before, ev, grantee, quota) {
        OvershootIsNegative(before, ev, grantee, quota);
        assert false;
      }
      BackupsStayFaithful(evs, canon);
      BytesWithinDeclared(Run(EMPTY, evs), grantee, canon);
    }
  }

  // ---- Grant freshness ---------------------------------------------------------

  /** The cached list is one that was fetched when the cache says it was. */
  lemma {:induction false} CacheWasFetched(evs: seq<Event>) returns (k: nat)
    requires Run(EMPTY, evs).grants.Some?
    ensures k < |evs| && evs[k].now == Run(EMPTY, evs).grantsAt && evs[k].fetch == Fetched(Run(EMPTY, evs).grants.value)
  {
    var before := Run(EMPTY, evs[..|evs| - 1]);
    if before.grants == Run(EMPTY, evs).grants && before.grantsAt == Run(EMPTY, evs).grantsAt {
      k := CacheWasFetched(evs[..|evs| - 1]);
    } else {
      k := |evs| - 1;
    }
  }

  /** Every stored write relied on a list fetched less than 60 seconds before,
    * in which its sender's grant was active. */
  lemma WriteReliedOnFreshGrant(evs: seq<Event>, ev: Event) returns (k: nat)
    requires ev.op.DoWrite? && Stored(Write(Run(EMPTY, evs), ev.now, ev.fetch, ev.op.q).1, ev.op.q)
    ensures k <= |evs| && (evs + [ev])[k].fetch.Fetched?
    ensures ev.now - (evs + [ev])[k].now < GRANTS_MAX_AGE
    ensures Active(FirstGrant((evs + [ev])[k].fetch.grants, ev.op.q.grantee))
  {
    var st := Run(EMPTY, evs);
    WriteIsJustified(st, ev.now, ev.fetch, ev.op.q);
    if CacheFresh(st, ev.now) {
      k := CacheWasFetched(evs);
      assert (evs + [ev])[k] == evs[k];
    } else {
      k := |evs|;
    }
  }

  // ---- Losing data ---------------------------------------------------------------

  predicate OneEntryEach(grants: seq<Grant>) {
    forall i, j :: 0 <= i < j < |grants| ==> grants[i].grantee != grants[j].grantee
  }

  lemma {:induction false} FirstIsOnly(grants: seq<Grant>, i: nat)
    requires i < |grants| && OneEntryEach(grants)
    ensures FirstGrant(grants, grants[i].grantee) == Some(grants[i])
  {
    if i > 0 {
      FirstIsOnly(grants[1..], i - 1);
    }
  }

  lemma {:induction false} AbsentHasNoGrant(grants: seq<Grant>, g: string)
    ensures FirstGrant(grants, g).None? <==> forall i :: 0 <= i < |grants| ==> grants[i].grantee != g
  {
    if grants != [] {
      AbsentHasNoGrant(grants[1..], g);
      if FirstGrant(grants, g).None? {
        forall i | 0 <= i < |grants|
          ensures grants[i].grantee != g
        {
          assert i > 0 ==> grants[i] == grants[1..][i - 1];
        }
      }
    }
  }

  /** A stored backup disappears only when its own grantee, still allowed to
    * read it, deletes it, or when a refresh shows its revocation run out; a
    * grantee missing from the list loses nothing. With one entry per grantee,
    * no refresh takes data its owner could still read. */
  lemma DataLossIsAuthorized(st: PeerState, ev: Event, g: string, id: string)
    requires id in ShelfOf(st, g) && id !in ShelfOf(Step(st, ev), g)
    ensures
      || (ev.op == DoDelete(g, id) && (CacheFresh(st, ev.now) || ev.fetch.Fetched?) && Readable(ReliedOn(st, ev.now, ev.fetch), ev.now, g))
      || (&& ev.op == DoRefresh && ev.fetch.Fetched? && Expired(ev.fetch.grants, ev.now, g)
          && FirstGrant(ev.fetch.grants, g).Some?
          && (OneEntryEach(ev.fetch.grants) ==> !Readable(ev.fetch.grants, ev.now, g)))
  {
    match ev.op
    case DoWrite(q) =>
      WriteIsJustified(st, ev.now, ev.fetch, q);
    case DoRefresh =>
      var grants := ev.fetch.grants;
      var i :| 0 <= i < |grants| && grants[i].grantee == g && ExpiredEntry(grants[i], ev.now);
      AbsentHasNoGrant(grants, g);
      if OneEntryEach(grants) {
        FirstIsOnly(grants, i);
      }
    case _ =>
  }

  predicate ActiveEntry(g: Grant, grantee: string) {
    g.grantee == grantee && g.revokedAt.None?
  }

  predicate HasActive(grants: seq<Grant>, grantee: string) {
    exists i :: 0 <= i < |grants| && ActiveEntry(grants[i], grantee)
  }

  /** Some revoked entry of grantee comes before all its active ones. */
  predicate RevokedFirst(grants: seq<Grant>, grantee: string) {
    exists i :: 0 <= i < |grants| && grants[i].grantee == grantee && grants[i].revokedAt.Some?
                && forall j :: 0 <= j < i ==> !ActiveEntry(grants[j], grantee)
  }

  /** The daemon sees an active grant in the list exactly when no revoked one of
    * the same grantee comes first. */
  lemma SeesActiveIff(grants: seq<Grant>, grantee: string)
    requires HasActive(grants, grantee)
    ensures Active(FirstGrant(grants, grantee)) <==> !RevokedFirst(grants, grantee)
  {
    AbsentHasNoGrant(grants, grantee);
    var i := FirstIndex(grants, grantee);
    if Active(FirstGrant(grants, grantee)) && RevokedFirst(grants, grantee) {
      var k :| 0 <= k < |grants| && grants[k].grantee == grantee && grants[k].revokedAt.Some?
               && forall j :: 0 <= j < k ==> !ActiveEntry(grants[j], grantee);
      assert i < k && ActiveEntry(grants[i], grantee);
    }
  }

  /** Somebody holding an active grant is told there is no space for it, on every
    * write, exactly when an earlier, revoked grant of theirs is listed first. */
  lemma LockedOutIff(st: PeerState, now: Time, fetch: Fetch, q: WriteRequest)
    requires ValidUser(q.grantee) && ValidId(q.backupId) && (CacheFresh(st, now) || fetch.Fetched?)
    requires HasActive(ReliedOn(st, now, fetch), q.grantee)
    ensures Write(st, now, fetch, q).1 == Verdict(Deny, NoSpace, false) <==> RevokedFirst(ReliedOn(st, now, fetch), q.grantee)
  {
    SeesActiveIff(ReliedOn(st, now, fetch), q.grantee);
    NoSpaceIff(ReliedOn(st, now, fetch), ShelfOf(st, q.grantee), q);
  }

  lemma NoSpaceIff(grants: seq<Grant>, shelf: Shelf, q: WriteRequest)
    ensures Judge(grants, shelf, q) == Answer(Verdict(Deny, NoSpace, false)) <==> !Active(FirstGrant(grants, q.grantee))
  {
  }

  /** And although their grant is active, a refresh deletes all they stored
    * exactly when some grant of theirs was revoked longer ago than the grace. */
  lemma PurgedDespiteGrantIff(st: PeerState, now: Time, grants: seq<Grant>, g: string)
    requires g in st.stored && ValidUser(g) && HasActive(grants, g)
    ensures g !in Refresh(st, now, Fetched(grants)).stored
            <==> exists i :: 0 <= i < |grants| && grants[i].grantee == g && grants[i].revokedAt.Some?
                             && now - grants[i].revokedAt.value >= REVOCATION_GRACE
  {
    if Expired(grants, now, g) {
      var i :| 0 <= i < |grants| && grants[i].grantee == g && ExpiredEntry(grants[i], now);
    }
  }

  /** A list as casper_service sends it after a grant was revoked and given
    * again: it is in the order the grants were made. */
  function Regranted(g: string, revoked: Time, quota: int): seq<Grant> {
    [Grant(g, [], quota, Allow, Some(revoked)), Grant(g, [], quota, Allow, None)]
  }

  /** On that list, every write is refused and in the end all is deleted. */
  lemma RegrantedPeerIsLockedOut(st: PeerState, now: Time, g: string, revoked: Time, quota: int, q: WriteRequest)
    requires ValidUser(g) && q.grantee == g && ValidId(q.backupId) && !CacheFresh(st, now)
    ensures HasActive(Regranted(g, revoked, quota), g)
    ensures Write(st, now, Fetched(Regranted(g, revoked, quota)), q).1 == Verdict(Deny, NoSpace, false)
    ensures now - revoked >= REVOCATION_GRACE ==>
              ShelfOf(Refresh(st, now, Fetched(Regranted(g, revoked, quota))), g) == map[]
  {
    var list := Regranted(g, revoked, quota);
    assert ActiveEntry(list[1], g) && list[0].grantee == g;
    LockedOutIff(st, now, Fetched(list), q);
    if g in st.stored {
      PurgedDespiteGrantIff(st, now, list, g);
    }
  }

  /** A refresh deletes what its owner could still read exactly when the
    * owner's first entry is still good and a later one has run out. */
  lemma RefreshTakesReadableDataIff(st: PeerState, now: Time, grants: seq<Grant>, g: string)
    requires g in st.stored && ValidUser(g)
    ensures g !in Refresh(st, now, Fetched(grants)).stored && Readable(grants, now, g)
            <==> exists i, j :: 0 <= i < j < |grants| && grants[i].grantee == g && grants[j].grantee == g
                   && (forall k :: 0 <= k < i ==> grants[k].grantee != g)
                   && !ExpiredEntry(grants[i], now) && ExpiredEntry(grants[j], now)
  {
    if Readable(grants, now, g) {
      var i := FirstIndex(grants, g);
    } else if FirstGrant(grants, g).Some? {
      var i := FirstIndex(grants, g);
    } else {
      AbsentHasNoGrant(grants, g);
    }
  }

  lemma {:induction false} FirstIndex(grants: seq<Grant>, g: string) returns (i: nat)
    requires FirstGrant(grants, g).Some?
    ensures i < |grants| && FirstGrant(grants, g) == Some(grants[i]) && grants[i].grantee == g
    ensures forall k :: 0 <= k < i ==> grants[k].grantee != g
  {
    if grants[0].grantee == g {
      i := 0;
    } else {
      i := FirstIndex(grants[1..], g);
      assert forall k :: 0 < k <= i ==> grants[k] == grants[1..][k - 1];
      i := i + 1;
    }
  }

  // ---- Two runs that go wrong --------------------------------------------------------

  lemma RunNext(evs: seq<Event>, ev: Event)
    ensures Run(EMPTY, evs + [ev]) == Step(Run(EMPTY, evs), ev)
  {
    assert (evs + [ev])[..|evs|] == evs;
  }

  const KEY := SigningKey(7)

  /** ann may store 10 bytes without asking. */
  const GIVEN: seq<Grant> := [Grant("ann", [KEY.Public()], 10, Allow, None)]

  /** ann's manifest for id, with count empty chunks and a declared size. */
  function Declares(id: string, total: int, count: nat): Manifest {
    Manifest(1, id, 0, total, seq(count, i => Sha256Hex([])), KEY.Public())
  }

  /** ann sends chunk 0 under that manifest. */
  function FirstChunk(id: string, total: int, count: nat): WriteRequest {
    WriteRequest("ann", id, 0, Encoded([]), SignManifest(Declares(id, total, count), KEY), false)
  }

  function Sends(id: string, total: int, count: nat): Event {
    Event(0, Fetched(GIVEN), DoWrite(FirstChunk(id, total, count)))
  }

  const A := "backup-a"
  const B := "backup-b"

  /** It is stored whenever the declared sizes fit. */
  lemma FirstChunkIsStored(st: PeerState, id: string, total: int, count: nat)
    requires st.grants.None? || (st.grants == Some(GIVEN) && st.grantsAt == 0)
    requires ValidId(id) && count > 0 && UsedExcluding(ShelfOf(st, "ann"), id) + total <= 10
    ensures var dir := DirOf(ShelfOf(st, "ann"), id);
            Step(st, Sends(id, total, count))
            == PutDir(PeerState(Some(GIVEN), 0, st.stored), "ann", id,
                      WithChunk(dir, FirstChunk(id, total, count), Declares(id, total, count), []))
  {
    var q, m := FirstChunk(id, total, count), Declares(id, total, count);
    assert GIVEN[0].grantee == "ann" && ValidUser("ann");
    SignThenVerify(m, KEY, [KEY.Public()]);
    assert m.chunkHashes[0] == Sha256Hex([]);
    assert Judge(GIVEN, ShelfOf(st, "ann"), q) == Accept(Allow, m, []);
  }

  /** The directory after one stored first chunk. */
  function FirstDir(id: string, total: int, count: nat): BackupDir
    requires count > 0
  {
    WithChunk(NO_DIR, FirstChunk(id, total, count), Declares(id, total, count), [])
  }

  lemma OneBackup(total: int)
    requires total <= 10
    ensures Run(EMPTY, [Sends(A, total, 1)]) == PeerState(Some(GIVEN), 0, map["ann" := map[A := FirstDir(A, total, 1)]])
    ensures Used(map[A := FirstDir(A, total, 1)]) == total
  {
    RunNext([], Sends(A, total, 1));
    assert [] + [Sends(A, total, 1)] == [Sends(A, total, 1)];
    NothingUsed(A);
    FirstChunkIsStored(EMPTY, A, total, 1);
    UsedAfterPut(map[], A, FirstDir(A, total, 1));
  }

  lemma NothingUsed(id: string)
    ensures UsedExcluding(map[], id) == 0
  {
    assert Totals(map[]) - {id} == map[];
  }

  lemma UnusedId(shelf: Shelf, id: string)
    requires id !in shelf
    ensures UsedExcluding(shelf, id) == Used(shelf)
  {
    assert Totals(shelf) - {id} == Totals(shelf);
  }

  lemma TwoBackups()
    ensures var shelf := map[A := FirstDir(A, -5, 1), B := FirstDir(B, 15, 1)];
            && Run(EMPTY, [Sends(A, -5, 1), Sends(B, 15, 1)]) == PeerState(Some(GIVEN), 0, map["ann" := shelf])
            && Used(shelf) == 10
  {
    OneBackup(-5);
    var one := map[A := FirstDir(A, -5, 1)];
    UnusedId(one, B);
    RunNext([Sends(A, -5, 1)], Sends(B, 15, 1));
    FirstChunkIsStored(Run(EMPTY, [Sends(A, -5, 1)]), B, 15, 1);
    UsedAfterPut(one, B, FirstDir(B, 15, 1));
    assert one[B := FirstDir(B, 15, 1)] == map[A := FirstDir(A, -5, 1), B := FirstDir(B, 15, 1)];
    assert map["ann" := one]["ann" := one[B := FirstDir(B, 15, 1)]] == map["ann" := one[B := FirstDir(B, 15, 1)]];
    assert [Sends(A, -5, 1)] + [Sends(B, 15, 1)] == [Sends(A, -5, 1), Sends(B, 15, 1)];
  }

  const DELETE_A := Event(0, Fetched(GIVEN), DoDelete("ann", A))

  lemma DeletingA(shelf: Shelf)
    requires A in shelf && Declared(shelf[A]).Some?
    ensures Used(ShelfOf(Step(PeerState(Some(GIVEN), 0, map["ann" := shelf]), DELETE_A), "ann"))
            == Used(shelf) - Declared(shelf[A]).value.totalBytes
  {
    var st := PeerState(Some(GIVEN), 0, map["ann" := shelf]);
    assert GIVEN[0].grantee == "ann" && ValidUser("ann");
    DeletedShelf(st, DELETE_A, "ann");
    UsedAfterRemoval(shelf, A);
    UsedDropsBy(shelf, A);
  }

  lemma GivenIsTen(ev: Event)
    requires ev.fetch == Fetched(GIVEN)
    ensures QuotaInput(ev, "ann", 10)
  {
    assert GIVEN[0].grantee == "ann";
  }

  /** A backup that declares -5 bytes makes room for one of 15; deleting the first
    * leaves 15 bytes declared under a quota of 10. */
  lemma DeletingCanOvershoot() returns (run: seq<Event>)
    ensures |run| == 3 && forall i :: 0 <= i < |run| ==> QuotaInput(run[i], "ann", 10)
    ensures Used(ShelfOf(Run(EMPTY, run[..2]), "ann")) == 10
    ensures Used(ShelfOf(Run(EMPTY, run), "ann")) == 15
  {
    TwoBackups();
    var before := [Sends(A, -5, 1), Sends(B, 15, 1)];
    run := before + [DELETE_A];
    RunNext(before, DELETE_A);
    DeletingA(map[A := FirstDir(A, -5, 1), B := FirstDir(B, 15, 1)]);
    forall i | 0 <= i < |run| ensures QuotaInput(run[i], "ann", 10) {
      GivenIsTen(run[i]);
    }
    assert run[..2] == before;
  }

  /** Chunk 0 sent again with a longer manifest: the marker of the first stands,
    * the manifest can be fetched, and its second chunk is not there. */
  lemma MarkerCanOutliveItsBackup()
    ensures var run := [Sends(A, 0, 1), Sends(A, 0, 2)];
            var st := Run(EMPTY, run);
            && DirOf(ShelfOf(st, "ann"), A).complete
            && GetManifest(st, 0, NoFetcher, "ann", A).1 == Success(ManifestReply(SignManifest(Declares(A, 0, 2), KEY), 2))
            && GetChunk(st, 0, NoFetcher, "ann", A, 1).1 == Failure(NoChunk)
  {
    OneBackup(0);
    var one := map[A := FirstDir(A, 0, 1)];
    assert Totals(one) - {A} == map[];
    RunNext([Sends(A, 0, 1)], Sends(A, 0, 2));
    assert [Sends(A, 0, 1)] + [Sends(A, 0, 2)] == [Sends(A, 0, 1), Sends(A, 0, 2)];
    FirstChunkIsStored(Run(EMPTY, [Sends(A, 0, 1)]), A, 0, 2);
    assert GIVEN[0].grantee == "ann" && ValidUser("ann");
  }
}
