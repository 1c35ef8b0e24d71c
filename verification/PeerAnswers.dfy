/** What a peer answers to each request, and what it then holds, said in terms of
  * its grant list, its disk and the request alone: agent/internal/backup/peer.go. */
module PeerAnswers {
  import opened Prelude
  import opened Manifests
  import opened PeerStore
  import opened PeerRuns

  /** No accepted name leads out of its directory. */
  lemma NamesStayInside(name: string)
    ensures ValidId(name) ==> 8 <= |name| <= 64 && '/' !in name && '.' !in name
    ensures ValidUser(name) ==> 1 <= |name| <= 64 && '/' !in name
    ensures 8 <= |name| <= 64 && (forall i :: 0 <= i < |name| ==> 'a' <= name[i] <= 'z' || name[i] in "0123456789_-") ==> ValidId(name)
  {
  }

  // ---- The list a request is decided by ---------------------------------------------

  /** The list is the cached one while that is younger than a minute, and
    * otherwise the one casper_service gives. */
  predicate Consults(st: PeerState, now: Time, fetch: Fetch, list: seq<Grant>) {
    if st.grants.Some? && now - st.grantsAt < 60_000_000_000 then st.grants == Some(list) else fetch == Fetched(list)
  }

  /** Grantee's first entry, which is the only one that counts. */
  predicate IsFirst(list: seq<Grant>, grantee: string, g: Grant) {
    exists k :: 0 <= k < |list| && list[k] == g && g.grantee == grantee && forall j :: 0 <= j < k ==> list[j].grantee != grantee
  }

  lemma FirstGrantIs(list: seq<Grant>, grantee: string)
    ensures forall g :: IsFirst(list, grantee, g) <==> FirstGrant(list, grantee) == Some(g)
  {
    AbsentHasNoGrant(list, grantee);
    if FirstGrant(list, grantee).Some? {
      var i := FirstIndex(list, grantee);
      forall g ensures IsFirst(list, grantee, g) <==> g == list[i] {
        if IsFirst(list, grantee, g) {
          var k :| 0 <= k < |list| && list[k] == g && g.grantee == grantee && forall j :: 0 <= j < k ==> list[j].grantee != grantee;
          assert !(k < i) && !(i < k);
        }
      }
    }
  }

  lemma ConsultingGives(st: PeerState, now: Time, fetch: Fetch, list: seq<Grant>)
    ensures Consults(st, now, fetch, list) <==> ConsultGrants(st, false, now, fetch).1 == Some(list)
    ensures ConsultGrants(st, false, now, fetch).0.stored == st.stored
  {
  }

  // ---- Writing -----------------------------------------------------------------------

  /** m is the manifest a write is held to: the one chunk 0 brings, signed by one
    * of the grant's own keys for this very backup, and for later chunks the one
    * that is stored. */
  predicate HeldTo(m: Manifest, g: Grant, dir: BackupDir, q: WriteRequest) {
    if q.index == 0 then SelfSigned(q.manifest, m) && m.signingKey in g.signingKeys && m.backupId == q.backupId
    else dir.manifest.Some? && Decoded(dir.manifest.value) == Some(m)
  }

  /** With everything else grantee has declared, m fits the grant. */
  ghost predicate HasRoom(m: Manifest, g: Grant, shelf: Shelf, id: string) {
    UsedExcluding(shelf, id) + m.totalBytes <= g.quotaBytes
  }

  /** The owner's grant lets grantee write now. */
  predicate LetsIn(g: Grant, approved: bool) {
    g.revokedAt == None && (g.writeTier == Allow || (g.writeTier == Ask && approved))
  }

  /** The content is what m lists at this index. */
  predicate IsListed(m: Manifest, q: WriteRequest) {
    && 0 <= q.index < |m.chunkHashes| && q.content.Encoded? && m.chunkHashes[q.index] == Sha256Hex(q.content.value)
  }

  ghost predicate Welcome(g: Grant, m: Manifest, shelf: Shelf, q: WriteRequest) {
    && LetsIn(g, q.approved) && HeldTo(m, g, DirOf(shelf, q.backupId), q) && HasRoom(m, g, shelf, q.backupId) && IsListed(m, q)
  }

  /** Where a welcome chunk ends up, and whether it was the last one missing. */
  predicate Lands(before: PeerState, after: PeerState, m: Manifest, q: WriteRequest, complete: bool) {
    var shelf := ShelfOf(before, q.grantee);
    var dir := DirOf(shelf, q.backupId);
    && (complete <==> forall i :: 0 <= i < |m.chunkHashes| ==> i == q.index || i in dir.chunks)
    && q.content.Encoded?
    && after.stored == before.stored[q.grantee := shelf[q.backupId :=
         BackupDir(if q.index == 0 then Some(q.manifest) else dir.manifest, dir.chunks[q.index := q.content.value], dir.complete || complete)]]
  }

  lemma JudgedWelcome(list: seq<Grant>, shelf: Shelf, q: WriteRequest, g: Grant, m: Manifest)
    requires IsFirst(list, q.grantee, g) && Welcome(g, m, shelf, q)
    ensures Judge(list, shelf, q) == Accept(g.writeTier, m, q.content.value)
  {
    FirstGrantIs(list, q.grantee);
    assert Governing(g, DirOf(shelf, q.backupId), q) == Success(m);
  }

  lemma PresentWith(m: Manifest, chunks: map<int, Bytes>, index: int, data: Bytes)
    ensures AllPresent(m, chunks[index := data]) <==> forall i :: 0 <= i < |m.chunkHashes| ==> i == index || i in chunks
  {
    assert forall i :: i in chunks[index := data] <==> i == index || i in chunks;
  }

  lemma AcceptedIsWelcome(list: seq<Grant>, shelf: Shelf, q: WriteRequest)
    requires Judge(list, shelf, q).Accept?
    ensures exists g, m :: IsFirst(list, q.grantee, g) && Welcome(g, m, shelf, q)
  {
    FirstGrantIs(list, q.grantee);
    var g := FirstGrant(list, q.grantee).value;
    assert Welcome(g, Judge(list, shelf, q).manifest, shelf, q);
  }

  /** A chunk is stored exactly when it is welcome, and then it is there: whoever
    * holds an active grant that lets them write gets every chunk their manifest
    * lists in, as long as all they declare fits. */
  lemma StoredIffWelcome(st: PeerState, now: Time, fetch: Fetch, q: WriteRequest, list: seq<Grant>)
    requires ValidUser(q.grantee) && ValidId(q.backupId) && Consults(st, now, fetch, list)
    ensures Stored(Write(st, now, fetch, q).1, q)
            <==> exists g, m :: IsFirst(list, q.grantee, g) && Welcome(g, m, ShelfOf(st, q.grantee), q)
    ensures forall g, m :: IsFirst(list, q.grantee, g) && Welcome(g, m, ShelfOf(st, q.grantee), q) ==>
              var (after, reply) := Write(st, now, fetch, q);
              reply.Verdict? && reply.tier == g.writeTier && reply.reason == NoReason && Lands(st, after, m, q, reply.complete)
  {
    ConsultingGives(st, now, fetch, list);
    var shelf := ShelfOf(st, q.grantee);
    forall g, m | IsFirst(list, q.grantee, g) && Welcome(g, m, shelf, q)
      ensures var (after, reply) := Write(st, now, fetch, q);
              reply.Verdict? && reply.tier == g.writeTier && reply.reason == NoReason && Lands(st, after, m, q, reply.complete)
    {
      JudgedWelcome(list, shelf, q, g, m);
      PresentWith(m, DirOf(shelf, q.backupId).chunks, q.index, q.content.value);
    }
    if Stored(Write(st, now, fetch, q).1, q) {
      StoredWasAccepted(list, shelf, q);
      AcceptedIsWelcome(list, shelf, q);
    }
  }

  lemma StoredWasAccepted(list: seq<Grant>, shelf: Shelf, q: WriteRequest)
    requires Judge(list, shelf, q).Answer? ==> Stored(Judge(list, shelf, q).reply, q)
    ensures Judge(list, shelf, q).Accept?
  {
  }

  /** Nobody is let in without a list, or under an impossible name. */
  lemma UnansweredWrites(st: PeerState, now: Time, fetch: Fetch, q: WriteRequest)
    ensures !ValidUser(q.grantee) ==> Write(st, now, fetch, q) == (st, Failed(InvalidGrantee))
    ensures ValidUser(q.grantee) && !ValidId(q.backupId) ==> Write(st, now, fetch, q) == (st, Failed(InvalidId))
    ensures ValidUser(q.grantee) && ValidId(q.backupId) && (forall list :: !Consults(st, now, fetch, list)) ==>
              Write(st, now, fetch, q) == (st, Failed(NoGrantList))
  {
    if fetch.Fetched? {
      ConsultingGives(st, now, fetch, fetch.grants);
    }
    if st.grants.Some? {
      ConsultingGives(st, now, fetch, st.grants.value);
    }
  }

  /** sm is no manifest signed by one of the grant's keys. */
  ghost predicate NoTrusted(sm: SignedManifest, g: Grant) {
    forall m :: SelfSigned(sm, m) ==> m.signingKey !in g.signingKeys
  }

  /** Why a write without a governing manifest is refused. */
  lemma RefusedBeforeManifest(st: PeerState, now: Time, fetch: Fetch, q: WriteRequest, list: seq<Grant>)
    requires ValidUser(q.grantee) && ValidId(q.backupId) && Consults(st, now, fetch, list)
    ensures var reply := Write(st, now, fetch, q).1;
            && ((forall g :: !(IsFirst(list, q.grantee, g) && g.revokedAt == None)) ==> reply == Verdict(Deny, NoSpace, false))
            && forall g :: IsFirst(list, q.grantee, g) && g.revokedAt == None ==>
                 && (q.index == 0 && q.manifest.manifest == Encoded(NotJson([])) ==> reply == Verdict(Deny, NeedsManifest, false))
                 && (q.index == 0 && q.manifest.manifest != Encoded(NotJson([])) && NoTrusted(q.manifest, g) ==>
                       reply == Verdict(Deny, BadManifest, false))
                 && (forall m :: q.index == 0 && SelfSigned(q.manifest, m) && m.signingKey in g.signingKeys && m.backupId != q.backupId ==>
                       reply == Verdict(Deny, OtherBackup, false))
                 && var stored := DirOf(ShelfOf(st, q.grantee), q.backupId).manifest;
                    && (q.index != 0 && stored == None ==> reply == Verdict(Deny, ChunkZeroFirst, false))
                    && (q.index != 0 && stored.Some? && Decoded(stored.value) == None ==> reply == Failed(Unreadable))
  {
    ConsultingGives(st, now, fetch, list);
    FirstGrantIs(list, q.grantee);
  }

  /** And why one with a manifest is asked about or refused. */
  lemma RefusedUnderManifest(st: PeerState, now: Time, fetch: Fetch, q: WriteRequest, list: seq<Grant>, g: Grant, m: Manifest)
    requires ValidUser(q.grantee) && ValidId(q.backupId) && Consults(st, now, fetch, list)
    requires IsFirst(list, q.grantee, g) && g.revokedAt == None && HeldTo(m, g, DirOf(ShelfOf(st, q.grantee), q.backupId), q)
    ensures var reply := Write(st, now, fetch, q).1;
            if !HasRoom(m, g, ShelfOf(st, q.grantee), q.backupId) then reply == Verdict(Deny, OverQuota, false)
            else if g.writeTier != Allow && g.writeTier != Ask then reply == Verdict(Deny, WritesOff, false)
            else if !LetsIn(g, q.approved) then reply == Verdict(Ask, NoReason, false)
            else if !(0 <= q.index < |m.chunkHashes|) then reply == Failed(OutOfRange)
            else if q.content.NotBase64? then reply == Failed(NotEncoded)
            else !IsListed(m, q) ==> reply == Verdict(Deny, ChunkMismatch, false)
  {
    ConsultingGives(st, now, fetch, list);
    JudgedUnderManifest(list, ShelfOf(st, q.grantee), q, g, m);
  }

  lemma JudgedUnderManifest(list: seq<Grant>, shelf: Shelf, q: WriteRequest, g: Grant, m: Manifest)
    requires IsFirst(list, q.grantee, g) && g.revokedAt == None && HeldTo(m, g, DirOf(shelf, q.backupId), q)
    ensures var j := Judge(list, shelf, q);
            if !HasRoom(m, g, shelf, q.backupId) then j == Answer(Verdict(Deny, OverQuota, false))
            else if g.writeTier != Allow && g.writeTier != Ask then j == Answer(Verdict(Deny, WritesOff, false))
            else if !LetsIn(g, q.approved) then j == Answer(Verdict(Ask, NoReason, false))
            else if !(0 <= q.index < |m.chunkHashes|) then j == Answer(Failed(OutOfRange))
            else if q.content.NotBase64? then j == Answer(Failed(NotEncoded))
            else !IsListed(m, q) ==> j == Answer(Verdict(Deny, ChunkMismatch, false))
  {
    FirstGrantIs(list, q.grantee);
    assert Governing(g, DirOf(shelf, q.backupId), q) == Success(m);
  }

  /** The verdict on a write that has not happened is the one its first chunk
    * would meet: refused without an active grant or without room, and otherwise
    * what the grant says. */
  lemma VerdictsAre(list: seq<Grant>, shelf: Shelf, grantee: string, id: string, total: int)
    ensures var verdict := TierVerdict(list, shelf, grantee, id, total);
            && ((forall g :: !(IsFirst(list, grantee, g) && g.revokedAt == None)) ==> verdict == (Deny, NoSpace))
            && forall g :: IsFirst(list, grantee, g) && g.revokedAt == None ==>
                 && (UsedExcluding(shelf, id) + total > g.quotaBytes ==> verdict == (Deny, OverQuota))
                 && (UsedExcluding(shelf, id) + total <= g.quotaBytes && g.writeTier == Allow ==> verdict == (Allow, NoReason))
                 && (UsedExcluding(shelf, id) + total <= g.quotaBytes && g.writeTier == Ask ==> verdict == (Ask, NoReason))
                 && (UsedExcluding(shelf, id) + total <= g.quotaBytes && g.writeTier != Allow && g.writeTier != Ask ==> verdict == (Deny, WritesOff))
  {
    FirstGrantIs(list, grantee);
  }

  // ---- Reading, deleting, purging --------------------------------------------------------

  /** grantee may read, list and delete: its first entry is active, or was
    * revoked less than seven days ago. */
  ghost predicate MayReadNow(st: PeerState, now: Time, fetch: Fetch, grantee: string) {
    && ValidUser(grantee)
    && exists list, g :: Consults(st, now, fetch, list) && IsFirst(list, grantee, g)
         && (g.revokedAt == None || now - g.revokedAt.value < 604_800_000_000_000)
  }

  lemma ReadableIff(st: PeerState, now: Time, fetch: Fetch, grantee: string)
    ensures ReadableBy(st, now, fetch, grantee).1 == Success(true) <==> MayReadNow(st, now, fetch, grantee)
    ensures ReadableBy(st, now, fetch, grantee).0.stored == st.stored
  {
    var (st1, grants) := ConsultGrants(st, false, now, fetch);
    forall list {
      ConsultingGives(st, now, fetch, list);
    }
    if grants.Some? {
      FirstGrantIs(grants.value, grantee);
    }
  }

  /** Whoever may read gets a finished backup's manifest and any stored chunk,
    * nobody else gets anything, and reading changes nothing on disk. */
  lemma ReadingIff(st: PeerState, now: Time, fetch: Fetch, grantee: string, id: string, index: int)
    ensures var dir := DirOf(ShelfOf(st, grantee), id);
            var (after, manifest) := GetManifest(st, now, fetch, grantee, id);
            && after.stored == st.stored
            && (manifest.Success? <==> && ValidId(id) && MayReadNow(st, now, fetch, grantee)
                                       && dir.manifest.Some? && dir.complete && Decoded(dir.manifest.value).Some?)
            && (manifest.Success? ==> && manifest.value.manifest == dir.manifest.value
                                      && manifest.value.chunkCount == |Decoded(dir.manifest.value).value.chunkHashes|)
    ensures var dir := DirOf(ShelfOf(st, grantee), id);
            var (after, chunk) := GetChunk(st, now, fetch, grantee, id, index);
            && after.stored == st.stored
            && (chunk.Success? <==> ValidId(id) && MayReadNow(st, now, fetch, grantee) && index in dir.chunks)
            && (chunk.Success? ==> chunk.value == Encoded(dir.chunks[index]))
  {
    ReadableIff(st, now, fetch, grantee);
  }

  /** Whoever may read may delete; the one backup goes and everything else stays. */
  lemma DeletingIff(st: PeerState, now: Time, fetch: Fetch, grantee: string, id: string)
    ensures var (after, r) := Delete(st, now, fetch, grantee, id);
            && (r.Success? <==> ValidId(id) && MayReadNow(st, now, fetch, grantee))
            && (r.Failure? ==> after.stored == st.stored)
            && (r.Success? ==>
                  && id !in ShelfOf(after, grantee)
                  && (forall i :: i != id ==> (i in ShelfOf(after, grantee) <==> i in ShelfOf(st, grantee)))
                  && (forall i :: i in ShelfOf(after, grantee) ==> ShelfOf(after, grantee)[i] == ShelfOf(st, grantee)[i])
                  && (forall g :: g != grantee ==> ShelfOf(after, g) == ShelfOf(st, g)))
  {
    ReadableIff(st, now, fetch, grantee);
  }

  /** A refresh purges exactly the stores of those with an entry revoked seven days
    * ago or more, and leaves every other as it was. */
  lemma PurgedIff(st: PeerState, now: Time, fetch: Fetch, g: string)
    ensures var after := Refresh(st, now, fetch);
            && (g in after.stored <==>
                  && g in st.stored
                  && !(fetch.Fetched? && ValidUser(g)
                       && exists i :: 0 <= i < |fetch.grants| && fetch.grants[i].grantee == g && fetch.grants[i].revokedAt.Some?
                                      && now - fetch.grants[i].revokedAt.value >= 604_800_000_000_000))
            && (g in after.stored ==> after.stored[g] == st.stored[g])
  {
    if fetch.Fetched? {
      if i :| 0 <= i < |fetch.grants| && fetch.grants[i].grantee == g && fetch.grants[i].revokedAt.Some?
              && now - fetch.grants[i].revokedAt.value >= 604_800_000_000_000 {
        assert ValidUser(g) ==> ExpiredEntry(fetch.grants[i], now);
      }
    }
  }
}
