/** A completed backup can be fetched back through a busy peer. */
module EndToEnd {
  import opened Prelude
  import opened Manifests
  import opened ChunkStream
  import opened OwnerStore
  import opened PeerStore
  import opened PeerRuns
  import opened PeerAnswers
  import opened Sending

  /** Every manifest an owner's daemon signs is made from the chunks it staged: so
    * PeerRuns.StoredBytesWithinQuota is about all that honest daemons send. */
  lemma OwnManifestsAreMade(id: string, now: Time, stream: Bytes, key: SigningKey)
    ensures var m := ManifestFor(id, now, stream, key);
            && MadeFrom(m, ChunksOf(stream)) && m.totalBytes == |stream| && m.version == 1
            && m.backupId == id && m.createdAt == now && SelfSigned(SignManifest(m, key), m)
  {
    ChunksRejoin(stream);
  }

  // ---- At the target ----------------------------------------------------------------

  /** The restore loop: chunk i, for each i in turn. */
  function ReceiveAll(dirs: Restores, key: SigningKey, id: string, chunks: seq<Bytes>, n: nat): Restores
    requires n <= |chunks|
  {
    if n == 0 then dirs else Receive(ReceiveAll(dirs, key, id, chunks, n - 1), key, id, n - 1, Encoded(chunks[n - 1])).0
  }

  lemma {:induction false} EveryChunkIsTaken(dirs: Restores, key: SigningKey, id: string, now: Time, stream: Bytes, n: nat)
    requires ValidId(id) && n <= |ChunksOf(stream)|
    requires id in dirs && dirs[id] == RestoreDir(SignManifest(ManifestFor(id, now, stream, key), key), map[])
    ensures var got := ReceiveAll(dirs, key, id, ChunksOf(stream), n);
            && id in got && got[id].manifest == dirs[id].manifest
            && forall i :: 0 <= i < n ==> i in got[id].chunks && got[id].chunks[i] == ChunksOf(stream)[i]
  {
    if n > 0 {
      EveryChunkIsTaken(dirs, key, id, now, stream, n - 1);
      SignThenVerify(ManifestFor(id, now, stream, key), key, [key.Public()]);
    }
  }

  // ---- At the peer ------------------------------------------------------------------

  /** The peer holds the whole of stream under m as key signed it, and has marked it complete. */
  ghost predicate HoldsStream(st: PeerState, g: string, id: string, m: Manifest, key: SigningKey, stream: Bytes) {
    var dir := DirOf(ShelfOf(st, g), id);
    && dir.manifest == Some(SignManifest(m, key)) && m.chunkHashes == Hashes(ChunksOf(stream)) && dir.complete
    && forall i :: 0 <= i < |ChunksOf(stream)| ==> i in dir.chunks && dir.chunks[i] == ChunksOf(stream)[i]
  }

  /** The peer's state after the first k calls of a restore, and all that it
    * served before each: first the manifest is asked for, then chunk after chunk. */
  ghost function AfterCalls(st: PeerState, net: nat -> Circumstance, g: string, id: string, k: nat): PeerState {
    if k == 0 then st
    else
      var c := net(k - 1);
      var at := Run(AfterCalls(st, net, g, id, k - 1), c.others);
      if k == 1 then GetManifest(at, c.now, c.fetch, g, id).0 else GetChunk(at, c.now, c.fetch, g, id, k - 2).0
  }

  /** The state call k meets. */
  ghost function AtCall(st: PeerState, net: nat -> Circumstance, g: string, id: string, k: nat): PeerState {
    Run(AfterCalls(st, net, g, id, k), net(k).others)
  }

  /** What the peer serves before each of the calls, up to the n-th after the
    * manifest's, neither overwrites, deletes nor purges the backup. */
  ghost predicate SparedUntil(net: nat -> Circumstance, g: string, id: string, n: nat) {
    forall k: nat :: k <= n ==> AllSpare(net(k).others, g, id)
  }

  /** And whenever one arrives, its sender's grant can be seen and lets it read. */
  ghost predicate Fetchable(st: PeerState, net: nat -> Circumstance, g: string, id: string, n: nat) {
    && SparedUntil(net, g, id, n)
    && forall k: nat :: k <= n ==> MayReadNow(AtCall(st, net, g, id, k), net(k).now, net(k).fetch, g)
  }

  lemma CallKeepsDisk(st: PeerState, net: nat -> Circumstance, g: string, id: string, k: nat)
    requires k > 0
    ensures DirOf(ShelfOf(AfterCalls(st, net, g, id, k), g), id) == DirOf(ShelfOf(AtCall(st, net, g, id, k - 1), g), id)
  {
    ReadingKeepsDisk(AtCall(st, net, g, id, k - 1), net(k - 1), g, id, k - 2);
  }

  lemma ReadingKeepsDisk(at: PeerState, c: Circumstance, g: string, id: string, i: int)
    ensures GetManifest(at, c.now, c.fetch, g, id).0.stored == at.stored
    ensures GetChunk(at, c.now, c.fetch, g, id, i).0.stored == at.stored
  {
  }

  lemma {:induction false} CallsKeepDir(st: PeerState, net: nat -> Circumstance, g: string, id: string, n: nat, k: nat)
    requires k <= n && SparedUntil(net, g, id, n)
    ensures DirOf(ShelfOf(AtCall(st, net, g, id, k), g), id) == DirOf(ShelfOf(st, g), id)
  {
    OthersKeepDir(st, net, g, id, k);
    if k == 0 {
      assert AfterCalls(st, net, g, id, 0) == st;
    } else {
      CallsKeepDir(st, net, g, id, n, k - 1);
      CallKeepsDisk(st, net, g, id, k);
    }
  }

  lemma OthersKeepDir(st: PeerState, net: nat -> Circumstance, g: string, id: string, k: nat)
    requires AllSpare(net(k).others, g, id)
    ensures DirOf(ShelfOf(AtCall(st, net, g, id, k), g), id) == DirOf(ShelfOf(AfterCalls(st, net, g, id, k), g), id)
  {
    RunKeepsDir(AfterCalls(st, net, g, id, k), net(k).others, g, id);
  }

  /** A backup that Transfer left complete, whose owner the peer lets read whenever
    * a call arrives, can be fetched and received in full, however much time
    * passes and whatever else the peer serves in between, as long as nobody
    * overwrites, deletes or purges it: nothing is refused on the way and the
    * restore delivers exactly the stream that was backed up. */
  lemma CompleteBackupCanBeRestored(st: PeerState, net: nat -> Circumstance, g: string, id: string,
                                    now: Time, stream: Bytes, key: SigningKey, dirs: Restores)
    requires HoldsStream(st, g, id, ManifestFor(id, now, stream, key), key, stream)
    requires ValidId(id) && Fetchable(st, net, g, id, |ChunksOf(stream)|)
    ensures var reply := GetManifest(AtCall(st, net, g, id, 0), net(0).now, net(0).fetch, g, id).1;
            && reply.Success? && reply.value.chunkCount == |ChunksOf(stream)|
            && (forall i :: 0 <= i < |ChunksOf(stream)| ==>
                  GetChunk(AtCall(st, net, g, id, i + 1), net(i + 1).now, net(i + 1).fetch, g, id, i).1
                  == Success(Encoded(ChunksOf(stream)[i])))
            && var (begun, ok) := Begin(dirs, key, id, reply.value.manifest);
            && ok.Success?
            && Delivers(ReceiveAll(begun, key, id, ChunksOf(stream), |ChunksOf(stream)|), key, id, stream)
  {
    ManifestIsAnswered(st, net, g, id, ManifestFor(id, now, stream, key), key, stream);
    forall i | 0 <= i < |ChunksOf(stream)|
      ensures GetChunk(AtCall(st, net, g, id, i + 1), net(i + 1).now, net(i + 1).fetch, g, id, i).1
              == Success(Encoded(ChunksOf(stream)[i]))
    {
      ChunkIsAnswered(st, net, g, id, ManifestFor(id, now, stream, key), key, stream, i);
    }
    ReceivedInFull(dirs, key, id, now, stream);
  }

  lemma ManifestIsAnswered(st: PeerState, net: nat -> Circumstance, g: string, id: string, m: Manifest, key: SigningKey, stream: Bytes)
    requires HoldsStream(st, g, id, m, key, stream) && ValidId(id) && Fetchable(st, net, g, id, |ChunksOf(stream)|)
    ensures GetManifest(AtCall(st, net, g, id, 0), net(0).now, net(0).fetch, g, id).1
            == Success(ManifestReply(SignManifest(m, key), |ChunksOf(stream)|))
  {
    CallsKeepDir(st, net, g, id, |ChunksOf(stream)|, 0);
    ManifestIsServed(AtCall(st, net, g, id, 0), net(0), g, id, SignManifest(m, key));
  }

  lemma ChunkIsAnswered(st: PeerState, net: nat -> Circumstance, g: string, id: string, m: Manifest, key: SigningKey, stream: Bytes, i: nat)
    requires HoldsStream(st, g, id, m, key, stream) && ValidId(id) && i < |ChunksOf(stream)| && Fetchable(st, net, g, id, |ChunksOf(stream)|)
    ensures GetChunk(AtCall(st, net, g, id, i + 1), net(i + 1).now, net(i + 1).fetch, g, id, i).1
            == Success(Encoded(ChunksOf(stream)[i]))
  {
    CallsKeepDir(st, net, g, id, |ChunksOf(stream)|, i + 1);
    FetchableAt(st, net, g, id, |ChunksOf(stream)|, i + 1);
    HeldChunk(DirOf(ShelfOf(st, g), id), ChunksOf(stream), i);
    ChunkIsServed(AtCall(st, net, g, id, i + 1), net(i + 1), g, id, i);
  }

  lemma FetchableAt(st: PeerState, net: nat -> Circumstance, g: string, id: string, n: nat, k: nat)
    requires Fetchable(st, net, g, id, n) && k <= n
    ensures MayReadNow(AtCall(st, net, g, id, k), net(k).now, net(k).fetch, g)
  {
  }

  lemma HeldChunk(dir: BackupDir, chunks: seq<Bytes>, i: nat)
    requires i < |chunks| && forall k :: 0 <= k < |chunks| ==> k in dir.chunks && dir.chunks[k] == chunks[k]
    ensures i in dir.chunks && dir.chunks[i] == chunks[i]
  {
  }

  lemma ManifestIsServed(at: PeerState, c: Circumstance, g: string, id: string, sm: SignedManifest)
    requires ValidId(id) && MayReadNow(at, c.now, c.fetch, g)
    requires var dir := DirOf(ShelfOf(at, g), id); dir.manifest == Some(sm) && dir.complete && Decoded(sm).Some?
    ensures GetManifest(at, c.now, c.fetch, g, id).1 == Success(ManifestReply(sm, |Decoded(sm).value.chunkHashes|))
  {
    ReadingIff(at, c.now, c.fetch, g, id, 0);
  }

  lemma ChunkIsServed(at: PeerState, c: Circumstance, g: string, id: string, i: int)
    requires ValidId(id) && MayReadNow(at, c.now, c.fetch, g) && i in DirOf(ShelfOf(at, g), id).chunks
    ensures GetChunk(at, c.now, c.fetch, g, id, i).1 == Success(Encoded(DirOf(ShelfOf(at, g), id).chunks[i]))
  {
    ReadingIff(at, c.now, c.fetch, g, id, i);
  }

  /** In such a restore each received chunk is taken as it comes. */
  lemma ReceivesNext(begun: Restores, key: SigningKey, id: string, now: Time, stream: Bytes, i: nat)
    requires ValidId(id) && i < |ChunksOf(stream)|
    requires id in begun && begun[id] == RestoreDir(SignManifest(ManifestFor(id, now, stream, key), key), map[])
    ensures var (after, ok) := Receive(ReceiveAll(begun, key, id, ChunksOf(stream), i), key, id, i, Encoded(ChunksOf(stream)[i]));
            ok.Success? && after == ReceiveAll(begun, key, id, ChunksOf(stream), i + 1)
  {
    EveryChunkIsTaken(begun, key, id, now, stream, i);
    SignThenVerify(ManifestFor(id, now, stream, key), key, [key.Public()]);
  }

  lemma ReceivedInFull(dirs: Restores, key: SigningKey, id: string, now: Time, stream: Bytes)
    requires ValidId(id)
    ensures var (begun, ok) := Begin(dirs, key, id, SignManifest(ManifestFor(id, now, stream, key), key));
            && ok.Success?
            && Delivers(ReceiveAll(begun, key, id, ChunksOf(stream), |ChunksOf(stream)|), key, id, stream)
  {
    var m := ManifestFor(id, now, stream, key);
    SignThenVerify(m, key, [key.Public()]);
    var (begun, ok) := Begin(dirs, key, id, SignManifest(m, key));
    EveryChunkIsTaken(begun, key, id, now, stream, |ChunksOf(stream)|);
    var got := ReceiveAll(begun, key, id, ChunksOf(stream), |ChunksOf(stream)|);
    JoinedIsFlatten(got[id].chunks, ChunksOf(stream), 0);
    assert ChunksOf(stream)[0..] == ChunksOf(stream);
    ChunksRejoin(stream);
  }

  // ---- A whole restore ------------------------------------------------------------------

  /** One restore on its way: what the peer held when it began, and what was there
    * to come back. */
  datatype Retrieval = Retrieval(st: PeerState, g: string, id: string, now: Time, stream: Bytes, key: SigningKey)

  /** The peer holds the stream and every call gets through and is allowed. */
  ghost predicate Retrievable(r: Retrieval, net: nat -> Circumstance) {
    && HoldsStream(r.st, r.g, r.id, ManifestFor(r.id, r.now, r.stream, r.key), r.key, r.stream)
    && ValidId(r.id) && Fetchable(r.st, net, r.g, r.id, |ChunksOf(r.stream)|)
    && NoCallFails(net, |ChunksOf(r.stream)| + 1)
  }

  predicate GetsThrough(c: Circumstance) {
    c.up && c.delivered && c.answered
  }

  ghost predicate NoCallFails(net: nat -> Circumstance, n: nat) {
    forall k: nat :: k <= n ==> GetsThrough(net(k))
  }

  /** The manifest and the first i chunks have arrived. */
  ghost predicate Arriving(r: Retrieval, net: nat -> Circumstance, begun: Restores, peer: PeerState, dirs: Restores, i: nat) {
    && Retrievable(r, net) && i <= |ChunksOf(r.stream)| && peer == AfterCalls(r.st, net, r.g, r.id, i + 1)
    && r.id in begun && begun[r.id] == RestoreDir(SignManifest(ManifestFor(r.id, r.now, r.stream, r.key), r.key), map[])
    && dirs == ReceiveAll(begun, r.key, r.id, ChunksOf(r.stream), i)
  }

  /** The first two calls of such a restore. */
  lemma StartsArriving(r: Retrieval, net: nat -> Circumstance, dirs: Restores)
    requires Retrievable(r, net)
    ensures GetsThrough(net(0))
    ensures var c := net(0);
            var (after, reply) := GetManifest(Run(r.st, c.others), c.now, c.fetch, r.g, r.id);
            && reply == Success(ManifestReply(SignManifest(ManifestFor(r.id, r.now, r.stream, r.key), r.key), |ChunksOf(r.stream)|))
            && var (begun, ok) := Begin(dirs, r.key, r.id, reply.value.manifest);
            ok.Success? && Arriving(r, net, begun, after, begun, 0)
  {
    var m := ManifestFor(r.id, r.now, r.stream, r.key);
    ManifestIsAnswered(r.st, net, r.g, r.id, m, r.key, r.stream);
    assert AfterCalls(r.st, net, r.g, r.id, 0) == r.st;
    SignThenVerify(m, r.key, [r.key.Public()]);
  }

  /** And the next. */
  lemma ArrivesNext(r: Retrieval, net: nat -> Circumstance, begun: Restores, peer: PeerState, dirs: Restores, i: nat)
    requires Arriving(r, net, begun, peer, dirs, i) && i < |ChunksOf(r.stream)|
    ensures GetsThrough(net(i + 1))
    ensures var c := net(i + 1);
            var (after, chunk) := GetChunk(Run(peer, c.others), c.now, c.fetch, r.g, r.id, i);
            && chunk == Success(Encoded(ChunksOf(r.stream)[i]))
            && var (next, ok) := Receive(dirs, r.key, r.id, i, chunk.value);
            ok.Success? && Arriving(r, net, begun, after, next, i + 1)
  {
    ChunkIsAnswered(r.st, net, r.g, r.id, ManifestFor(r.id, r.now, r.stream, r.key), r.key, r.stream, i);
    ReceivesNext(begun, r.key, r.id, r.now, r.stream, i);
  }

  lemma AllArrived(r: Retrieval, net: nat -> Circumstance, begun: Restores, peer: PeerState, dirs: Restores)
    requires Arriving(r, net, begun, peer, dirs, |ChunksOf(r.stream)|)
    ensures Delivers(dirs, r.key, r.id, r.stream) && GetsThrough(net(|ChunksOf(r.stream)| + 1))
  {
    var m := ManifestFor(r.id, r.now, r.stream, r.key);
    SignThenVerify(m, r.key, [r.key.Public()]);
    EveryChunkIsTaken(begun, r.key, r.id, r.now, r.stream, |ChunksOf(r.stream)|);
    JoinedIsFlatten(dirs[r.id].chunks, ChunksOf(r.stream), 0);
    assert ChunksOf(r.stream)[0..] == ChunksOf(r.stream);
    ChunksRejoin(r.stream);
  }

  /** track stands for Arriving of this restore. */
  ghost predicate Follows(track: (PeerState, Restores, nat) -> bool, r: Retrieval, net: nat -> Circumstance, begun: Restores) {
    forall peer, dirs, i {:trigger Arriving(r, net, begun, peer, dirs, i)} :: track(peer, dirs, i) <==> Arriving(r, net, begun, peer, dirs, i)
  }

  ghost function ArrivalOf(r: Retrieval, net: nat -> Circumstance, begun: Restores): (track: (PeerState, Restores, nat) -> bool)
    ensures Follows(track, r, net, begun)
  {
    (peer: PeerState, dirs: Restores, i: nat) => Arriving(r, net, begun, peer, dirs, i)
  }
}
