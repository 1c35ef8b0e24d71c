/** The requests that move one backup to a peer, in a busy network: what
  * casper_service/backups.py sends, chunk by chunk. */
module Sending {
  import opened Prelude
  import opened Manifests
  import opened ChunkStream
  import opened PeerStore
  import opened PeerRuns
  import opened PeerAnswers

  /** The traffic around one of our calls: when it arrives, what the peer would
    * hear about its grants, whether the network delivers it and its answer,
    * whether the owner's own machine can be reached for its part, and what the
    * peer serves just before. */
  datatype Circumstance = Circumstance(now: Time, fetch: Fetch, delivered: bool, answered: bool, up: bool, others: seq<Event>)

  /** A request that neither writes to nor deletes (g, id), nor purges g. */
  ghost predicate Spares(ev: Event, g: string, id: string) {
    && (ev.op.DoWrite? ==> (ev.op.q.grantee, ev.op.q.backupId) != (g, id))
    && ev.op != DoDelete(g, id)
    && (ev.op.DoRefresh? && ev.fetch.Fetched? ==> !Expired(ev.fetch.grants, ev.now, g))
  }

  lemma SparedDirIsKept(st: PeerState, ev: Event, g: string, id: string)
    requires Spares(ev, g, id)
    ensures DirOf(ShelfOf(Step(st, ev), g), id) == DirOf(ShelfOf(st, g), id)
  {
    if ev.op.DoWrite? {
      WriteTouchesOneBackup(st, ev.now, ev.fetch, ev.op.q, g, id);
    }
  }

  ghost predicate AllSpare(evs: seq<Event>, g: string, id: string) {
    forall i :: 0 <= i < |evs| ==> Spares(evs[i], g, id)
  }

  lemma {:induction false} RunKeepsDir(st: PeerState, evs: seq<Event>, g: string, id: string)
    requires AllSpare(evs, g, id)
    ensures DirOf(ShelfOf(Run(st, evs), g), id) == DirOf(ShelfOf(st, g), id)
  {
    if evs != [] {
      RunKeepsDir(st, evs[..|evs| - 1], g, id);
      SparedDirIsKept(Run(st, evs[..|evs| - 1]), evs[|evs| - 1], g, id);
    }
  }

  // ---- One backup, chunk by chunk -------------------------------------------------------

  /** One backup on its way: whose it is, its manifest as signed, its chunks, and
    * whether the peer's owner has approved it. */
  datatype Parcel = Parcel(g: string, id: string, m: Manifest, sm: SignedManifest, chunks: seq<Bytes>, approved: bool)

  ghost predicate Packed(p: Parcel) {
    && ValidUser(p.g) && ValidId(p.id) && SelfSigned(p.sm, p.m) && p.m.backupId == p.id && p.m.chunkHashes == Hashes(p.chunks)
  }

  /** Chunk 0 carries the manifest. */
  function Request(p: Parcel, k: nat): WriteRequest
    requires k < |p.chunks|
  {
    WriteRequest(p.g, p.id, k, Encoded(p.chunks[k]), if k == 0 then p.sm else SignedManifest(EMPTY_TEXT, Encoded(OtherBytes([]))), p.approved)
  }

  /** The peer after the first k chunks were sent, and all it served before each. */
  ghost function AfterSends(st: PeerState, net: nat -> Circumstance, p: Parcel, k: nat): PeerState
    requires k <= |p.chunks|
  {
    if k == 0 then st
    else
      var c := net(k - 1);
      Write(Run(AfterSends(st, net, p, k - 1), c.others), c.now, c.fetch, Request(p, k - 1)).0
  }

  /** The peer as chunk k reaches it. */
  ghost function AtSend(st: PeerState, net: nat -> Circumstance, p: Parcel, k: nat): PeerState
    requires k < |p.chunks|
  {
    Run(AfterSends(st, net, p, k), net(k).others)
  }

  /** The grant in force then lets the backup in, knows its key, and has room for
    * all of it. */
  ghost predicate LetsSend(at: PeerState, c: Circumstance, p: Parcel) {
    exists list, g :: Consults(at, c.now, c.fetch, list) && IsFirst(list, p.g, g)
      && LetsIn(g, p.approved) && p.m.signingKey in g.signingKeys && HasRoom(p.m, g, ShelfOf(at, p.g), p.id)
  }

  /** No call fails and no chunk meets a grant that would refuse the backup. */
  ghost predicate Smooth(st: PeerState, net: nat -> Circumstance, p: Parcel) {
    forall k: nat :: k < |p.chunks| ==>
      && net(k).up && net(k).delivered && net(k).answered && AllSpare(net(k).others, p.g, p.id)
      && LetsSend(AtSend(st, net, p, k), net(k), p)
  }

  /** The directory holds the first k chunks, and is marked complete after the last. */
  predicate Holding(dir: BackupDir, p: Parcel, k: nat) {
    && (k > 0 ==> dir.manifest == Some(p.sm))
    && (forall i: nat :: i < k && i < |p.chunks| ==> i in dir.chunks && dir.chunks[i] == p.chunks[i])
    && (k > 0 && k == |p.chunks| ==> dir.complete)
  }

  /** A chunk that comes in turn under such a grant is stored. */
  lemma SentInTurn(at: PeerState, c: Circumstance, p: Parcel, k: nat)
    requires Packed(p) && k < |p.chunks| && Holding(DirOf(ShelfOf(at, p.g), p.id), p, k) && LetsSend(at, c, p)
    ensures var (after, reply) := Write(at, c.now, c.fetch, Request(p, k));
            Stored(reply, Request(p, k)) && Holding(DirOf(ShelfOf(after, p.g), p.id), p, k + 1)
  {
    var q := Request(p, k);
    var list, g :| Consults(at, c.now, c.fetch, list) && IsFirst(list, p.g, g)
      && LetsIn(g, p.approved) && p.m.signingKey in g.signingKeys && HasRoom(p.m, g, ShelfOf(at, p.g), p.id);
    assert p.m.chunkHashes[k] == Sha256Hex(p.chunks[k]);
    assert Welcome(g, p.m, ShelfOf(at, p.g), q);
    StoredIffWelcome(at, c.now, c.fetch, q, list);
  }

  /** Sending all chunks in turn, through whatever else the peer serves, leaves the
    * whole backup there, marked complete. */
  lemma {:induction false} SendingAllCompletes(st: PeerState, net: nat -> Circumstance, p: Parcel, k: nat)
    requires Packed(p) && k <= |p.chunks| && Smooth(st, net, p)
    ensures Holding(DirOf(ShelfOf(AfterSends(st, net, p, k), p.g), p.id), p, k)
    ensures k < |p.chunks| ==>
              Stored(Write(AtSend(st, net, p, k), net(k).now, net(k).fetch, Request(p, k)).1, Request(p, k))
  {
    if k > 0 {
      SendingAllCompletes(st, net, p, k - 1);
      RunKeepsDir(AfterSends(st, net, p, k - 1), net(k - 1).others, p.g, p.id);
      SentInTurn(AtSend(st, net, p, k - 1), net(k - 1), p, k - 1);
    }
    if k < |p.chunks| {
      RunKeepsDir(AfterSends(st, net, p, k), net(k).others, p.g, p.id);
      SentInTurn(AtSend(st, net, p, k), net(k), p, k);
    }
  }
}
