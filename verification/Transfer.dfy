/** casper_service's orchestration of one backup (casper_service/backups.py):
  * every daemon call may not arrive, may be refused, or may have its answer
  * lost, and the peer keeps serving others meanwhile. */
module Transfer {
  import opened Prelude
  import opened Manifests
  import opened ChunkStream
  import opened Archive
  import opened ArchiveRoundTrip
  import opened PeerStore
  import opened PeerRuns
  import opened PeerAnswers
  import opened Sending
  import opened EndToEnd
  import OwnerStore

  /** Seconds. */
  const PREPARE_TIMEOUT: int := 30 * 60

  datatype Status = NoRow | Pending | AwaitingApproval | Transferring | Completed | Denied | Broken | Deleted

  datatype RestoreStatus = NotRestored | Restoring | Restored | RestoreFailed

  datatype Row = Row(status: Status, totalBytes: int, chunkCount: nat, chunksDone: nat, restoreStatus: RestoreStatus)

  /** What "complete" stands for: the peer holds a stream this identity signed
    * under the backup's id, whole, with its manifest and its marker, the row
    * counts its chunks and bytes, and everything else at the peer is in order. */
  ghost predicate StoredInFull(row: Row, st: PeerState, g: string, id: string, key: SigningKey, hs: seq<OwnerStore.Happening>, canon: Canon) {
    exists now, stream ::
      && OwnerStore.Signed(id, stream, now) in hs
      && row.chunkCount == row.chunksDone == |ChunksOf(stream)| && row.chunkCount > 0 && row.totalBytes == |stream|
      && HoldsStream(st, g, id, OwnerStore.ManifestFor(id, now, stream, key), key, stream)
      && Faithful(st, canon[(g, id) := OwnerStore.ManifestFor(id, now, stream, key)])
  }

  /** Any one request the peer may serve. */
  method Serve(peer: Daemon, ev: Event)
    modifies peer
    ensures peer.State() == Step(old(peer.State()), ev)
  {
    match ev.op
    case DoWrite(q) => var _ := peer.WriteChunk(ev.now, ev.fetch, q);
    case DoAuthorize(g, id) => var _ := peer.Authorize(ev.now, ev.fetch, g, id, 0);
    case DoRead(g, id) => var _ := peer.ManifestOf(ev.now, ev.fetch, g, id);
    case DoDelete(g, id) => var _ := peer.Remove(ev.now, ev.fetch, g, id);
    case DoRefresh => var _ := peer.RefreshGrants(ev.now, ev.fetch);
  }

  /** Any requests, one after the other. */
  method Traffic(peer: Daemon, evs: seq<Event>)
    modifies peer
    ensures peer.State() == Run(old(peer.State()), evs)
  {
    for i := 0 to |evs|
      invariant peer.State() == Run(old(peer.State()), evs[..i])
    {
      assert evs[..i + 1][..i] == evs[..i];
      Serve(peer, evs[i]);
    }
    assert evs[..|evs|] == evs;
  }

  /** Whatever else the peer does between two of our calls. */
  method Meanwhile(peer: Daemon, evs: seq<Event>, ghost canon: Canon, g: string, id: string)
    requires Faithful(peer.State(), canon)
    requires forall i :: 0 <= i < |evs| ==> OneManifest(evs[i], canon) && Spares(evs[i], g, id)
    modifies peer
    ensures peer.State() == Run(old(peer.State()), evs) && Faithful(peer.State(), canon)
    ensures DirOf(ShelfOf(peer.State(), g), id) == DirOf(ShelfOf(old(peer.State()), g), id)
  {
    var i := 0;
    while i < |evs|
      invariant 0 <= i <= |evs|
      invariant peer.State() == Run(old(peer.State()), evs[..i]) && Faithful(peer.State(), canon)
      invariant DirOf(ShelfOf(peer.State(), g), id) == DirOf(ShelfOf(old(peer.State()), g), id)
    {
      assert evs[..i + 1][..i] == evs[..i];
      StepKeepsFaithful(peer.State(), evs[i], canon);
      SparedDirIsKept(peer.State(), evs[i], g, id);
      Serve(peer, evs[i]);
      i := i + 1;
    }
    assert evs[..i] == evs;
  }

  /** One look at the source while it prepares: whether it can be reached, which
    * job it works on until the next look and with what luck, and how long that
    * takes beyond the second between looks. */
  datatype Poll = Poll(up: bool, job: nat, nonce: nat, at: Time, readable: bool, room: nat -> bool, extra: nat)

  /** The time the first k looks took. */
  function Slept(polls: nat -> Poll, k: nat): nat {
    if k == 0 then 0 else Slept(polls, k - 1) + 1 + polls(k - 1).extra
  }

  lemma {:induction false} SleptGrows(polls: nat -> Poll, j: nat, k: nat)
    requires j <= k
    ensures Slept(polls, j) <= Slept(polls, k)
  {
    if j < k {
      SleptGrows(polls, j, k - 1);
    }
  }

  /** Job p is worked on just before the k-th look and nothing goes wrong until
    * then, nor takes too long. */
  ghost predicate FinishedBy(polls: nat -> Poll, p: nat, k: nat) {
    && k > 0 && polls(k - 1).job == p && polls(k - 1).readable && RoomForAll(polls(k - 1).room)
    && (forall i: nat :: i < k - 1 ==> polls(i).job != p)
    && (forall i: nat :: i <= k ==> polls(i).up) && Slept(polls, k - 1) <= PREPARE_TIMEOUT
  }

  /** The n-th look comes while job p is on its way to be seen ready at look last. */
  ghost predicate Nearing(job: OwnerStore.Job, polls: nat -> Poll, p: nat, last: nat, n: nat) {
    n <= last && FinishedBy(polls, p, last) && if n < last then job == OwnerStore.Preparing else job.Ready?
  }

  lemma ComesNearer(before: OwnerStore.Job, after: OwnerStore.Job, polls: nat -> Poll, p: nat, last: nat, n: nat)
    requires Nearing(before, polls, p, last, n) && !before.Ready?
    requires polls(n).job != p ==> after == before
    requires polls(n).job == p && polls(n).readable && RoomForAll(polls(n).room) ==> after.Ready?
    ensures Nearing(after, polls, p, last, n + 1)
  {
  }

  lemma SeenInTime(job: OwnerStore.Job, polls: nat -> Poll, p: nat, last: nat, n: nat)
    requires Nearing(job, polls, p, last, n)
    ensures polls(n).up && (job.Ready? || job == OwnerStore.Preparing)
  {
  }

  lemma NotTooLong(polls: nat -> Poll, p: nat, last: nat, n: nat)
    requires n < last && FinishedBy(polls, p, last)
    ensures Slept(polls, n) <= PREPARE_TIMEOUT
  {
    SleptGrows(polls, n, last - 1);
  }

  /** The job is ready already, or will be in time. */
  ghost predicate InTime(job: OwnerStore.Job, polls: nat -> Poll, p: nat) {
    (job.Ready? && polls(0).up) || (job == OwnerStore.Preparing && exists k :: FinishedBy(polls, p, k))
  }

  lemma SignedWhen(job: OwnerStore.Job, key: SigningKey, signed: set<OwnerStore.Happening>, id: string, stream: Bytes) returns (now: Time)
    requires OwnerStore.Describes(job, key, signed, id, stream)
    ensures job.manifest == SignManifest(OwnerStore.ManifestFor(id, now, stream, key), key) && OwnerStore.Signed(id, stream, now) in signed
  {
    now :| job.manifest == SignManifest(OwnerStore.ManifestFor(id, now, stream, key), key) && OwnerStore.Signed(id, stream, now) in signed;
  }

  /** The source has started id's only job, and it is ready or will be in time. */
  ghost predicate WillBeReady(b: OwnerStore.Book, id: string, polls: nat -> Poll) {
    OwnerStore.OnlyJob(b, id) && InTime(b.jobs[b.prepares[id]], polls, b.prepares[id])
  }

  lemma NewJobWillBeReady(b: OwnerStore.Book, id: string, polls: nat -> Poll, p: nat)
    requires |b.jobIds| == |b.jobs| == p + 1 && b.jobs[p] == OwnerStore.Preparing && b.jobIds[p] == id
    requires id !in b.jobIds[..p] && id in b.prepares && b.prepares[id] == p
    requires exists k :: FinishedBy(polls, p, k)
    ensures WillBeReady(b, id, polls)
  {
    forall j | 0 <= j < p ensures b.jobIds[j] != id {
      assert b.jobIds[j] in b.jobIds[..p];
    }
  }

  /** What the finished job is about to send. */
  function ParcelOf(g: string, id: string, job: OwnerStore.Job, m: Manifest, stream: Bytes, approved: bool): Parcel
    requires job.Ready?
  {
    Parcel(g, id, m, job.manifest, ChunksOf(stream), approved)
  }

  /** Once the job is ready, every chunk of it gets through. */
  ghost predicate GoesThrough(st: PeerState, net: nat -> Circumstance, g: string, id: string, job: OwnerStore.Job, key: SigningKey, approved: bool) {
    && ValidUser(g) && ValidId(id) && job.Ready?
    && forall now, stream :: job.manifest == SignManifest(OwnerStore.ManifestFor(id, now, stream, key), key) ==>
         Smooth(st, net, ParcelOf(g, id, job, OwnerStore.ManifestFor(id, now, stream, key), stream, approved))
  }

  lemma ThroughIsSmooth(st: PeerState, net: nat -> Circumstance, g: string, id: string, job: OwnerStore.Job, key: SigningKey, approved: bool,
                        now: Time, stream: Bytes)
    requires GoesThrough(st, net, g, id, job, key, approved)
    requires job.manifest == SignManifest(OwnerStore.ManifestFor(id, now, stream, key), key)
    ensures var p := ParcelOf(g, id, job, OwnerStore.ManifestFor(id, now, stream, key), stream, approved); Packed(p) && Smooth(st, net, p)
  {
  }

  ghost predicate Quiet(c: Circumstance, canon: Canon, g: string, id: string) {
    forall i :: 0 <= i < |c.others| ==> OneManifest(c.others[i], canon) && Spares(c.others[i], g, id)
  }

  /** What casper_service hears when it asks the peer about a backup: the peer's own
    * verdict by the list it fetches for it, and a refusal if no answer comes. */
  ghost function Heard(c: Circumstance, st: PeerState, g: string, id: string, size: int): Tier {
    if c.delivered && c.answered && ValidUser(g) && ValidId(id) && c.fetch.Fetched?
    then TierVerdict(c.fetch.grants, ShelfOf(st, g), g, id, size).0 else Deny
  }

  class Backup {
    const grantee: string
    const id: string
    var row: Row

    constructor (grantee: string, id: string)
      ensures this.grantee == grantee && this.id == id && row == Row(NoRow, 0, 0, 0, NotRestored)
    {
      this.grantee, this.id, row := grantee, id, Row(NoRow, 0, 0, 0, NotRestored);
    }

    /** daemon_call for backup_write_chunk: the tier in the answer, if any. */
    method CallWrite(peer: Daemon, c: Circumstance, q: WriteRequest) returns (tier: Option<Tier>, ghost reply: WriteReply)
      modifies peer
      ensures tier.Some? ==>
                (peer.State(), reply) == Write(old(peer.State()), c.now, c.fetch, q) && reply.Verdict? && tier == Some(reply.tier)
      ensures tier.Some? ==> tier.value in {Allow, Ask, Deny}
      ensures c.delivered && c.answered && Write(old(peer.State()), c.now, c.fetch, q).1.Verdict? ==> tier.Some?
      ensures peer.State() == old(peer.State()) || peer.State() == Step(old(peer.State()), Event(c.now, c.fetch, DoWrite(q)))
    {
      if !c.delivered {
        return None, Failed(NoGrantList);
      }
      RepliesAreKnown(peer.State(), c.now, c.fetch, q);
      var answer := peer.WriteChunk(c.now, c.fetch, q);
      reply := answer;
      tier := if c.answered && answer.Verdict? then Some(answer.tier) else None;
    }

    /** Polls the source until its encryption is done, fails, or takes longer
      * than the limit; the source works on in the background, each job on its
      * folder as it walks it. */
    method AwaitReady(src: OwnerStore.Daemon, folders: nat -> OwnerStore.Image, polls: nat -> Poll) returns (job: Option<OwnerStore.Job>)
      requires src.Valid() && forall j :: OwnerStore.IsImage(folders(j))
      modifies src
      ensures src.Valid() && src.prepares == old(src.prepares) && src.jobIds == old(src.jobIds)
      ensures job.Some? ==> exists stream :: OwnerStore.Describes(job.value, src.key, src.signed, id, stream)
      ensures job.Some? ==> id in src.prepares && job.value == src.jobs[src.prepares[id]]
      ensures WillBeReady(old(src.Jobs()), id, polls) ==> job.Some?
    {
      var clock, n := 0, 0;
      ghost var p := if id in src.prepares then src.prepares[id] else 0;
      ghost var ready := WillBeReady(src.Jobs(), id, polls) && src.jobs[p].Ready?;
      ghost var waiting := WillBeReady(src.Jobs(), id, polls) && !ready;
      ghost var last: nat := 0;
      if waiting {
        last :| FinishedBy(polls, p, last);
      }
      while true
        invariant src.Valid() && src.prepares == old(src.prepares) && src.jobIds == old(src.jobIds)
        invariant clock == Slept(polls, n)
        invariant ready || waiting ==> id in src.prepares && src.prepares[id] == p
        invariant ready ==> n == 0 && polls(0).up && src.jobs[p].Ready?
        invariant waiting ==> Nearing(src.jobs[p], polls, p, last, n)
        decreases PREPARE_TIMEOUT - clock
      {
        if waiting {
          SeenInTime(src.jobs[p], polls, p, last, n);
          if n < last {
            NotTooLong(polls, p, last, n);
          }
        }
        if !polls(n).up {
          return None;
        }
        var status := src.PrepareStatus(id);
        if status.Failure? || status.value.FailedJob? {
          return None;
        }
        if status.value.Ready? {
          return Some(status.value);
        }
        if clock > PREPARE_TIMEOUT {
          return None;
        }
        ghost var before := src.jobs;
        WorkOn(src, folders, polls(n));
        if waiting {
          ComesNearer(before[p], src.jobs[p], polls, p, last, n);
        }
        n, clock := NextLook(polls, n, clock);
      }
    }

    /** The time of the next look. */
    static method NextLook(polls: nat -> Poll, n: nat, clock: nat) returns (next: nat, time: nat)
      requires clock == Slept(polls, n)
      ensures next == n + 1 && time > clock && time == Slept(polls, next)
    {
      next, time := n + 1, clock + 1 + polls(n).extra;
    }

    /** What the source does between two looks. */
    method WorkOn(src: OwnerStore.Daemon, folders: nat -> OwnerStore.Image, poll: Poll)
      requires src.Valid() && forall j :: OwnerStore.IsImage(folders(j))
      modifies src
      ensures src.Valid() && src.prepares == old(src.prepares) && src.jobIds == old(src.jobIds) && |src.jobs| == |old(src.jobs)|
      ensures forall j :: 0 <= j < |src.jobs| && j != poll.job ==> src.jobs[j] == old(src.jobs)[j]
      ensures poll.job < |src.jobs| && old(src.jobs)[poll.job] == OwnerStore.Preparing && poll.readable && RoomForAll(poll.room) ==>
                src.jobs[poll.job].Ready?
    {
      var j := poll.job;
      if j < |src.jobs| && src.jobs[j] == OwnerStore.Preparing {
        src.FinishJob(j, folders(j), poll.nonce, poll.at, poll.readable, poll.room);
      }
    }

    method CallCleanup(src: OwnerStore.Daemon)
      requires src.Valid()
      modifies src
      ensures src.Valid() && src.history == old(src.history) && src.signed == old(src.signed) && src.jobs == old(src.jobs)
    {
      var reachable: bool := *;
      if reachable {
        var _ := src.Cleanup(id);
      }
    }

    /** The source's only job for id is ready, and stream is what it encrypted. */
    static ghost predicate SourceHas(src: OwnerStore.Daemon, id: string, stream: Bytes)
      reads src
    {
      OwnerStore.OnlyJob(src.Jobs(), id) && OwnerStore.Describes(src.jobs[src.prepares[id]], src.key, src.signed, id, stream)
    }

    /** Reads chunk i at the source and writes it at the peer. */
    method SendChunk(src: OwnerStore.Daemon, peer: Daemon, c: Circumstance, i: nat, manifest: SignedManifest, approved: bool,
                     ghost canon: Canon, ghost m: Manifest, ghost p: Parcel, ghost stream: Bytes) returns (sent: bool)
      requires src.Valid() && Quiet(c, canon, grantee, id)
      requires p == Parcel(grantee, id, m, manifest, ChunksOf(stream), approved) && m.chunkHashes == Hashes(p.chunks)
      requires Faithful(peer.State(), canon) && (grantee, id) in canon && canon[(grantee, id)] == m
      requires Decoded(manifest) == Some(m) && i < |m.chunkHashes|
      requires SentSoFar(peer.State(), grantee, id, m, manifest, i)
      modifies peer
      ensures sent ==> Faithful(peer.State(), canon) && SentSoFar(peer.State(), grantee, id, m, manifest, i + 1)
      ensures var (after, reply) := Write(Run(old(peer.State()), c.others), c.now, c.fetch, Request(p, i));
              SourceHas(src, id, stream) && c.up && c.delivered && c.answered && Stored(reply, Request(p, i)) ==>
                sent && peer.State() == after
    {
      sent := false;
      if !c.up {
        return;
      }
      var content := src.ReadChunk(id, i);
      if content.Failure? {
        return;
      }
      var sm := if i == 0 then manifest else SignedManifest(EMPTY_TEXT, Encoded(OtherBytes([])));
      var q := WriteRequest(grantee, id, i, content.value, sm, approved);
      Meanwhile(peer, c.others, canon, grantee, id);
      ghost var before := peer.State();
      var tier: Option<Tier>;
      ghost var reply;
      tier, reply := CallWrite(peer, c, q);
      if tier == Some(Deny) || (tier == Some(Ask) && !approved) || tier == None {
        return;
      }
      SendsNext(before, c, canon, m, manifest, q, peer.State(), reply);
      sent := true;
    }

    /** Moves every chunk from the source to the peer, stopping at the first
      * call that fails or is refused. The row says "complete" only when the
      * peer holds the whole stream the source signed; and it does say so when
      * the source gets ready in time and nothing fails. */
    method Transfer(src: OwnerStore.Daemon, folders: nat -> OwnerStore.Image, peer: Daemon, polls: nat -> Poll, net: nat -> Circumstance,
                    approved: bool, ghost canon: Canon)
      requires row.status == Transferring && src.Valid() && forall j :: OwnerStore.IsImage(folders(j))
      requires Faithful(peer.State(), canon) && (grantee, id) !in canon
      requires forall k :: Quiet(net(k), canon, grantee, id)
      modifies this, src, peer
      ensures src.Valid() && row.restoreStatus == old(row.restoreStatus)
      ensures row.status == Completed || row.status == Broken
      ensures row.status == Completed ==> StoredInFull(row, peer.State(), grantee, id, src.key, src.history, canon)
      ensures WillBeReady(old(src.Jobs()), id, polls) ==>
                var p := old(src.prepares)[id];
                && p < |src.jobs| && src.jobs[p].Ready?
                && (GoesThrough(old(peer.State()), net, grantee, id, src.jobs[p], src.key, approved) ==> row.status == Completed)
    {
      var job := AwaitReady(src, folders, polls);
      if job.None? {
        Fail(src);
        return;
      }
      ghost var stream :| OwnerStore.Describes(job.value, src.key, src.signed, id, stream);
      ghost var now := SignedWhen(job.value, src.key, src.signed, id, stream);
      Deliver(src, peer, net, job.value, approved, canon, stream, now);
    }

    /** The rest of a transfer, with the source's job ready. */
    method Deliver(src: OwnerStore.Daemon, peer: Daemon, net: nat -> Circumstance, job: OwnerStore.Job, approved: bool,
                   ghost canon: Canon, ghost stream: Bytes, ghost now: Time)
      requires row.status == Transferring && src.Valid() && Faithful(peer.State(), canon) && (grantee, id) !in canon
      requires forall k :: Quiet(net(k), canon, grantee, id)
      requires OwnerStore.Describes(job, src.key, src.signed, id, stream) && OwnerStore.Signed(id, stream, now) in src.signed
      requires job.manifest == SignManifest(OwnerStore.ManifestFor(id, now, stream, src.key), src.key)
      modifies this, src, peer
      ensures src.Valid() && row.restoreStatus == old(row.restoreStatus) && src.jobs == old(src.jobs)
      ensures row.status == Completed || row.status == Broken
      ensures row.status == Completed ==> StoredInFull(row, peer.State(), grantee, id, src.key, src.history, canon)
      ensures old(ItsJob(src, job)) && GoesThrough(old(peer.State()), net, grantee, id, job, src.key, approved) ==> row.status == Completed
    {
      row := row.(totalBytes := job.total, chunkCount := job.chunkCount);
      ghost var m := OwnerStore.ManifestFor(id, now, stream, src.key);
      if GoesThrough(peer.State(), net, grantee, id, job, src.key, approved) {
        ThroughIsSmooth(peer.State(), net, grantee, id, job, src.key, approved, now, stream);
      }
      var sent := SendAll(src, peer, net, job, approved, canon, m, stream);
      if !sent {
        Fail(src);
        return;
      }
      row := row.(status := Completed);
      assert StoredInFull(row, peer.State(), grantee, id, src.key, src.history, canon);
      CallCleanup(src);
    }

    /** job is the only one the source ever started for this backup. */
    ghost predicate ItsJob(src: OwnerStore.Daemon, job: OwnerStore.Job)
      reads src
    {
      OwnerStore.OnlyJob(src.Jobs(), id) && src.jobs[src.prepares[id]] == job
    }

    /** The loop over the chunks. */
    method SendAll(src: OwnerStore.Daemon, peer: Daemon, net: nat -> Circumstance, job: OwnerStore.Job, approved: bool,
                   ghost canon: Canon, ghost m: Manifest, ghost stream: Bytes) returns (sent: bool)
      requires src.Valid() && Faithful(peer.State(), canon) && (grantee, id) !in canon
      requires forall k :: Quiet(net(k), canon, grantee, id)
      requires job.Ready? && job.manifest == SignManifest(m, src.key) && job.chunkCount == |ChunksOf(stream)| && stream != []
      requires m.chunkHashes == Hashes(ChunksOf(stream)) && row.chunkCount == job.chunkCount
      modifies this, peer
      ensures row == old(row).(chunksDone := row.chunksDone)
      ensures sent ==> row.chunksDone == job.chunkCount > 0
      ensures sent ==> HoldsStream(peer.State(), grantee, id, m, src.key, stream) && Faithful(peer.State(), canon[(grantee, id) := m])
      ensures var p := ParcelOf(grantee, id, job, m, stream, approved);
              old(SourceHas(src, id, stream)) && Packed(p) && Smooth(old(peer.State()), net, p) ==> sent
    {
      ghost var canon' := canon[(grantee, id) := m];
      ghost var p, st := ParcelOf(grantee, id, job, m, stream, approved), peer.State();
      ChunksRejoin(stream);
      ghost var track := TrackOf(src, st, net, p, stream);
      forall k ensures Quiet(net(k), canon', grantee, id) {
        assert Quiet(net(k), canon, grantee, id);
        StillOneManifest(net(k).others, canon, grantee, id, m);
      }
      sent := SendLoop(src, peer, net, job, approved, canon', m, p, stream, st, track);
      if sent {
        AllSent(peer.State(), canon', grantee, id, m, src.key, stream);
      }
    }

    method SendLoop(src: OwnerStore.Daemon, peer: Daemon, net: nat -> Circumstance, job: OwnerStore.Job, approved: bool,
                    ghost canon: Canon, ghost m: Manifest, ghost p: Parcel, ghost stream: Bytes, ghost st: PeerState,
                    ghost track: (PeerState, nat) -> bool) returns (sent: bool)
      requires src.Valid() && Faithful(peer.State(), canon) && (grantee, id) in canon && canon[(grantee, id)] == m
      requires forall k :: Quiet(net(k), canon, grantee, id)
      requires job.Ready? && Decoded(job.manifest) == Some(m) && job.chunkCount == |m.chunkHashes| && row.chunkCount == job.chunkCount
      requires p == Parcel(grantee, id, m, job.manifest, ChunksOf(stream), approved) && m.chunkHashes == Hashes(p.chunks)
      requires Tracks(track, src, st, net, p, stream)
      modifies this, peer
      ensures row == old(row).(chunksDone := row.chunksDone)
      ensures sent && job.chunkCount > 0 ==> row.chunksDone == job.chunkCount
      ensures sent ==> Faithful(peer.State(), canon) && SentSoFar(peer.State(), grantee, id, m, job.manifest, job.chunkCount)
      ensures track(old(peer.State()), 0) ==> sent
    {
      var i := 0;
      while i < job.chunkCount
        invariant 0 <= i <= job.chunkCount
        invariant row == old(row).(chunksDone := row.chunksDone) && (i > 0 ==> row.chunksDone == i)
        invariant Faithful(peer.State(), canon)
        invariant SentSoFar(peer.State(), grantee, id, m, job.manifest, i)
        invariant track(old(peer.State()), 0) ==> track(peer.State(), i)
      {
        var ok := SendNext(src, peer, net, i, job.manifest, approved, canon, m, p, stream, st, track);
        if !ok {
          return false;
        }
        i := i + 1;
        row := row.(chunksDone := i);
      }
      sent := true;
    }

    /** All goes well, and the first k chunks are sent. */
    static ghost predicate OnTrack(src: OwnerStore.Daemon, st: PeerState, net: nat -> Circumstance, p: Parcel, stream: Bytes, now: PeerState, k: nat)
      reads src
    {
      SourceHas(src, p.id, stream) && Packed(p) && Smooth(st, net, p) && k <= |p.chunks| && now == AfterSends(st, net, p, k)
    }

    /** track stands for OnTrack of this run. */
    static ghost predicate Tracks(track: (PeerState, nat) -> bool, src: OwnerStore.Daemon, st: PeerState, net: nat -> Circumstance, p: Parcel, stream: Bytes)
      reads src
    {
      forall now, k {:trigger OnTrack(src, st, net, p, stream, now, k)} :: track(now, k) <==> OnTrack(src, st, net, p, stream, now, k)
    }

    static ghost function TrackOf(src: OwnerStore.Daemon, st: PeerState, net: nat -> Circumstance, p: Parcel, stream: Bytes)
      : (track: (PeerState, nat) -> bool)
      reads src
      ensures Tracks(track, src, st, net, p, stream)
      ensures SourceHas(src, p.id, stream) && Packed(p) && Smooth(st, net, p) ==> track(st, 0)
    {
      var smooth := SourceHas(src, p.id, stream) && Packed(p) && Smooth(st, net, p);
      var track := (now: PeerState, k: nat) => smooth && k <= |p.chunks| && now == AfterSends(st, net, p, k);
      assert AfterSends(st, net, p, 0) == st;
      assert track(st, 0) <==> smooth;
      track
    }

    /** SendChunk, and that it works as long as all goes well. */
    method SendNext(src: OwnerStore.Daemon, peer: Daemon, net: nat -> Circumstance, i: nat, manifest: SignedManifest, approved: bool,
                    ghost canon: Canon, ghost m: Manifest, ghost p: Parcel, ghost stream: Bytes, ghost st: PeerState, ghost track: (PeerState, nat) -> bool) returns (sent: bool)
      requires Tracks(track, src, st, net, p, stream)
      requires src.Valid() && Quiet(net(i), canon, grantee, id)
      requires p == Parcel(grantee, id, m, manifest, ChunksOf(stream), approved) && m.chunkHashes == Hashes(p.chunks)
      requires Faithful(peer.State(), canon) && (grantee, id) in canon && canon[(grantee, id)] == m
      requires Decoded(manifest) == Some(m) && i < |m.chunkHashes|
      requires SentSoFar(peer.State(), grantee, id, m, manifest, i)
      modifies peer
      ensures sent ==> Faithful(peer.State(), canon) && SentSoFar(peer.State(), grantee, id, m, manifest, i + 1)
      ensures track(old(peer.State()), i) ==> sent && track(peer.State(), i + 1)
    {
      assert track(peer.State(), i) <==> OnTrack(src, st, net, p, stream, peer.State(), i);
      if OnTrack(src, st, net, p, stream, peer.State(), i) {
        SendingAllCompletes(st, net, p, i);
      }
      sent := SendChunk(src, peer, net(i), i, manifest, approved, canon, m, p, stream);
      assert track(peer.State(), i + 1) <==> OnTrack(src, st, net, p, stream, peer.State(), i + 1);
    }

    method Fail(src: OwnerStore.Daemon)
      requires src.Valid()
      modifies this, src
      ensures src.Valid() && row == old(row).(status := Broken) && src.jobs == old(src.jobs)
    {
      row := row.(status := Broken);
      CallCleanup(src);
    }

    /** Starts a backup: only the peer's own verdict lets anything be sent, and
      * an "ask" stores nothing until its owner has approved. */
    method Push(src: OwnerStore.Daemon, folders: nat -> OwnerStore.Image, peer: Daemon, polls: nat -> Poll, net: nat -> Circumstance,
                size: nat, c: Circumstance, ghost canon: Canon)
      requires row == Row(NoRow, 0, 0, 0, NotRestored) && src.Valid() && forall j :: OwnerStore.IsImage(folders(j))
      requires Faithful(peer.State(), canon) && (grantee, id) !in canon
      requires forall k :: Quiet(net(k), canon, grantee, id)
      modifies this, src, peer
      ensures src.Valid()
      ensures row.status in {NoRow, Denied, AwaitingApproval, Completed, Broken}
      ensures row.status in {NoRow, Denied, AwaitingApproval} ==> peer.stored == old(peer.stored)
      ensures row.status == Denied ==> Heard(c, old(peer.State()), grantee, id, size) == Deny
      ensures row.status == AwaitingApproval ==> Heard(c, old(peer.State()), grantee, id, size) == Ask
      ensures row.status in {Completed, Broken} ==> Heard(c, old(peer.State()), grantee, id, size) == Allow
      ensures row.status == NoRow <==> !(c.up && ValidId(id) && size <= OwnerStore.MAX_BACKUP_BYTES && id !in old(src.prepares))
      ensures row.status == Completed ==> StoredInFull(row, peer.State(), grantee, id, src.key, src.history, canon)
      ensures row.status == Broken && id !in old(src.jobIds) && (exists k :: FinishedBy(polls, |old(src.jobs)|, k)) ==>
                && |old(src.jobs)| < |src.jobs| && c.fetch.Fetched?
                && !GoesThrough(PeerState(Some(c.fetch.grants), c.now, old(peer.stored)), net, grantee, id, src.jobs[|old(src.jobs)|], src.key, false)
    {
      if !c.up {
        return;
      }
      var prepared := src.Prepare(id, size);
      if prepared.Failure? {
        return;
      }
      ghost var inTime := id !in old(src.jobIds) && exists k :: FinishedBy(polls, |old(src.jobs)|, k);
      if inTime {
        NewJobWillBeReady(src.Jobs(), id, polls, |src.jobs| - 1);
      }
      var tier := AskPeer(peer, size, c);
      row := Row(Pending, 0, 0, 0, NotRestored);
      Proceed(src, folders, peer, polls, net, tier, canon);
    }

    /** Acts on the peer's verdict. */
    method Proceed(src: OwnerStore.Daemon, folders: nat -> OwnerStore.Image, peer: Daemon, polls: nat -> Poll, net: nat -> Circumstance,
                   tier: Tier, ghost canon: Canon)
      requires src.Valid() && forall j :: OwnerStore.IsImage(folders(j))
      requires Faithful(peer.State(), canon) && (grantee, id) !in canon && tier in {Allow, Ask, Deny}
      requires forall k :: Quiet(net(k), canon, grantee, id)
      modifies this, src, peer
      ensures src.Valid()
      ensures row.status in {Denied, AwaitingApproval, Completed, Broken}
      ensures (row.status == Denied <==> tier == Deny) && (row.status == AwaitingApproval <==> tier == Ask)
      ensures tier != Allow ==> peer.State() == old(peer.State())
      ensures row.status == Completed ==> StoredInFull(row, peer.State(), grantee, id, src.key, src.history, canon)
      ensures tier == Allow && WillBeReady(old(src.Jobs()), id, polls) ==>
                var p := old(src.prepares)[id];
                && p < |src.jobs| && src.jobs[p].Ready?
                && (GoesThrough(old(peer.State()), net, grantee, id, src.jobs[p], src.key, false) ==> row.status == Completed)
    {
      if tier == Deny {
        row := row.(status := Denied);
        CallCleanup(src);
      } else if tier == Ask {
        row := row.(status := AwaitingApproval);
      } else {
        row := row.(status := Transferring);
        Transfer(src, folders, peer, polls, net, false, canon);
      }
    }

    /** The peer's verdict on the whole backup; no answer is a refusal. */
    method AskPeer(peer: Daemon, size: nat, c: Circumstance) returns (tier: Tier)
      modifies peer
      ensures peer.stored == old(peer.stored)
      ensures tier == Heard(c, old(peer.State()), grantee, id, size)
      ensures tier != Deny ==> c.fetch.Fetched? && peer.State() == PeerState(Some(c.fetch.grants), c.now, old(peer.stored))
      ensures tier in {Allow, Ask, Deny}
    {
      tier := Deny;
      if c.delivered {
        ghost var shelf := ShelfOf(peer.State(), grantee);
        var verdict := peer.Authorize(c.now, c.fetch, grantee, id, size);
        if c.answered && verdict.Success? {
          tier := verdict.value.0;
        }
      }
    }

    /** The destination owner's answer to an "ask". */
    method DecideWrite(src: OwnerStore.Daemon, folders: nat -> OwnerStore.Image, peer: Daemon, polls: nat -> Poll, net: nat -> Circumstance,
                       allow: bool, ghost canon: Canon) returns (taken: bool)
      requires src.Valid() && forall j :: OwnerStore.IsImage(folders(j))
      requires Faithful(peer.State(), canon) && (grantee, id) !in canon
      requires forall k :: Quiet(net(k), canon, grantee, id)
      modifies this, src, peer
      ensures src.Valid()
      ensures taken <==> old(row.status) == AwaitingApproval
      ensures !taken ==> row == old(row) && peer.State() == old(peer.State())
      ensures taken && !allow ==> row.status == Denied && peer.State() == old(peer.State())
      ensures taken && allow ==> row.status == Completed || row.status == Broken
      ensures taken && row.status == Completed ==>
                StoredInFull(row, peer.State(), grantee, id, src.key, src.history, canon)
      ensures taken && allow && WillBeReady(old(src.Jobs()), id, polls) ==>
                var p := old(src.prepares)[id];
                && p < |src.jobs| && src.jobs[p].Ready?
                && (GoesThrough(old(peer.State()), net, grantee, id, src.jobs[p], src.key, true) ==> row.status == Completed)
    {
      taken := row.status == AwaitingApproval;
      if !taken {
        return;
      }
      if !allow {
        row := row.(status := Denied);
        CallCleanup(src);
        return;
      }
      row := row.(status := Transferring);
      Transfer(src, folders, peer, polls, net, true, canon);
    }

    /** A completed backup is only marked deleted once the peer has confirmed;
      * a broken one is marked deleted even if the peer could not be told. */
    method Delete(peer: Daemon, connected: bool, c: Circumstance) returns (done: bool, confirmed: bool)
      modifies this, peer
      ensures done ==> row == old(row).(status := Deleted)
      ensures !done ==> row == old(row)
      ensures confirmed ==> id !in ShelfOf(peer.State(), grantee)
      ensures done && old(row.status) == Completed ==> confirmed
      ensures old(row.status) in {NoRow, Deleted} ==> !done
      ensures old(row.status) in {Broken, Transferring} ==> (done <==> connected)
      ensures old(row.status) in {Pending, AwaitingApproval, Denied} ==> done
      ensures old(row.status) == Completed ==>
                (done <==> connected && c.delivered && c.answered && PeerStore.Delete(old(peer.State()), c.now, c.fetch, grantee, id).1.Success?)
      ensures peer.State() == old(peer.State()) || peer.State() == PeerStore.Delete(old(peer.State()), c.now, c.fetch, grantee, id).0
    {
      done, confirmed := false, false;
      if row.status in {NoRow, Deleted} {
        return;
      }
      if row.status in {Completed, Broken, Transferring} && !connected {
        return;
      }
      if connected {
        if c.delivered {
          var r := peer.Remove(c.now, c.fetch, grantee, id);
          confirmed := c.answered && r.Success?;
        }
        if !confirmed && row.status == Completed {
          return;
        }
      }
      row := row.(status := Deleted);
      done := true;
    }

    /** The steps of a restore; any failed call ends it. It succeeds only when
      * the manifest the peer answered with was signed with the target machine's
      * key, every chunk it lists arrived unaltered, and the archive inside was
      * unpacked; and it does succeed when the peer holds a stream of the target's
      * own, no call fails, and the archive inside can be unpacked. */
    method TryRestore(target: OwnerStore.Daemon, peer: Daemon, disk: Disk, net: nat -> Circumstance, root: Path, stamp: string,
                      ghost r: Retrieval) returns (ok: bool)
      requires target.Valid() && r.st == peer.State() && r.g == grantee && r.id == id && r.key == target.key
      modifies target, peer, disk
      ensures target.Valid()
      ensures ok ==>
                var answer := Answered(old(peer.State()), net(0), grantee, id);
                && answer.Success?
                && RestoredFrom(answer.value.manifest, old(disk.nodes), disk.nodes, target.key, target.codec, target.history, id, root, stamp)
      ensures Retrievable(r, net) && OwnerStore.Unpackable(target.codec, r.stream, old(disk.nodes), root, stamp) ==> ok
    {
      ok := false;
      var reply: Option<ManifestReply>;
      ghost var track, started;
      reply, track, started := StartRestore(target, peer, net, r);
      if reply.None? {
        return;
      }
      var sm, count := reply.value.manifest, reply.value.chunkCount;
      ghost var m := Decoded(sm).value;
      var received := FetchAll(target, peer, net, count, sm, m, r, started, track);
      if !received {
        return;
      }
      if track(peer.State(), target.restores, count) && count == |ChunksOf(r.stream)| {
        assert Arriving(r, net, started, peer.State(), target.restores, count);
        AllArrived(r, net, started, peer.State(), target.restores);
      }
      if !net(count + 1).up {
        return;
      }
      ok := Unpacked(target, disk, sm, m, root, stamp);
    }

    /** Asks the peer for the manifest and has the target begin. */
    method StartRestore(target: OwnerStore.Daemon, peer: Daemon, net: nat -> Circumstance, ghost r: Retrieval)
      returns (reply: Option<ManifestReply>, ghost track: (PeerState, OwnerStore.Restores, nat) -> bool, ghost started: OwnerStore.Restores)
      requires target.Valid() && r.st == peer.State() && r.g == grantee && r.id == id && r.key == target.key
      modifies target, peer
      ensures target.Valid() && Follows(track, r, net, started)
      ensures reply.Some? ==>
                && Answered(old(peer.State()), net(0), grantee, id) == Success(reply.value)
                && Decoded(reply.value.manifest).Some? && reply.value.chunkCount == |Decoded(reply.value.manifest).value.chunkHashes|
                && VerifyManifest(reply.value.manifest, [target.key.Public()]) == Success(Decoded(reply.value.manifest).value)
                && Receiving(target.restores, id, reply.value.manifest, Decoded(reply.value.manifest).value)
      ensures Retrievable(r, net) ==>
                reply.Some? && track(peer.State(), target.restores, 0) && reply.value.chunkCount == |ChunksOf(r.stream)|
    {
      var c := net(0);
      started := target.restores;
      track := ArrivalOf(r, net, started);
      if Retrievable(r, net) {
        StartsArriving(r, net, target.restores);
      }
      Traffic(peer, c.others);
      if !c.delivered {
        return None, track, started;
      }
      var answer := peer.ManifestOf(c.now, c.fetch, grantee, id);
      if !c.answered || answer.Failure? || !c.up {
        return None, track, started;
      }
      var begun := target.RestoreBegin(id, answer.value.manifest);
      if begun.Failure? {
        return None, track, started;
      }
      started := target.restores;
      track := ArrivalOf(r, net, started);
      assert track(peer.State(), started, 0) <==> Arriving(r, net, started, peer.State(), started, 0);
      reply := Some(answer.value);
    }

    /** Fetches every chunk from the peer and hands it to the target. */
    method FetchAll(target: OwnerStore.Daemon, peer: Daemon, net: nat -> Circumstance, count: nat, ghost sm: SignedManifest, ghost m: Manifest,
                    ghost r: Retrieval, ghost begun: OwnerStore.Restores, ghost track: (PeerState, OwnerStore.Restores, nat) -> bool)
      returns (received: bool)
      requires target.Valid() && Receiving(target.restores, id, sm, m) && VerifyManifest(sm, [target.key.Public()]) == Success(m)
      requires r.g == grantee && r.id == id && r.key == target.key && Follows(track, r, net, begun)
      modifies target, peer
      ensures target.Valid() && Receiving(target.restores, id, sm, m)
      ensures track(old(peer.State()), old(target.restores), 0) && count == |ChunksOf(r.stream)| ==>
                received && track(peer.State(), target.restores, count)
    {
      var i := 0;
      while i < count
        invariant 0 <= i <= count && target.Valid() && Receiving(target.restores, id, sm, m)
        invariant track(old(peer.State()), old(target.restores), 0) && count == |ChunksOf(r.stream)| ==> track(peer.State(), target.restores, i)
      {
        received := FetchChunk(target, peer, net, i, sm, m, r, begun, track);
        if !received {
          return;
        }
        i := i + 1;
      }
      received := true;
    }

    /** Fetches chunk i from the peer and hands it to the target. */
    method FetchChunk(target: OwnerStore.Daemon, peer: Daemon, net: nat -> Circumstance, i: nat, ghost sm: SignedManifest, ghost m: Manifest,
                      ghost r: Retrieval, ghost begun: OwnerStore.Restores, ghost track: (PeerState, OwnerStore.Restores, nat) -> bool)
      returns (received: bool)
      requires target.Valid() && Receiving(target.restores, id, sm, m) && VerifyManifest(sm, [target.key.Public()]) == Success(m)
      requires r.g == grantee && r.id == id && r.key == target.key && Follows(track, r, net, begun)
      modifies target, peer
      ensures target.Valid() && Receiving(target.restores, id, sm, m)
      ensures track(old(peer.State()), old(target.restores), i) && i < |ChunksOf(r.stream)| ==>
                received && track(peer.State(), target.restores, i + 1)
    {
      received := false;
      var c := net(i + 1);
      ghost var arriving := Arriving(r, net, begun, peer.State(), target.restores, i) && i < |ChunksOf(r.stream)|;
      if arriving {
        ArrivesNext(r, net, begun, peer.State(), target.restores, i);
      }
      Traffic(peer, c.others);
      if !c.delivered {
        return;
      }
      var chunk := peer.ChunkOf(c.now, c.fetch, grantee, id, i);
      if !c.answered || chunk.Failure? || !c.up {
        return;
      }
      received := Hand(target, i, chunk.value, sm, m);
      assert arriving ==> Arriving(r, net, begun, peer.State(), target.restores, i + 1);
    }

    method Hand(target: OwnerStore.Daemon, i: nat, content: Base64<Bytes>, ghost sm: SignedManifest, ghost m: Manifest) returns (received: bool)
      requires target.Valid() && Receiving(target.restores, id, sm, m) && VerifyManifest(sm, [target.key.Public()]) == Success(m)
      modifies target
      ensures target.Valid() && Receiving(target.restores, id, sm, m)
      ensures target.restores == OwnerStore.Receive(old(target.restores), target.key, id, i, content).0
      ensures received <==> OwnerStore.Receive(old(target.restores), target.key, id, i, content).1.Success?
    {
      var stored := target.RestoreChunk(id, i, content);
      received := stored.Success?;
    }

    /** Has the target decrypt and unpack what it received. */
    method Unpacked(target: OwnerStore.Daemon, disk: Disk, ghost sm: SignedManifest, ghost m: Manifest, root: Path, stamp: string) returns (ok: bool)
      requires target.Valid() && Receiving(target.restores, id, sm, m) && VerifyManifest(sm, [target.key.Public()]) == Success(m)
      modifies target, disk
      ensures target.Valid()
      ensures ok ==> RestoredFrom(sm, old(disk.nodes), disk.nodes, target.key, target.codec, target.history, id, root, stamp)
      ensures forall stream ::
                OwnerStore.Delivers(old(target.restores), target.key, id, stream)
                && OwnerStore.Unpackable(target.codec, stream, old(disk.nodes), root, stamp) ==>
                  ok
    {
      ghost var hs := target.history;
      ghost var dirs := target.restores;
      var out := target.Unpack(disk, id, root, stamp);
      ok := out.Success?;
      if ok {
        ghost var stream, plain :| OwnerStore.Delivers(dirs, target.key, id, stream) && target.codec.open(stream) == Some(plain)
          && var (entries, intact) := target.codec.unpack(plain);
             Placed(disk.nodes, Success(out.value)) == Extract(old(disk.nodes), None, entries, intact, root, stamp);
        assert OwnerStore.UnpacksTo(target.codec, stream, old(disk.nodes), disk.nodes, root, stamp);
        DeliveredStream(dirs, target.key, id, m, stream);
        assert target.history[..|hs|] == hs;
      }
    }

    /** Only a complete backup is restored, and nothing changes unless both the
      * target and the peer are connected. A row marked restored means the target
      * unpacked what the manifest in the peer's answer lists; and as signatures
      * cannot be forged, that is one of the target's own folders, back as it was. */
    method Restore(target: OwnerStore.Daemon, peer: Daemon, disk: Disk, net: nat -> Circumstance, root: Path, stamp: string, connected: bool,
                   ghost r: Retrieval, ghost f: OwnerStore.Image)
      requires target.Valid() && r.st == peer.State() && r.g == grantee && r.id == id && r.key == target.key
      modifies this, target, peer, disk
      ensures target.Valid()
      ensures row == old(row).(restoreStatus := row.restoreStatus)
      ensures row.status != Completed || !connected ==>
                row == old(row) && disk.nodes == old(disk.nodes) && peer.State() == old(peer.State()) && target.history == old(target.history)
      ensures row.status == Completed && connected ==> row.restoreStatus in {Restored, RestoreFailed}
      ensures row.status == Completed && connected && row.restoreStatus == Restored ==>
                var answer := Answered(old(peer.State()), net(0), grantee, id);
                && answer.Success?
                && RestoredFrom(answer.value.manifest, old(disk.nodes), disk.nodes, target.key, target.codec, target.history, id, root, stamp)
      ensures row.status == Completed && connected && row.restoreStatus == Restored
              && OwnerStore.Lawful(target.codec) && OwnerStore.NoForgery(target.history, target.key) && Rooted(old(disk.nodes)) ==>
                OwnFolderIsBack(target.history, target.codec, id, old(disk.nodes), disk.nodes, root, stamp)
      ensures row.status == Completed && connected && Retrievable(r, net) && FitsHere(target.codec, f, r.stream, old(disk.nodes), root, stamp) ==>
                row.restoreStatus == Restored
    {
      if row.status != Completed || !connected {
        return;
      }
      if FitsHere(target.codec, f, r.stream, disk.nodes, root, stamp) {
        FittingIsUnpackable(target.codec, f, r.stream, disk.nodes, root, stamp);
      }
      row := row.(restoreStatus := Restoring);
      var ok := TryRestore(target, peer, disk, net, root, stamp, r);
      row := row.(restoreStatus := if ok then Restored else RestoreFailed);
      if ok && OwnerStore.Lawful(target.codec) && OwnerStore.NoForgery(target.history, target.key) && Rooted(old(disk.nodes)) {
        RestoredIsOwnFolder(Answered(old(peer.State()), net(0), grantee, id).value.manifest, old(disk.nodes), disk.nodes,
                            target.key, target.codec, target.history, id, root, stamp);
      }
    }
  }

  /** stream is folder f encrypted, and f's place is free and has no ".." in the way. */
  ghost predicate FitsHere(codec: OwnerStore.Codec, f: OwnerStore.Image, stream: Bytes, before: Fs, root: Path, stamp: string) {
    && OwnerStore.Lawful(codec) && OwnerStore.Encrypts(codec, f, stream) && Rooted(before)
    && ClearWay(before, TargetFor(root, f.base, stamp)) && !HasDottedFolder(f.base, f.tree)
  }

  lemma FittingIsUnpackable(codec: OwnerStore.Codec, f: OwnerStore.Image, stream: Bytes, before: Fs, root: Path, stamp: string)
    requires FitsHere(codec, f, stream, before, root, stamp)
    ensures OwnerStore.Unpackable(codec, stream, before, root, stamp)
  {
    OwnerStore.OwnStreamComesBack(codec, f, stream, before, root, stamp);
    var after :| OwnerStore.UnpacksTo(codec, stream, before, after, root, stamp);
  }

  /** What the peer answers when asked for the manifest. */
  ghost function Answered(st: PeerState, c: Circumstance, g: string, id: string): Result<ManifestReply, Error> {
    GetManifest(Run(st, c.others), c.now, c.fetch, g, id).1
  }

  /** The target's directory for id was begun with sm and holds only chunks m lists. */
  ghost predicate Receiving(dirs: OwnerStore.Restores, id: string, sm: SignedManifest, m: Manifest) {
    && id in dirs && dirs[id].manifest == sm && m.backupId == id
    && forall k :: k in dirs[id].chunks ==> 0 <= k < |m.chunkHashes| && m.chunkHashes[k] == Sha256Hex(dirs[id].chunks[k])
  }

  /** sm is signed with key, for id; the stream of exactly the chunks it lists was
    * received (the history so far shows it), decrypted, and its archive unpacked. */
  ghost predicate RestoredFrom(sm: SignedManifest, before: Fs, after: Fs, key: SigningKey, codec: OwnerStore.Codec,
                               hs: seq<OwnerStore.Happening>, id: string, root: Path, stamp: string)
  {
    exists m: Manifest, stream, n: nat ::
      && VerifyManifest(sm, [key.Public()]) == Success(m) && m.backupId == id && StreamOf(m, stream)
      && n <= |hs| && OwnerStore.Delivers(OwnerStore.Replay(key, hs[..n]), key, id, stream)
      && OwnerStore.UnpacksTo(codec, stream, before, after, root, stamp)
  }

  /** after is before plus one folder, exactly as this identity once archived,
    * encrypted and signed it under id. */
  ghost predicate OwnFolderIsBack(hs: seq<OwnerStore.Happening>, codec: OwnerStore.Codec, id: string, before: Fs, after: Fs,
                                  root: Path, stamp: string)
  {
    exists f: OwnerStore.Image, k ::
      && 0 <= k < |hs| && hs[k].Signed? && hs[k].id == id && OwnerStore.Encrypts(codec, f, hs[k].stream)
      && ClearWay(before, TargetFor(root, f.base, stamp)) && OwnerStore.FolderIsBack(before, after, f, root, stamp)
  }

  lemma PastIsFine(hs: seq<OwnerStore.Happening>, n: nat, key: SigningKey, codec: OwnerStore.Codec)
    requires n <= |hs| && OwnerStore.NoForgery(hs, key) && OwnerStore.SignsFolders(codec, hs)
    ensures OwnerStore.NoForgery(hs[..n], key) && OwnerStore.SignsFolders(codec, hs[..n])
  {
    var past := hs[..n];
    assert forall k :: 0 <= k < |past| ==> past[k] == hs[k] && past[..k] == hs[..k];
  }

  lemma RestoredIsOwnFolder(sm: SignedManifest, before: Fs, after: Fs, key: SigningKey, codec: OwnerStore.Codec,
                            hs: seq<OwnerStore.Happening>, id: string, root: Path, stamp: string)
    requires RestoredFrom(sm, before, after, key, codec, hs, id, root, stamp)
    requires OwnerStore.Lawful(codec) && OwnerStore.NoForgery(hs, key) && OwnerStore.SignsFolders(codec, hs) && Rooted(before)
    ensures OwnFolderIsBack(hs, codec, id, before, after, root, stamp)
  {
    var m: Manifest, stream, n: nat :|
      && VerifyManifest(sm, [key.Public()]) == Success(m) && m.backupId == id && StreamOf(m, stream)
      && n <= |hs| && OwnerStore.Delivers(OwnerStore.Replay(key, hs[..n]), key, id, stream)
      && OwnerStore.UnpacksTo(codec, stream, before, after, root, stamp);
    var past := hs[..n];
    PastIsFine(hs, n, key, codec);
    var f, k := OwnerStore.RestoreGivesTheFolderBack(past, key, codec, id, stream, before, root, stamp);
    assert hs[k] == past[k];
  }

  /** stream is made of exactly the chunks m lists. */
  ghost predicate StreamOf(m: Manifest, stream: Bytes) {
    exists chunks: seq<Bytes> :: m.chunkHashes == Hashes(chunks) && stream == Flatten(chunks)
  }

  lemma DeliveredStream(dirs: OwnerStore.Restores, key: SigningKey, id: string, m: Manifest, stream: Bytes)
    requires OwnerStore.Checked(dirs, key, id) == Success(m) && OwnerStore.Delivers(dirs, key, id, stream)
    requires forall k :: k in dirs[id].chunks ==> 0 <= k < |m.chunkHashes| && m.chunkHashes[k] == Sha256Hex(dirs[id].chunks[k])
    ensures StreamOf(m, stream)
  {
    var chunks: seq<Bytes> := seq(|m.chunkHashes|, i requires 0 <= i < |m.chunkHashes| => dirs[id].chunks[i]);
    JoinedIsFlatten(dirs[id].chunks, chunks, 0);
    assert chunks[0..] == chunks;
    assert m.chunkHashes == Hashes(chunks);
  }

  /** A manifest's hashes leave only one possible stream. */
  lemma OneStreamPerManifest(m: Manifest, a: Bytes, b: Bytes)
    requires StreamOf(m, a) && StreamOf(m, b)
    ensures a == b
  {
    var x: seq<Bytes> :| m.chunkHashes == Hashes(x) && a == Flatten(x);
    var y: seq<Bytes> :| m.chunkHashes == Hashes(y) && b == Flatten(y);
    forall i | 0 <= i < |x|
      ensures x[i] == y[i]
    {
      assert Hashes(x)[i] == Hashes(y)[i];
    }
    assert x == y;
  }

  /** The first i chunks have been stored under m, and if those are all, the
    * backup is marked complete. */
  ghost predicate SentSoFar(st: PeerState, g: string, id: string, m: Manifest, sm: SignedManifest, i: int) {
    HasFirst(DirOf(ShelfOf(st, g), id), m, sm, i)
  }

  ghost predicate HasFirst(dir: BackupDir, m: Manifest, sm: SignedManifest, i: int) {
    && (i > 0 ==> dir.manifest == Some(sm))
    && (forall k :: 0 <= k < i ==> k in dir.chunks)
    && (i > 0 && i == |m.chunkHashes| ==> dir.complete)
  }

  lemma HasNext(before: BackupDir, after: BackupDir, q: WriteRequest, complete: bool, m: Manifest, sm: SignedManifest)
    requires ChunkWritten(before, after, q, complete) && HasFirst(before, m, sm, q.index)
    requires q.index == 0 ==> q.manifest == sm
    requires Decoded(sm) == Some(m)
    ensures HasFirst(after, m, sm, q.index + 1)
  {
  }

  lemma StillOneManifest(others: seq<Event>, canon: Canon, g: string, id: string, m: Manifest)
    requires forall i :: 0 <= i < |others| ==> OneManifest(others[i], canon) && Spares(others[i], g, id)
    ensures forall i :: 0 <= i < |others| ==> OneManifest(others[i], canon[(g, id) := m]) && Spares(others[i], g, id)
  {
  }

  lemma SendsOneManifest(c: Circumstance, canon: Canon, m: Manifest, sm: SignedManifest, q: WriteRequest)
    requires (q.grantee, q.backupId) in canon && canon[(q.grantee, q.backupId)] == m
    requires if q.index == 0 then q.manifest == sm else q.manifest.signature == Encoded(OtherBytes([]))
    requires Decoded(sm) == Some(m)
    ensures OneManifest(Event(c.now, c.fetch, DoWrite(q)), canon)
  {
  }

  lemma SendsNext(st: PeerState, c: Circumstance, canon: Canon, m: Manifest, sm: SignedManifest, q: WriteRequest,
                  st': PeerState, reply: WriteReply)
    requires Faithful(st, canon) && (q.grantee, q.backupId) in canon && canon[(q.grantee, q.backupId)] == m
    requires 0 <= q.index < |m.chunkHashes| && SentSoFar(st, q.grantee, q.backupId, m, sm, q.index)
    requires if q.index == 0 then q.manifest == sm else q.manifest.signature == Encoded(OtherBytes([]))
    requires Decoded(sm) == Some(m)
    requires (st', reply) == Write(st, c.now, c.fetch, q) && Stored(reply, q)
    ensures Faithful(st', canon) && SentSoFar(st', q.grantee, q.backupId, m, sm, q.index + 1)
  {
    var ev := Event(c.now, c.fetch, DoWrite(q));
    SendsOneManifest(c, canon, m, sm, q);
    StepKeepsFaithful(st, ev, canon);
    assert Step(st, ev) == st';
    StoredMeansWritten(st, c.now, c.fetch, q);
    HasNext(DirOf(ShelfOf(st, q.grantee), q.backupId), DirOf(ShelfOf(st', q.grantee), q.backupId), q, reply.complete, m, sm);
  }

  lemma AllSent(st: PeerState, canon: Canon, g: string, id: string, m: Manifest, key: SigningKey, stream: Bytes)
    requires Faithful(st, canon) && (g, id) in canon && canon[(g, id)] == m
    requires m.chunkHashes == Hashes(ChunksOf(stream)) && stream != []
    requires SentSoFar(st, g, id, m, SignManifest(m, key), |ChunksOf(stream)|)
    ensures HoldsStream(st, g, id, m, key, stream)
  {
    var dir := DirOf(ShelfOf(st, g), id);
    assert g in st.stored && id in st.stored[g];
    forall i | 0 <= i < |ChunksOf(stream)|
      ensures i in dir.chunks && dir.chunks[i] == ChunksOf(stream)[i]
    {
      assert m.chunkHashes[i] == Hashes(ChunksOf(stream))[i];
    }
  }
}
