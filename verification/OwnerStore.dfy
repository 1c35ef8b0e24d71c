/** The backup owner's side: prepare, stage, restore and unpack
  * (agent/internal/backup/owner.go). */
module OwnerStore {
  import opened Prelude
  import opened Manifests
  import opened ChunkStream
  import opened Archive
  import opened ArchiveRoundTrip
  import PeerStore

  type Time = PeerStore.Time

  /** 2 << 30 */
  const MAX_BACKUP_BYTES: int := 2147483648

  datatype Error = InvalidId | TooLarge | AlreadyPreparing | NotPreparing | NotStaged | DifferentKey | OtherBackup
    | NotStarted | OutOfRange | NotEncoded | ChunkMismatch | NotArrived(index: int) | Undecryptable | Unpacking(error: ExtractError)

  /** This identity's age key pair and the tar format, as functions. */
  datatype Codec = Codec(
    seal: (Bytes, nat) -> Bytes,
    open: Bytes -> Option<Bytes>,
    pack: seq<Entry> -> Bytes,
    unpack: Bytes -> (seq<Entry>, bool))

  /** An encrypted stream starts with a header, so it is never empty. */
  ghost predicate Headed(c: Codec) {
    forall plain, nonce :: c.seal(plain, nonce) != []
  }

  /** Decrypting undoes encrypting, and reading an archive undoes writing it. */
  ghost predicate Lawful(c: Codec) {
    && Headed(c)
    && (forall plain, nonce :: c.open(c.seal(plain, nonce)) == Some(plain))
    && (forall entries :: c.unpack(c.pack(entries)) == (entries, true))
  }

  /** A folder as writeTar walks it. */
  datatype Image = Image(base: string, tree: Tree, walk: seq<Path>)

  ghost predicate IsImage(f: Image) {
    ValidName(f.base) && WellFormed(f.tree) && IsWalk(f.tree, f.walk)
  }

  /** f archived and encrypted. */
  ghost predicate Encrypts(c: Codec, f: Image, stream: Bytes) {
    IsImage(f) && exists nonce :: stream == c.seal(c.pack(WriteTar(f.base, f.tree, f.walk)), nonce)
  }

  function ManifestFor(id: string, now: Time, stream: Bytes, key: SigningKey): Manifest {
    Manifest(1, id, now, |stream|, Hashes(ChunksOf(stream)), key.Public())
  }

  // ---- Restoring, as functions of what has been received -----------------------

  datatype RestoreDir = RestoreDir(manifest: SignedManifest, chunks: map<int, Bytes>)

  type Restores = map<string, RestoreDir>

  function Begin(dirs: Restores, key: SigningKey, id: string, sm: SignedManifest): (Restores, Result<(), Error>) {
    if !PeerStore.ValidId(id) then (dirs, Failure(InvalidId))
    else
      var v := VerifyManifest(sm, [key.Public()]);
      if v.Failure? then (dirs, Failure(DifferentKey))
      else if v.value.backupId != id then (dirs, Failure(OtherBackup))
      else (dirs[id := RestoreDir(sm, map[])], Success(()))
  }

  function Checked(dirs: Restores, key: SigningKey, id: string): Result<Manifest, Error> {
    if !PeerStore.ValidId(id) then Failure(InvalidId)
    else if id !in dirs then Failure(NotStarted)
    else
      var v := VerifyManifest(dirs[id].manifest, [key.Public()]);
      if v.Failure? then Failure(DifferentKey) else Success(v.value)
  }

  function Receive(dirs: Restores, key: SigningKey, id: string, index: int, content: Base64<Bytes>): (Restores, Result<(), Error>) {
    var m := Checked(dirs, key, id);
    if m.Failure? then (dirs, Failure(m.error))
    else if index < 0 || index >= |m.value.chunkHashes| then (dirs, Failure(OutOfRange))
    else if content.NotBase64? then (dirs, Failure(NotEncoded))
    else if Sha256Hex(content.value) != m.value.chunkHashes[index] then (dirs, Failure(ChunkMismatch))
    else (dirs[id := dirs[id].(chunks := dirs[id].chunks[index := content.value])], Success(()))
  }

  predicate Arrived(chunks: map<int, Bytes>, count: int) {
    forall i :: 0 <= i < count ==> i in chunks
  }

  /** The ciphertext Unpack hands to the decrypter, when every chunk is there. */
  ghost predicate Delivers(dirs: Restores, key: SigningKey, id: string, stream: Bytes) {
    var m := Checked(dirs, key, id);
    m.Success? && Arrived(dirs[id].chunks, |m.value.chunkHashes|)
    && stream == Joined(dirs[id].chunks, 0, |m.value.chunkHashes|)
  }

  /** Exactly a manifest this identity signed for this very backup begins a restore,
    * afresh; whatever is refused changes nothing. */
  lemma BeginsIff(dirs: Restores, key: SigningKey, id: string, sm: SignedManifest)
    ensures var (after, r) := Begin(dirs, key, id, sm);
            && (r.Success? <==> PeerStore.ValidId(id) && exists m :: SelfSigned(sm, m) && m.signingKey == key.Public() && m.backupId == id)
            && (r.Success? ==> after == dirs[id := RestoreDir(sm, map[])])
            && (r.Failure? ==> after == dirs)
            && (PeerStore.ValidId(id) && (forall m :: SelfSigned(sm, m) ==> m.signingKey != key.Public()) ==> r == Failure(DifferentKey))
            && (PeerStore.ValidId(id) ==>
                  forall m :: SelfSigned(sm, m) && m.signingKey == key.Public() && m.backupId != id ==> r == Failure(OtherBackup))
  {
  }

  /** A chunk is kept exactly when the manifest the restore began with is this
    * identity's and lists it at that index, and only that chunk changes. */
  lemma ReceivesIff(dirs: Restores, key: SigningKey, id: string, index: int, content: Base64<Bytes>)
    ensures var (after, r) := Receive(dirs, key, id, index, content);
            && (r.Success? <==>
                  && PeerStore.ValidId(id) && id in dirs && content.Encoded?
                  && exists m :: SelfSigned(dirs[id].manifest, m) && m.signingKey == key.Public()
                       && 0 <= index < |m.chunkHashes| && m.chunkHashes[index] == Sha256Hex(content.value))
            && (r.Success? ==>
                  && after.Keys == dirs.Keys && (forall i :: i in dirs && i != id ==> after[i] == dirs[i])
                  && after[id].manifest == dirs[id].manifest && after[id].chunks == dirs[id].chunks[index := content.value])
            && (r.Failure? ==> after == dirs)
  {
  }

  // ---- What happens to one identity ------------------------------------------

  /** What can happen to an identity's restore area, and what it signs. */
  datatype Happening =
    | Signed(id: string, stream: Bytes, now: Time)
    | Began(id: string, sm: SignedManifest)
    | Received(id: string, index: int, content: Base64<Bytes>)
    | Dropped(id: string)

  function After(dirs: Restores, key: SigningKey, h: Happening): Restores {
    match h
    case Signed(_, _, _) => dirs
    case Began(id, sm) => Begin(dirs, key, id, sm).0
    case Received(id, index, content) => Receive(dirs, key, id, index, content).0
    case Dropped(id) => dirs - {id}
  }

  function Replay(key: SigningKey, hs: seq<Happening>): Restores {
    if hs == [] then map[] else After(Replay(key, hs[..|hs| - 1]), key, hs[|hs| - 1])
  }

  /** Everything this identity ever signed is an encrypted folder. */
  ghost predicate SignsFolders(c: Codec, hs: seq<Happening>) {
    forall k :: 0 <= k < |hs| && hs[k].Signed? ==> exists f :: Encrypts(c, f, hs[k].stream)
  }

  // ---- The daemon ---------------------------------------------------------------

  datatype Job =
    | Preparing
    | Ready(manifest: SignedManifest, total: int, chunkCount: nat)
    | FailedJob

  /** The job's manifest describes stream, was signed here and counts its chunks,
    * of which there is at least one. */
  ghost predicate Describes(job: Job, key: SigningKey, signed: set<Happening>, id: string, stream: Bytes) {
    && job.Ready? && stream != []
    && (exists now :: job.manifest == SignManifest(ManifestFor(id, now, stream, key), key) && Signed(id, stream, now) in signed)
    && job.total == |stream| && job.chunkCount == |ChunksOf(stream)|
  }

  lemma DescribesOwn(job: Job, key: SigningKey, signed: set<Happening>, id: string, stream: Bytes, now: Time)
    requires job == Ready(SignManifest(ManifestFor(id, now, stream, key), key), |stream|, |ChunksOf(stream)|) && stream != []
    ensures Describes(job, key, signed + {Signed(id, stream, now)}, id, stream)
  {
    assert Signed(id, stream, now) in signed + {Signed(id, stream, now)};
  }

  /** The staged files hold stream, chunk by chunk. */
  ghost predicate Stages(staging: map<string, map<int, Bytes>>, id: string, stream: Bytes) {
    id in staging && forall i :: 0 <= i < |ChunksOf(stream)| ==> i in staging[id] && staging[id][i] == ChunksOf(stream)[i]
  }

  /** The fields that concern preparing, and for each ready job its stream. */
  datatype Book = Book(
    staging: map<string, map<int, Bytes>>, prepares: map<string, nat>, jobs: seq<Job>, jobIds: seq<string>,
    streams: seq<Bytes>, signed: set<Happening>)

  /** id's job is the only one ever started for it. */
  ghost predicate OnlyJob(b: Book, id: string) {
    id in b.prepares && b.prepares[id] < |b.jobs| && forall j :: 0 <= j < |b.jobIds| && b.jobIds[j] == id ==> j == b.prepares[id]
  }

  ghost predicate Lined(b: Book) {
    |b.streams| == |b.jobs| == |b.jobIds|
    && (forall id :: id in b.prepares ==> b.prepares[id] < |b.jobs| && b.jobIds[b.prepares[id]] == id && PeerStore.ValidId(id))
  }

  /** Ready jobs describe their streams, and the only job of an id has its stream staged. */
  ghost predicate BookRight(b: Book, key: SigningKey) {
    && Lined(b)
    && (forall j :: 0 <= j < |b.jobs| && b.jobs[j].Ready? ==> Describes(b.jobs[j], key, b.signed, b.jobIds[j], b.streams[j]))
    && (forall id :: OnlyJob(b, id) && b.jobs[b.prepares[id]].Ready? ==> Stages(b.staging, id, b.streams[b.prepares[id]]))
  }

  lemma StartedRight(b: Book, key: SigningKey, id: string)
    requires BookRight(b, key) && PeerStore.ValidId(id)
    ensures BookRight(b.(prepares := b.prepares[id := |b.jobs|], jobs := b.jobs + [Preparing], jobIds := b.jobIds + [id],
                         streams := b.streams + [[]]), key)
  {
    var after := b.(prepares := b.prepares[id := |b.jobs|], jobs := b.jobs + [Preparing], jobIds := b.jobIds + [id],
                    streams := b.streams + [[]]);
    forall x | OnlyJob(after, x) && x != id ensures OnlyJob(b, x) {
      assert forall j :: 0 <= j < |b.jobIds| ==> after.jobIds[j] == b.jobIds[j];
    }
  }

  lemma FailedRight(b: Book, key: SigningKey, job: nat)
    requires BookRight(b, key) && job < |b.jobs|
    ensures BookRight(b.(jobs := b.jobs[job := FailedJob], staging := b.staging - {b.jobIds[job]}), key)
  {
    var after := b.(jobs := b.jobs[job := FailedJob], staging := b.staging - {b.jobIds[job]});
    forall x | OnlyJob(after, x) ensures OnlyJob(b, x) && (x == b.jobIds[job] ==> after.prepares[x] == job) {
    }
  }

  lemma ReadyDescribes(b: Book, key: SigningKey, job: nat, out: Job, stream: Bytes, h: Happening)
    requires BookRight(b, key) && job < |b.jobs| && Describes(out, key, b.signed + {h}, b.jobIds[job], stream)
    ensures forall j :: 0 <= j < |b.jobs| && b.jobs[job := out][j].Ready? ==>
              Describes(b.jobs[job := out][j], key, b.signed + {h}, b.jobIds[j], b.streams[job := stream][j])
  {
    forall j | 0 <= j < |b.jobs| && j != job && b.jobs[j].Ready?
      ensures Describes(b.jobs[j], key, b.signed + {h}, b.jobIds[j], b.streams[j])
    {
      assert Describes(b.jobs[j], key, b.signed, b.jobIds[j], b.streams[j]);
    }
  }

  lemma ReadyRight(b: Book, key: SigningKey, job: nat, out: Job, stream: Bytes, h: Happening, staging: map<string, map<int, Bytes>>)
    requires BookRight(b, key) && job < |b.jobs|
    requires Describes(out, key, b.signed + {h}, b.jobIds[job], stream)
    requires var id := b.jobIds[job]; id in staging && staging == b.staging[id := staging[id]] && Stages(staging, id, stream)
    ensures BookRight(b.(jobs := b.jobs[job := out], streams := b.streams[job := stream], signed := b.signed + {h}, staging := staging), key)
  {
    var after := b.(jobs := b.jobs[job := out], streams := b.streams[job := stream], signed := b.signed + {h}, staging := staging);
    ReadyDescribes(b, key, job, out, stream, h);
    forall x | OnlyJob(after, x) && after.jobs[after.prepares[x]].Ready?
      ensures Stages(after.staging, x, after.streams[after.prepares[x]])
    {
      assert OnlyJob(b, x);
      if x == b.jobIds[job] {
        assert after.prepares[x] == job;
      }
    }
  }

  lemma CleanedRight(b: Book, key: SigningKey, id: string)
    requires BookRight(b, key)
    ensures BookRight(b.(prepares := b.prepares - {id}, staging := b.staging - {id}), key)
  {
    var after := b.(prepares := b.prepares - {id}, staging := b.staging - {id});
    forall x | OnlyJob(after, x) ensures OnlyJob(b, x) && x != id {
    }
  }

  class Daemon {
    const key: SigningKey
    const codec: Codec
    /** Chunk files waiting to be sent, by backup id. */
    var staging: map<string, map<int, Bytes>>
    /** Which job an id's status refers to; a finished job keeps its state even
      * when the id has been cleaned up or taken again. */
    var prepares: map<string, nat>
    var jobs: seq<Job>
    /** The id each job was started for. */
    var jobIds: seq<string>
    var restores: Restores
    /** For each job that is ready, the stream it encrypted. */
    ghost var streams: seq<Bytes>
    /** Everything signed so far. */
    ghost var signed: set<Happening>
    /** Everything that happened to the restore area, and everything signed. */
    ghost var history: seq<Happening>

    ghost predicate Valid()
      reads this
    {
      JobsValid() && HistoryValid()
    }

    ghost function Jobs(): Book
      reads `staging, `prepares, `jobs, `jobIds, `streams, `signed
    {
      Book(staging, prepares, jobs, jobIds, streams, signed)
    }

    ghost predicate JobsValid()
      reads `staging, `prepares, `jobs, `jobIds, `streams, `signed
    {
      Headed(codec) && BookRight(Jobs(), key)
    }

    ghost predicate HistoryValid()
      reads `restores, `history, `signed
    {
      && restores == Replay(key, history) && SignsFolders(codec, history)
      && forall h :: h in signed ==> h in history
    }

    constructor (key: SigningKey, codec: Codec)
      requires Headed(codec)
      ensures Valid() && restores == map[] && prepares == map[] && staging == map[] && jobs == [] && jobIds == [] && history == []
      ensures this.key == key && this.codec == codec
    {
      this.key, this.codec := key, codec;
      staging, prepares, jobs, jobIds, restores, streams, signed, history := map[], map[], [], [], map[], [], {}, [];
    }

    /** Takes the id; the encryption itself finishes later (see FinishJob). */
    method Prepare(id: string, plaintextSize: nat) returns (r: Result<nat, Error>)
      requires Valid()
      modifies this
      ensures Valid() && staging == old(staging) && restores == old(restores) && history == old(history)
      ensures r.Success? <==> PeerStore.ValidId(id) && plaintextSize <= MAX_BACKUP_BYTES && id !in old(prepares)
      ensures r.Success? ==> r.value == |old(jobs)| && jobs == old(jobs) + [Preparing]
                             && prepares == old(prepares)[id := r.value] && jobIds == old(jobIds) + [id]
      ensures r.Failure? ==> jobs == old(jobs) && prepares == old(prepares) && jobIds == old(jobIds)
    {
      if !PeerStore.ValidId(id) {
        return Failure(InvalidId);
      }
      if plaintextSize > MAX_BACKUP_BYTES {
        return Failure(TooLarge);
      }
      if id in prepares {
        return Failure(AlreadyPreparing);
      }
      StartedRight(Jobs(), key, id);
      r := Success(|jobs|);
      prepares := prepares[id := |jobs|];
      jobs := jobs + [Preparing];
      jobIds := jobIds + [id];
      streams := streams + [[]];
    }

    /** Archive, encrypt, cut, sign. The writer receives the ciphertext in
      * whatever pieces the encrypter produces. */
    method EncryptToChunks(id: string, f: Image, nonce: nat, now: Time, readable: bool, room: nat -> bool) returns (out: Option<Job>)
      requires IsImage(f)
      modifies `staging
      ensures readable && RoomForAll(room) ==> out.Some?
      ensures !readable ==> out.None?
      ensures var stream := codec.seal(codec.pack(WriteTar(f.base, f.tree, f.walk)), nonce);
              if out.None? then staging == old(staging)
              else
                && out.value == Ready(SignManifest(ManifestFor(id, now, stream, key), key), |stream|, |ChunksOf(stream)|)
                && id in staging && staging == old(staging)[id := staging[id]] && Stages(staging, id, stream)
    {
      var existing := if id in staging then staging[id] else map[];
      var writer := new ChunkWriter(existing, room);
      var stream := codec.seal(codec.pack(WriteTar(f.base, f.tree, f.walk)), nonce);
      assert Flatten([stream]) == stream by {
        FlattenOne(stream);
      }
      var pieces: seq<Bytes> :| Flatten(pieces) == stream;
      var ok := writer.WriteAll(pieces);
      if !readable || !ok {
        return None;
      }
      var m := Manifest(1, id, now, writer.total, writer.hashes, key.Public());
      assert m == ManifestFor(id, now, stream, key);
      staging := staging[id := writer.dir];
      out := Some(Ready(SignManifest(m, key), writer.total, |writer.hashes|));
    }

    /** The background half of Prepare; it fails only if the folder cannot be read
      * or the disk does not take a chunk. */
    method FinishJob(job: nat, f: Image, nonce: nat, now: Time, readable: bool, room: nat -> bool)
      requires Valid() && job < |jobs| && jobs[job] == Preparing && IsImage(f)
      modifies this
      ensures Valid() && restores == old(restores) && prepares == old(prepares) && jobIds == old(jobIds)
      ensures |jobs| == |old(jobs)| && forall j :: 0 <= j < |jobs| && j != job ==> jobs[j] == old(jobs)[j]
      ensures readable && RoomForAll(room) ==> jobs[job].Ready?
      ensures !readable ==> jobs[job].FailedJob?
      ensures jobs[job].Ready? ||
              (jobs[job].FailedJob? && staging == old(staging) - {jobIds[job]} && history == old(history))
      ensures jobs[job].Ready? ==>
                var stream, id := codec.seal(codec.pack(WriteTar(f.base, f.tree, f.walk)), nonce), jobIds[job];
                && jobs[job].manifest == SignManifest(ManifestFor(id, now, stream, key), key)
                && history == old(history) + [Signed(id, stream, now)]
                && id in staging && staging == old(staging)[id := staging[id]] && Stages(staging, id, stream)
    {
      var id := jobIds[job];
      ghost var before := Jobs();
      var out := EncryptToChunks(id, f, nonce, now, readable, room);
      if out.None? {
        MarkFailed(job);
        return;
      }
      MarkReady(job, out.value, f, nonce, now, before);
    }

    /** Gives the job up, and what it staged. */
    method MarkFailed(job: nat)
      requires Valid() && job < |jobs|
      modifies `jobs, `staging
      ensures Valid() && jobs == old(jobs)[job := FailedJob] && staging == old(staging) - {jobIds[job]}
    {
      FailedRight(Jobs(), key, job);
      jobs := jobs[job := FailedJob];
      staging := staging - {jobIds[job]};
    }

    method MarkReady(job: nat, out: Job, f: Image, nonce: nat, now: Time, ghost before: Book)
      requires Headed(codec) && HistoryValid() && IsImage(f) && BookRight(before, key) && job < |before.jobs|
      requires var stream, id := codec.seal(codec.pack(WriteTar(f.base, f.tree, f.walk)), nonce), before.jobIds[job];
               && out == Ready(SignManifest(ManifestFor(id, now, stream, key), key), |stream|, |ChunksOf(stream)|)
               && id in staging && staging == before.staging[id := staging[id]] && Stages(staging, id, stream)
               && Jobs() == before.(staging := staging)
      modifies `jobs, `streams, `signed, `history
      ensures Valid()
      ensures jobs == before.jobs[job := out]
      ensures history == old(history) + [Signed(jobIds[job], codec.seal(codec.pack(WriteTar(f.base, f.tree, f.walk)), nonce), now)]
    {
      var id := jobIds[job];
      ghost var stream := codec.seal(codec.pack(WriteTar(f.base, f.tree, f.walk)), nonce);
      DescribesOwn(out, key, before.signed, id, stream, now);
      ReadyRight(before, key, job, out, stream, Signed(id, stream, now), staging);
      jobs := jobs[job := out];
      streams := streams[job := stream];
      Note(id, f, nonce, now);
    }

    /** Records what was signed. */
    ghost method Note(id: string, f: Image, nonce: nat, now: Time)
      requires HistoryValid() && IsImage(f)
      modifies `signed, `history
      ensures HistoryValid()
      ensures var h := Signed(id, codec.seal(codec.pack(WriteTar(f.base, f.tree, f.walk)), nonce), now);
              signed == old(signed) + {h} && history == old(history) + [h]
    {
      ghost var h := Signed(id, codec.seal(codec.pack(WriteTar(f.base, f.tree, f.walk)), nonce), now);
      SigningKeeps(key, codec, history, id, f, nonce, now);
      signed := signed + {h};
      history := history + [h];
    }

    method PrepareStatus(id: string) returns (r: Result<Job, Error>)
      requires Valid()
      ensures r == if id in prepares then Success(jobs[prepares[id]]) else Failure(NotPreparing)
      ensures r.Success? && r.value.Ready? ==> exists stream :: Describes(r.value, key, signed, id, stream)
    {
      if id !in prepares {
        return Failure(NotPreparing);
      }
      r := Success(jobs[prepares[id]]);
    }

    /** While a backup's one job is ready, its reads are the chunks of the very
      * stream its manifest describes. */
    method ReadChunk(id: string, index: int) returns (r: Result<Base64<Bytes>, Error>)
      requires Valid()
      ensures forall stream :: OnlyJob(Jobs(), id) && Describes(jobs[prepares[id]], key, signed, id, stream) && 0 <= index < |ChunksOf(stream)| ==>
                r == Success(Encoded(ChunksOf(stream)[index]))
      ensures r.Success? ==> id in staging && index in staging[id] && r.value == Encoded(staging[id][index])
      ensures r.Failure? ==> id !in staging || index !in staging[id] || !PeerStore.ValidId(id)
    {
      forall stream | OnlyJob(Jobs(), id) && Describes(jobs[prepares[id]], key, signed, id, stream)
        ensures ChunksOf(stream) == ChunksOf(streams[prepares[id]])
      {
        SameManifestSameStream(jobs[prepares[id]], key, signed, id, stream, streams[prepares[id]]);
      }
      if !PeerStore.ValidId(id) {
        return Failure(InvalidId);
      }
      if id !in staging || index !in staging[id] {
        return Failure(NotStaged);
      }
      r := Success(Encoded(staging[id][index]));
    }

    method Cleanup(id: string) returns (r: Result<(), Error>)
      requires Valid()
      modifies this`prepares, this`staging
      ensures Valid()
      ensures PeerStore.ValidId(id) ==> prepares == old(prepares) - {id} && staging == old(staging) - {id} && r.Success?
      ensures !PeerStore.ValidId(id) ==> prepares == old(prepares) && staging == old(staging) && r == Failure(InvalidId)
    {
      if !PeerStore.ValidId(id) {
        return Failure(InvalidId);
      }
      CleanedRight(Jobs(), key, id);
      prepares := prepares - {id};
      staging := staging - {id};
      r := Success(());
    }

    /** Any earlier restore of the same id is wiped first. */
    method RestoreBegin(id: string, sm: SignedManifest) returns (r: Result<(), Error>)
      requires Valid()
      modifies this`restores, this`history
      ensures Valid() && history == old(history) + [Began(id, sm)]
      ensures (restores, r) == Begin(old(restores), key, id, sm)
    {
      HappensNext(key, codec, history, Began(id, sm));
      history := history + [Began(id, sm)];
      if !PeerStore.ValidId(id) {
        return Failure(InvalidId);
      }
      var v := VerifyManifest(sm, [key.Public()]);
      if v.Failure? {
        return Failure(DifferentKey);
      }
      if v.value.backupId != id {
        return Failure(OtherBackup);
      }
      restores := restores - {id};
      restores := restores[id := RestoreDir(sm, map[])];
      assert restores == old(restores)[id := RestoreDir(sm, map[])];
      r := Success(());
    }

    method RestoreChunk(id: string, index: int, content: Base64<Bytes>) returns (r: Result<(), Error>)
      requires Valid()
      modifies this`restores, this`history
      ensures Valid() && history == old(history) + [Received(id, index, content)]
      ensures (restores, r) == Receive(old(restores), key, id, index, content)
    {
      HappensNext(key, codec, history, Received(id, index, content));
      history := history + [Received(id, index, content)];
      var m := Checked(restores, key, id);
      if m.Failure? {
        return Failure(m.error);
      }
      if index < 0 || index >= |m.value.chunkHashes| {
        return Failure(OutOfRange);
      }
      if content.NotBase64? {
        return Failure(NotEncoded);
      }
      if Sha256Hex(content.value) != m.value.chunkHashes[index] {
        return Failure(ChunkMismatch);
      }
      var dir := restores[id];
      restores := restores[id := dir.(chunks := dir.chunks[index := content.value])];
      r := Success(());
    }

    method FirstMissing(dir: map<int, Bytes>, count: nat) returns (missing: Option<int>)
      ensures missing.None? <==> Arrived(dir, count)
      ensures missing.Some? ==> 0 <= missing.value < count && missing.value !in dir && Arrived(dir, missing.value)
    {
      for i := 0 to count
        invariant Arrived(dir, i)
      {
        if i !in dir {
          return Some(i);
        }
      }
      missing := None;
    }

    /** Decrypts and unpacks a fully received restore onto disk. */
    method Unpack(disk: Disk, id: string, root: Path, stamp: string) returns (r: Result<Path, Error>)
      requires Valid()
      modifies this`restores, this`history, disk
      ensures Valid()
      ensures r.Failure? ==> restores == old(restores) && history == old(history)
      ensures r.Success? ==> restores == old(restores) - {id} && history == old(history) + [Dropped(id)]
      ensures r.Success? ==>
                exists stream, plain ::
                  && Delivers(old(restores), key, id, stream) && codec.open(stream) == Some(plain)
                  && var (entries, intact) := codec.unpack(plain);
                  Placed(disk.nodes, Success(r.value)) == Extract(old(disk.nodes), None, entries, intact, root, stamp)
      ensures forall stream, plain :: Delivers(old(restores), key, id, stream) && codec.open(stream) == Some(plain) ==>
                var (entries, intact) := codec.unpack(plain);
                r.Success? <==> Extract(old(disk.nodes), None, entries, intact, root, stamp).target.Success?
    {
      var m := Checked(restores, key, id);
      if m.Failure? {
        return Failure(m.error);
      }
      var dir := restores[id].chunks;
      var count := |m.value.chunkHashes|;
      var missing := FirstMissing(dir, count);
      if missing.Some? {
        return Failure(NotArrived(missing.value));
      }
      var reader := new ChunkReader(dir, count);
      var stream := reader.Drain();
      assert Delivers(restores, key, id, stream.value);
      var plain := codec.open(stream.value);
      if plain.None? {
        return Failure(Undecryptable);
      }
      var (entries, intact) := codec.unpack(plain.value);
      var placed := disk.ExtractTar(entries, intact, root, stamp);
      if placed.Failure? {
        return Failure(Unpacking(placed.error));
      }
      Drop(id);
      r := Success(placed.value);
    }

    /** Removes a finished restore. */
    method Drop(id: string)
      requires HistoryValid()
      modifies this`restores, this`history
      ensures HistoryValid()
      ensures restores == old(restores) - {id} && history == old(history) + [Dropped(id)]
    {
      HappensNext(key, codec, history, Dropped(id));
      history := history + [Dropped(id)];
      restores := restores - {id};
    }
  }

  lemma HappensNext(key: SigningKey, codec: Codec, hs: seq<Happening>, h: Happening)
    requires SignsFolders(codec, hs) && !h.Signed?
    ensures Replay(key, hs + [h]) == After(Replay(key, hs), key, h) && SignsFolders(codec, hs + [h])
    ensures forall x :: x in hs ==> x in hs + [h]
  {
    assert (hs + [h])[..|hs|] == hs;
  }

  lemma SigningKeeps(key: SigningKey, codec: Codec, hs: seq<Happening>, id: string, f: Image, nonce: nat, now: Time)
    requires SignsFolders(codec, hs) && IsImage(f)
    ensures var signed := Signed(id, codec.seal(codec.pack(WriteTar(f.base, f.tree, f.walk)), nonce), now);
            Replay(key, hs + [signed]) == Replay(key, hs) && SignsFolders(codec, hs + [signed])
  {
    var signed := Signed(id, codec.seal(codec.pack(WriteTar(f.base, f.tree, f.walk)), nonce), now);
    assert (hs + [signed])[..|hs|] == hs;
    assert Encrypts(codec, f, signed.stream);
  }

  /** A manifest's hashes leave only one possible stream. */
  lemma SameManifestSameStream(job: Job, key: SigningKey, signed: set<Happening>, id: string, a: Bytes, b: Bytes)
    requires Describes(job, key, signed, id, a) && Describes(job, key, signed, id, b)
    ensures a == b
  {
    var x, y := ChunksOf(a), ChunksOf(b);
    assert Hashes(x) == Hashes(y);
    forall i | 0 <= i < |x| ensures x[i] == y[i] {
      assert Hashes(x)[i] == Hashes(y)[i];
    }
    assert x == y;
    ChunksRejoin(a);
    ChunksRejoin(b);
  }

  // ---- Restores are genuine -------------------------------------------------------

  /** Somewhere in hs this identity prepared stream under id and signed doc. */
  ghost predicate Prepared(hs: seq<Happening>, key: SigningKey, id: string, stream: Bytes, doc: Document) {
    exists k :: 0 <= k < |hs| && hs[k].Signed? && hs[k].id == id && hs[k].stream == stream
                && doc == Json(ManifestFor(id, hs[k].now, stream, key), 0)
  }

  /** Signatures cannot be forged: whoever delivers a manifest that verifies
    * under this key, this identity signed that document before. */
  ghost predicate NoForgery(hs: seq<Happening>, key: SigningKey) {
    forall k :: 0 <= k < |hs| && hs[k].Began? ==>
      forall doc :: hs[k].sm == SignedManifest(Encoded(doc), Encoded(Ed25519Signature(key.Public(), doc))) ==>
        exists id, stream :: Prepared(hs[..k], key, id, stream, doc)
  }

  /** dir's manifest was signed here for id over stream, and every chunk in
    * dir is the corresponding chunk of stream. */
  ghost predicate Backed(dir: RestoreDir, hs: seq<Happening>, key: SigningKey, id: string, stream: Bytes) {
    && dir.manifest.manifest.Encoded? && Prepared(hs, key, id, stream, dir.manifest.manifest.value)
    && FitsStream(dir, key, id, stream)
  }

  ghost predicate Genuine(dirs: Restores, hs: seq<Happening>, key: SigningKey) {
    forall id :: id in dirs ==> exists stream :: Backed(dirs[id], hs, key, id, stream)
  }

  ghost predicate FitsStream(dir: RestoreDir, key: SigningKey, id: string, stream: Bytes) {
    && (exists now :: Checked(map[id := dir], key, id) == Success(ManifestFor(id, now, stream, key)))
    && forall i :: i in dir.chunks ==> 0 <= i < |ChunksOf(stream)| && dir.chunks[i] == ChunksOf(stream)[i]
  }

  lemma PreparedStays(hs: seq<Happening>, h: Happening, key: SigningKey, id: string, stream: Bytes, doc: Document)
    requires Prepared(hs, key, id, stream, doc)
    ensures Prepared(hs + [h], key, id, stream, doc)
  {
    var k :| 0 <= k < |hs| && hs[k].Signed? && hs[k].id == id && hs[k].stream == stream
             && doc == Json(ManifestFor(id, hs[k].now, stream, key), 0);
    assert (hs + [h])[k] == hs[k];
  }

  lemma BeginGenuine(hs: seq<Happening>, key: SigningKey, dirs: Restores, id: string, sm: SignedManifest) returns (stream: Bytes)
    requires Begin(dirs, key, id, sm).1.Success?
    requires forall doc :: sm == SignedManifest(Encoded(doc), Encoded(Ed25519Signature(key.Public(), doc))) ==>
               exists id, stream :: Prepared(hs, key, id, stream, doc)
    ensures sm.manifest.Encoded? && Prepared(hs, key, id, stream, sm.manifest.value)
    ensures FitsStream(RestoreDir(sm, map[]), key, id, stream)
  {
    var doc := sm.manifest.value;
    assert sm == SignedManifest(Encoded(doc), Encoded(Ed25519Signature(key.Public(), doc)));
    var signedFor, s :| Prepared(hs, key, signedFor, s, doc);
    stream := s;
    var k :| 0 <= k < |hs| && hs[k].Signed? && hs[k].id == signedFor && hs[k].stream == s
             && doc == Json(ManifestFor(signedFor, hs[k].now, s, key), 0);
    assert signedFor == id;
    assert Checked(map[id := RestoreDir(sm, map[])], key, id) == Success(ManifestFor(id, hs[k].now, s, key));
  }

  lemma ReceiveStaysBacked(dirs: Restores, hs: seq<Happening>, key: SigningKey, h: Happening, id: string, stream: Bytes)
    requires id in dirs && Backed(dirs[id], hs, key, id, stream)
    requires !(h.Began? && h.id == id && Begin(dirs, key, id, h.sm).1.Success?)
    requires id in After(dirs, key, h)
    ensures Backed(After(dirs, key, h)[id], hs + [h], key, id, stream)
  {
    PreparedStays(hs, h, key, id, stream, dirs[id].manifest.manifest.value);
    var now :| Checked(map[id := dirs[id]], key, id) == Success(ManifestFor(id, now, stream, key));
    assert Checked(dirs, key, id) == Success(ManifestFor(id, now, stream, key));
    var next := After(dirs, key, h)[id];
    assert Checked(map[id := next], key, id) == Success(ManifestFor(id, now, stream, key));
  }

  lemma {:induction false} RestoresStayGenuine(hs: seq<Happening>, key: SigningKey)
    requires NoForgery(hs, key)
    ensures Genuine(Replay(key, hs), hs, key)
  {
    if hs != [] {
      var past, h := hs[..|hs| - 1], hs[|hs| - 1];
      assert hs == past + [h];
      assert forall k :: 0 <= k < |past| ==> past[k] == hs[k] && past[..k] == hs[..k];
      RestoresStayGenuine(past, key);
      var dirs := Replay(key, past);
      forall id | id in Replay(key, hs)
        ensures exists stream :: Backed(Replay(key, hs)[id], hs, key, id, stream)
      {
        GenuineNext(past, h, key, dirs, id);
      }
    }
  }

  lemma GenuineNext(past: seq<Happening>, h: Happening, key: SigningKey, dirs: Restores, id: string)
    requires Genuine(dirs, past, key) && id in After(dirs, key, h)
    requires h.Began? ==> forall doc :: h.sm == SignedManifest(Encoded(doc), Encoded(Ed25519Signature(key.Public(), doc))) ==>
               exists id, stream :: Prepared(past, key, id, stream, doc)
    ensures exists stream :: Backed(After(dirs, key, h)[id], past + [h], key, id, stream)
  {
    if h.Began? && h.id == id && Begin(dirs, key, id, h.sm).1.Success? {
      var stream := BeginGenuine(past, key, dirs, id, h.sm);
      PreparedStays(past, h, key, id, stream, h.sm.manifest.value);
      assert Backed(After(dirs, key, h)[id], past + [h], key, id, stream);
    } else {
      var stream :| Backed(dirs[id], past, key, id, stream);
      ReceiveStaysBacked(dirs, past, key, h, id, stream);
    }
  }

  /** However the manifest and chunks of a restore were delivered, altered,
    * repeated or replayed, a stream that Unpack gets to decrypt is exactly a
    * stream this identity once prepared under that very id. */
  lemma RestoredStreamIsGenuine(hs: seq<Happening>, key: SigningKey, id: string, stream: Bytes)
    requires NoForgery(hs, key)
    requires Delivers(Replay(key, hs), key, id, stream)
    ensures exists k :: 0 <= k < |hs| && hs[k].Signed? && hs[k].id == id && hs[k].stream == stream
  {
    RestoresStayGenuine(hs, key);
    var dirs := Replay(key, hs);
    var prepared :| Backed(dirs[id], hs, key, id, prepared);
    JoinedIsFlatten(dirs[id].chunks, ChunksOf(prepared), 0);
    assert ChunksOf(prepared)[0..] == ChunksOf(prepared);
    ChunksRejoin(prepared);
  }

  // ---- The folder comes back -------------------------------------------------------

  /** disk is before plus exactly folder f, under its own name and stamp. */
  ghost predicate FolderIsBack(before: Fs, disk: Fs, f: Image, root: Path, stamp: string) {
    Rebuilt(before, disk, TargetFor(root, f.base, stamp), f.tree, f.walk)
  }

  /** stream decrypts, and unpacking its archive makes after of before. */
  ghost predicate UnpacksTo(codec: Codec, stream: Bytes, before: Fs, after: Fs, root: Path, stamp: string) {
    codec.open(stream).Some? &&
    var (entries, intact) := codec.unpack(codec.open(stream).value);
    var out := Extract(before, None, entries, intact, root, stamp);
    out.target.Success? && after == out.fs
  }

  /** stream decrypts, and the archive inside can be unpacked here. */
  ghost predicate Unpackable(codec: Codec, stream: Bytes, before: Fs, root: Path, stamp: string) {
    codec.open(stream).Some? &&
    var (entries, intact) := codec.unpack(codec.open(stream).value);
    Extract(before, None, entries, intact, root, stamp).target.Success?
  }

  /** stream decrypts; unpacking it gives exactly f back whenever its place is free
    * and no folder name in it ends in "..", and fails otherwise. */
  ghost predicate ComesBack(codec: Codec, f: Image, stream: Bytes, before: Fs, root: Path, stamp: string) {
    && codec.open(stream).Some?
    && ((exists after :: UnpacksTo(codec, stream, before, after, root, stamp))
        <==> ClearWay(before, TargetFor(root, f.base, stamp)) && !HasDottedFolder(f.base, f.tree))
    && forall after :: UnpacksTo(codec, stream, before, after, root, stamp) ==> FolderIsBack(before, after, f, root, stamp)
  }

  lemma OwnStreamComesBack(codec: Codec, f: Image, stream: Bytes, before: Fs, root: Path, stamp: string)
    requires Lawful(codec) && Encrypts(codec, f, stream) && Rooted(before)
    ensures ComesBack(codec, f, stream, before, root, stamp)
  {
    var entries := WriteTar(f.base, f.tree, f.walk);
    var nonce :| stream == codec.seal(codec.pack(entries), nonce);
    UnpackRebuildsFolder(before, f.base, f.tree, f.walk, root, stamp);
    assert codec.open(stream) == Some(codec.pack(entries)) && codec.unpack(codec.pack(entries)) == (entries, true);
    var out := Extract(before, None, entries, true, root, stamp);
    if out.target.Success? {
      assert UnpacksTo(codec, stream, before, out.fs, root, stamp);
    }
  }

  /** Whatever a peer or the relay does to a restore's manifest and chunks, a
    * stream that gets decrypted is one of this identity's own folders prepared
    * under that id, and it comes back. */
  lemma RestoreGivesTheFolderBack(hs: seq<Happening>, key: SigningKey, codec: Codec, id: string, stream: Bytes,
                                  before: Fs, root: Path, stamp: string) returns (f: Image, k: nat)
    requires Lawful(codec) && NoForgery(hs, key) && SignsFolders(codec, hs) && Rooted(before)
    requires Delivers(Replay(key, hs), key, id, stream)
    ensures k < |hs| && hs[k].Signed? && hs[k].id == id && hs[k].stream == stream && Encrypts(codec, f, stream)
    ensures ComesBack(codec, f, stream, before, root, stamp)
  {
    RestoredStreamIsGenuine(hs, key, id, stream);
    k :| 0 <= k < |hs| && hs[k].Signed? && hs[k].id == id && hs[k].stream == stream;
    f :| Encrypts(codec, f, stream);
    OwnStreamComesBack(codec, f, stream, before, root, stamp);
  }
}
