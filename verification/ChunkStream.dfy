/** Splitting a ciphertext into chunk files and reading it back:
  * chunkWriter and chunkReader of agent/internal/backup/owner.go. */
module ChunkStream {
  import opened Prelude
  import opened Manifests

  /** 4 << 20 */
  const CHUNK_SIZE: nat := 4194304

  /** The reference chunking of a whole stream. */
  function ChunksOf(s: Bytes): seq<Bytes> {
    if s == [] then []
    else if |s| <= CHUNK_SIZE then [s]
    else [s[..CHUNK_SIZE]] + ChunksOf(s[CHUNK_SIZE..])
  }

  function Hashes(chunks: seq<Bytes>): (hs: seq<HashText>)
    ensures |hs| == |chunks|
    ensures forall i :: 0 <= i < |chunks| ==> hs[i] == Sha256Hex(chunks[i])
  {
    seq(|chunks|, i requires 0 <= i < |chunks| => Sha256Hex(chunks[i]))
  }

  ghost predicate AllFull(chunks: seq<Bytes>) {
    forall i :: 0 <= i < |chunks| ==> |chunks[i]| == CHUNK_SIZE
  }

  /** Every chunk but the last is full, and none is empty. */
  ghost predicate WellShaped(chunks: seq<Bytes>) {
    && (forall i :: 0 <= i < |chunks| - 1 ==> |chunks[i]| == CHUNK_SIZE)
    && (forall i :: 0 <= i < |chunks| ==> 0 < |chunks[i]| <= CHUNK_SIZE)
  }

  lemma {:induction false} ChunksRejoin(s: Bytes)
    ensures Flatten(ChunksOf(s)) == s && WellShaped(ChunksOf(s))
  {
    if s == [] {
    } else if |s| <= CHUNK_SIZE {
      FlattenOne(s);
    } else {
      ChunksRejoin(s[CHUNK_SIZE..]);
      assert s == s[..CHUNK_SIZE] + s[CHUNK_SIZE..];
      assert ChunksOf(s)[1..] == ChunksOf(s[CHUNK_SIZE..]);
    }
  }

  lemma {:induction false} ChunksOfWellShaped(chunks: seq<Bytes>)
    requires WellShaped(chunks)
    ensures ChunksOf(Flatten(chunks)) == chunks
  {
    if |chunks| == 1 {
      FlattenOne(chunks[0]);
      assert chunks == [chunks[0]];
    } else if |chunks| > 1 {
      ChunksOfWellShaped(chunks[1..]);
      assert |Flatten(chunks[1..])| >= |chunks[1]| > 0;
      assert Flatten(chunks)[CHUNK_SIZE..] == Flatten(chunks[1..]);
      assert chunks == [chunks[0]] + chunks[1..];
    }
  }

  /** ChunksOf is the one well-shaped way of cutting a stream up: the chunking
    * is a function of the concatenated bytes alone. */
  lemma ChunkingIsUnique(chunks: seq<Bytes>, s: Bytes)
    ensures WellShaped(chunks) && Flatten(chunks) == s <==> chunks == ChunksOf(s)
  {
    ChunksRejoin(s);
    if WellShaped(chunks) {
      ChunksOfWellShaped(chunks);
    }
  }

  /** The disk takes every chunk file. */
  ghost predicate RoomForAll(room: nat -> bool) {
    forall n :: room(n)
  }

  class ChunkWriter {
    /** Whether the disk takes each chunk file. */
    const room: nat -> bool
    /** The chunk files of the staging directory, by chunk number. */
    var dir: map<int, Bytes>
    var buf: Bytes
    var hashes: seq<HashText>
    var total: int
    /** What this writer has put into files so far. */
    ghost var chunks: seq<Bytes>

    /** hashes, total and the files all describe the same chunks. */
    ghost predicate Consistent()
      reads this
    {
      && hashes == Hashes(chunks)
      && total == |Flatten(chunks)|
      && forall i :: 0 <= i < |chunks| ==> i in dir && dir[i] == chunks[i]
    }

    ghost predicate Streaming()
      reads this
    {
      Consistent() && AllFull(chunks) && |buf| < CHUNK_SIZE
    }

    /** Everything written so far, flushed or not. */
    ghost function Stream(): Bytes
      reads this
    {
      Flatten(chunks) + buf
    }

    constructor (existing: map<int, Bytes>, room: nat -> bool)
      ensures Streaming() && Stream() == [] && dir == existing && this.room == room
    {
      this.room := room;
      dir, buf, hashes, total := existing, [], [], 0;
      chunks := [];
    }

    /** Writes the buffer out as the next chunk file; the disk may refuse. */
    method Flush() returns (ok: bool)
      requires Consistent()
      modifies this
      ensures ok <==> old(buf) == [] || room(|old(hashes)|)
      ensures Consistent() && (ok ==> buf == [])
      ensures ok ==> Stream() == old(Stream())
      ensures ok ==> chunks == old(chunks) + (if old(buf) == [] then [] else [old(buf)])
      ensures !ok ==> buf == old(buf) && chunks == old(chunks)
    {
      if buf == [] {
        return true;
      }
      ok := room(|hashes|);
      if !ok {
        return;
      }
      dir := dir[|hashes| := buf];
      hashes := hashes + [Sha256Hex(buf)];
      total := total + |buf|;
      FlattenAppend(chunks, [buf]);
      FlattenOne(buf);
      chunks := chunks + [buf];
      buf := [];
      assert hashes == Hashes(chunks);
    }

    method Write(data: Bytes) returns (ok: bool)
      requires Streaming()
      modifies this
      ensures Consistent()
      ensures RoomForAll(room) ==> ok
      ensures ok ==> Streaming() && Stream() == old(Stream()) + data
    {
      var p := data;
      while |p| > 0
        invariant Streaming()
        invariant Stream() + p == old(Stream()) + data
        decreases |p|
      {
        var room := CHUNK_SIZE - |buf|;
        var take := if room <= |p| then room else |p|;
        assert Stream() + p == Flatten(chunks) + (buf + p[..take]) + p[take..];
        buf := buf + p[..take];
        p := p[take..];
        if |buf| == CHUNK_SIZE {
          ok := Flush();
          if !ok {
            return;
          }
        }
      }
      assert p == [];
      ok := true;
    }

    /** The writer's whole life: any sequence of writes, then the last flush.
      * The files depend only on the concatenation of what was written. */
    method WriteAll(pieces: seq<Bytes>) returns (ok: bool)
      requires Streaming() && Stream() == []
      modifies this
      ensures RoomForAll(room) ==> ok
      ensures ok ==> chunks == ChunksOf(Flatten(pieces))
      ensures ok ==> hashes == Hashes(ChunksOf(Flatten(pieces))) && total == |Flatten(pieces)|
      ensures ok ==> forall i :: 0 <= i < |chunks| ==> i in dir && dir[i] == ChunksOf(Flatten(pieces))[i]
    {
      var k := 0;
      assert pieces[..0] == [];
      while k < |pieces|
        invariant 0 <= k <= |pieces|
        invariant Streaming() && Stream() == Flatten(pieces[..k])
      {
        ok := Write(pieces[k]);
        if !ok {
          return;
        }
        assert pieces[..k + 1] == pieces[..k] + [pieces[k]];
        FlattenAppend(pieces[..k], [pieces[k]]);
        FlattenOne(pieces[k]);
        k := k + 1;
      }
      assert pieces[..k] == pieces;
      ok := Flush();
      if ok {
        assert WellShaped(chunks);
        ChunkingIsUnique(chunks, Flatten(pieces));
        ChunksRejoin(Flatten(pieces));
      }
    }
  }

  datatype ReadResult = Data(bytes: Bytes) | Eof | Missing(index: int)

  /** Files from..upto of a directory, laid end to end. */
  ghost function Joined(dir: map<int, Bytes>, from: int, upto: int): Bytes
    requires forall i :: from <= i < upto ==> i in dir
    decreases upto - from
  {
    if from >= upto then [] else dir[from] + Joined(dir, from + 1, upto)
  }

  lemma {:induction false} JoinedIsFlatten(dir: map<int, Bytes>, chunks: seq<Bytes>, from: nat)
    requires from <= |chunks|
    requires forall i :: 0 <= i < |chunks| ==> i in dir && dir[i] == chunks[i]
    ensures Joined(dir, from, |chunks|) == Flatten(chunks[from..])
    decreases |chunks| - from
  {
    if from < |chunks| {
      JoinedIsFlatten(dir, chunks, from + 1);
      assert chunks[from..][1..] == chunks[from + 1..];
    }
  }

  class ChunkReader {
    const dir: map<int, Bytes>
    const count: int
    var next: int
    /** What is left of the file that is open now. */
    var cur: Option<Bytes>

    ghost predicate Complete() {
      forall i :: 0 <= i < count ==> i in dir
    }

    ghost predicate Valid()
      reads this
    {
      0 <= next && (next <= count || next == 0)
    }

    /** The bytes still to be delivered. */
    ghost function Rest(): Bytes
      requires Complete() && Valid()
      reads this
    {
      Left() + Joined(dir, next, count)
    }

    /** What is left of the open file. */
    ghost function Left(): Bytes
      reads this
    {
      if cur.Some? then cur.value else []
    }

    constructor (dir: map<int, Bytes>, count: int)
      ensures Valid() && this.dir == dir && this.count == count && next == 0 && cur == None
    {
      this.dir, this.count, next, cur := dir, count, 0, None;
    }

    /** Opens chunk file number next. */
    method OpenNext()
      requires Valid() && cur == None && next < count && next in dir
      modifies this
      ensures Valid() && next == old(next) + 1 && cur == Some(dir[old(next)])
      ensures Complete() ==> Rest() == old(Rest())
    {
      assert Complete() ==> Left() + Joined(dir, next, count) == Joined(dir, next, count);
      cur, next := Some(dir[next]), next + 1;
    }

    /** Takes n bytes from the open file. */
    method Take(n: nat) returns (bytes: Bytes)
      requires Valid() && cur.Some? && n <= |cur.value|
      modifies this
      ensures Valid() && next == old(next) && cur == Some(old(cur).value[n..]) && bytes == old(cur).value[..n]
      ensures Complete() ==> old(Rest()) == bytes + Rest()
    {
      bytes := cur.value[..n];
      assert Complete() ==> Rest() == bytes + (cur.value[n..] + Joined(dir, next, count));
      cur := Some(cur.value[n..]);
    }

    /** One Read into a buffer of the given size. The operating system may
      * hand over fewer bytes than asked for, but not none. */
    method Read(size: nat) returns (r: ReadResult)
      requires Valid()
      modifies this
      ensures Valid()
      ensures r.Missing? ==> 0 <= r.index < count && r.index !in dir
      ensures Complete() && r.Data? ==> old(Rest()) == r.bytes + Rest()
      ensures r.Data? ==> |r.bytes| <= size && (size > 0 ==> |r.bytes| > 0)
      ensures Complete() && r.Eof? ==> old(Rest()) == []
      ensures r.Eof? ==> next >= count
      ensures old(next) <= next && forall i :: old(next) <= i < next ==> i in dir
      ensures r.Data? && size > 0 ==> next > old(next) || (next == old(next) && |Left()| < old(|Left()|))
    {
      while true
        invariant Valid()
        invariant Complete() ==> Rest() == old(Rest())
        invariant old(next) <= next && forall i :: old(next) <= i < next ==> i in dir
        invariant next == old(next) ==> Left() == old(Left())
        decreases count - next, if cur.Some? then 1 else 0
      {
        if cur.None? {
          if next >= count {
            return Eof;
          }
          if next !in dir {
            return Missing(next);
          }
          OpenNext();
        }
        var left := cur.value;
        if size == 0 {
          return Data([]);
        }
        if left == [] {
          cur := None;
        } else {
          var most := if size < |left| then size else |left|;
          var n :| 1 <= n <= most;
          var bytes := Take(n);
          return Data(bytes);
        }
      }
    }

    /** Reads to the end, with whatever buffer sizes the consumer chooses.
      * Succeeds exactly when no chunk file is missing. */
    method Drain() returns (r: Result<Bytes, int>)
      requires Valid() && next == 0 && cur == None
      modifies this
      ensures r.Success? <==> Complete()
      ensures Complete() ==> r == Success(Joined(dir, 0, count))
    {
      var sofar := [];
      while true
        invariant Valid()
        invariant Complete() ==> sofar + Rest() == Joined(dir, 0, count)
        invariant forall i :: 0 <= i < next && i < count ==> i in dir
        decreases count - next, |Left()|
      {
        var size: nat :| size > 0;
        ghost var before := if Complete() then Rest() else [];
        var piece := Read(size);
        match piece
        case Eof =>
          assert Complete() ==> sofar + before == sofar;
          return Success(sofar);
        case Missing(i) =>
          return Failure(i);
        case Data(bytes) =>
          sofar := sofar + bytes;
      }
    }
  }

  /** Writing a stream in any pieces and reading the files back, in buffers of
    * any sizes, returns exactly the stream. */
  method WriteThenRead(existing: map<int, Bytes>, pieces: seq<Bytes>, room: nat -> bool) returns (ok: bool, r: Result<Bytes, int>)
    ensures RoomForAll(room) ==> ok
    ensures ok ==> r == Success(Flatten(pieces))
  {
    var w := new ChunkWriter(existing, room);
    ok := w.WriteAll(pieces);
    if !ok {
      return false, Failure(0);
    }
    var reader := new ChunkReader(w.dir, |w.hashes|);
    ChunksRejoin(Flatten(pieces));
    JoinedIsFlatten(w.dir, w.chunks, 0);
    assert w.chunks[0..] == w.chunks;
    r := reader.Drain();
  }
}
