/** pkg/filesystem/probe_fetch.go, and the write path and the fill of fuse_directory.go: the sparse cache
    copy of one accepted peer version. Fetched bytes land chunk by chunk beside the app's own writes. */
module CacheFiles {
  import opened Bytes
  import opened Bitmaps

  /** The bytes of chunk `c` of a file that the bitmap takes to be `size` bytes long. */
  function ChunkBytes(file: seq<byte>, size: nat, c: nat): (r: seq<byte>) {
    ReadAt(file, ChunkStart(c), Min(ChunkStart(c + 1), size))
  }

  // ---------- the state of a cache copy ----------

  /** The file on disk, the present chunks, and the fingerprints (None: Go's nil slice). */
  datatype Copy = Copy(disk: seq<byte>, present: set<int>, prints: Option<seq<uint64>>)

  datatype AppWrite = AppWrite(off: nat, data: seq<byte>)

  /** The peer's file with the app's writes applied in order: what an app must read back. */
  function Overlay(peer: seq<byte>, writes: seq<AppWrite>): (r: seq<byte>)
    ensures |r| >= |peer|
  {
    if writes == [] then peer
    else
      var w := writes[|writes| - 1];
      WriteAt(Overlay(peer, writes[..|writes| - 1]), w.off, w.data)
  }

  lemma {:induction false} OverlayAppend(peer: seq<byte>, writes: seq<AppWrite>, w: AppWrite)
    ensures Overlay(peer, writes + [w]) == WriteAt(Overlay(peer, writes), w.off, w.data)
  {
    assert (writes + [w])[..|writes|] == writes;
  }

  /** The cache invariant. A present chunk holds the overlaid bytes, a missing chunk holds none of the
      app's, and whatever the app wrote past the peer's end is on disk. */
  ghost predicate Faithful(peer: seq<byte>, view: seq<byte>, s: Copy) {
    && |s.disk| <= |view| && |peer| <= |view|
    && (forall p :: 0 <= p < |peer| && Chunk(p) in s.present ==> p < |s.disk| && s.disk[p] == view[p])
    && (forall p :: 0 <= p < |peer| && Chunk(p) !in s.present ==> view[p] == peer[p])
    && (|peer| < |view| ==> |s.disk| == |view|)
    && (forall p :: |peer| <= p < |s.disk| ==> s.disk[p] == view[p])
  }

  /** A stored fingerprint describes the bytes of its chunk, or is the zero placeholder. */
  ghost predicate TruePrints(view: seq<byte>, size: nat, s: Copy, hash: seq<byte> -> uint64) {
    s.prints.Some? ==>
      forall c: nat :: c in s.present && c < |s.prints.value| ==>
        s.prints.value[c] == 0 || s.prints.value[c] == hash(ChunkBytes(view, size, c))
  }

  /** The largest file the sibling warmer batches: it fits one chunk. */
  const WARM_THRESHOLD: int := 0x4_0000

  /** What the warmer finds before it writes: the claimed object still mapped at its path with a real path, its bitmap
      the claimed one, no local change, truncate or removal; and after the write, the bitmap still the claimed one. */
  datatype WarmGuard = WarmGuard(mapped: bool, current: bool, localNewer: bool, hadEdits: bool, truncated: bool, gone: bool,
                                 stillCurrent: bool) {
    predicate Open() { mapped && current && !localNewer && !hadEdits && !truncated && !gone }
  }

  // ---------- landing a fetched range ----------

  /** A fetched range; `remoteSize` is the size of the remote file, 0 when unknown. */
  datatype Fetched = Fetched(data: seq<byte>, base: nat, remoteSize: int) {
    /** Where landing it stops: at the end of the data, or of the remote file. */
    function Stop(): (e: int)
      ensures e <= base + |data|
    {
      if remoteSize > 0 then Min(base + |data|, remoteSize) else base + |data|
    }

    /** The chunks it may mark: begun inside the range, and full or cut by the end of the remote file. */
    predicate Marks(c: int) {
      base <= ChunkStart(c) < Stop() && (ChunkStart(c + 1) <= Stop() || (remoteSize > 0 && Stop() == remoteSize))
    }

    /** The bytes the stream returns for a range of the accepted version. */
    predicate FromPeer(peer: seq<byte>) {
      base + |data| <= |peer| == remoteSize && data == peer[base..base + |data|]
    }

    /** Where the loop cuts the piece at `pos`: at its chunk's end or where the landing stops. */
    function PieceEnd(pos: nat): (e: int) { Min(ChunkStart(Chunk(pos) + 1), Stop()) }
  }

  /** The marks landing `f` leaves, up to position `upTo`: it marks only what it may, and below `upTo` all of it. */
  ghost predicate MarksUpTo(f: Fetched, total: nat, upTo: int, present0: set<int>, present: set<int>) {
    && present0 <= present
    && (forall c :: c in present && c !in present0 ==> f.Marks(c))
    && (forall c :: 0 <= c < total && ChunkStart(c) < upTo && f.Marks(c) ==> c in present)
  }

  /** A piece of a fetched range is the same piece of the peer's file. */
  lemma {:induction false} PieceFromPeer(f: Fetched, peer: seq<byte>, lo: nat, hi: nat)
    requires f.FromPeer(peer) && f.base <= lo <= hi <= f.base + |f.data|
    ensures f.data[lo - f.base..hi - f.base] == peer[lo..hi]
  {
    SliceOfSlice(peer, f.base, f.base + |f.data|, lo - f.base, hi - f.base);
  }

  lemma {:induction false} PieceBounds(f: Fetched, pos: nat)
    requires pos < f.Stop()
    ensures pos < f.PieceEnd(pos) <= f.Stop()
    ensures forall p :: pos <= p < f.PieceEnd(pos) ==> Chunk(p) == Chunk(pos)
    ensures forall c :: ChunkStart(c) < f.PieceEnd(pos) ==> ChunkStart(c) < pos || c == Chunk(pos)
    ensures ChunkStart(Chunk(pos)) <= pos
  {
  }

  /** The peer's bytes written into a missing chunk, whole or torn, disturb nothing. */
  lemma {:induction false} PieceKeepsFaithful(peer: seq<byte>, view: seq<byte>, s: Copy, pos: nat, n: nat)
    requires Faithful(peer, view, s) && pos + n <= |peer|
    requires forall p :: pos <= p < pos + n ==> Chunk(p) !in s.present
    ensures Faithful(peer, view, s.(disk := WriteAt(s.disk, pos, peer[pos..pos + n])))
  {
  }

  /** A missing chunk whose every byte was just written from the peer may be marked. */
  lemma {:induction false} MarkKeepsFaithful(peer: seq<byte>, view: seq<byte>, s: Copy, c: nat, prints: Option<seq<uint64>>)
    requires Faithful(peer, view, s) && c !in s.present
    requires forall p :: 0 <= p < |peer| && Chunk(p) == c ==> p < |s.disk| && s.disk[p] == peer[p]
    ensures Faithful(peer, view, Copy(s.disk, s.present + {c}, prints))
  {
  }

  lemma {:induction false} MarkKeepsPrints(peer: seq<byte>, view: seq<byte>, s: Copy, total: nat, c: nat, disk': seq<byte>,
                        hash: seq<byte> -> uint64)
    requires Faithful(peer, view, s) && TruePrints(view, |peer|, s, hash) && c !in s.present && c < total
    requires s.prints.Some? ==> |s.prints.value| == total
    requires ChunkStart(c) < |peer|
    ensures TruePrints(view, |peer|,
                       Copy(disk', s.present + {c},
                            WithPrint(s.prints, total, c, hash(peer[ChunkStart(c)..Min(ChunkStart(c + 1), |peer|)]))),
                       hash)
  {
    forall p | ChunkStart(c) <= p < Min(ChunkStart(c + 1), |peer|)
      ensures view[p] == peer[p]
    {
      assert Chunk(p) == c;
    }
    assert ChunkBytes(view, |peer|, c) == peer[ChunkStart(c)..Min(ChunkStart(c + 1), |peer|)];
  }

  /** Extending an unedited copy to its full size disturbs nothing. */
  lemma {:induction false} WarmExtendKeeps(peer: seq<byte>, s: Copy, disk: seq<byte>)
    requires Faithful(peer, peer, s) && s.disk <= disk && |disk| == |peer|
    ensures Faithful(peer, peer, s.(disk := disk))
  {
  }

  /** Rewriting a prefix of an unedited copy with the peer's own bytes disturbs nothing. */
  lemma {:induction false} WarmWriteKeeps(peer: seq<byte>, s: Copy, n: nat)
    requires Faithful(peer, peer, s) && n <= |peer|
    ensures Faithful(peer, peer, s.(disk := WriteAt(s.disk, 0, peer[..n])))
    ensures n == |peer| ==> WriteAt(s.disk, 0, peer[..n]) == peer
  {
  }

  /** A file of one chunk, whole on disk and untouched by the app, may be marked and fingerprinted. */
  lemma {:induction false} OneChunkLanded(peer: seq<byte>, s: Copy, hash: seq<byte> -> uint64)
    requires Faithful(peer, peer, s) && TruePrints(peer, |peer|, s, hash) && s.disk == peer
    requires 0 < |peer| <= WARM_THRESHOLD && (s.prints.Some? ==> |s.prints.value| == 1)
    ensures AllBelow(|peer|, 0, s.present + {0})
    ensures Faithful(peer, peer, Copy(peer, s.present + {0}, WithPrint(s.prints, 1, 0, hash(peer))))
    ensures TruePrints(peer, |peer|, Copy(peer, s.present + {0}, WithPrint(s.prints, 1, 0, hash(peer))), hash)
  {
    assert ChunkBytes(peer, |peer|, 0) == peer;
  }

  /** Chunk `c`, missing before, was marked and fingerprinted. */
  ghost predicate Marked(s: Copy, s': Copy, c: nat, peer: seq<byte>, total: nat, hash: seq<byte> -> uint64)
    requires s.prints.Some? ==> |s.prints.value| == total
  {
    && c !in s.present && c < total && s'.present == s.present + {c}
    && s'.prints == WithPrint(s.prints, total, c, hash(ChunkBytes(peer, |peer|, c)))
  }

  /** Every chunk gained since `present0` carries the fingerprint of the peer's bytes. */
  ghost predicate NewPrints(present0: set<int>, s: Copy, peer: seq<byte>, hash: seq<byte> -> uint64) {
    forall c: nat :: c in s.present && c !in present0 ==>
      s.prints.Some? && c < |s.prints.value| && s.prints.value[c] == hash(ChunkBytes(peer, |peer|, c))
  }

  lemma {:induction false} MarkedKeepsNewPrints(present0: set<int>, s: Copy, s': Copy, c: nat, peer: seq<byte>, total: nat,
                                                hash: seq<byte> -> uint64)
    requires s.prints.Some? ==> |s.prints.value| == total
    requires NewPrints(present0, s, peer, hash) && Marked(s, s', c, peer, total, hash) && present0 <= s.present
    ensures NewPrints(present0, s', peer, hash)
  {
  }

  // ---------- app writes ----------

  /** An app write whose chunks are all present keeps the cache faithful to the longer overlay. */
  lemma {:induction false} WriteKeepsFaithful(peer: seq<byte>, view: seq<byte>, s: Copy, w: AppWrite)
    requires Faithful(peer, view, s)
    requires forall p :: w.off <= p < w.off + |w.data| && p < |peer| ==> Chunk(p) in s.present
    ensures Faithful(peer, WriteAt(view, w.off, w.data), s.(disk := WriteAt(s.disk, w.off, w.data)))
  {
  }

  /** Rewriting bytes outside chunk `c` leaves its bytes alone. */
  lemma {:induction false} ChunkBytesUntouched(file: seq<byte>, size: nat, w: AppWrite, c: nat)
    requires size <= |file|
    requires forall p :: w.off <= p < w.off + |w.data| && p < size ==> Chunk(p) != c
    ensures ChunkBytes(WriteAt(file, w.off, w.data), size, c) == ChunkBytes(file, size, c)
  {
    var after := WriteAt(file, w.off, w.data);
    forall p | ChunkStart(c) <= p < Min(ChunkStart(c + 1), size)
      ensures after[p] == file[p]
    {
      assert Chunk(p) == c;
    }
    assert ChunkBytes(after, size, c) == ChunkBytes(file, size, c);
  }

  /** The fingerprints of every present chunk outside [lo, hi) are true. */
  ghost predicate TruePrintsBut(view: seq<byte>, size: nat, s: Copy, hash: seq<byte> -> uint64, lo: int, hi: int) {
    s.prints.Some? ==>
      forall c: nat :: c in s.present && c < |s.prints.value| && !(lo <= c < hi) ==>
        s.prints.value[c] == 0 || s.prints.value[c] == hash(ChunkBytes(view, size, c))
  }

  /** The present chunks of [lo, hi) carry the fingerprints of their bytes. */
  ghost predicate Refreshed(lo: int, hi: int, view: seq<byte>, size: nat, s: Copy, hash: seq<byte> -> uint64) {
    forall c: nat :: lo <= c < hi && c in s.present ==>
      s.prints.Some? && c < |s.prints.value| && s.prints.value[c] == hash(ChunkBytes(view, size, c))
  }

  lemma {:induction false} RefreshedNext(lo: int, c: nat, view: seq<byte>, size: nat, s: Copy, s': Copy, total: nat,
                                         hash: seq<byte> -> uint64)
    requires Refreshed(lo, c, view, size, s, hash) && Refreshed(c, c + 1, view, size, s', hash)
    requires s'.present == s.present && c < total && (s.prints.Some? ==> |s.prints.value| == total)
    requires s'.prints == s.prints || exists h: uint64 :: s'.prints == WithPrint(s.prints, total, c, h)
    ensures Refreshed(lo, c + 1, view, size, s', hash)
  {
  }

  /** A write makes stale only the fingerprints of the chunks it covers. */
  lemma {:induction false} WriteStalesPrints(view: seq<byte>, size: nat, s: Copy, hash: seq<byte> -> uint64, w: AppWrite)
    requires TruePrints(view, size, s, hash) && size <= |view| && w.data != []
    ensures TruePrintsBut(WriteAt(view, w.off, w.data), size, s.(disk := WriteAt(s.disk, w.off, w.data)), hash,
                          Chunk(w.off), Chunk(w.off + |w.data| - 1) + 1)
  {
    forall c: nat | c in s.present && !(Chunk(w.off) <= c < Chunk(w.off + |w.data| - 1) + 1)
      ensures ChunkBytes(WriteAt(view, w.off, w.data), size, c) == ChunkBytes(view, size, c)
    {
      ChunkBytesUntouched(view, size, w, c);
    }
  }

  /** A present chunk reads back from disk as the overlay has it. */
  lemma {:induction false} PresentChunkBytes(peer: seq<byte>, view: seq<byte>, s: Copy, c: nat)
    requires Faithful(peer, view, s) && c in s.present && ChunkStart(c) < |peer|
    ensures ChunkBytes(s.disk, |peer|, c) == ChunkBytes(view, |peer|, c)
    ensures |ChunkBytes(s.disk, |peer|, c)| == Min(ChunkStart(c + 1), |peer|) - ChunkStart(c)
  {
    var e := Min(ChunkStart(c + 1), |peer|);
    assert Chunk(e - 1) == c;
    assert s.disk[e - 1] == view[e - 1];
    forall p | ChunkStart(c) <= p < e
      ensures s.disk[p] == view[p]
    {
      assert Chunk(p) == c;
    }
  }

  /** Once no chunk is missing, the disk is the peer's file with the app's writes applied: no hole is left. */
  lemma {:induction false} CompleteIsOverlay(peer: seq<byte>, view: seq<byte>, s: Copy, total: nat)
    requires Faithful(peer, view, s) && total == ChunkCount(|peer|)
    requires forall c :: 0 <= c < total ==> c in s.present
    ensures s.disk == view
  {
    forall p | 0 <= p < |peer|
      ensures Chunk(p) in s.present
    {
      assert 0 <= Chunk(p) < total;
    }
    if 0 < |peer| == |view| { assert Chunk(|peer| - 1) in s.present; }
    assert |s.disk| == |view|;
    assert forall p :: 0 <= p < |view| ==> s.disk[p] == view[p];
  }

  // ---------- whole runs ----------

  /** One step of whoever works on the copy: a chunk fetched from the peer lands whole or torn, or the app writes. */
  datatype CacheStep = LandChunk(c: nat) | LandTorn(c: nat, n: nat) | Pwrite(w: AppWrite)

  /** The bytes of chunk `c` begin and end here. */
  function ChunkEnd(peer: seq<byte>, c: nat): (e: int) { Min(ChunkStart(c + 1), |peer|) }

  /** A landing is of a chunk of the file; a write goes to chunks that are all present, as the fill leaves them. */
  predicate CanTake(peer: seq<byte>, s: Copy, step: CacheStep) {
    match step
    case LandChunk(c) => ChunkStart(c) < |peer|
    case LandTorn(c, n) => ChunkStart(c) < |peer| && n < ChunkEnd(peer, c) - ChunkStart(c)
    case Pwrite(w) => forall p :: w.off <= p < w.off + |w.data| && p < |peer| ==> Chunk(p) in s.present
  }

  /** A present chunk is skipped; a torn one is written and not marked. */
  function Take(peer: seq<byte>, s: Copy, step: CacheStep): (r: Copy)
    requires CanTake(peer, s, step)
  {
    match step
    case LandChunk(c) =>
      if c in s.present then s
      else Copy(WriteAt(s.disk, ChunkStart(c), peer[ChunkStart(c)..ChunkEnd(peer, c)]), s.present + {c}, s.prints)
    case LandTorn(c, n) =>
      if c in s.present then s
      else s.(disk := WriteAt(s.disk, ChunkStart(c), peer[ChunkStart(c)..ChunkStart(c) + n]))
    case Pwrite(w) => s.(disk := WriteAt(s.disk, w.off, w.data))
  }

  predicate CanTakeAll(peer: seq<byte>, s: Copy, steps: seq<CacheStep>)
    decreases |steps|, 0
  {
    steps != [] ==>
      CanTakeAll(peer, s, steps[..|steps| - 1]) && CanTake(peer, TakeAll(peer, s, steps[..|steps| - 1]), steps[|steps| - 1])
  }

  function TakeAll(peer: seq<byte>, s: Copy, steps: seq<CacheStep>): (r: Copy)
    requires CanTakeAll(peer, s, steps)
    decreases |steps|, 1
  {
    if steps == [] then s
    else Take(peer, TakeAll(peer, s, steps[..|steps| - 1]), steps[|steps| - 1])
  }

  /** The app's writes of a run, in order. */
  function AppWrites(steps: seq<CacheStep>): (ws: seq<AppWrite>) {
    if steps == [] then []
    else
      var last := steps[|steps| - 1];
      AppWrites(steps[..|steps| - 1]) + if last.Pwrite? then [last.w] else []
  }

  /** Edits into a partial copy: over any run of landings and app writes, from an empty copy, a present chunk holds
      the peer's bytes overlaid with the app's writes in order and a missing one holds none of the app's; and once
      no chunk is missing the file is the peer's with the writes applied, with no hole. */
  lemma {:induction false} PartialCopyRun(peer: seq<byte>, steps: seq<CacheStep>)
    requires CanTakeAll(peer, Copy([], {}, None), steps)
    ensures var s := TakeAll(peer, Copy([], {}, None), steps);
            && Faithful(peer, Overlay(peer, AppWrites(steps)), s)
            && ((forall c :: 0 <= c < ChunkCount(|peer|) ==> c in s.present) ==> s.disk == Overlay(peer, AppWrites(steps)))
    decreases |steps|
  {
    hide Faithful, Overlay, Take, CanTake, ChunkCount;
    EmptyFaithful(peer);
    var s := TakeAll(peer, Copy([], {}, None), steps);
    if steps != [] {
      var front, last := steps[..|steps| - 1], steps[|steps| - 1];
      PartialCopyRun(peer, front);
      TakeKeepsFaithful(peer, AppWrites(front), TakeAll(peer, Copy([], {}, None), front), last);
      assert AppWrites(front) + [] == AppWrites(front);
    }
    if forall c :: 0 <= c < ChunkCount(|peer|) ==> c in s.present {
      CompleteIsOverlay(peer, Overlay(peer, AppWrites(steps)), s, ChunkCount(|peer|));
    }
  }

  lemma {:induction false} EmptyFaithful(peer: seq<byte>)
    ensures Faithful(peer, Overlay(peer, []), Copy([], {}, None)) && ChunkCount(|peer|) >= 0
  {
  }

  lemma {:induction false} TakeKeepsFaithful(peer: seq<byte>, writes: seq<AppWrite>, s: Copy, step: CacheStep)
    requires Faithful(peer, Overlay(peer, writes), s) && CanTake(peer, s, step)
    ensures Faithful(peer, Overlay(peer, if step.Pwrite? then writes + [step.w] else writes), Take(peer, s, step))
  {
    hide Faithful, Overlay;
    var view := Overlay(peer, writes);
    match step
    case Pwrite(w) =>
      OverlayAppend(peer, writes, w);
      WriteKeepsFaithful(peer, view, s, w);
    case LandTorn(c, n) =>
      ChunkSpan(peer, c);
      if c !in s.present { PieceKeepsFaithful(peer, view, s, ChunkStart(c), n); }
    case LandChunk(c) =>
      ChunkSpan(peer, c);
      if c !in s.present {
        PieceKeepsFaithful(peer, view, s, ChunkStart(c), ChunkEnd(peer, c) - ChunkStart(c));
        MarkKeepsFaithful(peer, view, s.(disk := Take(peer, s, step).disk), c, s.prints);
      }
  }

  lemma {:induction false} ChunkSpan(peer: seq<byte>, c: nat)
    ensures forall p :: 0 <= p < |peer| ==> (Chunk(p) == c <==> ChunkStart(c) <= p < ChunkEnd(peer, c))
  {
  }

  // ---------- the cache copy ----------

  class CacheFile {
    const peer: seq<byte>  // the accepted version, as the stream serves it
    const hash: seq<byte> -> uint64  // xxh3
    const bm: ChunkBitmap
    var disk: seq<byte>
    ghost var writes: seq<AppWrite>
    ghost var faults: nat  // writes to the disk and reads from it that failed so far

    ghost function View(): (v: seq<byte>)
      reads this`writes
    {
      Overlay(peer, writes)
    }

    ghost function State(): (s: Copy)
      requires bm.Valid()
      reads this`disk, bm
    {
      Copy(disk, bm.Present(), bm.hashes)
    }

    /** The shape alone, without the promise about the bytes. */
    ghost predicate Shaped()
      reads bm
    {
      && bm.Valid() && |peer| > 0
      && bm.chunkSize == CHUNK_SIZE && bm.fileSize == |peer| && bm.total == ChunkCount(|peer|)
    }

    ghost predicate Valid()
      reads this`disk, this`writes, bm
    {
      Shaped() && Faithful(peer, View(), State()) && TruePrints(View(), |peer|, State(), hash)
    }

    /** A file announced by the peer: nothing has landed. */
    constructor (version: seq<byte>, xxh3: seq<byte> -> uint64)
      requires version != []
      ensures Valid() && fresh(bm)
      ensures peer == version && hash == xxh3 && writes == [] && State().present == {}
    {
      peer := version;
      hash := xxh3;
      disk := [];
      writes := [];
      faults := 0;
      bm := new ChunkBitmap(|version|, CHUNK_SIZE);
    }

    /** os.File.WriteAt: all of `data`, or a prefix and an error. */
    method FileWriteAt(data: seq<byte>, off: nat) returns (n: nat, ok: bool)
      modifies this`disk, this`faults
      ensures n <= |data| && disk == WriteAt(old(disk), off, data[..n])
      ensures ok <==> n == |data|
      ensures faults == old(faults) + if ok then 0 else 1
    {
      n :| 0 <= n <= |data|;
      ok := n == |data|;
      disk := WriteAt(disk, off, data[..n]);
      faults := faults + if ok then 0 else 1;
    }

    /** os.File.ReadAt: the bytes of one chunk, or an error. */
    method FileReadChunk(c: nat) returns (chunk: seq<byte>, ok: bool)
      modifies this`faults
      ensures ok ==> chunk == ChunkBytes(disk, |peer|, c)
      ensures faults == old(faults) + if ok then 0 else 1
    {
      ok := *;
      chunk := if ok then ChunkBytes(disk, |peer|, c) else [];
      faults := faults + if ok then 0 else 1;
    }

    /** The bytes of one missing chunk, all or a torn prefix: the cache stays valid either way. */
    method WritePiece(piece: seq<byte>, pos: nat) returns (n: nat, ok: bool)
      requires Valid() && piece != [] && pos + |piece| <= |peer| && piece == peer[pos..pos + |piece|]
      requires forall p :: pos <= p < pos + |piece| ==> Chunk(p) !in bm.Present()
      modifies this`disk, this`faults
      ensures Valid() && n <= |piece|
      ensures old(faults) <= faults && (ok <==> faults == old(faults))
      ensures disk == WriteAt(old(disk), pos, piece[..n])
      ensures ok ==> n == |piece| && pos + n <= |disk|
      ensures ok ==> forall p :: pos <= p < pos + n ==> disk[p] == peer[p]
    {
      ghost var s, view := State(), View();
      n, ok := FileWriteAt(piece, pos);
      SliceOfSlice(peer, pos, pos + |piece|, 0, n);
      PieceKeepsFaithful(peer, view, s, pos, n);
    }

    /** Mark and fingerprint a chunk whose every byte was just written from the peer. */
    method MarkWhole(c: nat, piece: seq<byte>)
      requires Valid() && ChunkStart(c) < |peer| && c !in bm.Present()
      requires piece == peer[ChunkStart(c)..Min(ChunkStart(c + 1), |peer|)]
      requires ChunkStart(c) + |piece| <= |disk|
      requires forall p :: ChunkStart(c) <= p < ChunkStart(c) + |piece| ==> disk[p] == peer[p]
      modifies bm
      ensures Valid()
      ensures bm.Present() == old(bm.Present()) + {c}
      ensures bm.hashes == WithPrint(old(bm.hashes), bm.total, c, hash(ChunkBytes(peer, |peer|, c)))
    {
      ghost var s, view := State(), View();
      assert ChunkBytes(peer, |peer|, c) == piece;
      bm.Set(c);
      bm.SetHash(c, hash(piece));
      MarkKeepsFaithful(peer, view, s, c, bm.hashes);
      MarkKeepsPrints(peer, view, s, bm.total, c, disk, hash);
      assert State() == Copy(disk, s.present + {c}, WithPrint(s.prints, bm.total, c, hash(piece)));
    }

    /** One turn of markCached's loop: the piece at `pos` is skipped when its chunk is present, else written
        and, when whole, marked and fingerprinted. */
    method LandPiece(f: Fetched, pos: nat, chunkEnd: nat) returns (n: nat, ok: bool)
      requires Valid() && f.FromPeer(peer)
      requires f.base <= pos < f.Stop() && chunkEnd == f.PieceEnd(pos)
      modifies this`disk, this`faults, bm
      ensures Valid()
      ensures old(faults) <= faults && (ok <==> faults == old(faults))
      ensures (bm.Present() == old(bm.Present()) && bm.hashes == old(bm.hashes)) ||
              (f.Marks(Chunk(pos)) && Marked(old(State()), State(), Chunk(pos), peer, bm.total, hash))
      ensures ok && pos == ChunkStart(Chunk(pos)) && f.Marks(Chunk(pos)) ==> Chunk(pos) in bm.Present()
    {
      hide Faithful, TruePrints, Overlay, Indices;
      PieceBounds(f, pos);
      var c := Chunk(pos);
      var has := bm.Has(c);
      if has {
        return 0, true;
      }
      PieceFromPeer(f, peer, pos, chunkEnd);
      var piece := f.data[pos - f.base..chunkEnd - f.base];
      n, ok := WritePiece(piece, pos);
      var full := chunkEnd == ChunkStart(c + 1) || (f.remoteSize > 0 && chunkEnd == f.remoteSize);
      if ok && pos == ChunkStart(c) && full {
        MarkWhole(c, piece);
      }
    }

    /** markCached: land a fetched range chunk by chunk, skipping what is present, and mark the chunks that
        are whole. On a write error what is marked is landed and the rest stays unmarked. */
    method MarkCached(f: Fetched) returns (written: nat, ok: bool)
      requires Valid() && f.FromPeer(peer)
      modifies this`disk, this`faults, bm
      ensures Valid()
      // Only a write that fails keeps the whole range from landing.
      ensures old(faults) <= faults && (ok <==> faults == old(faults))
      ensures MarksUpTo(f, bm.total, if ok then f.base + |f.data| else f.base, old(bm.Present()), bm.Present())
      ensures NewPrints(old(bm.Present()), State(), peer, hash)
    {
      hide Faithful, TruePrints, Overlay, Indices;
      var end := f.base + |f.data|;
      ghost var present0 := bm.Present();
      written := 0;
      var pos := f.base;
      while pos < end
        invariant f.base <= pos <= f.Stop()
        invariant Valid() && faults == old(faults)
        invariant MarksUpTo(f, bm.total, pos, present0, bm.Present())
        invariant NewPrints(present0, State(), peer, hash)
      {
        var chunkEnd := Min(ChunkStart(Chunk(pos) + 1), end);
        if f.remoteSize > 0 && chunkEnd > f.remoteSize {
          chunkEnd := f.remoteSize;
        }
        if chunkEnd <= pos {
          break;
        }
        PieceBounds(f, pos);
        ghost var s := State();
        var n;
        n, ok := LandPiece(f, pos, chunkEnd);
        if bm.Present() != s.present { MarkedKeepsNewPrints(present0, s, State(), Chunk(pos), peer, bm.total, hash); }
        written := written + n;
        if !ok {
          return;
        }
        pos := chunkEnd;
      }
      ok := true;
    }

    /** One turn of rehashWritten: a present chunk is read back and fingerprinted, with the zero placeholder
        when the read fails; its bit is never cleared. */
    method RehashChunk(c: nat, ghost hi: int) returns (readOk: bool)
      requires Shaped() && Faithful(peer, View(), State()) && ChunkStart(c) < |peer|
      requires TruePrintsBut(View(), |peer|, State(), hash, c, hi)
      modifies this`faults, bm`hashes
      ensures Shaped() && Faithful(peer, View(), State()) && bm.Present() == old(bm.Present())
      ensures old(faults) <= faults && (readOk <==> faults == old(faults))
      ensures TruePrintsBut(View(), |peer|, State(), hash, c + 1, hi)
      ensures readOk ==> Refreshed(c, c + 1, View(), |peer|, State(), hash)
      ensures bm.hashes == old(bm.hashes) || exists h: uint64 :: bm.hashes == WithPrint(old(bm.hashes), bm.total, c, h)
    {
      readOk := true;
      var has := bm.Has(c);
      if has {
        PresentChunkBytes(peer, View(), State(), c);
        var chunk;
        chunk, readOk := FileReadChunk(c);
        bm.SetHash(c, if readOk then hash(chunk) else 0);
      }
    }

    /** rehashWritten: refresh the fingerprints of the present chunks a write covered, from the bytes on disk. */
    method RehashWritten(offset: nat, n: nat) returns (readOk: bool)
      requires Shaped() && Faithful(peer, View(), State()) && n > 0
      requires TruePrintsBut(View(), |peer|, State(), hash, Chunk(offset), Chunk(offset + n - 1) + 1)
      modifies this`faults, bm`hashes
      ensures Valid() && bm.Present() == old(bm.Present())
      ensures old(faults) <= faults && (readOk <==> faults == old(faults))
      ensures readOk ==> Refreshed(Chunk(offset), Chunk(offset + n - 1) + 1, View(), |peer|, State(), hash)
    {
      hide Faithful, TruePrintsBut, Overlay, ChunkBytes, Indices;
      readOk := true;
      var pos := ChunkStart(Chunk(offset));
      while pos < offset + n && pos < bm.fileSize
        invariant ChunkStart(Chunk(offset)) <= pos == ChunkStart(Chunk(pos))
        invariant Shaped() && Faithful(peer, View(), State()) && bm.Present() == old(bm.Present())
        invariant TruePrintsBut(View(), |peer|, State(), hash, Chunk(pos), Chunk(offset + n - 1) + 1)
        invariant old(faults) <= faults && (readOk <==> faults == old(faults))
        invariant readOk ==> Refreshed(Chunk(offset), Chunk(pos), View(), |peer|, State(), hash)
      {
        ghost var s := State();
        var ok := RehashChunk(Chunk(pos), Chunk(offset + n - 1) + 1);
        if readOk && ok { RefreshedNext(Chunk(offset), Chunk(pos), View(), |peer|, s, State(), bm.total, hash); }
        readOk := readOk && ok;
        assert Chunk(pos + CHUNK_SIZE) == Chunk(pos) + 1;
        pos := pos + CHUNK_SIZE;
      }
      CoveredBeyond(pos, offset, n);
      if readOk { RefreshedBeyond(Chunk(offset), pos, offset, n); }
    }

    lemma {:induction false} RefreshedBeyond(lo: int, pos: nat, offset: nat, n: nat)
      requires Shaped() && pos == ChunkStart(Chunk(pos)) && !(pos < offset + n && pos < bm.fileSize) && n > 0
      requires Refreshed(lo, Chunk(pos), View(), |peer|, State(), hash)
      ensures Refreshed(lo, Chunk(offset + n - 1) + 1, View(), |peer|, State(), hash)
    {
      forall c: nat | c in bm.Present()
        ensures c < Chunk(offset + n - 1) + 1 ==> c < Chunk(pos)
      {
        InIndices(bm.bits, bm.total, c);
      }
    }

    /** The loop leaves no covered chunk of the file behind. */
    lemma {:induction false} CoveredBeyond(pos: nat, offset: nat, n: nat)
      requires Shaped() && pos == ChunkStart(Chunk(pos)) && !(pos < offset + n && pos < bm.fileSize) && n > 0
      requires TruePrintsBut(View(), |peer|, State(), hash, Chunk(pos), Chunk(offset + n - 1) + 1)
      ensures TruePrints(View(), |peer|, State(), hash)
    {
      forall c: nat | c in bm.Present()
        ensures !(Chunk(pos) <= c < Chunk(offset + n - 1) + 1)
      {
        InIndices(bm.bits, bm.total, c);
      }
    }

    /** The app's pwrite into chunks that are all present, then rehashWritten. */
    method AppPwrite(offset: nat, data: seq<byte>) returns (n: nat, readOk: bool)
      requires Valid()
      requires forall p :: offset <= p < offset + |data| && p < |peer| ==> Chunk(p) in bm.Present()
      modifies this`disk, this`writes, this`faults, bm`hashes
      ensures Valid()
      ensures bm.Present() == old(bm.Present()) && n <= |data|
      ensures old(faults) <= faults && (n == |data| && readOk <==> faults == old(faults))
      ensures writes == if n > 0 then old(writes) + [AppWrite(offset, data[..n])] else old(writes)
      ensures n > 0 && readOk ==> Refreshed(Chunk(offset), Chunk(offset + n - 1) + 1, View(), |peer|, State(), hash)
    {
      hide Faithful, TruePrints, TruePrintsBut, Refreshed, Overlay;
      ghost var view, s := View(), State();
      var ok;
      n, ok := FileWriteAt(data, offset);
      readOk := true;
      if n > 0 {
        ghost var w := AppWrite(offset, data[..n]);
        WriteKeepsFaithful(peer, view, s, w);
        WriteStalesPrints(view, |peer|, s, hash, w);
        OverlayAppend(peer, writes, w);
        writes := writes + [w];
        readOk := RehashWritten(offset, n);
      }
    }

    /** The app's pwrite into a copy that is complete: the file is local from here on, and the stored
        fingerprints are left as they were. */
    method AppPwriteLocal(offset: nat, data: seq<byte>) returns (n: nat)
      requires Shaped() && Faithful(peer, View(), State())
      requires forall c :: 0 <= c < bm.total ==> c in bm.Present()
      modifies this`disk, this`writes, this`faults
      ensures Shaped() && Faithful(peer, View(), State())
      ensures n <= |data| && disk == View()
      ensures old(faults) <= faults && (n == |data| <==> faults == old(faults))
      ensures writes == if n > 0 then old(writes) + [AppWrite(offset, data[..n])] else old(writes)
    {
      hide Faithful, Overlay;
      ghost var view, s := View(), State();
      var ok;
      n, ok := FileWriteAt(data, offset);
      if n > 0 {
        ghost var w := AppWrite(offset, data[..n]);
        WriteKeepsFaithful(peer, view, s, w);
        OverlayAppend(peer, writes, w);
        writes := writes + [w];
      }
      CompleteIsOverlay(peer, View(), State(), bm.total);
    }

    /** landWarmFile: the whole of a small file in one frame, unless a check fails; then its one chunk is marked. */
    method LandWarmFile(data: seq<byte>, guard: WarmGuard) returns (ok: bool)
      requires Valid() && data == peer && |peer| <= WARM_THRESHOLD
      // Every write of the app raises one of the two flags.
      requires writes != [] ==> guard.localNewer || guard.hadEdits
      modifies this`disk, this`faults, bm
      ensures Valid() && old(bm.Present()) <= bm.Present()
      ensures ok ==> disk == View()
      ensures ok ==> AllBelow(|peer|, 0, bm.Present())
      ensures bm.hashes == if ok then WithPrint(old(bm.hashes), 1, 0, hash(data)) else old(bm.hashes)
      // It lands exactly when every check passes, before the write and after it, and the write does not fail.
      ensures old(faults) <= faults && (ok <==> guard.Open() && guard.stillCurrent && faults == old(faults))
      ensures !guard.Open() ==> disk == old(disk)
      ensures !ok ==> bm.Present() == old(bm.Present())
    {
      if !guard.mapped || !guard.current || guard.localNewer || guard.hadEdits || guard.truncated || guard.gone {
        return false;
      }
      ghost var s := State();
      if |disk| < |peer| {
        disk := disk + seq(|peer| - |disk|, _ => 0);
        WarmExtendKeeps(peer, s, disk);
      }
      s := State();
      var n;
      n, ok := FileWriteAt(data, 0);
      WarmWriteKeeps(peer, s, n);
      ok := ok && guard.stillCurrent;
      if ok {
        assert data[..n] == data;
        MarkWarm(data);
      }
    }

    /** The one chunk of a small file, now whole on disk, is marked and fingerprinted. */
    method MarkWarm(data: seq<byte>)
      requires Valid() && data == peer == disk == View() && |peer| <= WARM_THRESHOLD
      modifies bm
      ensures Valid() && AllBelow(|peer|, 0, bm.Present()) && old(bm.Present()) <= bm.Present()
      ensures bm.hashes == WithPrint(old(bm.hashes), 1, 0, hash(data))
    {
      ghost var s := State();
      bm.Set(0);
      bm.SetHash(0, hash(data));
      OneChunkLanded(peer, s, hash);
      assert State() == Copy(peer, s.present + {0}, WithPrint(s.prints, 1, 0, hash(peer)));
    }

    /** Land one range the stream returned. Begun on a chunk boundary and ended on one, or at the end of the
        file, it leaves no chunk of the range missing. */
    method LandBlock(data: seq<byte>, offset: nat) returns (ok: bool)
      requires Valid() && offset + |data| <= |peer| && data == peer[offset..offset + |data|]
      modifies this`disk, this`faults, bm
      ensures Valid()
      ensures old(faults) <= faults && (ok <==> faults == old(faults))
      ensures old(bm.Present()) <= bm.Present()
      ensures ok && AlignedOrEnd(offset, |peer|) && AlignedOrEnd(offset + |data|, |peer|) ==>
                AllBelow(offset + |data|, offset, bm.Present())
    {
      hide Faithful, TruePrints, Overlay, Indices;
      var n;
      ghost var present0 := bm.Present();
      n, ok := MarkCached(Fetched(data, offset, |peer|));
      if AlignedOrEnd(offset, |peer|) && AlignedOrEnd(offset + |data|, |peer|) {
        MarksGiveRange(Fetched(data, offset, |peer|), bm.total, present0, bm.Present());
      }
    }

    /** The next block of the stream, after what `sofar` says has landed from `start` on. */
    method LandNext(blocks: seq<nat>, i: nat, offset: nat, ghost start: nat, ghost sofar: bool) returns (ok: bool)
      requires Valid() && i < |blocks| && offset + blocks[i] <= |peer|
      requires sofar ==> WholeStream(blocks[i..], offset, |peer|) && AllBelow(offset, start, bm.Present())
      modifies this`disk, this`faults, bm
      ensures Valid()
      ensures old(faults) <= faults && (ok <==> faults == old(faults))
      ensures old(bm.Present()) <= bm.Present()
      ensures ok && sofar ==> AllBelow(offset + blocks[i], start, bm.Present())
    {
      hide Faithful, TruePrints, Overlay, Indices;
      WholeStreamStep(blocks, i, offset, |peer|);
      ghost var present := bm.Present();
      ok := LandBlock(peer[offset..offset + blocks[i]], offset);
      if ok && sofar { JoinBelow(start, offset, offset + blocks[i], present, bm.Present()); }
    }

    /** The blocks of the stream, in order; a block whose write fails is skipped. */
    method LandStream(blocks: seq<nat>, start: nat) returns (wrote: bool)
      requires Valid() && start <= |peer|
      modifies this`disk, this`faults, bm
      ensures Valid()
      ensures old(faults) <= faults && (wrote <==> faults == old(faults))
      ensures old(bm.Present()) <= bm.Present()
      ensures wrote && WholeStream(blocks, start, |peer|) ==> AllBelow(|peer|, start, bm.Present())
    {
      hide Faithful, TruePrints, Overlay, Indices;
      ghost var whole := WholeStream(blocks, start, |peer|);
      var offset: nat := start;
      wrote := true;
      var i: nat := 0;
      while i < |blocks| && offset + blocks[i] <= |peer|
        invariant i <= |blocks| && offset <= |peer|
        invariant Valid()
        invariant old(bm.Present()) <= bm.Present()
        invariant old(faults) <= faults && (wrote <==> faults == old(faults))
        invariant whole ==> WholeStream(blocks[i..], offset, |peer|)
        invariant wrote && whole ==> AllBelow(offset, start, bm.Present())
      {
        var ok := LandNext(blocks, i, offset, start, wrote && whole);
        WholeStreamStep(blocks, i, offset, |peer|);
        wrote := wrote && ok;
        offset := offset + blocks[i];
        i := i + 1;
      }
    }

    /** prefetchFile: resume at the first missing chunk, land the stream, and announce a deferred edit once no chunk is
        missing. When none is missing at the start it returns at once, and the deferred edit waits on. */
    method PrefetchFile(blocks: seq<nat>, afterFill: bool) returns (startChunk: int, complete: bool, wrote: bool, announce: bool)
      requires Valid()
      modifies this`disk, this`faults, bm
      ensures Valid() && old(bm.Present()) <= bm.Present()
      ensures old(faults) <= faults && (wrote <==> faults == old(faults))
      ensures complete <==> forall c :: 0 <= c < bm.total ==> c in bm.Present()
      ensures announce <==> afterFill && complete && !old(forall c :: 0 <= c < bm.total ==> c in bm.Present())
      ensures complete ==> disk == View()
      ensures startChunk < 0 <==> old(forall c :: 0 <= c < bm.total ==> c in bm.Present())
      ensures startChunk >= 0 && wrote && WholeStream(blocks, ChunkStart(startChunk), |peer|) ==> complete
    {
      wrote, announce := true, false;
      startChunk := bm.NextMissing(0);
      if startChunk < 0 {
        CompleteIsOverlay(peer, View(), State(), bm.total);
        return startChunk, true, true, false;
      }
      wrote := LandStream(blocks, ChunkStart(startChunk));
      StreamReachesAll(startChunk, bm.total, |peer|, bm.Present());
      complete := bm.IsComplete();
      if complete {
        CompleteIsOverlay(peer, View(), State(), bm.total);
        announce := afterFill;
      }
    }
  }

  lemma {:induction false} ChunkInside(lo: nat, hi: nat, size: nat, c: int)
    requires AlignedOrEnd(hi, size) && hi <= size && lo <= ChunkStart(c) < hi
    ensures 0 <= c < ChunkCount(size) && (ChunkStart(c + 1) <= hi || hi == size)
  {
  }

  lemma {:induction false} MarksGiveRange(f: Fetched, total: nat, present0: set<int>, present: set<int>)
    requires f.remoteSize > 0 && f.base + |f.data| <= f.remoteSize && total == ChunkCount(f.remoteSize)
    requires AlignedOrEnd(f.base, f.remoteSize) && AlignedOrEnd(f.base + |f.data|, f.remoteSize)
    ensures MarksUpTo(f, total, f.base + |f.data|, present0, present) ==> AllBelow(f.base + |f.data|, f.base, present)
  {
    forall c | f.base <= ChunkStart(c) < f.base + |f.data|
      ensures f.Marks(c) && 0 <= c < total
    {
      ChunkInside(f.base, f.base + |f.data|, f.remoteSize, c);
    }
  }

  lemma {:induction false} JoinBelow(lo: int, mid: int, hi: int, before: set<int>, after: set<int>)
    requires AllBelow(mid, lo, before) && before <= after && AllBelow(hi, mid, after)
    ensures AllBelow(hi, lo, after)
  {
  }

  predicate AlignedOrEnd(at: nat, size: nat) { at == ChunkStart(Chunk(at)) || at == size }

  /** A stream that reaches the end of the file in blocks that begin on chunk boundaries. */
  predicate WholeStream(blocks: seq<nat>, at: nat, size: nat) {
    && AlignedOrEnd(at, size)
    && if blocks == [] then at == size else at + blocks[0] <= size && WholeStream(blocks[1..], at + blocks[0], size)
  }

  lemma {:induction false} WholeStreamStep(blocks: seq<nat>, i: nat, at: nat, size: nat)
    requires i < |blocks|
    ensures WholeStream(blocks[i..], at, size) ==>
              AlignedOrEnd(at, size) && at + blocks[i] <= size && WholeStream(blocks[i + 1..], at + blocks[i], size)
              && AlignedOrEnd(at + blocks[i], size)
  {
    assert blocks[i..][1..] == blocks[i + 1..];
  }

  lemma {:induction false} StreamReachesAll(first: nat, total: nat, size: nat, present: set<int>)
    requires total == ChunkCount(size) && forall d :: 0 <= d < first ==> d in present
    ensures AllBelow(size, ChunkStart(first), present) ==> forall c :: 0 <= c < total ==> c in present
  {
    forall c: nat | c < total
      ensures ChunkStart(c) < size
    {
    }
  }
}
