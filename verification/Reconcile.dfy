/** pkg/filesystem/reconcile.go, and reconcileEditAsync and seedFromLocal of fuse_directory.go: after a peer edit
    reset a file's bitmap, the chunks proven unchanged are marked present again. */
module Reconciles {
  import opened Bytes
  import opened Bitmaps
  import opened CacheFiles

  // ---------- what is kept ----------

  /** Go's map read: a missing entry is 0. */
  function Lookup(peerHashes: map<int, uint64>, c: int): (h: uint64) { if c in peerHashes then peerHashes[c] else 0 }

  /** Chunk `c` lies wholly in the first `commonEnd` bytes. */
  predicate InPrefix(c: int, commonEnd: int) { 0 <= c && ChunkStart(c + 1) <= commonEnd }

  /** reconcileBitmap keeps `c`, whose stored fingerprint is `fp`. */
  predicate Keeps(c: int, fp: Option<uint64>, commonEnd: int, peerHashes: map<int, uint64>) {
    InPrefix(c, commonEnd) && fp.Some? && Lookup(peerHashes, c) == fp.value
  }

  /** The peer answered with the fingerprints of the new version's chunks. */
  ghost predicate TrueAnswers(peerHashes: map<int, uint64>, peer: seq<byte>, hash: seq<byte> -> uint64) {
    forall c :: c in peerHashes && InPrefix(c, |peer|) ==> peerHashes[c] == hash(ChunkBytes(peer, |peer|, c))
  }

  /** No other content has the fingerprint of a chunk of `peer`. */
  ghost predicate Distinguishes(hash: seq<byte> -> uint64, peer: seq<byte>) {
    forall c, b :: InPrefix(c, |peer|) && hash(b) == hash(ChunkBytes(peer, |peer|, c)) ==> b == ChunkBytes(peer, |peer|, c)
  }

  /** Exactly when keeping a chunk is right: a chunk the peer answered for holds the new bytes on disk if and
      only if its stored fingerprint describes the disk. */
  lemma {:induction false} KeptIsRight(disk: seq<byte>, peer: seq<byte>, hash: seq<byte> -> uint64, peerHashes: map<int, uint64>,
                    c: int, fp: uint64, commonEnd: int)
    requires Distinguishes(hash, peer) && TrueAnswers(peerHashes, peer, hash) && commonEnd <= |peer|
    requires Keeps(c, Some(fp), commonEnd, peerHashes) && c in peerHashes
    ensures ChunkBytes(disk, |peer|, c) == ChunkBytes(peer, |peer|, c) <==> fp == hash(ChunkBytes(disk, |peer|, c))
  {
  }

  /** A chunk the peer's answer leaves out is kept exactly when its fingerprint is the zero placeholder, whatever its
      bytes: marking it then breaks the cache exactly when the disk does not hold the new version's. */
  lemma {:induction false} UnansweredKept(peer: seq<byte>, view: seq<byte>, s: Copy, peerHashes: map<int, uint64>, c: int,
                                          fp: uint64, commonEnd: int)
    requires Faithful(peer, view, s) && commonEnd <= |peer|
    requires InPrefix(c, commonEnd) && c !in peerHashes && c !in s.present
    ensures Keeps(c, Some(fp), commonEnd, peerHashes) && !Faithful(peer, view, s.(present := s.present + {c})) <==>
            fp == 0 && ChunkBytes(s.disk, |peer|, c) != ChunkBytes(peer, |peer|, c)
  {
    var marked := s.(present := s.present + {c});
    if ChunkBytes(s.disk, |peer|, c) == ChunkBytes(peer, |peer|, c) {
      SameChunk(s.disk, peer, c);
      assert forall p :: 0 <= p < |peer| && Chunk(p) == c ==> ChunkStart(c) <= p < ChunkStart(c + 1);
    } else if Faithful(peer, view, marked) {
      PresentChunkBytes(peer, view, marked, c);
      MissingChunkBytes(peer, view, s, c);
    }
  }

  /** A missing chunk of the overlay is the peer's. */
  lemma {:induction false} MissingChunkBytes(peer: seq<byte>, view: seq<byte>, s: Copy, c: int)
    requires Faithful(peer, view, s) && c !in s.present && InPrefix(c, |peer|)
    ensures ChunkBytes(view, |peer|, c) == ChunkBytes(peer, |peer|, c)
  {
    forall p | ChunkStart(c) <= p < ChunkStart(c + 1)
      ensures view[p] == peer[p]
    {
      assert Chunk(p) == c;
    }
  }

  // ---------- after a write into a complete copy ----------

  /** Every chunk of a complete copy carries the fingerprint of the bytes on disk. */
  ghost predicate Fingerprinted(s: Copy, size: nat, hash: seq<byte> -> uint64) {
    && s.prints.Some? && |s.prints.value| == ChunkCount(size)
    && forall c: nat :: c < ChunkCount(size) ==>
         c in s.present && s.prints.value[c] == hash(ChunkBytes(s.disk, size, c))
  }

  /** The app writes into a complete copy, which leaves the fingerprints as they were, and the peer's next version is
      reconciled: a chunk is kept although the disk does not hold it exactly when the peer's version has the bytes
      from before the write there and the write changed them. */
  lemma {:induction false} StaleKeptExactly(before: seq<byte>, s: Copy, w: AppWrite, peer: seq<byte>, hash: seq<byte> -> uint64,
                                            peerHashes: map<int, uint64>, c: nat)
    requires Fingerprinted(s, |before|, hash) && s.disk == before && CanTake(before, s, Pwrite(w))
    requires Distinguishes(hash, peer) && TrueAnswers(peerHashes, peer, hash)
    requires InPrefix(c, Min(|before|, |peer|)) && c in peerHashes
    ensures var s' := Take(before, s, Pwrite(w));
            && Keeps(c, PrintAt(s'.prints, s'.present, c), Min(|before|, |peer|), peerHashes)
            && ChunkBytes(s'.disk, |peer|, c) != ChunkBytes(peer, |peer|, c) <==>
            && ChunkBytes(peer, |peer|, c) == ChunkBytes(before, |before|, c)
            && ChunkBytes(s'.disk, |before|, c) != ChunkBytes(before, |before|, c)
  {
    hide Distinguishes, TrueAnswers;
    ChunkInSize(c, |before|);
    DistinctChunk(hash, peer, peerHashes, c, ChunkBytes(before, |before|, c));
  }

  lemma {:induction false} ChunkInSize(c: nat, size: nat)
    requires InPrefix(c, size)
    ensures c < ChunkCount(size)
  {
  }

  lemma {:induction false} DistinctChunk(hash: seq<byte> -> uint64, peer: seq<byte>, peerHashes: map<int, uint64>, c: int,
                                         chunk: seq<byte>)
    requires Distinguishes(hash, peer) && TrueAnswers(peerHashes, peer, hash) && InPrefix(c, |peer|) && c in peerHashes
    ensures peerHashes[c] == hash(chunk) <==> chunk == ChunkBytes(peer, |peer|, c)
  {
  }

  /** The smallest file whose edit is reconciled: 16 MiB, 32 chunks. */
  const MIN_SIZE: nat := 0x100_0000  // reconcileMinSize

  /** The fingerprints of the first `n` chunks, by chunk. */
  ghost function FirstPrints(file: seq<byte>, n: nat, hash: seq<byte> -> uint64): (m: map<int, uint64>)
    ensures forall c :: c in m <==> 0 <= c < n
    ensures forall c :: c in m ==> m[c] == hash(ChunkBytes(file, |file|, c))
  {
    if n == 0 then map[] else FirstPrints(file, n - 1, hash)[n - 1 := hash(ChunkBytes(file, |file|, n - 1))]
  }

  ghost function PrintList(file: seq<byte>, n: nat, hash: seq<byte> -> uint64): (r: seq<uint64>)
    ensures |r| == n && forall c: nat :: c < n ==> r[c] == hash(ChunkBytes(file, |file|, c))
  {
    if n == 0 then [] else PrintList(file, n - 1, hash) + [hash(ChunkBytes(file, |file|, n - 1))]
  }

  /** A complete, fingerprinted copy of 32 chunks of zeros; the app writes one byte, and the peer puts the zeros back.
      The first chunk is kept and holds the app's byte. */
  lemma {:induction false} RestoredBytesKeepStaleChunk(hash: seq<byte> -> uint64)
    returns (peer: seq<byte>, s: Copy, w: AppWrite, peerHashes: map<int, uint64>)
    ensures |peer| == MIN_SIZE && s.disk == peer && Fingerprinted(s, |peer|, hash) && Faithful(peer, peer, s)
    ensures CanTake(peer, s, Pwrite(w)) && TrueAnswers(peerHashes, peer, hash)
    ensures forall c :: InPrefix(c, |peer|) ==> c in peerHashes
    ensures var s' := Take(peer, s, Pwrite(w));
            && Keeps(0, PrintAt(s'.prints, s'.present, 0), |peer|, peerHashes)
            && ChunkBytes(s'.disk, |peer|, 0) != ChunkBytes(peer, |peer|, 0)
  {
    peer := seq(MIN_SIZE, _ => 0);
    assert ChunkCount(|peer|) == 32;
    peerHashes := FirstPrints(peer, 32, hash);
    s := Copy(peer, peerHashes.Keys, Some(PrintList(peer, 32, hash)));
    w := AppWrite(0, [1]);
    forall p | 0 <= p < |peer|
      ensures Chunk(p) in s.present
    {
    }
    forall c | InPrefix(c, |peer|)
      ensures c in peerHashes
    {
    }
    var s' := Take(peer, s, Pwrite(w));
    assert ChunkBytes(s'.disk, |peer|, 0)[0] == 1 && ChunkBytes(peer, |peer|, 0)[0] == 0;
  }

  // ---------- the bitmap that decides ----------

  /** Mark one chunk with its fingerprint; every other chunk keeps its own. */
  method MarkWithPrint(nb: ChunkBitmap, c: nat, h: uint64)
    requires nb.Valid() && c < nb.total
    requires forall d :: d in nb.Present() ==> nb.PrintOf(d).Some?
    modifies nb`have, nb`bits, nb`hashes
    ensures nb.Valid() && nb.Present() == old(nb.Present()) + {c} && nb.PrintOf(c) == Some(h)
    ensures forall d :: d in old(nb.Present()) && d != c ==> nb.PrintOf(d) == old(nb.PrintOf(d))
  {
    nb.Set(c);
    nb.SetHash(c, h);
  }

  /** The decision of a whole edit: a new bitmap that holds the kept chunks and nothing else, each with the print it
      had; null means that nothing can be kept. */
  method ReconcileBitmap(prev: ChunkBitmap?, oldSize: int, newSize: int, peerHashes: map<int, uint64>)
    returns (nb: ChunkBitmap?)
    requires prev != null ==> prev.Valid() && prev.chunkSize == CHUNK_SIZE
    ensures nb == null <==> prev == null || newSize <= 0 || prev.hashes.None? || peerHashes == map[]
    ensures nb != null ==>
              && fresh(nb) && nb.Valid() && nb.fileSize == newSize && nb.chunkSize == CHUNK_SIZE
              && (forall c :: c in nb.Present() <==> Keeps(c, prev.PrintOf(c), Min(oldSize, newSize), peerHashes))
              && (forall c :: c in nb.Present() ==> nb.PrintOf(c) == prev.PrintOf(c))
  {
    if prev == null || newSize <= 0 || prev.hashes.None? || |peerHashes| == 0 {
      return null;
    }
    ghost var prints, present := prev.hashes, prev.Present();
    nb := new ChunkBitmap(newSize, CHUNK_SIZE);
    var commonEnd := Min(oldSize, newSize);
    var c := 0;
    while ChunkStart(c + 1) <= commonEnd
      invariant 0 <= c && prev.Valid() && prev.hashes == prints && prev.Present() == present
      invariant nb.Valid()
      invariant KeptBelow(c, prints, present, nb.hashes, nb.Present(), commonEnd, peerHashes)
      decreases commonEnd - ChunkStart(c)
    {
      PrefixInFile(c, commonEnd, newSize);
      KeepTurn(nb, prev, c, prints, present, commonEnd, peerHashes);
      c := c + 1;
    }
  }

  /** The new bitmap holds exactly the kept chunks below `n`, with their fingerprints. */
  ghost predicate KeptBelow(n: int, prints: Option<seq<uint64>>, present: set<int>, newPrints: Option<seq<uint64>>,
                            newPresent: set<int>, commonEnd: int, peerHashes: map<int, uint64>)
  {
    && (forall d :: d in newPresent <==> d < n && Keeps(d, PrintAt(prints, present, d), commonEnd, peerHashes))
    && (forall d :: d in newPresent ==> PrintAt(newPrints, newPresent, d) == PrintAt(prints, present, d))
  }

  /** One turn of reconcileBitmap's loop. */
  method KeepTurn(nb: ChunkBitmap, prev: ChunkBitmap, c: nat, ghost prints: Option<seq<uint64>>,
                  ghost present: set<int>, ghost commonEnd: int, peerHashes: map<int, uint64>)
    requires nb.Valid() && c < nb.total && InPrefix(c, commonEnd)
    requires prev.Valid() && prev.hashes == prints && prev.Present() == present
    requires KeptBelow(c, prints, present, nb.hashes, nb.Present(), commonEnd, peerHashes)
    modifies nb`have, nb`bits, nb`hashes
    ensures nb.Valid() && KeptBelow(c + 1, prints, present, nb.hashes, nb.Present(), commonEnd, peerHashes)
  {
    var h, hasHash := prev.Hash(c);
    if hasHash && Lookup(peerHashes, c) == h {
      MarkWithPrint(nb, c, h);
    }
  }

  lemma {:induction false} PrefixInFile(c: int, commonEnd: int, size: nat)
    requires 0 <= c && ChunkStart(c + 1) <= commonEnd <= size
    ensures c < CeilDiv(size, CHUNK_SIZE)
    ensures ChunkStart(c) < ChunkStart(c + 1)
  {
  }

  // ---------- other goroutines' landings ----------

  /** What landings leave of a disk: every byte it had is still there or is the peer's. */
  ghost predicate Mixed(before: seq<byte>, after: seq<byte>, peer: seq<byte>) {
    && |before| <= |after|
    && forall p :: 0 <= p < |before| ==> after[p] == before[p] || (p < |peer| && after[p] == peer[p])
  }

  /** A chunk that held the peer's bytes still does. */
  lemma {:induction false} MixedKeepsChunk(before: seq<byte>, after: seq<byte>, peer: seq<byte>, c: int)
    requires Mixed(before, after, peer) && InPrefix(c, |peer|)
    requires ChunkBytes(before, |peer|, c) == ChunkBytes(peer, |peer|, c)
    ensures ChunkBytes(after, |peer|, c) == ChunkBytes(peer, |peer|, c)
  {
    var lo, hi := ChunkStart(c), ChunkStart(c + 1);
    assert |ChunkBytes(before, |peer|, c)| == hi - lo;
    forall p | lo <= p < hi
      ensures after[p] == peer[p]
    {
      assert ChunkBytes(before, |peer|, c)[p - lo] == before[p];
      assert ChunkBytes(peer, |peer|, c)[p - lo] == peer[p];
    }
  }

  lemma {:induction false} MixedSelf(disk: seq<byte>, peer: seq<byte>)
    ensures Mixed(disk, disk, peer)
  {
  }

  lemma {:induction false} MixedOn(a: seq<byte>, b: seq<byte>, c: seq<byte>, peer: seq<byte>)
    requires Mixed(a, b, peer) && Mixed(b, c, peer)
    ensures Mixed(a, c, peer)
  {
  }

  /** One landing step of some other goroutine: bytes of a missing chunk, whole or torn, and its mark once it
      is whole. `landed` is the chunk it marked. */
  method OtherLands(cf: CacheFile) returns (ghost landed: set<int>)
    requires cf.Valid()
    modifies cf`disk, cf`faults, cf.bm
    ensures cf.Valid() && Mixed(old(cf.disk), cf.disk, cf.peer) && old(cf.faults) <= cf.faults
    ensures cf.bm.Present() == old(cf.bm.Present()) + landed
  {
    landed := {};
    var c: nat := *;
    if c >= cf.bm.total {
      return;
    }
    var has := cf.bm.Has(c);
    if has {
      return;
    }
    ChunkBounds(c, |cf.peer|);
    var lo, hi := ChunkStart(c), Min(ChunkStart(c + 1), |cf.peer|);
    var n, ok := cf.WritePiece(cf.peer[lo..hi], lo);
    PieceMixes(old(cf.disk), cf.peer, lo, hi, n);
    if ok {
      cf.MarkWhole(c, cf.peer[lo..hi]);
      landed := {c};
    }
  }

  lemma {:induction false} ChunkBounds(c: nat, size: nat)
    requires c < ChunkCount(size)
    ensures 0 <= ChunkStart(c) < Min(ChunkStart(c + 1), size)
    ensures forall p :: ChunkStart(c) <= p < Min(ChunkStart(c + 1), size) ==> Chunk(p) == c
  {
  }

  /** Any prefix of a piece of the peer's file, written where it belongs. */
  lemma {:induction false} PieceMixes(disk: seq<byte>, peer: seq<byte>, lo: nat, hi: nat, n: nat)
    requires lo + n <= hi <= |peer|
    ensures Mixed(disk, WriteAt(disk, lo, peer[lo..hi][..n]), peer)
  {
    SliceOfSlice(peer, lo, hi, 0, n);
  }

  // ---------- the background job ----------

  /** Mark a chunk of the live bitmap whose bytes on disk are the new version's, unless a read landed it. */
  method MarkProven(cf: CacheFile, c: int, h: uint64)
    requires cf.Valid() && InPrefix(c, |cf.peer|)
    requires ChunkBytes(cf.disk, |cf.peer|, c) == ChunkBytes(cf.peer, |cf.peer|, c)
    requires h == cf.hash(ChunkBytes(cf.peer, |cf.peer|, c))
    modifies cf.bm
    ensures cf.Valid()
    ensures cf.bm.Present() == old(cf.bm.Present()) + {c}
    ensures cf.bm.hashes == if c in old(cf.bm.Present()) then old(cf.bm.hashes)
                            else WithPrint(old(cf.bm.hashes), cf.bm.total, c, h)
  {
    var has := cf.bm.Has(c);
    if !has {
      SameChunk(cf.disk, cf.peer, c);
      cf.MarkWhole(c, cf.peer[ChunkStart(c)..ChunkStart(c + 1)]);
    }
  }

  lemma {:induction false} SameChunk(disk: seq<byte>, peer: seq<byte>, c: int)
    requires InPrefix(c, |peer|) && ChunkBytes(disk, |peer|, c) == ChunkBytes(peer, |peer|, c)
    ensures ChunkStart(c) < ChunkStart(c + 1) <= |disk|
    ensures ChunkBytes(peer, |peer|, c) == peer[ChunkStart(c)..ChunkStart(c + 1)]
    ensures forall p :: ChunkStart(c) <= p < ChunkStart(c + 1) ==> disk[p] == peer[p]
  {
    var lo, hi := ChunkStart(c), ChunkStart(c + 1);
    assert |ChunkBytes(disk, |peer|, c)| == hi - lo;
    forall p | lo <= p < hi
      ensures disk[p] == peer[p]
    {
      assert ChunkBytes(disk, |peer|, c)[p - lo] == disk[p];
      assert ChunkBytes(peer, |peer|, c)[p - lo] == peer[p];
    }
  }

  /** Every stored fingerprint of the prefix describes the bytes the edit left on disk, or is the zero placeholder; and
      where it is zero, a peer's answer settles the chunk. */
  ghost predicate PrintsProve(prints: Option<seq<uint64>>, present: set<int>, commonEnd: int, peerHashes: map<int, uint64>,
                              disk: seq<byte>, size: nat, hash: seq<byte> -> uint64)
  {
    forall c :: InPrefix(c, commonEnd) && PrintAt(prints, present, c).Some? ==>
      var fp, h := PrintAt(prints, present, c).value, hash(ChunkBytes(disk, size, c));
      && (fp == h || fp == 0)
      && (fp == 0 ==> c in peerHashes && (peerHashes[c] != 0 || h == 0))
  }

  /** The bitmap of a valid copy of the replaced version meets this, placeholders included, when the edit left the
      common prefix on disk and the peer answers for all of it with nonzero fingerprints. */
  lemma {:induction false} ValidCopyProves(oldPeer: seq<byte>, view: seq<byte>, s: Copy, hash: seq<byte> -> uint64,
                                           disk: seq<byte>, size: nat, peerHashes: map<int, uint64>)
    requires Faithful(oldPeer, view, s) && TruePrints(view, |oldPeer|, s, hash)
    requires |disk| >= Min(|s.disk|, Min(|oldPeer|, size))
    requires forall p :: 0 <= p < Min(|s.disk|, Min(|oldPeer|, size)) ==> disk[p] == s.disk[p]
    requires forall c :: InPrefix(c, Min(|oldPeer|, size)) ==> c in peerHashes && peerHashes[c] != 0
    ensures PrintsProve(s.prints, s.present, Min(|oldPeer|, size), peerHashes, disk, size, hash)
  {
    forall c | InPrefix(c, Min(|oldPeer|, size)) && c in s.present
      ensures ChunkBytes(disk, size, c) == ChunkBytes(view, |oldPeer|, c)
    {
      PresentChunkBytes(oldPeer, view, s, c);
      var lo, hi := ChunkStart(c), ChunkStart(c + 1);
      assert |ChunkBytes(s.disk, |oldPeer|, c)| == hi - lo;
      assert ChunkBytes(disk, size, c) == ChunkBytes(s.disk, |oldPeer|, c);
    }
  }

  /** A decision the job may act on: the fingerprint is the peer's, and the disk's. */
  ghost predicate Proven(c: int, fp: Option<uint64>, commonEnd: nat, peerHashes: map<int, uint64>, chunk: seq<byte>,
                         hash: seq<byte> -> uint64)
  {
    Keeps(c, fp, commonEnd, peerHashes) && c in peerHashes && fp.value == hash(chunk)
  }

  /** One turn of the marking loop. */
  method ReconcileChunk(cf: CacheFile, decided: ChunkBitmap, c: nat, ghost chosen: set<int>,
                        ghost prints: Option<seq<uint64>>, ghost disk: seq<byte>, ghost commonEnd: nat,
                        ghost peerHashes: map<int, uint64>)
    returns (ghost landed: set<int>)
    requires cf.Valid() && decided.Valid() && decided != cf.bm && commonEnd <= |cf.peer|
    requires Distinguishes(cf.hash, cf.peer) && TrueAnswers(peerHashes, cf.peer, cf.hash)
    requires Mixed(disk, cf.disk, cf.peer)
    requires decided.Present() == chosen && decided.hashes == prints
    requires c in chosen ==>
               Proven(c, PrintAt(prints, chosen, c), commonEnd, peerHashes, ChunkBytes(disk, |cf.peer|, c), cf.hash)
    modifies cf`disk, cf`faults, cf.bm
    ensures cf.Valid() && Mixed(disk, cf.disk, cf.peer)
    ensures cf.bm.Present() == old(cf.bm.Present()) + landed + if c in chosen then {c} else {}
  {
    hide Mixed, ChunkBytes, Distinguishes, TrueAnswers, WithPrint;
    ghost var before := cf.disk;
    landed := OtherLands(cf);
    MixedOn(disk, before, cf.disk, cf.peer);
    var has := decided.Has(c);
    if has {
      var h, ok := decided.Hash(c);
      KeptIsRight(disk, cf.peer, cf.hash, peerHashes, c, h, commonEnd);
      MixedKeepsChunk(disk, cf.disk, cf.peer, c);
      MarkProven(cf, c, h);
    }
  }

  /** The members of `s` below `n`. */
  ghost function Below(s: set<int>, n: nat): (r: set<int>)
    ensures forall d :: d in r <==> d in s && 0 <= d < n
  {
    if n == 0 then {} else Below(s, n - 1) + if n - 1 in s then {n - 1} else {}
  }

  /** Every chosen chunk lies in the common prefix and is proven. */
  ghost predicate AllProven(chosen: set<int>, prints: Option<seq<uint64>>, commonEnd: nat, peerHashes: map<int, uint64>,
                            disk: seq<byte>, size: nat, hash: seq<byte> -> uint64)
  {
    forall c :: c in chosen ==>
      0 <= c < Chunk(commonEnd)
      && Proven(c, PrintAt(prints, chosen, c), commonEnd, peerHashes, ChunkBytes(disk, size, c), hash)
  }

  /** The marking loop: every decided chunk becomes present, beside what other goroutines land meanwhile. */
  method MarkDecided(cf: CacheFile, decided: ChunkBitmap, ghost chosen: set<int>, commonEnd: nat,
                     ghost peerHashes: map<int, uint64>)
    returns (ghost landed: set<int>)
    requires cf.Valid() && decided.Valid() && decided != cf.bm && commonEnd <= |cf.peer|
    requires Distinguishes(cf.hash, cf.peer) && TrueAnswers(peerHashes, cf.peer, cf.hash)
    requires decided.Present() == chosen
    requires AllProven(chosen, decided.hashes, commonEnd, peerHashes, cf.disk, |cf.peer|, cf.hash)
    modifies cf`disk, cf`faults, cf.bm
    ensures cf.Valid() && cf.bm.Present() == old(cf.bm.Present()) + chosen + landed
  {
    hide Mixed, ChunkBytes, Distinguishes, TrueAnswers, Proven, Faithful, TruePrints;
    ghost var disk, prints, present0 := cf.disk, decided.hashes, cf.bm.Present();
    MixedSelf(disk, cf.peer);
    landed := {};
    var c: nat := 0;
    while c < Chunk(commonEnd)
      invariant cf.Valid() && Mixed(disk, cf.disk, cf.peer)
      invariant decided.Valid() && decided.Present() == chosen && decided.hashes == prints
      invariant cf.bm.Present() == present0 + Below(chosen, c) + landed
    {
      ghost var more := ReconcileChunk(cf, decided, c, chosen, prints, disk, commonEnd, peerHashes);
      UnionStep(present0, chosen, landed, more, c);
      landed := landed + more;
      c := c + 1;
    }
    BelowAll(chosen, c);
  }

  lemma {:induction false} BelowAll(s: set<int>, n: nat)
    requires forall c :: c in s ==> 0 <= c < n
    ensures Below(s, n) == s
  {
  }

  lemma {:induction false} UnionStep(present: set<int>, chosen: set<int>, landed: set<int>, more: set<int>, c: nat)
    ensures present + Below(chosen, c) + landed + more + (if c in chosen then {c} else {})
            == present + Below(chosen, c + 1) + (landed + more)
  {
  }

  /** The fingerprint path of reconcileEditAsync, on the live copy of the new version. It adds exactly the kept
      chunks to what other goroutines land, and the cache stays faithful to the new version. What is kept holds the
      new version's bytes, and of the chunks with a true fingerprint that the peer answered for, all that do are kept. */
  method ReconcileByPrints(cf: CacheFile, prev: ChunkBitmap, oldSize: nat, peerHashes: map<int, uint64>)
    returns (ghost kept: set<int>, ghost landed: set<int>)
    requires cf.Valid() && prev.Valid() && prev.chunkSize == CHUNK_SIZE && prev != cf.bm
    requires Distinguishes(cf.hash, cf.peer) && TrueAnswers(peerHashes, cf.peer, cf.hash)
    requires PrintsProve(prev.hashes, prev.Present(), Min(oldSize, |cf.peer|), peerHashes, cf.disk, |cf.peer|, cf.hash)
    modifies cf`disk, cf`faults, cf.bm
    ensures cf.Valid() && cf.bm.Present() == old(cf.bm.Present()) + kept + landed
    ensures prev.hashes.None? ==> kept == {}
    ensures prev.hashes.Some? ==>
              forall c :: c in kept <==> Keeps(c, prev.PrintOf(c), Min(oldSize, |cf.peer|), peerHashes)
    ensures forall c :: c in kept ==> InPrefix(c, Min(oldSize, |cf.peer|))
                                      && ChunkBytes(old(cf.disk), |cf.peer|, c) == ChunkBytes(cf.peer, |cf.peer|, c)
    ensures forall c :: c in peerHashes && InPrefix(c, Min(oldSize, |cf.peer|))
                        && Describes(prev.PrintOf(c), ChunkBytes(old(cf.disk), |cf.peer|, c), cf.hash) ==>
                          (c in kept <==> ChunkBytes(old(cf.disk), |cf.peer|, c) == ChunkBytes(cf.peer, |cf.peer|, c))
  {
    kept, landed := {}, {};
    var commonEnd := Min(oldSize, |cf.peer|);
    var decided := ReconcileBitmap(prev, oldSize, |cf.peer|, peerHashes);
    if decided == null {
      return;
    }
    kept := decided.Present();
    KeptAreProven(kept, prev.hashes, prev.Present(), decided.hashes, commonEnd, peerHashes, cf.disk, cf.peer, cf.hash);
    landed := MarkDecided(cf, decided, kept, commonEnd, peerHashes);
  }

  /** A stored fingerprint is that of `chunk`. */
  ghost predicate Describes(fp: Option<uint64>, chunk: seq<byte>, hash: seq<byte> -> uint64) { fp == Some(hash(chunk)) }

  lemma {:induction false} KeptAreProven(kept: set<int>, prints: Option<seq<uint64>>, present: set<int>,
                                         newPrints: Option<seq<uint64>>, commonEnd: nat, peerHashes: map<int, uint64>,
                                         disk: seq<byte>, peer: seq<byte>, hash: seq<byte> -> uint64)
    requires Distinguishes(hash, peer) && TrueAnswers(peerHashes, peer, hash) && commonEnd <= |peer|
    requires PrintsProve(prints, present, commonEnd, peerHashes, disk, |peer|, hash)
    requires forall c :: c in kept <==> Keeps(c, PrintAt(prints, present, c), commonEnd, peerHashes)
    requires forall c :: c in kept ==> PrintAt(newPrints, kept, c) == PrintAt(prints, present, c)
    ensures AllProven(kept, newPrints, commonEnd, peerHashes, disk, |peer|, hash)
    ensures forall c :: c in kept ==> ChunkBytes(disk, |peer|, c) == ChunkBytes(peer, |peer|, c)
    ensures forall c :: c in peerHashes && InPrefix(c, commonEnd)
                        && Describes(PrintAt(prints, present, c), ChunkBytes(disk, |peer|, c), hash) ==>
                          (c in kept <==> ChunkBytes(disk, |peer|, c) == ChunkBytes(peer, |peer|, c))
  {
    hide ChunkBytes, Distinguishes, TrueAnswers;
    forall c | c in kept
      ensures ChunkBytes(disk, |peer|, c) == ChunkBytes(peer, |peer|, c)
      ensures 0 <= c < Chunk(commonEnd)
      ensures Proven(c, PrintAt(newPrints, kept, c), commonEnd, peerHashes, ChunkBytes(disk, |peer|, c), hash)
    {
      assert Keeps(c, PrintAt(prints, present, c), commonEnd, peerHashes);
      KeptIsRight(disk, peer, hash, peerHashes, c, PrintAt(prints, present, c).value, commonEnd);
    }
    forall c | c in peerHashes && InPrefix(c, commonEnd)
               && Describes(PrintAt(prints, present, c), ChunkBytes(disk, |peer|, c), hash)
      ensures c in kept <==> ChunkBytes(disk, |peer|, c) == ChunkBytes(peer, |peer|, c)
    {
      DistinctChunk(hash, peer, peerHashes, c, ChunkBytes(disk, |peer|, c));
    }
  }

  // ---------- seeding from a local file ----------

  /** The cache file is pre-allocated to the size of the version. */
  method Preallocate(cf: CacheFile)
    requires cf.Valid()
    modifies cf`disk
    ensures cf.Valid() && Mixed(old(cf.disk), cf.disk, cf.peer)
  {
    if |cf.disk| < |cf.peer| {
      cf.disk := cf.disk + seq(|cf.peer| - |cf.disk|, _ => 0);
    }
  }

  /** Copy a chunk proven equal to the new version's into the cache copy, when the seed is another file. */
  method CopyChunk(cf: CacheFile, c: nat, buf: seq<byte>) returns (ok: bool)
    requires cf.Valid() && InPrefix(c, |cf.peer|) && c !in cf.bm.Present()
    requires buf == ChunkBytes(cf.peer, |cf.peer|, c)
    modifies cf`disk, cf`faults
    ensures cf.Valid() && Mixed(old(cf.disk), cf.disk, cf.peer)
    ensures old(cf.faults) <= cf.faults && (ok <==> cf.faults == old(cf.faults))
    ensures ok ==> ChunkBytes(cf.disk, |cf.peer|, c) == buf
  {
    ghost var before := cf.disk;
    ChunkBounds(c, |cf.peer|);
    var lo, hi := ChunkStart(c), ChunkStart(c + 1);
    assert buf == cf.peer[lo..hi];
    var n;
    n, ok := cf.WritePiece(buf, lo);
    PieceMixes(before, cf.peer, lo, hi, n);
    if ok {
      assert ChunkBytes(cf.disk, |cf.peer|, c) == buf;
    }
  }

  /** The chunk is a candidate, since the peer answered for it and the replaced version's bitmap, if any, had
      it, and the local bytes at `source` are the new version's. */
  ghost predicate Provable(c: int, prev: Option<set<int>>, source: seq<byte>, prefix: int, peerHashes: map<int, uint64>,
                           peer: seq<byte>)
  {
    && InPrefix(c, prefix) && (prev.Some? ==> c in prev.value) && c in peerHashes
    && ChunkBytes(source, |peer|, c) == ChunkBytes(peer, |peer|, c)
  }

  /** The bytes of one chunk of the seed: another file, or the cache copy itself. */
  method SeedRead(cf: CacheFile, seed: Option<seq<byte>>, c: nat) returns (buf: seq<byte>, ok: bool)
    modifies cf`faults
    ensures ok ==> buf == ChunkBytes(if seed.Some? then seed.value else cf.disk, |cf.peer|, c)
    ensures cf.faults == old(cf.faults) + if ok then 0 else 1
  {
    if seed.None? {
      buf, ok := cf.FileReadChunk(c);
      return;
    }
    ok := *;
    buf := if ok then ChunkBytes(seed.value, |cf.peer|, c) else [];
    cf.faults := cf.faults + if ok then 0 else 1;
  }

  /** One turn of seedFromLocal's loop: a candidate whose local bytes have the peer's fingerprint is copied when
      the seed is another file, and marked. `go` is false when a read or a write failed. */
  method SeedChunk(cf: CacheFile, seed: Option<seq<byte>>, c: nat, want: uint64) returns (go: bool)
    requires cf.Valid() && InPrefix(c, |cf.peer|)
    requires Distinguishes(cf.hash, cf.peer) && want == cf.hash(ChunkBytes(cf.peer, |cf.peer|, c))
    modifies cf`disk, cf`faults, cf.bm
    ensures cf.Valid() && Mixed(old(cf.disk), cf.disk, cf.peer)
    ensures old(cf.faults) <= cf.faults && (go <==> cf.faults == old(cf.faults))
    ensures cf.bm.Present() == old(cf.bm.Present()) || cf.bm.Present() == old(cf.bm.Present()) + {c}
    ensures ChunkBytes(if seed.Some? then seed.value else old(cf.disk), |cf.peer|, c) != ChunkBytes(cf.peer, |cf.peer|, c)
            || !go || c in cf.bm.Present()
  {
    var has := cf.bm.Has(c);
    if has {
      return true;
    }
    var buf, readOk := SeedRead(cf, seed, c);
    if !readOk {
      return false;
    }
    if |buf| != CHUNK_SIZE || cf.hash(buf) != want {
      assert |ChunkBytes(cf.peer, |cf.peer|, c)| == CHUNK_SIZE;
      return true;
    }
    go := true;
    if seed.Some? {
      go := CopyChunk(cf, c, buf);
    }
    if go {
      MarkProven(cf, c, want);
    }
  }

  /** The chunks the replaced version's bitmap had; None when the whole file at the seed was that version. */
  ghost function Had(prev: ChunkBitmap?): (s: Option<set<int>>)
    requires prev != null ==> prev.Valid()
    reads prev
  {
    if prev == null then None else Some(prev.Present())
  }

  /** The whole turn: other goroutines land first, then the chunk is tried when it is a candidate. */
  method SeedTurn(cf: CacheFile, prev: ChunkBitmap?, seed: Option<seq<byte>>, c: nat, prefix: nat,
                  peerHashes: map<int, uint64>, ghost had: Option<set<int>>, ghost disk: seq<byte>)
    returns (go: bool)
    requires cf.Valid() && InPrefix(c, prefix) && prefix <= |cf.peer| && prev != cf.bm
    requires (prev != null ==> prev.Valid()) && Had(prev) == had
    requires Distinguishes(cf.hash, cf.peer) && TrueAnswers(peerHashes, cf.peer, cf.hash)
    requires Mixed(disk, cf.disk, cf.peer)
    modifies cf`disk, cf`faults, cf.bm
    ensures cf.Valid() && Mixed(disk, cf.disk, cf.peer)
    ensures old(cf.bm.Present()) <= cf.bm.Present()
    ensures old(cf.faults) <= cf.faults && (cf.faults == old(cf.faults) ==> go)
    ensures go && Provable(c, had, seed.UnwrapOr(disk), prefix, peerHashes, cf.peer) ==> c in cf.bm.Present()
  {
    hide Faithful, TruePrints, Mixed, Distinguishes, ChunkBytes;
    go := true;
    ghost var d0 := cf.disk;
    var candidate := c in peerHashes;
    if candidate && prev != null {
      candidate := prev.Has(c);
    }
    if candidate {
      ghost var more := OtherLands(cf);
      ghost var d1 := cf.disk;
      MixedOn(disk, d0, d1, cf.peer);
      if ChunkBytes(disk, |cf.peer|, c) == ChunkBytes(cf.peer, |cf.peer|, c) {
        MixedKeepsChunk(disk, cf.disk, cf.peer, c);
      }
      go := SeedChunk(cf, seed, c, peerHashes[c]);
      MixedOn(disk, d1, cf.disk, cf.peer);
    }
  }

  /** seedFromLocal: hash the replaced version's bytes, in place or at another file, and keep what the peer's
      fingerprints prove. Sound whatever the seed holds; and when nothing fails, every chunk provable from it
      is kept. `stopAt` is the chunk before which it sees the mount stop (0 also when a file cannot be opened). */
  method SeedFromLocal(cf: CacheFile, prev: ChunkBitmap?, seed: Option<seq<byte>>, prefix: nat,
                       peerHashes: map<int, uint64>, stopAt: Option<nat>)
    returns (done: bool)
    requires cf.Valid() && prefix <= |cf.peer| && prev != cf.bm
    requires prev != null ==> prev.Valid()
    requires Distinguishes(cf.hash, cf.peer) && TrueAnswers(peerHashes, cf.peer, cf.hash)
    modifies cf`disk, cf`faults, cf.bm
    ensures cf.Valid() && old(cf.bm.Present()) <= cf.bm.Present()
    // It gives up only when a read of the seed or a write of the cache copy failed, or the mount stops.
    ensures old(cf.faults) <= cf.faults && (cf.faults == old(cf.faults) && stopAt.None? ==> done)
    ensures done ==>
              forall c :: Provable(c, Had(prev), seed.UnwrapOr(old(cf.disk)), prefix, peerHashes, cf.peer) ==>
                            c in cf.bm.Present()
  {
    ghost var disk, present0 := cf.disk, cf.bm.Present();
    ghost var had := Had(prev);
    var commonEnd: nat := Min(prefix, |seed.UnwrapOr(cf.disk)|);
    if seed.Some? {
      Preallocate(cf);
    }
    done := true;
    var c: nat := 0;
    while ChunkStart(c + 1) <= commonEnd && done
      invariant cf.Valid() && Mixed(disk, cf.disk, cf.peer)
      invariant (prev != null ==> prev.Valid()) && Had(prev) == had
      invariant present0 <= cf.bm.Present()
      invariant old(cf.faults) <= cf.faults && (cf.faults == old(cf.faults) && stopAt.None? ==> done)
      invariant done ==> SeededBelow(c, had, seed.UnwrapOr(disk), prefix, peerHashes, cf.peer, cf.bm.Present())
      decreases commonEnd - ChunkStart(c)
    {
      if stopAt == Some(c) {
        return false;
      }
      ghost var present := cf.bm.Present();
      done := SeedTurn(cf, prev, seed, c, prefix, peerHashes, had, disk);
      if done { SeededNext(c, had, seed.UnwrapOr(disk), prefix, peerHashes, cf.peer, present, cf.bm.Present()); }
      c := c + 1;
    }
    if done {
      ShortSeed(c, commonEnd, had, seed.UnwrapOr(disk), prefix, peerHashes, cf.peer, cf.bm.Present());
    }
  }

  /** What seedFromLocal promises, for the chunks below `n`. */
  ghost predicate SeededBelow(n: int, prev: Option<set<int>>, source: seq<byte>, prefix: int,
                              peerHashes: map<int, uint64>, peer: seq<byte>, present: set<int>)
  {
    forall c :: c < n && Provable(c, prev, source, prefix, peerHashes, peer) ==> c in present
  }

  lemma {:induction false} SeededNext(n: int, prev: Option<set<int>>, source: seq<byte>, prefix: int, peerHashes: map<int, uint64>,
                   peer: seq<byte>, present: set<int>, present': set<int>)
    requires SeededBelow(n, prev, source, prefix, peerHashes, peer, present) && present <= present'
    requires Provable(n, prev, source, prefix, peerHashes, peer) ==> n in present'
    ensures SeededBelow(n + 1, prev, source, prefix, peerHashes, peer, present')
  {
  }

  /** A chunk that the seed is too short to hold is not the new version's. */
  lemma {:induction false} ShortSeed(n: int, commonEnd: int, prev: Option<set<int>>, source: seq<byte>, prefix: int,
                  peerHashes: map<int, uint64>, peer: seq<byte>, present: set<int>)
    requires ChunkStart(n + 1) > commonEnd == Min(prefix, |source|) && prefix <= |peer|
    requires SeededBelow(n, prev, source, prefix, peerHashes, peer, present)
    ensures forall c :: Provable(c, prev, source, prefix, peerHashes, peer) ==> c in present
  {
    forall c | n <= c && InPrefix(c, prefix)
      ensures !Provable(c, prev, source, prefix, peerHashes, peer)
    {
      assert |ChunkBytes(peer, |peer|, c)| == CHUNK_SIZE;
      assert |ChunkBytes(source, |peer|, c)| < CHUNK_SIZE;
    }
  }
}
