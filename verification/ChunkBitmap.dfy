/** pkg/filesystem/download.go: the chunk bitmap of one cached file, refining a set of chunk indices. */
module Bitmaps {
  import opened Bytes

  const CHUNK_SIZE: int := 0x8_0000  // 512 KiB

  // ---------- chunk arithmetic ----------

  /** The chunk that byte `p` lies in. */
  function ChunkOf(p: nat, chunkSize: nat): (c: nat)
    requires chunkSize > 0
  {
    p / chunkSize
  }

  function CeilDiv(n: nat, d: nat): (q: nat)
    requires d > 0
  {
    (n + d - 1) / d
  }

  lemma {:induction false} DivBounds(p: nat, d: nat)
    requires d > 0
    ensures (p / d) * d <= p < (p / d) * d + d
  {
  }

  lemma {:induction false} MulMonotone(a: int, b: int, d: nat)
    requires a <= b
    ensures a * d <= b * d
  {
  }

  lemma {:induction false} DivUnique(p: nat, d: nat, c: nat)
    requires d > 0 && c * d <= p < c * d + d
    ensures p / d == c
  {
    DivBounds(p, d);
    if p / d < c { MulMonotone(p / d + 1, c, d); }
    if c < p / d { MulMonotone(c + 1, p / d, d); }
  }

  lemma {:induction false} DivMonotone(a: nat, b: nat, d: nat)
    requires d > 0 && a <= b
    ensures a / d <= b / d
  {
    DivBounds(a, d);
    DivBounds(b, d);
    if b / d < a / d { MulMonotone(b / d + 1, a / d, d); }
  }

  /** `CeilDiv(n, d)` chunks of `d` bytes are exactly enough for `n` bytes. */
  lemma {:induction false} CeilDivCovers(n: nat, d: nat, c: nat)
    requires d > 0
    ensures c < CeilDiv(n, d) <==> c * d < n
  {
    DivBounds(n + d - 1, d);
    var q := CeilDiv(n, d);
    if c < q { MulMonotone(c + 1, q, d); } else { MulMonotone(q, c, d); }
  }

  /** The chunk of the default size that byte `p` lies in. */
  function Chunk(p: int): (c: int) { p / 0x8_0000 }

  /** The first byte of chunk `c` of the default size. */
  function ChunkStart(c: int): (p: int) { c * 0x8_0000 }

  /** The number of chunks of the default size that a file needs. */
  function ChunkCount(size: int): (n: int) { (size + 0x7_FFFF) / 0x8_0000 }

  // ---------- one 64-bit word ----------

  /** Bit `k` of `w`: Go's `w & (1 << k) != 0`. */
  predicate Bit(w: nat, k: nat) {
    if k == 0 then w % 2 == 1 else Bit(w / 2, k - 1)
  }

  /** Go's `w | 1 << k`. */
  function WithBit(w: nat, k: nat): (r: nat) {
    if k == 0 then w / 2 * 2 + 1 else w % 2 + 2 * WithBit(w / 2, k - 1)
  }

  lemma {:induction false} BitAfterSet(w: nat, i: nat, j: nat)
    ensures Bit(WithBit(w, i), j) <==> i == j || Bit(w, j)
  {
    if i > 0 {
      assert WithBit(w, i) / 2 == WithBit(w / 2, i - 1);
      if j > 0 { BitAfterSet(w / 2, i - 1, j - 1); }
    }
  }

  lemma {:induction false} ZeroHasNoBits(k: nat)
    ensures !Bit(0, k)
  {
    if k > 0 { ZeroHasNoBits(k - 1); }
  }

  function Pow2(n: nat): (r: nat)
    ensures r > 0
  {
    if n == 0 then 1 else 2 * Pow2(n - 1)
  }

  lemma {:induction false} Pow2Plus4(n: nat)
    ensures Pow2(n + 4) == 16 * Pow2(n)
  {
    assert Pow2(n + 4) == 2 * Pow2(n + 3) == 4 * Pow2(n + 2) == 8 * Pow2(n + 1);
  }

  lemma {:induction false} Pow2Plus16(n: nat)
    ensures Pow2(n + 16) == 0x1_0000 * Pow2(n)
  {
    Pow2Plus4(n);
    Pow2Plus4(n + 4);
    Pow2Plus4(n + 8);
    Pow2Plus4(n + 12);
  }

  /** Setting one of the low `n` bits keeps a word in `n` bits. */
  lemma {:induction false} WithBitFits(w: nat, k: nat, n: nat)
    requires w < Pow2(n) && k < n
    ensures WithBit(w, k) < Pow2(n)
  {
    if k > 0 { WithBitFits(w / 2, k - 1, n - 1); }
  }

  lemma {:induction false} WordWidth(n: nat)
    requires n == 64
    ensures Pow2(n) == TWO_64
  {
    Pow2Plus16(n - 16);
    Pow2Plus16(n - 32);
    Pow2Plus16(n - 48);
    Pow2Plus16(n - 64);
  }

  lemma {:induction false} WordFits(w: uint64, k: nat)
    requires k < 64
    ensures WithBit(w, k) < TWO_64
  {
    var n := 64;
    WordWidth(n);
    WithBitFits(w, k, n);
  }

  function WordCount(total: nat): (n: nat)
    ensures total <= 64 * n
  {
    (total + 63) / 64
  }

  predicate BitAt(words: seq<uint64>, c: nat)
    requires c < 64 * |words|
  {
    Bit(words[c / 64], c % 64)
  }

  /** The set of chunk indices the bit words stand for. */
  function Indices(words: seq<uint64>, total: nat): (s: set<int>)
    requires total <= 64 * |words|
  {
    if total == 0 then {}
    else Indices(words, total - 1) + if BitAt(words, total - 1) then {total - 1} else {}
  }

  lemma {:induction false} InIndices(words: seq<uint64>, total: nat, c: int)
    requires total <= 64 * |words|
    ensures c in Indices(words, total) <==> 0 <= c < total && BitAt(words, c)
  {
    if total > 0 { InIndices(words, total - 1, c); }
  }

  lemma {:induction false} IndicesInRange(words: seq<uint64>, total: nat)
    requires total <= 64 * |words|
    ensures Indices(words, total) <= Interval(0, total)
  {
    forall c | c in Indices(words, total)
      ensures c in Interval(0, total)
    {
      InIndices(words, total, c);
    }
  }

  lemma {:induction false} IndicesAfterSet(words: seq<uint64>, total: nat, c: nat)
    requires total <= 64 * |words| && c < total
    ensures WithBit(words[c / 64], c % 64) < TWO_64
    ensures Indices(words[c / 64 := WithBit(words[c / 64], c % 64)], total) == Indices(words, total) + {c}
  {
    WordFits(words[c / 64], c % 64);
    var after := words[c / 64 := WithBit(words[c / 64], c % 64)];
    forall x
      ensures x in Indices(after, total) <==> x == c || x in Indices(words, total)
    {
      InIndices(words, total, x);
      InIndices(after, total, x);
      if 0 <= x < total { BitAfterSet(words[c / 64], c % 64, x % 64); }
    }
  }

  // ---------- sets of chunks ----------

  /** The integers in [lo, hi). */
  function Interval(lo: int, hi: int): (s: set<int>)
    ensures forall c :: c in s <==> lo <= c < hi
    ensures |s| == if lo < hi then hi - lo else 0
    decreases hi - lo
  {
    if hi <= lo then {} else Interval(lo, hi - 1) + {hi - 1}
  }

  lemma {:induction false} SubsetSize<T>(a: set<T>, b: set<T>)
    requires a <= b
    ensures |a| <= |b| && (|a| == |b| ==> a == b)
  {
    assert b == a + (b - a);
  }

  /** Counting tells completeness: a set of chunks has `total` members exactly when none is missing. */
  lemma {:induction false} FullBySize(s: set<int>, total: nat)
    requires s <= Interval(0, total)
    ensures |s| <= total
    ensures |s| == total <==> s == Interval(0, total)
  {
    SubsetSize(s, Interval(0, total));
  }

  /** The chunks a byte range touches, first to last. */
  function Touched(offset: nat, size: int, chunkSize: nat): (s: set<int>)
    requires chunkSize > 0
  {
    if size <= 0 then {} else Interval(ChunkOf(offset, chunkSize), ChunkOf(offset + size - 1, chunkSize) + 1)
  }

  /** `Touched` by its meaning: a chunk is touched exactly when one of the range's bytes lies in it. */
  lemma {:induction false} TouchedByBytes(offset: nat, size: int, chunkSize: nat, c: int)
    requires chunkSize > 0
    ensures c in Touched(offset, size, chunkSize) <==>
            exists p: nat :: offset <= p < offset + size && ChunkOf(p, chunkSize) == c
  {
    if size > 0 {
      var last := offset + size - 1;
      if offset / chunkSize <= c <= last / chunkSize {
        ChunkHasByte(offset, last, chunkSize, c);
      }
      forall p: nat | offset <= p < offset + size && ChunkOf(p, chunkSize) == c
        ensures c in Touched(offset, size, chunkSize)
      {
        DivMonotone(offset, p, chunkSize);
        DivMonotone(p, last, chunkSize);
      }
    }
  }

  lemma {:induction false} ChunkHasByte(first: nat, last: nat, chunkSize: nat, c: nat)
    requires chunkSize > 0 && first <= last && first / chunkSize <= c <= last / chunkSize
    ensures exists p: nat :: first <= p < last + 1 && ChunkOf(p, chunkSize) == c
  {
    DivBounds(first, chunkSize);
    DivBounds(last, chunkSize);
    if c == first / chunkSize {
      assert ChunkOf(first, chunkSize) == c;
    } else {
      MulMonotone(first / chunkSize + 1, c, chunkSize);
      MulMonotone(c, last / chunkSize, chunkSize);
      DivUnique(c * chunkSize, chunkSize, c);
      assert ChunkOf(c * chunkSize, chunkSize) == c;
    }
  }

  /** For the default chunk size, by where chunks begin. */
  lemma {:induction false} TouchedChunks(offset: nat, size: int, c: int)
    ensures c in Touched(offset, size, CHUNK_SIZE) <==> size > 0 && Chunk(offset) <= c <= Chunk(offset + size - 1)
    ensures offset == ChunkStart(Chunk(offset)) ==>
              (c in Touched(offset, size, CHUNK_SIZE) <==> offset <= ChunkStart(c) < offset + size)
  {
  }

  /** Every chunk that begins in [from, upTo) is present. */
  ghost predicate AllBelow(upTo: int, from: int, present: set<int>) {
    forall c :: from <= ChunkStart(c) < upTo ==> c in present
  }

  // ---------- the bitmap ----------

  /** The fingerprint slice after SetHash: allocated on first use, every other entry kept. */
  function WithPrint(prints: Option<seq<uint64>>, total: nat, c: nat, h: uint64): (r: Option<seq<uint64>>)
    requires prints.Some? ==> |prints.value| == total
    requires c < total
  {
    Some((if prints.Some? then prints.value else seq(total, _ => 0))[c := h])
  }

  /** The fingerprint of a present chunk, once there are fingerprints. */
  ghost function PrintAt(prints: Option<seq<uint64>>, present: set<int>, c: int): (r: Option<uint64>) {
    if prints.None? || c !in present || c < 0 || c >= |prints.value| then None else Some(prints.value[c])
  }

  class ChunkBitmap {
    var bits: seq<uint64>
    var hashes: Option<seq<uint64>>  // per-chunk fingerprints, None (nil) until the first SetHash
    const total: nat
    var have: int
    const fileSize: int
    const chunkSize: int

    /** The chunks are as many as the file needs. */
    predicate Sized() { fileSize > 0 && chunkSize > 0 && total == CeilDiv(fileSize, chunkSize) }

    ghost predicate Valid()
      reads this
    {
      && chunkSize > 0 && |bits| == WordCount(total)
      && (hashes.Some? ==> |hashes.value| == total)
      && have == |Present()|
    }

    /** The downloaded chunks. */
    ghost function Present(): (s: set<int>)
      requires total <= 64 * |bits|
      reads this
    {
      Indices(bits, total)
    }

    /** What `Hash(c)` answers: Some exactly for a present chunk once fingerprints exist. */
    ghost function PrintOf(c: int): (r: Option<uint64>)
      requires Valid()
      reads this
    {
      PrintAt(hashes, Present(), c)
    }

    constructor (size: int, cs: int)
      requires size > 0 && cs > 0
      ensures Valid() && Sized() && fileSize == size && chunkSize == cs
      ensures Present() == {} && hashes == None
    {
      fileSize, chunkSize, total := size, cs, CeilDiv(size, cs);
      bits := seq(WordCount(CeilDiv(size, cs)), _ => 0);
      hashes := None;
      have := 0;
      new;
      forall c
        ensures c !in Present()
      {
        InIndices(bits, total, c);
        if 0 <= c < total { ZeroHasNoBits(c % 64); }
      }
    }

    method Has(chunkIdx: int) returns (v: bool)
      requires Valid()
      ensures v <==> chunkIdx in Present()
      ensures v ==> 0 <= chunkIdx < total
    {
      InIndices(bits, total, chunkIdx);
      if chunkIdx < 0 || chunkIdx >= total {
        return false;
      }
      return Bit(bits[chunkIdx / 64], chunkIdx % 64);
    }

    method Set(chunkIdx: int)
      requires Valid()
      modifies this`have, this`bits
      ensures Valid()
      ensures Present() == old(Present()) + if 0 <= chunkIdx < total then {chunkIdx} else {}
    {
      if chunkIdx < 0 || chunkIdx >= total {
        return;
      }
      InIndices(bits, total, chunkIdx);
      var word, bit := chunkIdx / 64, chunkIdx % 64;
      if !Bit(bits[word], bit) {
        IndicesAfterSet(bits, total, chunkIdx);
        bits := bits[word := WithBit(bits[word], bit)];
        have := have + 1;
      }
    }

    method SetRange(offset: nat, size: int)
      requires Valid()
      modifies this`have, this`bits
      ensures Valid()
      ensures forall c :: c in Present() <==>
                c in old(Present()) || (c < total && c in Touched(offset, size, chunkSize))
    {
      if size <= 0 {
        return;
      }
      var startChunk, endChunk := ChunkOf(offset, chunkSize), ChunkOf(offset + size - 1, chunkSize);
      var i := startChunk;
      while i <= endChunk
        invariant Valid() && startChunk <= i
        invariant i <= endChunk + 1 || i == startChunk
        invariant forall c :: c in Present() <==> c in old(Present()) || (startChunk <= c < i && c < total)
      {
        Set(i);
        i := i + 1;
      }
    }

    method HasRange(offset: nat, size: int) returns (v: bool)
      requires Valid()
      ensures v <==> Touched(offset, size, chunkSize) <= Present()
    {
      if size <= 0 {
        return true;
      }
      var startChunk, endChunk := ChunkOf(offset, chunkSize), ChunkOf(offset + size - 1, chunkSize);
      var i := startChunk;
      while i <= endChunk
        invariant startChunk <= i
        invariant i <= endChunk + 1 || i == startChunk
        invariant forall c: nat :: startChunk <= c < i ==> c in Present()
      {
        var has := Has(i);
        if !has {
          assert i in Touched(offset, size, chunkSize);
          return false;
        }
        i := i + 1;
      }
      return true;
    }

    method SetHash(chunkIdx: int, h: uint64)
      requires Valid()
      modifies this`hashes
      ensures Valid()
      ensures hashes == if 0 <= chunkIdx < total then WithPrint(old(hashes), total, chunkIdx, h) else old(hashes)
    {
      if chunkIdx < 0 || chunkIdx >= total {
        return;
      }
      if hashes.None? {
        hashes := Some(seq(total, _ => 0));
      }
      hashes := Some(hashes.value[chunkIdx := h]);
    }

    method Hash(chunkIdx: int) returns (h: uint64, ok: bool)
      requires Valid()
      ensures PrintOf(chunkIdx) == if ok then Some(h) else None
      ensures !ok ==> h == 0
    {
      var has := Has(chunkIdx);
      if !has || hashes.None? {
        return 0, false;
      }
      return hashes.value[chunkIdx], true;
    }

    /** The counter decides completeness: no chunk is missing exactly when `have == total`. */
    method IsComplete() returns (v: bool)
      requires Valid()
      ensures v <==> forall c :: 0 <= c < total ==> c in Present()
    {
      IndicesInRange(bits, total);
      FullBySize(Present(), total);
      assert Present() == Interval(0, total) <==> forall c :: 0 <= c < total ==> c in Present();
      return have == total;
    }

    method NextMissing(from: nat) returns (i: int)
      requires Valid()
      ensures i == -1 ==> forall c :: from <= c < total ==> c in Present()
      ensures i != -1 ==> from <= i < total && i !in Present() && forall c :: from <= c < i ==> c in Present()
    {
      i := from;
      while i < total
        invariant from <= i
        invariant forall c :: from <= c < i && c < total ==> c in Present()
      {
        InIndices(bits, total, i);
        if !Bit(bits[i / 64], i % 64) {
          return i;
        }
        i := i + 1;
      }
      return -1;
    }
  }
}
