/** pkg/filesystem/download.go and the record codec of chunk_ledger.go: the .kdbitmap sidecar, versions 1 and 2. */
module Sidecars {
  import opened Bytes
  import opened Bitmaps
  import opened ChunkLedgers

  /** The bitmap's fields as a sidecar carries them. */
  datatype BitmapState = BitmapState(bits: seq<uint64>, prints: Option<seq<uint64>>, total: nat, have: int,
                                     fileSize: int64, chunkSize: int)

  /** What a version 2 sidecar carries beyond the bitmap; `recs` is None without a ledger. */
  datatype SidecarMeta = SidecarMeta(held: int64, editBase: int64, recs: Option<seq<ChunkRecord>>)

  /** A loaded sidecar; `meta` is None for version 1, and `end` is where the loader stopped reading. */
  datatype Loaded = Loaded(bitmap: BitmapState, meta: Option<SidecarMeta>, end: nat)

  datatype LoadError = TooShort | BadMagic | BadVersion | SizeMismatch | Truncated | LedgerMismatch

  datatype Result<T> = Ok(value: T) | Err(error: LoadError)

  const MAGIC: seq<byte> := [0x4B, 0x44, 0x42, 0x4D]  // "KDBM"

  // ---------- words and records as bytes ----------

  /** The little-endian words of a slice, in order. */
  function WordBytes(words: seq<uint64>): (b: seq<byte>)
    ensures |b| == 8 * |words|
  {
    if words == [] then [] else WordBytes(words[..|words| - 1]) + LittleEndian(words[|words| - 1], 8)
  }

  function U32(data: seq<byte>, pos: nat): (x: nat)
    requires pos + 4 <= |data|
  {
    FromLittleEndian(data[pos..pos + 4])
  }

  function U64(data: seq<byte>, pos: nat): (x: uint64)
    requires pos + 8 <= |data|
  {
    FromLittleEndianBound(data[pos..pos + 8]);
    Widths();
    FromLittleEndian(data[pos..pos + 8])
  }

  /** Word `i` of those from `pos` on. */
  function WordAt(data: seq<byte>, pos: nat, i: nat): (x: uint64)
    requires pos + 8 * i + 8 <= |data|
  {
    U64(data, pos + 8 * i)
  }

  /** `n` words from `pos` on. */
  function ReadWords(data: seq<byte>, pos: nat, n: nat): (words: seq<uint64>)
    requires pos + 8 * n <= |data|
    ensures |words| == n && forall i :: 0 <= i < n ==> words[i] == WordAt(data, pos, i)
  {
    seq(n, i requires 0 <= i < n => WordAt(data, pos, i))
  }

  function AppendRecord(r: ChunkRecord): (b: seq<byte>)
    ensures |b| == 34
  {
    LittleEndian(r.hash, 8) + LittleEndian(Unsigned(r.stamp), 8) + LittleEndian(r.baseHash, 8)
    + LittleEndian(Unsigned(r.baseStamp), 8) + [r.author]
    + [(if r.present then 1 else 0) + (if r.dirty then 2 else 0)]
  }

  function DecodeRecord(b: seq<byte>): (r: ChunkRecord)
    requires |b| >= 34
  {
    ChunkRecord(U64(b, 0), Signed(U64(b, 8)), b[32], U64(b, 16), Signed(U64(b, 24)), b[33] % 2 == 1, b[33] / 2 % 2 == 1)
  }

  function RecordBytes(recs: seq<ChunkRecord>): (b: seq<byte>)
    ensures |b| == 34 * |recs|
  {
    if recs == [] then [] else RecordBytes(recs[..|recs| - 1]) + AppendRecord(recs[|recs| - 1])
  }

  /** Record `i` of those from `pos` on. */
  function RecordAt(data: seq<byte>, pos: nat, i: nat): (r: ChunkRecord)
    requires pos + 34 * i + 34 <= |data|
  {
    DecodeRecord(data[pos + 34 * i..pos + 34 * i + 34])
  }

  function ReadRecords(data: seq<byte>, pos: nat, n: nat): (recs: seq<ChunkRecord>)
    requires pos + 34 * n <= |data|
    ensures |recs| == n && forall i :: 0 <= i < n ==> recs[i] == RecordAt(data, pos, i)
  {
    seq(n, i requires 0 <= i < n => RecordAt(data, pos, i))
  }

  // ---------- the layout ----------

  function Header(s: BitmapState, version: byte): (b: seq<byte>)
    requires s.have >= 0 && s.chunkSize >= 0
    ensures |b| == 25
  {
    MAGIC + [version] + LittleEndian(Unsigned(s.fileSize), 8) + LittleEndian(s.total, 4) + LittleEndian(s.have, 4)
    + LittleEndian(s.chunkSize, 4)
  }

  /** Save: version 1. */
  function EncodeV1(s: BitmapState): (b: seq<byte>)
    requires s.have >= 0 && s.chunkSize >= 0
  {
    Header(s, 1) + WordBytes(s.bits)
  }

  function PrintSection(s: BitmapState): (b: seq<byte>) {
    if s.prints.None? then [0] else [1] + WordBytes(s.prints.value)
  }

  /** The four numbers before the records; without a SidecarMeta they are zeros. */
  function MetaHead(m: SidecarMeta): (b: seq<byte>)
    ensures |b| == 24
  {
    LittleEndian(LEDGER_UNIT, 4) + LittleEndian(Unsigned(m.held), 8) + LittleEndian(Unsigned(m.editBase), 8)
    + LittleEndian(|m.recs.UnwrapOr([])|, 4)
  }

  /** SaveSidecar: version 2. */
  function EncodeV2(s: BitmapState, m: SidecarMeta): (b: seq<byte>)
    requires s.have >= 0 && s.chunkSize >= 0
  {
    Header(s, 2) + WordBytes(s.bits) + PrintSection(s) + MetaHead(m) + RecordBytes(m.recs.UnwrapOr([]))
  }

  /** LoadSidecar. */
  function Decode(data: seq<byte>, expected: int): (r: Result<Loaded>) {
    if |data| < 25 then Err(TooShort)
    else if data[..4] != MAGIC then Err(BadMagic)
    else if data[4] != 1 && data[4] != 2 then Err(BadVersion)
    else if Signed(U64(data, 5)) != expected then Err(SizeMismatch)
    else
      var total := U32(data, 13);
      var pos := 25 + 8 * WordCount(total);
      if |data| < pos then Err(Truncated)
      else
        if data[4] == 1 then Ok(Loaded(DecodeBitmap(data), None, pos)) else DecodePrints(data, pos, DecodeBitmap(data))
  }

  /** The fixed fields and the bit words. */
  function DecodeBitmap(data: seq<byte>): (s: BitmapState)
    requires 25 <= |data| && 25 + 8 * WordCount(U32(data, 13)) <= |data|
  {
    var total, chunkSize := U32(data, 13), U32(data, 21);
    BitmapState(ReadWords(data, 25, WordCount(total)), None, total, U32(data, 17), Signed(U64(data, 5)),
                if chunkSize == 0 then CHUNK_SIZE else chunkSize)
  }

  function DecodePrints(data: seq<byte>, pos: nat, bitmap: BitmapState): (r: Result<Loaded>) {
    if |data| < pos + 1 then Err(Truncated)
    else if data[pos] != 1 then DecodeMeta(data, pos + 1, bitmap)
    else if |data| < pos + 1 + 8 * bitmap.total then Err(Truncated)
    else DecodeMeta(data, pos + 1 + 8 * bitmap.total,
                    bitmap.(prints := Some(ReadWords(data, pos + 1, bitmap.total))))
  }

  function DecodeMeta(data: seq<byte>, pos: nat, bitmap: BitmapState): (r: Result<Loaded>) {
    if |data| < pos + 24 then Err(Truncated)
    else
      var meta := SidecarMeta(Signed(U64(data, pos + 4)), Signed(U64(data, pos + 12)), None);
      var nrec := U32(data, pos + 20);
      if nrec == 0 then Ok(Loaded(bitmap, Some(meta), pos + 24))
      else if U32(data, pos) != LEDGER_UNIT || nrec != LedgerRecords(bitmap.fileSize) then Err(LedgerMismatch)
      else if |data| < pos + 24 + 34 * nrec then Err(Truncated)
      else Ok(Loaded(bitmap, Some(meta.(recs := Some(ReadRecords(data, pos + 24, nrec)))),
                     pos + 24 + 34 * nrec))
  }

  // ---------- records round-trip ----------

  lemma {:induction false} Holds64(data: seq<byte>, pos: nat, x: uint64)
    requires Holds(data, pos, LittleEndian(x, 8))
    ensures U64(data, pos) == x
  {
    LittleEndianRoundTrip(x, 8);
    Widths();
  }

  lemma {:induction false} LittleEndianModulo(x: nat, n: nat)
    ensures FromLittleEndian(LittleEndian(x, n)) == x % Pow256(n)
  {
    if n > 0 {
      LittleEndianModulo(x / 256, n - 1);
      assert LittleEndian(x, n)[1..] == LittleEndian(x / 256, n - 1);
      ModuloSplit(x, Pow256(n - 1));
    }
  }

  lemma {:induction false} ModuloSplit(x: nat, m: nat)
    requires m > 0
    ensures x % (256 * m) == x % 256 + 256 * (x / 256 % m)
  {
    var q, r := x / 256 / m, x / 256 % m;
    assert x / 256 == q * m + r;
    assert x == 256 * (q * m + r) + x % 256 == q * (256 * m) + (256 * r + x % 256);
    var low := 256 * r + x % 256;
    assert 0 <= low < 256 * m;
    DivModUnique(x, 256 * m, q, low);
  }

  lemma {:induction false} DivModUnique(x: nat, d: nat, q: nat, r: nat)
    requires d > 0 && x == q * d + r && r < d
    ensures x % d == r
  {
    DivUnique(x, d, q);
  }

  /** A 32-bit field keeps the value modulo 2^32. */
  lemma {:induction false} Holds32(data: seq<byte>, pos: nat, x: nat)
    requires Holds(data, pos, LittleEndian(x, 4))
    ensures U32(data, pos) == x % TWO_32
  {
    LittleEndianModulo(x, 4);
    Widths();
  }

  /** Every record survives, signed stamps and both flags included. */
  lemma {:induction false} RecordRoundTrip(r: ChunkRecord)
    ensures DecodeRecord(AppendRecord(r)) == r
  {
    var b := AppendRecord(r);
    var h, s, bh, bs := LittleEndian(r.hash, 8), LittleEndian(Unsigned(r.stamp), 8), LittleEndian(r.baseHash, 8),
                        LittleEndian(Unsigned(r.baseStamp), 8);
    var flags := [(if r.present then 1 else 0) + (if r.dirty then 2 else 0)];
    HoldsParts(b, 0, h + s + bh + bs + [r.author], flags);
    HoldsParts(b, 0, h + s + bh + bs, [r.author]);
    HoldsParts(b, 0, h + s + bh, bs);
    HoldsParts(b, 0, h + s, bh);
    HoldsParts(b, 0, h, s);
    Holds64(b, 0, r.hash);
    Holds64(b, 8, Unsigned(r.stamp));
    Holds64(b, 16, r.baseHash);
    Holds64(b, 24, Unsigned(r.baseStamp));
  }

  lemma {:induction false} WordsHeld(data: seq<byte>, pos: nat, words: seq<uint64>, i: nat)
    requires Holds(data, pos, WordBytes(words)) && i < |words|
    ensures WordAt(data, pos, i) == words[i]
  {
    var front, last := words[..|words| - 1], words[|words| - 1];
    HoldsParts(data, pos, WordBytes(front), LittleEndian(last, 8));
    if i < |front| { WordsHeld(data, pos, front, i); } else { Holds64(data, pos + 8 * i, last); }
  }

  /** Words come back from wherever in a file they were written. */
  lemma {:induction false} WordsRoundTrip(data: seq<byte>, pos: nat, words: seq<uint64>)
    requires Holds(data, pos, WordBytes(words))
    ensures ReadWords(data, pos, |words|) == words
  {
    forall i | 0 <= i < |words|
      ensures WordAt(data, pos, i) == words[i]
    {
      WordsHeld(data, pos, words, i);
    }
  }

  lemma {:induction false} RecordsHeld(data: seq<byte>, pos: nat, recs: seq<ChunkRecord>, i: nat)
    requires Holds(data, pos, RecordBytes(recs)) && i < |recs|
    ensures RecordAt(data, pos, i) == recs[i]
  {
    var front, last := recs[..|recs| - 1], recs[|recs| - 1];
    HoldsParts(data, pos, RecordBytes(front), AppendRecord(last));
    if i < |front| { RecordsHeld(data, pos, front, i); } else { RecordRoundTrip(last); }
  }

  lemma {:induction false} RecordsRoundTrip(data: seq<byte>, pos: nat, recs: seq<ChunkRecord>)
    requires Holds(data, pos, RecordBytes(recs))
    ensures ReadRecords(data, pos, |recs|) == recs
  {
    forall i | 0 <= i < |recs|
      ensures RecordAt(data, pos, i) == recs[i]
    {
      RecordsHeld(data, pos, recs, i);
    }
  }

  // ---------- the whole file round-trips ----------

  /** The bitmap of a sidecar as the saver holds it: sized for its file, chunks of the default size. */
  predicate WellFormed(s: BitmapState) {
    && s.fileSize > 0 && s.chunkSize == CHUNK_SIZE && s.total == ChunkCount(s.fileSize)
    && |s.bits| == WordCount(s.total) && (s.prints.Some? ==> |s.prints.value| == s.total) && 0 <= s.have <= s.total
  }

  /** A ledger has the records its file needs. */
  predicate LedgerFits(s: BitmapState, m: SidecarMeta) {
    m.recs.Some? ==> |m.recs.value| == LedgerRecords(s.fileSize)
  }

  lemma {:induction false} HeaderFields(data: seq<byte>, s: BitmapState, version: byte)
    requires s.have >= 0 && s.chunkSize >= 0 && Holds(data, 0, Header(s, version))
    ensures data[..4] == MAGIC && data[4] == version && Signed(U64(data, 5)) == s.fileSize
    ensures U32(data, 13) == s.total % TWO_32 && U32(data, 17) == s.have % TWO_32 && U32(data, 21) == s.chunkSize % TWO_32
  {
    var v, f := [version], LittleEndian(Unsigned(s.fileSize), 8);
    var n, h, c := LittleEndian(s.total, 4), LittleEndian(s.have, 4), LittleEndian(s.chunkSize, 4);
    HoldsParts(data, 0, MAGIC + v + f + n + h, c);
    HoldsParts(data, 0, MAGIC + v + f + n, h);
    HoldsParts(data, 0, MAGIC + v + f, n);
    HoldsParts(data, 0, MAGIC + v, f);
    HoldsParts(data, 0, MAGIC, v);
    Holds64(data, 5, Unsigned(s.fileSize));
    Holds32(data, 13, s.total);
    Holds32(data, 17, s.have);
    Holds32(data, 21, s.chunkSize);
  }

  lemma {:induction false} FewerRecords(size: nat)
    ensures size > 0 ==> 0 < LedgerRecords(size) <= ChunkCount(size)
  {
  }

  lemma {:induction false} MetaFields(data: seq<byte>, pos: nat, m: SidecarMeta)
    requires Holds(data, pos, MetaHead(m))
    ensures U32(data, pos) == LEDGER_UNIT && U32(data, pos + 20) == |m.recs.UnwrapOr([])| % TWO_32
    ensures Signed(U64(data, pos + 4)) == m.held && Signed(U64(data, pos + 12)) == m.editBase
  {
    hide LittleEndian, FromLittleEndian, U32, U64, Holds;
    var n := |m.recs.UnwrapOr([])|;
    var u, held, base := LittleEndian(LEDGER_UNIT, 4), LittleEndian(Unsigned(m.held), 8),
                         LittleEndian(Unsigned(m.editBase), 8);
    HoldsParts(data, pos, u + held + base, LittleEndian(n, 4));
    HoldsParts(data, pos, u + held, base);
    HoldsParts(data, pos, u, held);
    Holds32(data, pos, LEDGER_UNIT);
    Holds64(data, pos + 4, Unsigned(m.held));
    Holds64(data, pos + 12, Unsigned(m.editBase));
    Holds32(data, pos + 20, n);
  }

  lemma {:induction false} MetaRoundTrip(data: seq<byte>, pos: nat, s: BitmapState, m: SidecarMeta)
    requires Holds(data, pos, MetaHead(m) + RecordBytes(m.recs.UnwrapOr([]))) && LedgerFits(s, m)
    requires WellFormed(s) && s.total < TWO_32
    ensures DecodeMeta(data, pos, s) == Ok(Loaded(s, Some(m), pos + 24 + 34 * |m.recs.UnwrapOr([])|))
  {
    hide MetaHead, RecordBytes, ReadRecords, U32, U64, Unsigned, Signed;
    var recs := m.recs.UnwrapOr([]);
    HoldsParts(data, pos, MetaHead(m), RecordBytes(recs));
    MetaFields(data, pos, m);
    RecordsRoundTrip(data, pos + 24, recs);
    FewerRecords(s.fileSize);
  }

  lemma {:induction false} PrintsRoundTrip(data: seq<byte>, pos: nat, s: BitmapState, rest: seq<byte>)
    requires Holds(data, pos, PrintSection(s) + rest) && WellFormed(s)
    ensures DecodePrints(data, pos, s.(prints := None)) == DecodeMeta(data, pos + |PrintSection(s)|, s)
    ensures Holds(data, pos + |PrintSection(s)|, rest)
  {
    HoldsParts(data, pos, PrintSection(s), rest);
    if s.prints.Some? {
      HoldsParts(data, pos, [1], WordBytes(s.prints.value));
      WordsRoundTrip(data, pos + 1, s.prints.value);
    }
  }

  lemma {:induction false} BitmapRoundTrip(data: seq<byte>, s: BitmapState, version: byte)
    requires WellFormed(s) && s.total < TWO_32
    requires Holds(data, 0, Header(s, version)) && Holds(data, 25, WordBytes(s.bits))
    ensures U32(data, 13) == s.total && DecodeBitmap(data) == s.(prints := None)
  {
    hide WordBytes, Header, ReadWords, U32, U64, Unsigned, Signed;
    HeaderFields(data, s, version);
    WordsRoundTrip(data, 25, s.bits);
  }

  lemma {:induction false} HeaderRoundTrip(data: seq<byte>, s: BitmapState, version: byte, rest: seq<byte>)
    requires WellFormed(s) && data == Header(s, version) + (WordBytes(s.bits) + rest)
    requires version == 1 || version == 2
    ensures Holds(data, 25 + 8 * WordCount(s.total), rest)
    ensures s.total < TWO_32 ==>
              Decode(data, s.fileSize) ==
              if version == 1 then Ok(Loaded(s.(prints := None), None, 25 + 8 * WordCount(s.total)))
              else DecodePrints(data, 25 + 8 * WordCount(s.total), s.(prints := None))
    ensures s.total >= TWO_32 && Decode(data, s.fileSize).Ok? ==> Decode(data, s.fileSize).value.bitmap.total != s.total
  {
    HoldsWhole(data);
    HoldsParts(data, 0, Header(s, version), WordBytes(s.bits) + rest);
    HoldsParts(data, 25, WordBytes(s.bits), rest);
    HeaderFields(data, s, version);
    hide Holds, Header, WordBytes, U32, U64, Signed, DecodePrints, DecodeBitmap;
    if s.total < TWO_32 { BitmapRoundTrip(data, s, version); } else { TotalLoaded(data, s.fileSize); }
  }

  lemma {:induction false} EncodeV2Parts(head: seq<byte>, words: seq<byte>, prints: seq<byte>, meta: seq<byte>,
                                         recs: seq<byte>)
    ensures head + words + prints + meta + recs == head + (words + (prints + (meta + recs)))
  {
  }

  /** A record of 34 bytes at `pos`: hash, stamp, base hash and base stamp in eight bytes each, the author, and the two
      flags. */
  predicate RecordStands(data: seq<byte>, pos: nat, r: ChunkRecord) {
    && pos + 34 <= |data|
    && U64(data, pos) == r.hash && Signed(U64(data, pos + 8)) == r.stamp
    && U64(data, pos + 16) == r.baseHash && Signed(U64(data, pos + 24)) == r.baseStamp
    && data[pos + 32] == r.author && data[pos + 33] == (if r.present then 1 else 0) + (if r.dirty then 2 else 0)
  }

  lemma {:induction false} RecordPlaced(data: seq<byte>, pos: nat, r: ChunkRecord)
    requires Holds(data, pos, AppendRecord(r))
    ensures RecordStands(data, pos, r)
  {
    hide LittleEndian, FromLittleEndian, U64, Holds, Signed, Unsigned;
    var h, s, bh, bs := LittleEndian(r.hash, 8), LittleEndian(Unsigned(r.stamp), 8), LittleEndian(r.baseHash, 8),
                        LittleEndian(Unsigned(r.baseStamp), 8);
    var flags := [(if r.present then 1 else 0) + (if r.dirty then 2 else 0)];
    HoldsParts(data, pos, h + s + bh + bs + [r.author], flags);
    HoldsParts(data, pos, h + s + bh + bs, [r.author]);
    HoldsParts(data, pos, h + s + bh, bs);
    HoldsParts(data, pos, h + s, bh);
    HoldsParts(data, pos, h, s);
    Holds64(data, pos, r.hash);
    Holds64(data, pos + 8, Unsigned(r.stamp));
    Holds64(data, pos + 16, r.baseHash);
    Holds64(data, pos + 24, Unsigned(r.baseStamp));
    StoredSigned(r.stamp);
    StoredSigned(r.baseStamp);
    HeldOne(data, pos + 32, r.author);
    HeldOne(data, pos + 33, flags[0]);
  }

  lemma {:induction false} StoredSigned(x: int64)
    ensures Signed(Unsigned(x)) == x
  {
  }

  lemma {:induction false} HeldOne(data: seq<byte>, pos: nat, x: byte)
    requires Holds(data, pos, [x])
    ensures pos < |data| && data[pos] == x
  {
    assert data[pos..pos + 1][0] == x;
  }

  lemma {:induction false} RecordsPlaced(data: seq<byte>, pos: nat, recs: seq<ChunkRecord>, i: nat)
    requires Holds(data, pos, RecordBytes(recs)) && i < |recs|
    ensures RecordStands(data, pos + 34 * i, recs[i])
  {
    hide RecordStands, AppendRecord, Holds;
    var front, last := recs[..|recs| - 1], recs[|recs| - 1];
    HoldsParts(data, pos, RecordBytes(front), AppendRecord(last));
    if i < |front| { RecordsPlaced(data, pos, front, i); } else { RecordPlaced(data, pos + 34 * i, last); }
  }

  /** Where the parts of a version 2 sidecar lie. */
  lemma {:induction false} SidecarParts(s: BitmapState, m: SidecarMeta)
    requires WellFormed(s)
    ensures var d, recs := EncodeV2(s, m), m.recs.UnwrapOr([]);
            var p := 25 + 8 * |s.bits|;
            var q := p + |PrintSection(s)|;
            && |d| == q + 24 + 34 * |recs| && Holds(d, 0, Header(s, 2)) && Holds(d, 25, WordBytes(s.bits))
            && Holds(d, p, PrintSection(s)) && Holds(d, q, MetaHead(m)) && Holds(d, q + 24, RecordBytes(recs))
  {
    hide Header, MetaHead, RecordBytes, WordBytes, Holds, PrintSection;
    var d, recs := EncodeV2(s, m), m.recs.UnwrapOr([]);
    var p := 25 + 8 * |s.bits|;
    var head, words, prints, meta, rest := Header(s, 2), WordBytes(s.bits), PrintSection(s), MetaHead(m), RecordBytes(recs);
    EncodeV2Parts(head, words, prints, meta, rest);
    HoldsWhole(d);
    HoldsParts(d, 0, head, words + (prints + (meta + rest)));
    HoldsParts(d, 25, words, prints + (meta + rest));
    HoldsParts(d, p, prints, meta + rest);
    HoldsParts(d, p + |prints|, meta, rest);
  }

  /** The bytes of a version 2 sidecar: magic and version, the file size, the chunk count, the counter and the chunk size;
      the bit words from byte 25 on; a flag and the fingerprints; then the record size, both stamps, the number of
      records and the records. */
  lemma {:induction false} SidecarLayout(s: BitmapState, m: SidecarMeta)
    requires WellFormed(s)
    ensures var d, recs := EncodeV2(s, m), m.recs.UnwrapOr([]);
            var p := 25 + 8 * |s.bits|;
            var q := p + 1 + if s.prints.Some? then 8 * |s.prints.value| else 0;
            && |d| == q + 24 + 34 * |recs| && d[..5] == [0x4B, 0x44, 0x42, 0x4D, 2]
            && Signed(U64(d, 5)) == s.fileSize && U32(d, 13) == s.total % TWO_32 && U32(d, 17) == s.have % TWO_32
            && d[21..25] == [0, 0, 8, 0]
            && (forall i :: 0 <= i < |s.bits| ==> WordAt(d, 25, i) == s.bits[i])
            && d[p] == (if s.prints.Some? then 1 else 0)
            && (s.prints.Some? ==> forall i :: 0 <= i < s.total ==> WordAt(d, p + 1, i) == s.prints.value[i])
            && d[q..q + 4] == [0, 0, 0x40, 0] && Signed(U64(d, q + 4)) == m.held && Signed(U64(d, q + 12)) == m.editBase
            && U32(d, q + 20) == |recs| % TWO_32
            && (forall i :: 0 <= i < |recs| ==> RecordStands(d, q + 24 + 34 * i, recs[i]))
  {
    hide Header, MetaHead, RecordBytes, WordBytes, Holds, WordAt, U32, U64, Signed, RecordStands;
    var d, recs := EncodeV2(s, m), m.recs.UnwrapOr([]);
    var p := 25 + 8 * |s.bits|;
    var q := p + |PrintSection(s)|;
    SidecarParts(s, m);
    hide EncodeV2;
    HeaderFields(d, s, 2);
    assert d[..5] == d[..4] + [d[4]];
    MetaFields(d, q, m);
    ThirdByte(d, 21, 8);
    ThirdByte(d, q, 0x40);
    PrintsPlaced(d, p, s);
    forall i | 0 <= i < |s.bits|
      ensures WordAt(d, 25, i) == s.bits[i]
    {
      WordsHeld(d, 25, s.bits, i);
    }
    forall i | 0 <= i < |recs|
      ensures RecordStands(d, q + 24 + 34 * i, recs[i])
    {
      RecordsPlaced(d, q + 24, recs, i);
    }
  }

  lemma {:induction false} ThirdByte(data: seq<byte>, pos: nat, x: byte)
    requires pos + 4 <= |data| && U32(data, pos) == 0x1_0000 * x
    ensures data[pos..pos + 4] == [0, 0, x, 0]
  {
    FourBytes(data[pos..pos + 4]);
  }

  lemma {:induction false} PrintsPlaced(data: seq<byte>, pos: nat, s: BitmapState)
    requires Holds(data, pos, PrintSection(s)) && WellFormed(s)
    ensures pos + |PrintSection(s)| <= |data| && data[pos] == if s.prints.Some? then 1 else 0
    ensures s.prints.Some? ==> forall i :: 0 <= i < s.total ==> WordAt(data, pos + 1, i) == s.prints.value[i]
  {
    if s.prints.Some? {
      HoldsParts(data, pos, [1], WordBytes(s.prints.value));
      HeldOne(data, pos, 1);
      forall i | 0 <= i < s.total
        ensures WordAt(data, pos + 1, i) == s.prints.value[i]
      {
        WordsHeld(data, pos + 1, s.prints.value, i);
      }
    } else {
      HeldOne(data, pos, 0);
    }
  }

  /** A version 2 sidecar gives back every bit, the counter, the fingerprints, both stamps and every record,
      exactly when the number of chunks fits its 32-bit field. */
  lemma {:induction false} RoundTrip(s: BitmapState, m: SidecarMeta)
    requires WellFormed(s) && LedgerFits(s, m)
    ensures Decode(EncodeV2(s, m), s.fileSize) == Ok(Loaded(s, Some(m), |EncodeV2(s, m)|)) <==> s.total < TWO_32
  {
    hide Decode, DecodePrints, Holds, Header, MetaHead, RecordBytes, WordBytes;
    var rest := MetaHead(m) + RecordBytes(m.recs.UnwrapOr([]));
    EncodeV2Parts(Header(s, 2), WordBytes(s.bits), PrintSection(s), MetaHead(m), RecordBytes(m.recs.UnwrapOr([])));
    HeaderRoundTrip(EncodeV2(s, m), s, 2, PrintSection(s) + rest);
    if s.total < TWO_32 { RoundTripFits(EncodeV2(s, m), s, m); }
  }

  lemma {:induction false} RoundTripFits(data: seq<byte>, s: BitmapState, m: SidecarMeta)
    requires WellFormed(s) && LedgerFits(s, m) && s.total < TWO_32
    requires Holds(data, 25 + 8 * WordCount(s.total), PrintSection(s) + (MetaHead(m) + RecordBytes(m.recs.UnwrapOr([]))))
    ensures DecodePrints(data, 25 + 8 * WordCount(s.total), s.(prints := None)) ==
            Ok(Loaded(s, Some(m), 25 + 8 * WordCount(s.total) + |PrintSection(s)| + 24 + 34 * |m.recs.UnwrapOr([])|))
  {
    hide *;
    var pos := 25 + 8 * WordCount(s.total);
    PrintsRoundTrip(data, pos, s, MetaHead(m) + RecordBytes(m.recs.UnwrapOr([])));
    MetaRoundTrip(data, pos + |PrintSection(s)|, s, m);
  }

  /** The same for version 1, which carries the bitmap without its fingerprints. */
  lemma {:induction false} RoundTripV1(s: BitmapState)
    requires WellFormed(s)
    ensures Decode(EncodeV1(s), s.fileSize) == Ok(Loaded(s.(prints := None), None, |EncodeV1(s)|)) <==> s.total < TWO_32
  {
    hide Header, WordBytes, DecodePrints, Holds, WordCount;
    assert EncodeV1(s) == Header(s, 1) + (WordBytes(s.bits) + []);
    hide Decode, EncodeV1;
    HeaderRoundTrip(EncodeV1(s), s, 1, []);
  }

  /** The number of chunks a loaded bitmap has is the one its header states. */
  lemma {:induction false} TotalLoaded(data: seq<byte>, expected: int)
    ensures Decode(data, expected).Ok? ==> 25 <= |data| && Decode(data, expected).value.bitmap.total == U32(data, 13) < TWO_32
  {
    if Decode(data, expected).Ok? {
      FromLittleEndianBound(data[13..17]);
      Widths();
    }
  }

  // ---------- truncation ----------

  /** The loader reads nothing past where it stopped: a prefix that loads is long enough, and the whole file then
      loads the same. */
  lemma {:induction false} PrefixStable(data: seq<byte>, k: nat, expected: int)
    requires k <= |data| && Decode(data[..k], expected).Ok?
    ensures Decode(data, expected) == Decode(data[..k], expected)
    ensures Decode(data, expected).value.end <= k
  {
    assert data[..k][..4] == data[..4];
    SameWord(data, k, 5);
    SameField(data, k, 13);
    SameBitmap(data, k);
    if data[4] == 2 { PrefixStablePrints(data, k, 25 + 8 * WordCount(U32(data, 13)), DecodeBitmap(data)); }
  }

  lemma {:induction false} SameBitmap(data: seq<byte>, k: nat)
    requires 25 <= k <= |data| && 25 + 8 * WordCount(U32(data, 13)) <= k
    ensures U32(data[..k], 13) == U32(data, 13) && DecodeBitmap(data[..k]) == DecodeBitmap(data)
  {
    SameWord(data, k, 5);
    SameField(data, k, 13);
    SameField(data, k, 17);
    SameField(data, k, 21);
    SameWords(data, k, 25, WordCount(U32(data, 13)));
  }

  lemma {:induction false} PrefixStablePrints(data: seq<byte>, k: nat, pos: nat, bitmap: BitmapState)
    requires k <= |data| && DecodePrints(data[..k], pos, bitmap).Ok?
    ensures DecodePrints(data, pos, bitmap) == DecodePrints(data[..k], pos, bitmap)
    ensures DecodePrints(data, pos, bitmap).value.end <= k
  {
    if data[pos] == 1 {
      SameWords(data, k, pos + 1, bitmap.total);
      PrefixStableMeta(data, k, pos + 1 + 8 * bitmap.total,
                       bitmap.(prints := Some(ReadWords(data, pos + 1, bitmap.total))));
    } else {
      PrefixStableMeta(data, k, pos + 1, bitmap);
    }
  }

  lemma {:induction false} PrefixStableMeta(data: seq<byte>, k: nat, pos: nat, bitmap: BitmapState)
    requires k <= |data| && DecodeMeta(data[..k], pos, bitmap).Ok?
    ensures DecodeMeta(data, pos, bitmap) == DecodeMeta(data[..k], pos, bitmap)
    ensures DecodeMeta(data, pos, bitmap).value.end <= k
  {
    SameField(data, k, pos);
    SameWord(data, k, pos + 4);
    SameWord(data, k, pos + 12);
    SameField(data, k, pos + 20);
    if U32(data, pos + 20) != 0 { SameRecords(data, k, pos + 24, U32(data, pos + 20)); }
  }

  lemma {:induction false} SameField(data: seq<byte>, k: nat, pos: nat)
    requires pos + 4 <= k <= |data|
    ensures U32(data[..k], pos) == U32(data, pos)
  {
    assert data[..k][pos..pos + 4] == data[pos..pos + 4];
  }

  lemma {:induction false} SameWord(data: seq<byte>, k: nat, pos: nat)
    requires pos + 8 <= k <= |data|
    ensures U64(data[..k], pos) == U64(data, pos)
  {
    assert data[..k][pos..pos + 8] == data[pos..pos + 8];
  }

  lemma {:induction false} SameWords(data: seq<byte>, k: nat, pos: nat, n: nat)
    requires pos + 8 * n <= k <= |data|
    ensures ReadWords(data[..k], pos, n) == ReadWords(data, pos, n)
  {
    forall i | 0 <= i < n
      ensures WordAt(data[..k], pos, i) == WordAt(data, pos, i)
    {
      SameWord(data, k, pos + 8 * i);
    }
  }

  lemma {:induction false} SameRecords(data: seq<byte>, k: nat, pos: nat, n: nat)
    requires pos + 34 * n <= k <= |data|
    ensures ReadRecords(data[..k], pos, n) == ReadRecords(data, pos, n)
  {
    forall i | 0 <= i < n
      ensures RecordAt(data[..k], pos, i) == RecordAt(data, pos, i)
    {
      assert data[..k][pos + 34 * i..pos + 34 * i + 34] == data[pos + 34 * i..pos + 34 * i + 34];
    }
  }

  /** A truncated sidecar is an error, never a partial state: no strict prefix of a saved file loads, of either
      version. */
  lemma {:induction false} TruncatedNeverLoads(s: BitmapState, m: SidecarMeta, k: nat)
    requires WellFormed(s) && LedgerFits(s, m) && s.total < TWO_32
    ensures k < |EncodeV2(s, m)| ==> Decode(EncodeV2(s, m)[..k], s.fileSize).Err?
    ensures k < |EncodeV1(s)| ==> Decode(EncodeV1(s)[..k], s.fileSize).Err?
  {
    RoundTrip(s, m);
    if k < |EncodeV2(s, m)| && Decode(EncodeV2(s, m)[..k], s.fileSize).Ok? {
      PrefixStable(EncodeV2(s, m), k, s.fileSize);
    }
    RoundTripV1(s);
    if k < |EncodeV1(s)| && Decode(EncodeV1(s)[..k], s.fileSize).Ok? {
      PrefixStable(EncodeV1(s), k, s.fileSize);
    }
  }

  // ---------- the saver and the loader ----------

  method AppendWords(buf: seq<byte>, words: seq<uint64>) returns (r: seq<byte>)
    ensures r == buf + WordBytes(words)
  {
    r := buf;
    var i := 0;
    while i < |words|
      invariant 0 <= i <= |words| && r == buf + WordBytes(words[..i])
    {
      r := r + LittleEndian(words[i], 8);
      assert words[..i + 1][..i] == words[..i];
      i := i + 1;
    }
    assert words[..i] == words;
  }

  /** Save: the version 1 file of a bitmap. */
  method Save(s: BitmapState) returns (buf: seq<byte>)
    requires s.have >= 0 && s.chunkSize >= 0
    ensures buf == EncodeV1(s)
  {
    buf := MAGIC + [1] + LittleEndian(Unsigned(s.fileSize), 8) + LittleEndian(s.total, 4) + LittleEndian(s.have, 4)
           + LittleEndian(s.chunkSize, 4);
    buf := AppendWords(buf, s.bits);
  }

  /** SaveSidecar: the version 2 file; without metadata the stamps are zero and there are no records. */
  method SaveSidecar(s: BitmapState, meta: Option<SidecarMeta>) returns (buf: seq<byte>)
    requires s.have >= 0 && s.chunkSize >= 0
    ensures buf == EncodeV2(s, meta.UnwrapOr(SidecarMeta(0, 0, None)))
  {
    hide WordBytes, RecordBytes, LittleEndian, Unsigned, AppendRecord;
    buf := MAGIC + [2] + LittleEndian(Unsigned(s.fileSize), 8) + LittleEndian(s.total, 4) + LittleEndian(s.have, 4)
           + LittleEndian(s.chunkSize, 4);
    buf := AppendWords(buf, s.bits);
    if s.prints.None? {
      buf := buf + [0];
    } else {
      ghost var before := buf;
      buf := AppendWords(buf + [1], s.prints.value);
      assert buf == before + PrintSection(s);
    }
    var recs: seq<ChunkRecord> := [];
    var held: int64, base: int64 := 0, 0;
    if meta.Some? {
      held, base := meta.value.held, meta.value.editBase;
      recs := meta.value.recs.UnwrapOr([]);
    }
    var head := LittleEndian(LEDGER_UNIT, 4) + LittleEndian(Unsigned(held), 8) + LittleEndian(Unsigned(base), 8)
                + LittleEndian(|recs|, 4);
    buf := AppendRecords(buf + head, recs);
  }

  method AppendRecords(buf: seq<byte>, recs: seq<ChunkRecord>) returns (r: seq<byte>)
    ensures r == buf + RecordBytes(recs)
  {
    r := buf;
    var i := 0;
    while i < |recs|
      invariant 0 <= i <= |recs| && r == buf + RecordBytes(recs[..i])
    {
      r := r + AppendRecord(recs[i]);
      assert recs[..i + 1][..i] == recs[..i];
      i := i + 1;
    }
    assert recs[..i] == recs;
  }

  /** LoadSidecar: the loader, section by section, with a moving position. */
  method LoadSidecar(data: seq<byte>, expected: int) returns (r: Result<Loaded>)
    ensures r == Decode(data, expected)
  {
    if |data| < 25 {
      return Err(TooShort);
    }
    if data[..4] != MAGIC {
      return Err(BadMagic);
    }
    var version := data[4];
    if version != 1 && version != 2 {
      return Err(BadVersion);
    }
    var fileSize := Signed(U64(data, 5));
    if fileSize != expected {
      return Err(SizeMismatch);
    }
    var total, have, chunkSize := U32(data, 13), U32(data, 17), U32(data, 21);
    if chunkSize == 0 {
      chunkSize := CHUNK_SIZE;
    }
    var pos := 25 + 8 * WordCount(total);
    if |data| < pos {
      return Err(Truncated);
    }
    var bits := LoadWords(data, 25, WordCount(total));
    var bitmap := BitmapState(bits, None, total, have, fileSize, chunkSize);
    if version == 1 {
      return Ok(Loaded(bitmap, None, pos));
    }
    r := LoadPrints(data, pos, bitmap);
  }

  method LoadPrints(data: seq<byte>, start: nat, bitmap: BitmapState) returns (r: Result<Loaded>)
    ensures r == DecodePrints(data, start, bitmap)
  {
    var pos, bm := start, bitmap;
    if |data| < pos + 1 {
      return Err(Truncated);
    }
    var hasHashes := data[pos];
    pos := pos + 1;
    if hasHashes == 1 {
      if |data| < pos + 8 * bm.total {
        return Err(Truncated);
      }
      var prints := LoadWords(data, pos, bm.total);
      bm := bm.(prints := Some(prints));
      pos := pos + 8 * bm.total;
    }
    r := LoadMeta(data, pos, bm);
  }

  method LoadMeta(data: seq<byte>, start: nat, bitmap: BitmapState) returns (r: Result<Loaded>)
    ensures r == DecodeMeta(data, start, bitmap)
  {
    var pos := start;
    if |data| < pos + 24 {
      return Err(Truncated);
    }
    var unit, held, base, nrec := U32(data, pos), Signed(U64(data, pos + 4)), Signed(U64(data, pos + 12)), U32(data, pos + 20);
    pos := pos + 24;
    if nrec == 0 {
      return Ok(Loaded(bitmap, Some(SidecarMeta(held, base, None)), pos));
    }
    if unit != LEDGER_UNIT || nrec != LedgerRecords(bitmap.fileSize) {
      return Err(LedgerMismatch);
    }
    if |data| < pos + 34 * nrec {
      return Err(Truncated);
    }
    var recs: seq<ChunkRecord> := [];
    while |recs| < nrec
      invariant |recs| <= nrec && recs == ReadRecords(data, pos, nrec)[..|recs|]
    {
      recs := recs + [DecodeRecord(data[pos + 34 * |recs|..pos + 34 * |recs| + 34])];
    }
    assert recs == ReadRecords(data, pos, nrec);
    return Ok(Loaded(bitmap, Some(SidecarMeta(held, base, Some(recs))), pos + 34 * nrec));
  }

  method LoadWords(data: seq<byte>, pos: nat, n: nat) returns (words: seq<uint64>)
    requires pos + 8 * n <= |data|
    ensures words == ReadWords(data, pos, n)
  {
    words := [];
    while |words| < n
      invariant |words| <= n && words == ReadWords(data, pos, n)[..|words|]
    {
      words := words + [U64(data, pos + 8 * |words|)];
    }
  }
}
