/** pkg/filesystem/chunk_ledger.go: the per-chunk version ledger of one file, one record per 4 MiB. */
module ChunkLedgers {
  import opened Bytes
  import opened Bitmaps

  /** The version state of one ledger chunk; author 0 is this peer, 1 the other. */
  datatype ChunkRecord = ChunkRecord(hash: uint64, stamp: int64, author: byte, baseHash: uint64, baseStamp: int64,
                                     present: bool, dirty: bool)

  const EMPTY_RECORD: ChunkRecord := ChunkRecord(0, 0, 0, 0, 0, false, false)

  const LEDGER_UNIT: int := 0x40_0000  // 4 MiB

  /** ledgerRecords: the records a file of `size` bytes needs. */
  function LedgerRecords(size: int): (n: nat) { if size <= 0 then 0 else (size + 0x3F_FFFF) / 0x40_0000 }

  /** The record that byte `p` lies in. */
  function RecordOf(p: int): (c: int) { p / 0x40_0000 }

  /** A byte range of `n` bytes touches record `c`. */
  predicate Touches(offset: int, n: int, c: int) {
    n > 0 && offset >= 0 && RecordOf(offset) <= c <= RecordOf(offset + n - 1)
  }

  /** `Touches` by its meaning: one of the range's bytes lies in the record. */
  lemma {:induction false} TouchesByBytes(offset: int, n: int, c: int)
    ensures Touches(offset, n, c) <==> offset >= 0 && exists p :: offset <= p < offset + n && RecordOf(p) == c
  {
    if Touches(offset, n, c) {
      assert RecordOf(Max(offset, c * 0x40_0000)) == c;
    }
  }

  /** The bitmap chunks of record `c`: eight, fewer at the end of the file. */
  function FirstChunk(c: int): (i: int) { 8 * c }

  function EndChunk(c: int, total: int): (i: int) { Min(8 * c + 8, total) }

  /** The records partition the bitmap's chunks: every chunk of the file lies in exactly one record, no record is
      empty, and the two ceiling divisions agree. */
  lemma {:induction false} RecordsPartitionChunks(size: int, i: int)
    requires size > 0
    ensures LedgerRecords(size) == (ChunkCount(size) + 7) / 8
    ensures 0 <= i < ChunkCount(size) <==>
            exists c: nat :: c < LedgerRecords(size) && FirstChunk(c) <= i < EndChunk(c, ChunkCount(size))
    ensures forall c: nat :: FirstChunk(c) <= i < EndChunk(c, ChunkCount(size)) ==> c == i / 8
    ensures forall c: nat :: c < LedgerRecords(size) ==> FirstChunk(c) < EndChunk(c, ChunkCount(size))
  {
    if 0 <= i < ChunkCount(size) {
      var c := i / 8;
      assert c < LedgerRecords(size) && FirstChunk(c) <= i < EndChunk(c, ChunkCount(size));
    }
  }

  /** The record at `c`; outside the ledger Go's zero record. */
  function At(recs: seq<ChunkRecord>, c: int): (r: ChunkRecord) {
    if 0 <= c < |recs| then recs[c] else EMPTY_RECORD
  }

  // ---------- what each operation does to one record ----------

  function Written(r: ChunkRecord, base: ChunkRecord): (w: ChunkRecord) {
    if r.dirty then r.(author := 0)
    else r.(baseHash := base.hash, baseStamp := base.stamp, stamp := 0, dirty := true, author := 0)
  }

  function Settled(r: ChunkRecord, hash: uint64, stamp: int64): (s: ChunkRecord) {
    if !r.dirty then r
    else r.(hash := if hash != 0 then hash else r.hash, present := hash != 0 || r.present,
            stamp := if stamp > r.stamp then stamp else r.stamp, author := 0)
  }

  function SettledStamp(r: ChunkRecord, stamp: int64): (s: ChunkRecord) {
    if r.dirty && stamp > r.stamp then r.(stamp := stamp) else r
  }

  /** The record after a sync: `id` is its identity in the bitmap, None while a chunk of it is missing. */
  function Synced(r: ChunkRecord, id: Option<uint64>, heldStamp: int64): (s: ChunkRecord) {
    var lifted := r.(present := id.Some?,
                     hash := if id.Some? then id.value else if r.dirty then r.hash else 0);
    if r.dirty then lifted else lifted.(author := 1, stamp := if id.Some? then heldStamp else r.stamp)
  }

  /** An accepted record as the receiver keeps it: the bytes are not held yet. */
  function Adopted(inc: ChunkRecord): (r: ChunkRecord) { inc.(present := false, dirty := false) }

  function Applied(recs: seq<ChunkRecord>, c: int, inc: ChunkRecord): (r: seq<ChunkRecord>)
    ensures |r| == |recs|
  {
    if 0 <= c < |recs| then recs[c := Adopted(inc)] else recs
  }

  // ---------- the judgment ----------

  datatype Verdict = Verdict(accept: bool, conflict: bool)

  /** The receiver's rule for one chunk. */
  function JudgeChunk(own: ChunkRecord, inc: ChunkRecord, peerWinsTie: bool): (v: Verdict)
    ensures v.conflict ==> v.accept
  {
    if inc.hash == own.hash then Verdict(false, false)
    else
      var accept := inc.stamp > own.stamp || (inc.stamp == own.stamp && peerWinsTie);
      Verdict(accept, accept && own.dirty && inc.baseHash != own.hash)
  }

  /** The indices below `n` that `keep` holds of, ascending. */
  function Picked(n: nat, keep: nat -> bool): (s: seq<nat>)
    ensures forall c: nat :: c in s <==> c < n && keep(c)
    ensures forall i :: 0 <= i < |s| ==> s[i] < n && keep(s[i])
    ensures forall i, j :: 0 <= i < j < |s| ==> s[i] < s[j]
  {
    if n == 0 then [] else Picked(n - 1, keep) + if keep(n - 1) then [n - 1] else []
  }

  lemma {:induction false} PickedSame(n: nat, keep: nat -> bool, keep': nat -> bool)
    requires forall c: nat :: c < n ==> keep(c) == keep'(c)
    ensures Picked(n, keep) == Picked(n, keep')
  {
    if n > 0 { PickedSame(n - 1, keep, keep'); }
  }

  lemma {:induction false} PickedNone(n: nat, keep: nat -> bool)
    requires forall c: nat :: c < n ==> !keep(c)
    ensures Picked(n, keep) == []
  {
    if n > 0 { PickedNone(n - 1, keep); }
  }

  function Accepts(own: seq<ChunkRecord>, peer: seq<ChunkRecord>, peerWinsTie: bool): (f: nat -> bool) {
    (c: nat) => JudgeChunk(At(own, c), At(peer, c), peerWinsTie).accept
  }

  function Clashes(own: seq<ChunkRecord>, peer: seq<ChunkRecord>, peerWinsTie: bool): (f: nat -> bool) {
    (c: nat) => JudgeChunk(At(own, c), At(peer, c), peerWinsTie).conflict
  }

  /** Diff's two lists. */
  function FetchList(own: seq<ChunkRecord>, peer: seq<ChunkRecord>, peerWinsTie: bool): (s: seq<nat>) {
    Picked(|peer|, Accepts(own, peer, peerWinsTie))
  }

  function ConflictList(own: seq<ChunkRecord>, peer: seq<ChunkRecord>, peerWinsTie: bool): (s: seq<nat>) {
    Picked(|peer|, Clashes(own, peer, peerWinsTie))
  }

  /** Every accepted record applied, in order. */
  function AppliedAll(own: seq<ChunkRecord>, peer: seq<ChunkRecord>, fetch: seq<nat>): (r: seq<ChunkRecord>)
    ensures |r| == |own|
  {
    if fetch == [] then own
    else
      var c := fetch[|fetch| - 1];
      Applied(AppliedAll(own, peer, fetch[..|fetch| - 1]), c, At(peer, c))
  }

  lemma {:induction false} AppliedAllAt(own: seq<ChunkRecord>, peer: seq<ChunkRecord>, fetch: seq<nat>, c: nat)
    requires c < |own|
    ensures AppliedAll(own, peer, fetch)[c] == if c in fetch then Adopted(At(peer, c)) else own[c]
  {
    if fetch != [] {
      AppliedAllAt(own, peer, fetch[..|fetch| - 1], c);
      assert fetch == fetch[..|fetch| - 1] + [fetch[|fetch| - 1]];
    }
  }

  /** One peer's ledger after it took in the other's: Diff, then Apply of everything Diff lists. */
  function Received(own: seq<ChunkRecord>, peer: seq<ChunkRecord>, peerWinsTie: bool): (r: seq<ChunkRecord>)
    ensures |r| == |own|
  {
    AppliedAll(own, peer, FetchList(own, peer, peerWinsTie))
  }

  lemma {:induction false} ReceivedAt(own: seq<ChunkRecord>, peer: seq<ChunkRecord>, peerWinsTie: bool, c: nat)
    requires c < |own| == |peer|
    ensures Received(own, peer, peerWinsTie)[c] ==
            if JudgeChunk(own[c], peer[c], peerWinsTie).accept then Adopted(peer[c]) else own[c]
  {
    AppliedAllAt(own, peer, FetchList(own, peer, peerWinsTie), c);
  }

  /** What a peer keeps of an accepted record: the version and the base it came with, without its bytes, and nothing
      pending; it keeps every other record of its own as it was. */
  lemma {:induction false} ReceivedRecord(own: seq<ChunkRecord>, peer: seq<ChunkRecord>, peerWinsTie: bool, c: nat)
    requires c < |own| == |peer|
    ensures var r := Received(own, peer, peerWinsTie)[c];
            if peer[c].hash != own[c].hash && (peer[c].stamp > own[c].stamp || (peer[c].stamp == own[c].stamp && peerWinsTie)) then
              && r.hash == peer[c].hash && r.stamp == peer[c].stamp && r.author == peer[c].author
              && r.baseHash == peer[c].baseHash && r.baseStamp == peer[c].baseStamp && !r.present && !r.dirty
            else r == own[c]
  {
    ReceivedAt(own, peer, peerWinsTie, c);
  }

  // ---------- convergence ----------

  /** One simultaneous exchange with opposite tie flags makes both ledgers name the same bytes everywhere, and a
      second exchange fetches nothing and finds no conflict. */
  lemma {:induction false} ExchangeConverges(a: seq<ChunkRecord>, b: seq<ChunkRecord>, peerWinsTie: bool)
    requires |a| == |b|
    ensures var a', b' := Received(a, b, peerWinsTie), Received(b, a, !peerWinsTie);
            && (forall c :: 0 <= c < |a| ==> a'[c].hash == b'[c].hash)
            && FetchList(a', b', peerWinsTie) == [] && ConflictList(a', b', peerWinsTie) == []
            && FetchList(b', a', !peerWinsTie) == [] && ConflictList(b', a', !peerWinsTie) == []
  {
    var a', b' := Received(a, b, peerWinsTie), Received(b, a, !peerWinsTie);
    forall c | 0 <= c < |a|
      ensures a'[c].hash == b'[c].hash
    {
      ReceivedAt(a, b, peerWinsTie, c);
      ReceivedAt(b, a, !peerWinsTie, c);
    }
    NothingLeft(a', b', peerWinsTie);
    NothingLeft(b', a', !peerWinsTie);
  }

  lemma {:induction false} NothingLeft(own: seq<ChunkRecord>, peer: seq<ChunkRecord>, peerWinsTie: bool)
    requires |own| == |peer| && forall c :: 0 <= c < |own| ==> own[c].hash == peer[c].hash
    ensures FetchList(own, peer, peerWinsTie) == [] && ConflictList(own, peer, peerWinsTie) == []
  {
    PickedNone(|peer|, Accepts(own, peer, peerWinsTie));
    PickedNone(|peer|, Clashes(own, peer, peerWinsTie));
  }

  /** No local change is replaced in silence: a dirty record whose bytes change is listed as a conflict exactly
      when the winner did not start from those bytes. */
  lemma {:induction false} ConflictsAreComplete(own: seq<ChunkRecord>, peer: seq<ChunkRecord>, peerWinsTie: bool, c: nat)
    requires c < |own| == |peer|
    ensures own[c].dirty && Received(own, peer, peerWinsTie)[c].hash != own[c].hash ==>
              (c in ConflictList(own, peer, peerWinsTie) <==> peer[c].baseHash != own[c].hash)
    ensures c in ConflictList(own, peer, peerWinsTie) ==>
              own[c].dirty && Received(own, peer, peerWinsTie)[c].hash == peer[c].hash != own[c].hash
  {
    ReceivedAt(own, peer, peerWinsTie, c);
  }

  // ---------- delivery order ----------

  /** The ledgers a peer receives, one after another. */
  function ReceivedAll(own: seq<ChunkRecord>, msgs: seq<seq<ChunkRecord>>, peerWinsTie: bool): (r: seq<ChunkRecord>)
    ensures |r| == |own|
  {
    if msgs == [] then own
    else Received(ReceivedAll(own, msgs[..|msgs| - 1], peerWinsTie), msgs[|msgs| - 1], peerWinsTie)
  }

  /** `r` is one of the versions of chunk `c` a peer holds or receives. */
  ghost predicate Offered(own: seq<ChunkRecord>, msgs: seq<seq<ChunkRecord>>, c: nat, r: ChunkRecord)
    requires c < |own| && forall m :: m in msgs ==> |m| == |own|
  {
    r == own[c] || exists m :: m in msgs && m[c] == r
  }

  /** Stamps name versions: among the versions of chunk `c`, equal hashes mean equal stamps and no stamp is reused. */
  ghost predicate StampsName(own: seq<ChunkRecord>, msgs: seq<seq<ChunkRecord>>, c: nat)
    requires c < |own| && forall m :: m in msgs ==> |m| == |own|
  {
    forall r, s :: Offered(own, msgs, c, r) && Offered(own, msgs, c, s) ==> (r.hash == s.hash <==> r.stamp == s.stamp)
  }

  /** What a peer ends with is the newest version offered, whatever the order. */
  lemma {:induction false} NewestWins(own: seq<ChunkRecord>, msgs: seq<seq<ChunkRecord>>, peerWinsTie: bool, c: nat)
    returns (newest: ChunkRecord)
    requires c < |own| && forall m :: m in msgs ==> |m| == |own|
    requires StampsName(own, msgs, c)
    ensures Offered(own, msgs, c, newest)
    ensures ReceivedAll(own, msgs, peerWinsTie)[c].hash == newest.hash
    ensures ReceivedAll(own, msgs, peerWinsTie)[c].stamp == newest.stamp
    ensures forall r :: Offered(own, msgs, c, r) ==> r.stamp <= newest.stamp
  {
    if msgs == [] {
      newest := own[c];
    } else {
      var front, last := msgs[..|msgs| - 1], msgs[|msgs| - 1];
      assert msgs == front + [last];
      assert forall m :: m in msgs <==> m in front || m == last;
      assert forall r :: Offered(own, msgs, c, r) <==> Offered(own, front, c, r) || r == last[c];
      var before := NewestWins(own, front, peerWinsTie, c);
      ReceivedAt(ReceivedAll(own, front, peerWinsTie), last, peerWinsTie, c);
      assert Offered(own, msgs, c, last[c]) && Offered(own, msgs, c, before);
      newest := if last[c].stamp > before.stamp then last[c] else before;
    }
  }

  /** The same ledgers, received in any two orders and with any redelivery, leave the same version of every chunk,
      whatever the tie flags. */
  lemma {:induction false} DeliveryOrderIrrelevant(own: seq<ChunkRecord>, msgs: seq<seq<ChunkRecord>>, msgs': seq<seq<ChunkRecord>>,
                                peerWinsTie: bool, peerWinsTie': bool, c: nat)
    requires c < |own| && (forall m :: m in msgs ==> |m| == |own|) && (forall m :: m in msgs' <==> m in msgs)
    requires StampsName(own, msgs, c)
    ensures ReceivedAll(own, msgs, peerWinsTie)[c].hash == ReceivedAll(own, msgs', peerWinsTie')[c].hash
    ensures ReceivedAll(own, msgs, peerWinsTie)[c].stamp == ReceivedAll(own, msgs', peerWinsTie')[c].stamp
  {
    assert forall r :: Offered(own, msgs, c, r) <==> Offered(own, msgs', c, r);
    var newest := NewestWins(own, msgs, peerWinsTie, c);
    var newest' := NewestWins(own, msgs', peerWinsTie', c);
    assert newest.stamp == newest'.stamp;
  }

  // ---------- swap-save ----------

  /** A temp record that the target already holds. */
  predicate SwapKeeps(recs: seq<ChunkRecord>, temp: seq<ChunkRecord>, c: int)
    requires 0 <= c < |temp|
  {
    c < |recs| && recs[c].present && recs[c].hash == temp[c].hash
  }

  function SwapRecord(recs: seq<ChunkRecord>, temp: seq<ChunkRecord>, stamp: int64, c: int): (r: ChunkRecord)
    requires 0 <= c < |temp|
  {
    if SwapKeeps(recs, temp, c) then recs[c]
    else ChunkRecord(temp[c].hash, stamp, 0, At(recs, c).hash, At(recs, c).stamp, temp[c].present, true)
  }

  /** The ledger after SettleSwap, and the list of changed records it returns. */
  function Swapped(recs: seq<ChunkRecord>, temp: seq<ChunkRecord>, stamp: int64): (r: seq<ChunkRecord>)
    ensures |r| == |temp|
    ensures forall c :: 0 <= c < |temp| ==> r[c] == SwapRecord(recs, temp, stamp, c)
  {
    seq(|temp|, c requires 0 <= c < |temp| => SwapRecord(recs, temp, stamp, c))
  }

  function Changes(recs: seq<ChunkRecord>, temp: seq<ChunkRecord>): (f: nat -> bool) {
    (c: nat) => c < |temp| && !SwapKeeps(recs, temp, c)
  }

  function SwapChanged(recs: seq<ChunkRecord>, temp: seq<ChunkRecord>): (s: seq<nat>) {
    Picked(|temp|, Changes(recs, temp))
  }

  /** What a swap leaves of each record: the target's own where it holds the same bytes, else the temp's bytes as a change
      of this peer under the swap's stamp, from the version the target had there, 0 where it had none. */
  lemma {:induction false} SwappedRecord(recs: seq<ChunkRecord>, temp: seq<ChunkRecord>, stamp: int64, c: nat)
    requires c < |temp|
    ensures var r := Swapped(recs, temp, stamp)[c];
            && r.hash == temp[c].hash
            && (c !in SwapChanged(recs, temp) ==> c < |recs| && r == recs[c])
            && (c in SwapChanged(recs, temp) ==>
                  && r.stamp == stamp && r.author == 0 && r.dirty && r.present == temp[c].present
                  && r.baseHash == (if c < |recs| then recs[c].hash else 0)
                  && r.baseStamp == (if c < |recs| then recs[c].stamp else 0))
            && (c in SwapChanged(recs, temp) <==> c >= |recs| || !recs[c].present || recs[c].hash != temp[c].hash)
  {
  }

  /** A swap-save sends the exact delta: a peer whose ledger agrees with ours fetches the changed records and no
      other, with no conflict, exactly when no record past our end is without identity. */
  lemma {:induction false} SwapSendsDelta(ours: seq<ChunkRecord>, theirs: seq<ChunkRecord>, temp: seq<ChunkRecord>, stamp: int64,
                       peerWinsTie: bool)
    requires |ours| == |theirs| && stamp > 0
    requires forall c :: 0 <= c < |ours| ==> theirs[c].hash == ours[c].hash && theirs[c].stamp == ours[c].stamp
    requires forall c :: 0 <= c < |ours| ==> ours[c].present && ours[c].stamp < stamp
    ensures ConflictList(theirs, Swapped(ours, temp, stamp), peerWinsTie) == []
    ensures FetchList(theirs, Swapped(ours, temp, stamp), peerWinsTie) == SwapChanged(ours, temp) <==>
            forall c :: |ours| <= c < |temp| ==> temp[c].hash != 0
  {
    var sent := Swapped(ours, temp, stamp);
    forall c: nat | c < |temp|
      ensures !Clashes(theirs, sent, peerWinsTie)(c)
      ensures Accepts(theirs, sent, peerWinsTie)(c) ==
              (Changes(ours, temp)(c) && (c < |ours| || temp[c].hash != 0))
    {
      SwapVerdict(ours, At(theirs, c), temp, stamp, peerWinsTie, c);
    }
    PickedNone(|temp|, Clashes(theirs, sent, peerWinsTie));
    if forall c :: |ours| <= c < |temp| ==> temp[c].hash != 0 {
      PickedSame(|temp|, Accepts(theirs, sent, peerWinsTie), Changes(ours, temp));
    } else {
      var c: nat :| |ours| <= c < |temp| && temp[c].hash == 0;
      assert c in SwapChanged(ours, temp) && c !in FetchList(theirs, sent, peerWinsTie);
    }
  }

  lemma {:induction false} SwapVerdict(ours: seq<ChunkRecord>, their: ChunkRecord, temp: seq<ChunkRecord>, stamp: int64, peerWinsTie: bool,
                    c: nat)
    requires c < |temp| && stamp > 0
    requires if c < |ours| then their.hash == ours[c].hash && their.stamp == ours[c].stamp < stamp && ours[c].present
             else their == EMPTY_RECORD
    ensures var v := JudgeChunk(their, SwapRecord(ours, temp, stamp, c), peerWinsTie);
            !v.conflict && (v.accept <==> !SwapKeeps(ours, temp, c) && (c < |ours| || temp[c].hash != 0))
  {
  }

  /** Swapping the same temp in again changes exactly the changed records whose bytes the temp does not hold; with
      a fully present temp it changes nothing. */
  lemma {:induction false} SwapAgain(recs: seq<ChunkRecord>, temp: seq<ChunkRecord>, stamp: int64, stamp': int64, c: nat)
    ensures var once := Swapped(recs, temp, stamp);
            c in SwapChanged(once, temp) <==> c in SwapChanged(recs, temp) && !temp[c].present
    ensures (forall d :: d in SwapChanged(recs, temp) ==> temp[d].present) ==>
              Swapped(Swapped(recs, temp, stamp), temp, stamp') == Swapped(recs, temp, stamp)
  {
  }

  // ---------- the identity of a record ----------

  /** The fingerprints of chunks [first, last), little-endian, in order. */
  function PrintBytes(prints: seq<uint64>, first: nat, last: nat): (b: seq<byte>)
    requires first <= last <= |prints|
    ensures |b| == 8 * (last - first)
  {
    if first == last then [] else PrintBytes(prints, first, last - 1) + LittleEndian(prints[last - 1], 8)
  }

  /** recordHash: the hash of the fingerprints of the record's chunks, unknown while one of them is missing. */
  ghost function RecordHash(prints: Option<seq<uint64>>, present: set<int>, total: nat, c: nat,
                            hash: seq<byte> -> uint64): (h: Option<uint64>)
  {
    if Fingerprinted(prints, present, total, c)
    then Some(hash(PrintBytes(prints.value, FirstChunk(c), EndChunk(c, total)))) else None
  }

  /** Record `c` has chunks, and every one of them is present with a fingerprint. */
  ghost predicate Fingerprinted(prints: Option<seq<uint64>>, present: set<int>, total: nat, c: nat)
    ensures Fingerprinted(prints, present, total, c) ==> prints.Some? && EndChunk(c, total) <= |prints.value|
  {
    && FirstChunk(c) < EndChunk(c, total)
    && (forall i :: FirstChunk(c) <= i < EndChunk(c, total) ==> PrintAt(prints, present, i).Some?)
    && PrintAt(prints, present, EndChunk(c, total) - 1).Some?
  }

  /** After a sync every record is present exactly when no chunk of the file is missing or without fingerprint. */
  lemma {:induction false} AllPresentIffComplete(size: nat, prints: Option<seq<uint64>>, present: set<int>, hash: seq<byte> -> uint64)
    requires size > 0
    ensures (forall c: nat :: c < LedgerRecords(size) ==> RecordHash(prints, present, ChunkCount(size), c, hash).Some?)
            <==> (forall i: nat :: i < ChunkCount(size) ==> PrintAt(prints, present, i).Some?)
  {
    var total := ChunkCount(size);
    if forall c: nat :: c < LedgerRecords(size) ==> RecordHash(prints, present, total, c, hash).Some? {
      forall i: nat | i < total
        ensures PrintAt(prints, present, i).Some?
      {
        RecordsPartitionChunks(size, i);
        var c: nat :| c < LedgerRecords(size) && FirstChunk(c) <= i < EndChunk(c, total);
        assert RecordHash(prints, present, total, c, hash).Some?;
      }
    }
    RecordsPartitionChunks(size, 0);
  }

  /** The identity tells contents apart: without a collision on the two lists of fingerprints, records have the
      same identity only when their chunks have the same fingerprints. */
  lemma {:induction false} PrintBytesInjective(a: seq<uint64>, b: seq<uint64>, first: nat, last: nat)
    requires first <= last <= |a| && last <= |b| && PrintBytes(a, first, last) == PrintBytes(b, first, last)
    ensures a[first..last] == b[first..last]
  {
    if first < last {
      var x, y := LittleEndian(a[last - 1], 8), LittleEndian(b[last - 1], 8);
      var front := 8 * (last - 1 - first);
      assert PrintBytes(a, first, last)[front..] == x && PrintBytes(b, first, last)[front..] == y;
      assert PrintBytes(a, first, last)[..front] == PrintBytes(a, first, last - 1);
      assert PrintBytes(b, first, last)[..front] == PrintBytes(b, first, last - 1);
      PrintBytesInjective(a, b, first, last - 1);
      Widths();
      LittleEndianRoundTrip(a[last - 1], 8);
      LittleEndianRoundTrip(b[last - 1], 8);
      assert a[first..last] == a[first..last - 1] + [a[last - 1]];
      assert b[first..last] == b[first..last - 1] + [b[last - 1]];
    }
  }

  /** The fingerprints stand in the identity's input in chunk order, eight bytes each. */
  lemma {:induction false} PrintBytesInOrder(prints: seq<uint64>, first: nat, last: nat, i: nat)
    requires first <= i < last <= |prints|
    ensures FromLittleEndian(PrintBytes(prints, first, last)[8 * (i - first)..8 * (i - first) + 8]) == prints[i]
  {
    var front, word := PrintBytes(prints, first, last - 1), LittleEndian(prints[last - 1], 8);
    if i < last - 1 {
      PrintBytesInOrder(prints, first, last - 1, i);
      assert (front + word)[8 * (i - first)..8 * (i - first) + 8] == front[8 * (i - first)..8 * (i - first) + 8];
    } else {
      Widths();
      LittleEndianRoundTrip(prints[i], 8);
      assert (front + word)[|front|..|front| + 8] == word;
    }
  }

  // ---------- the life of a dirty record ----------

  /** What an edit session works on: the ledger, the bitmap's fingerprints and chunks, and the held version. */
  datatype Session = Session(recs: seq<ChunkRecord>, prints: Option<seq<uint64>>, present: set<int>, held: int64)

  /** What can happen between two announces. A write takes `n` bytes, and the bitmap has `prints` once it has refreshed
      them; landings of any kind leave a bitmap; a fetch raises the held version. */
  datatype Event =
    | Write(offset: int, n: int, prints: Option<seq<uint64>>)
    | Land(prints: Option<seq<uint64>>, present: set<int>)
    | Hold(stamp: int64)
    | Settle(c: int, hash: uint64, stamp: int64)
    | SettleDirty(stamp: int64)
    | Sync

  /** The base a write gives a clean record: the identity and the held version of that moment. */
  ghost function BaseNow(s: Session, total: nat, c: nat, hash: seq<byte> -> uint64): (base: ChunkRecord) {
    EMPTY_RECORD.(hash := RecordHash(s.prints, s.present, total, c, hash).UnwrapOr(0), stamp := s.held)
  }

  /** What an event makes of record `c`. */
  ghost function RecordAfter(s: Session, e: Event, total: nat, c: nat, hash: seq<byte> -> uint64): (r: ChunkRecord)
    requires c < |s.recs|
  {
    var r := s.recs[c];
    match e
    case Write(offset, n, _) => if Touches(offset, n, c) then Written(r, BaseNow(s, total, c, hash)) else r
    case Settle(d, h, stamp) => if c == d then Settled(r, h, stamp) else r
    case SettleDirty(stamp) => SettledStamp(r, stamp)
    case Sync => Synced(r, RecordHash(s.prints, s.present, total, c, hash), s.held)
    case _ => r
  }

  ghost function After(s: Session, e: Event, total: nat, hash: seq<byte> -> uint64): (s': Session)
    ensures |s'.recs| == |s.recs| && forall c: nat :: c < |s.recs| ==> s'.recs[c] == RecordAfter(s, e, total, c, hash)
  {
    var next := s.(recs := seq(|s.recs|, (c: nat) requires c < |s.recs| => RecordAfter(s, e, total, c, hash)));
    match e
    case Write(_, _, prints) => next.(prints := prints)
    case Land(prints, present) => next.(prints := prints, present := present)
    case Hold(stamp) => next.(held := stamp)
    case _ => next
  }

  ghost function AfterAll(s: Session, events: seq<Event>, total: nat, hash: seq<byte> -> uint64): (s': Session)
    ensures |s'.recs| == |s.recs|
    decreases |events|
  {
    if events == [] then s else AfterAll(After(s, events[0], total, hash), events[1..], total, hash)
  }

  /** After a sync a clean record names the held version when its bytes are all known, and keeps its stamp while they are
      not; a dirty one takes no more than presence and identity. */
  lemma {:induction false} SyncedRecord(s: Session, total: nat, hash: seq<byte> -> uint64, c: nat)
    requires c < |s.recs|
    ensures var r, r' := s.recs[c], After(s, Sync, total, hash).recs[c];
            var id := RecordHash(s.prints, s.present, total, c, hash);
            && r'.dirty == r.dirty && r'.baseHash == r.baseHash && r'.baseStamp == r.baseStamp
            && (r'.present <==> id.Some?) && (id.Some? ==> r'.hash == id.value)
            && (!r.dirty ==> r'.author == 1 && r'.stamp == (if id.Some? then s.held else r.stamp) && (id.None? ==> r'.hash == 0))
            && (r.dirty ==> r'.author == r.author && r'.stamp == r.stamp && (id.None? ==> r'.hash == r.hash))
  {
    hide RecordHash;
  }

  /** Settling one record names its new bytes, when they are known; it touches no clean record. */
  lemma {:induction false} SettledRecord(s: Session, d: int, h: uint64, stamp: int64, total: nat, hash: seq<byte> -> uint64, c: nat)
    requires c < |s.recs|
    ensures var r, r' := s.recs[c], After(s, Event.Settle(d, h, stamp), total, hash).recs[c];
            && (c != d || !r.dirty ==> r' == r)
            && (c == d && r.dirty ==>
                  && r'.stamp == Max(r.stamp, stamp) && r'.dirty && r'.author == 0
                  && r'.baseHash == r.baseHash && r'.baseStamp == r.baseStamp
                  && (h != 0 ==> r'.hash == h && r'.present) && (h == 0 ==> r'.hash == r.hash && r'.present == r.present))
  {
  }

  /** The newest stamp the events give record `c` while it is dirty. */
  function NewestStamp(events: seq<Event>, c: nat): (m: int64)
    ensures m >= 0
    decreases |events|
  {
    if events == [] then 0
    else
      var rest := NewestStamp(events[1..], c);
      match events[0]
      case SettleDirty(stamp) => Max(stamp, rest)
      case Settle(d, _, stamp) => if d == c then Max(stamp, rest) else rest
      case _ => rest
  }

  lemma {:induction false} DirtyStamp(s: Session, events: seq<Event>, total: nat, hash: seq<byte> -> uint64, c: nat)
    requires c < |s.recs| && s.recs[c].dirty && s.recs[c].stamp >= 0
    ensures AfterAll(s, events, total, hash).recs[c].stamp == Max(s.recs[c].stamp, NewestStamp(events, c))
    decreases |events|
  {
    if events != [] {
      DirtyStamp(After(s, events[0], total, hash), events[1..], total, hash, c);
    }
  }

  predicate WritesTo(e: Event, c: nat) { e.Write? && Touches(e.offset, e.n, c) }

  /** Once dirty, a record keeps its base, is this peer's, and its stamp never falls. */
  lemma {:induction false} DirtyKeepsBase(s: Session, events: seq<Event>, total: nat, hash: seq<byte> -> uint64, c: nat)
    requires c < |s.recs| && s.recs[c].dirty && s.recs[c].author == 0
    ensures var r, r' := s.recs[c], AfterAll(s, events, total, hash).recs[c];
            r'.dirty && r'.author == 0 && r'.baseHash == r.baseHash && r'.baseStamp == r.baseStamp && r.stamp <= r'.stamp
    decreases |events|
  {
    if events != [] { DirtyKeepsBase(After(s, events[0], total, hash), events[1..], total, hash, c); }
  }

  lemma {:induction false} CleanUntilWritten(s: Session, events: seq<Event>, total: nat, hash: seq<byte> -> uint64, c: nat)
    requires c < |s.recs| && !s.recs[c].dirty && forall e :: e in events ==> !WritesTo(e, c)
    ensures !AfterAll(s, events, total, hash).recs[c].dirty
    decreases |events|
  {
    if events != [] {
      assert !WritesTo(events[0], c);
      CleanUntilWritten(After(s, events[0], total, hash), events[1..], total, hash, c);
    }
  }

  lemma {:induction false} AfterAllSplit(s: Session, xs: seq<Event>, ys: seq<Event>, total: nat, hash: seq<byte> -> uint64)
    ensures AfterAll(s, xs + ys, total, hash) == AfterAll(AfterAll(s, xs, total, hash), ys, total, hash)
    decreases |xs|
  {
    if xs == [] {
      assert xs + ys == ys;
    } else {
      assert (xs + ys)[0] == xs[0] && (xs + ys)[1..] == xs[1..] + ys;
      AfterAllSplit(After(s, xs[0], total, hash), xs[1..], ys, total, hash);
    }
  }

  /** Over any run from a clean record, whatever lands, syncs or settles in between: the record is dirty from the first
      write that touches it on, its base stays the identity the bitmap gave it and the version held right before
      that write, and its stamp is the newest it was settled with since, 0 before. */
  lemma {:induction false} BaseOfFirstWrite(s: Session, before: seq<Event>, w: Event, later: seq<Event>, total: nat,
                                            hash: seq<byte> -> uint64, c: nat)
    requires c < |s.recs| && !s.recs[c].dirty && WritesTo(w, c) && forall e :: e in before ==> !WritesTo(e, c)
    ensures var s1 := AfterAll(s, before, total, hash);
            var r := AfterAll(s, before + [w] + later, total, hash).recs[c];
            && !s1.recs[c].dirty && r.dirty && r.author == 0 && r.baseStamp == s1.held
            && r.baseHash == RecordHash(s1.prints, s1.present, total, c, hash).UnwrapOr(0)
            && r.stamp == NewestStamp(later, c)
  {
    CleanUntilWritten(s, before, total, hash, c);
    AfterAllSplit(s, before + [w], later, total, hash);
    AfterAllSplit(s, before, [w], total, hash);
    var s1 := AfterAll(s, before, total, hash);
    assert AfterAll(s1, [w], total, hash) == After(s1, w, total, hash);
    DirtyKeepsBase(After(s1, w, total, hash), later, total, hash, c);
    DirtyStamp(After(s1, w, total, hash), later, total, hash, c);
  }

  // ---------- the ledger ----------

  /** DirtyBase and MaxDirtyStamp of the first `n` records. */
  function MinBase(recs: seq<ChunkRecord>, n: nat): (m: Option<int64>)
    requires n <= |recs|
  {
    if n == 0 then None
    else
      var m := MinBase(recs, n - 1);
      if recs[n - 1].dirty && (m.None? || recs[n - 1].baseStamp < m.value) then Some(recs[n - 1].baseStamp) else m
  }

  /** The announced base is a lower bound of every pending change's base, and one of them has it. */
  lemma {:induction false} MinBaseIsMinimum(recs: seq<ChunkRecord>, n: nat)
    requires n <= |recs|
    ensures MinBase(recs, n).Some? <==> exists c :: 0 <= c < n && recs[c].dirty
    ensures MinBase(recs, n).Some? ==>
              && (exists c :: 0 <= c < n && recs[c].dirty && recs[c].baseStamp == MinBase(recs, n).value)
              && (forall c :: 0 <= c < n && recs[c].dirty ==> MinBase(recs, n).value <= recs[c].baseStamp)
  {
    if n > 0 { MinBaseIsMinimum(recs, n - 1); }
  }

  /** MaxDirtyStamp of the first `n` records. */
  function MaxDirty(recs: seq<ChunkRecord>, n: nat): (m: int64)
    requires n <= |recs|
  {
    if n == 0 then 0
    else
      var m := MaxDirty(recs, n - 1);
      if recs[n - 1].dirty && recs[n - 1].stamp > m then recs[n - 1].stamp else m
  }

  lemma {:induction false} MaxDirtyIsMaximum(recs: seq<ChunkRecord>, n: nat)
    requires n <= |recs|
    ensures MaxDirty(recs, n) >= 0 && forall c :: 0 <= c < n && recs[c].dirty ==> recs[c].stamp <= MaxDirty(recs, n)
    ensures MaxDirty(recs, n) == 0 || exists c :: 0 <= c < n && recs[c].dirty && recs[c].stamp == MaxDirty(recs, n)
  {
    if n > 0 { MaxDirtyIsMaximum(recs, n - 1); }
  }

  class ChunkLedger {
    var size: int
    var recs: seq<ChunkRecord>
    const hash: seq<byte> -> uint64  // xxh3

    predicate Sized()
      reads this
    {
      size > 0 && |recs| == LedgerRecords(size)
    }

    constructor (fileSize: int, xxh3: seq<byte> -> uint64)
      requires fileSize > 0
      ensures Sized() && size == fileSize && hash == xxh3 && forall c :: 0 <= c < |recs| ==> recs[c] == EMPTY_RECORD
    {
      size, hash := fileSize, xxh3;
      recs := seq(LedgerRecords(fileSize), _ => EMPTY_RECORD);
    }

    /** RecordRange: the bounds of the touched records; an empty interval when there are none. */
    method RecordRange(offset: int, n: int) returns (first: int, last: int)
      requires Sized()
      ensures first <= last ==> 0 <= first && last < |recs|
      ensures forall c :: 0 <= c < |recs| ==> (first <= c <= last <==> Touches(offset, n, c))
    {
      if n <= 0 || offset < 0 || |recs| == 0 {
        return 0, -1;
      }
      first, last := RecordOf(offset), RecordOf(offset + n - 1);
      if last >= |recs| {
        last := |recs| - 1;
      }
      if first > last {
        return 0, -1;
      }
    }

    method MarkWritten(c: int, base: ChunkRecord)
      modifies this`recs
      ensures recs == if 0 <= c < |old(recs)| then old(recs)[c := Written(old(recs)[c], base)] else old(recs)
    {
      if c < 0 || c >= |recs| {
        return;
      }
      var r := recs[c];
      if !r.dirty {
        r := r.(baseHash := base.hash, baseStamp := base.stamp, stamp := 0);
      }
      recs := recs[c := r.(dirty := true, author := 0)];
    }

    method Settle(c: int, h: uint64, stamp: int64)
      modifies this`recs
      ensures recs == if 0 <= c < |old(recs)| then old(recs)[c := Settled(old(recs)[c], h, stamp)] else old(recs)
    {
      if c < 0 || c >= |recs| || !recs[c].dirty {
        return;
      }
      var r := recs[c];
      if h != 0 {
        r := r.(hash := h, present := true);
      }
      if stamp > r.stamp {
        r := r.(stamp := stamp);
      }
      recs := recs[c := r.(author := 0)];
    }

    method SettleSwap(temp: ChunkLedger?, stamp: int64) returns (changed: seq<nat>)
      modifies this`recs, this`size
      ensures temp == null ==> recs == old(recs) && size == old(size) && changed == []
      ensures temp != null ==> recs == Swapped(old(recs), old(temp.recs), stamp) && size == old(temp.size)
      ensures temp != null ==> changed == SwapChanged(old(recs), old(temp.recs))
    {
      if temp == null {
        return [];
      }
      var tr, before := temp.recs, recs;
      size := temp.size;
      var out: seq<ChunkRecord> := [];
      changed := [];
      var c: nat := 0;
      while c < |tr|
        invariant |out| == c <= |tr| && recs == before
        invariant out == Swapped(before, tr, stamp)[..c]
        invariant changed == Picked(c, Changes(before, tr))
      {
        if c < |before| && before[c].present && before[c].hash == tr[c].hash {
          out := out + [before[c]];
        } else {
          var prev := if c < |before| then before[c] else EMPTY_RECORD;
          out := out + [ChunkRecord(tr[c].hash, stamp, 0, prev.hash, prev.stamp, tr[c].present, true)];
          changed := changed + [c];
        }
        c := c + 1;
      }
      recs := out;
    }

    /** Diff: what to fetch, and which local changes the incoming versions never saw. */
    method Diff(peer: seq<ChunkRecord>, peerWinsTie: bool) returns (fetch: seq<nat>, conflicts: seq<nat>)
      ensures fetch == FetchList(recs, peer, peerWinsTie) && conflicts == ConflictList(recs, peer, peerWinsTie)
    {
      fetch, conflicts := [], [];
      var c: nat := 0;
      while c < |peer|
        invariant c <= |peer|
        invariant fetch == Picked(c, Accepts(recs, peer, peerWinsTie))
        invariant conflicts == Picked(c, Clashes(recs, peer, peerWinsTie))
      {
        var v := JudgeChunk(At(recs, c), peer[c], peerWinsTie);
        if v.conflict {
          conflicts := conflicts + [c];
        }
        if v.accept {
          fetch := fetch + [c];
        }
        c := c + 1;
      }
    }

    method Apply(c: int, inc: ChunkRecord)
      modifies this`recs
      ensures recs == Applied(old(recs), c, inc)
    {
      if c < 0 || c >= |recs| {
        return;
      }
      recs := recs[c := inc.(present := false, dirty := false)];
    }

    method Clean()
      modifies this`recs
      ensures |recs| == |old(recs)|
      ensures forall c :: 0 <= c < |recs| ==> recs[c] == old(recs)[c].(dirty := false)
    {
      var c := 0;
      while c < |recs|
        invariant 0 <= c <= |recs| == |old(recs)|
        invariant forall d :: 0 <= d < |recs| ==> recs[d] == if d < c then old(recs)[d].(dirty := false) else old(recs)[d]
      {
        recs := recs[c := recs[c].(dirty := false)];
        c := c + 1;
      }
    }

    method AnyDirty() returns (any: bool)
      ensures any <==> exists c :: 0 <= c < |recs| && recs[c].dirty
    {
      var c := 0;
      while c < |recs|
        invariant 0 <= c <= |recs|
        invariant forall d :: 0 <= d < c ==> !recs[d].dirty
      {
        if recs[c].dirty {
          return true;
        }
        c := c + 1;
      }
      return false;
    }

    /** DirtyBase: the smallest base among the pending changes. */
    method DirtyBase() returns (base: int64, ok: bool)
      ensures MinBase(recs, |recs|) == if ok then Some(base) else None
    {
      base, ok := 0, false;
      var c := 0;
      while c < |recs|
        invariant 0 <= c <= |recs|
        invariant MinBase(recs, c) == if ok then Some(base) else None
      {
        if recs[c].dirty && (!ok || recs[c].baseStamp < base) {
          base, ok := recs[c].baseStamp, true;
        }
        c := c + 1;
      }
    }

    method MaxDirtyStamp() returns (m: int64)
      ensures m == MaxDirty(recs, |recs|)
    {
      m := 0;
      var c := 0;
      while c < |recs|
        invariant 0 <= c <= |recs| && m == MaxDirty(recs, c)
      {
        if recs[c].dirty && recs[c].stamp > m {
          m := recs[c].stamp;
        }
        c := c + 1;
      }
    }

    method SettleDirty(stamp: int64)
      modifies this`recs
      ensures |recs| == |old(recs)|
      ensures forall c :: 0 <= c < |recs| ==> recs[c] == SettledStamp(old(recs)[c], stamp)
    {
      var c := 0;
      while c < |recs|
        invariant 0 <= c <= |recs| == |old(recs)|
        invariant forall d :: 0 <= d < |recs| ==> recs[d] == if d < c then SettledStamp(old(recs)[d], stamp) else old(recs)[d]
      {
        if recs[c].dirty && stamp > recs[c].stamp {
          recs := recs[c := recs[c].(stamp := stamp)];
        }
        c := c + 1;
      }
    }

    /** The identity of record `c` in the bitmap. */
    ghost function IdentityOf(bm: ChunkBitmap, c: nat): (h: Option<uint64>)
      requires bm.Valid()
      reads bm
    {
      RecordHash(bm.hashes, bm.Present(), bm.total, c, hash)
    }

    /** recordHash, on the bitmap. */
    method RecordIdentity(bm: ChunkBitmap, c: nat) returns (h: uint64, ok: bool)
      requires bm.Valid() && bm.chunkSize == CHUNK_SIZE
      ensures IdentityOf(bm, c) == if ok then Some(h) else None
      ensures !ok ==> h == 0
    {
      var first, last := FirstChunk(c), EndChunk(c, bm.total);
      if first >= last {
        return 0, false;
      }
      var buf: seq<byte> := [];
      var i: nat := first;
      while i < last
        invariant first <= i <= last
        invariant forall j :: first <= j < i ==> PrintAt(bm.hashes, bm.Present(), j).Some?
        invariant bm.hashes.Some? ==> buf == PrintBytes(bm.hashes.value, first, i)
        invariant bm.hashes.None? ==> i == first
      {
        var p, known := bm.Hash(i);
        if !known {
          return 0, false;
        }
        buf := buf + LittleEndian(p, 8);
        i := i + 1;
      }
      assert PrintAt(bm.hashes, bm.Present(), last - 1).Some?;
      return hash(buf), true;
    }

    method SyncFromBitmap(bm: ChunkBitmap?, heldStamp: int64)
      requires bm != null ==> bm.Valid() && bm.chunkSize == CHUNK_SIZE
      modifies this`recs
      ensures |recs| == |old(recs)|
      ensures bm == null ==> recs == old(recs)
      ensures bm != null ==>
                forall c :: 0 <= c < |recs| ==>
                  recs[c] == Synced(old(recs)[c], IdentityOf(bm, c), heldStamp)
      // A clean record becomes the held version when its bytes are known, and keeps its stamp while they are missing.
      ensures bm != null ==>
                forall c :: 0 <= c < |recs| && !old(recs)[c].dirty ==>
                  && !recs[c].dirty && recs[c].author == 1
                  && (IdentityOf(bm, c).Some? ==>
                        recs[c].present && recs[c].hash == IdentityOf(bm, c).value && recs[c].stamp == heldStamp)
                  && (IdentityOf(bm, c).None? ==> !recs[c].present && recs[c].hash == 0 && recs[c].stamp == old(recs)[c].stamp)
    {
      if bm == null {
        return;
      }
      var c := 0;
      while c < |recs|
        invariant 0 <= c <= |recs| == |old(recs)|
        invariant forall d :: 0 <= d < c ==>
                    recs[d] == Synced(old(recs)[d], IdentityOf(bm, d), heldStamp)
        invariant forall d :: c <= d < |recs| ==> recs[d] == old(recs)[d]
      {
        var r := recs[c];
        var h, present := RecordIdentity(bm, c);
        r := r.(present := present);
        if present {
          r := r.(hash := h);
        } else if !r.dirty {
          r := r.(hash := 0);
        }
        if !r.dirty {
          r := r.(author := 1);
          if present {
            r := r.(stamp := heldStamp);
          }
        }
        recs := recs[c := r];
        c := c + 1;
      }
    }

    /** basesFor: the current identity of each clean record a write touches, 0 while it is unknown. */
    method BasesFor(bm: ChunkBitmap, offset: int, n: int) returns (bases: map<int, uint64>)
      requires Sized() && bm.Valid() && bm.chunkSize == CHUNK_SIZE
      ensures forall c :: c in bases <==>
                0 <= c < |recs| && !recs[c].dirty && Touches(offset, n, c)
      ensures forall c: nat :: c in bases ==>
                bases[c] == IdentityOf(bm, c).UnwrapOr(0)
    {
      hide RecordHash, Touches, Indices;
      var first, last := RecordRange(offset, n);
      bases := map[];
      var c := first;
      while c <= last
        invariant first <= c && (c <= last + 1 || c == first)
        invariant forall d :: d in bases <==> first <= d < c && !recs[d].dirty
        invariant forall d: nat :: d in bases ==> bases[d] == IdentityOf(bm, d).UnwrapOr(0)
      {
        if !recs[c].dirty {
          var h, ok := RecordIdentity(bm, c);
          bases := bases[c := h];
        }
        c := c + 1;
      }
    }

    /** markRange: every record the write touched becomes dirty, with the base captured before the bytes changed. */
    method MarkRange(offset: int, n: int, bases: map<int, uint64>, baseStamp: int64)
      requires Sized()
      modifies this`recs
      ensures Sized()
      ensures forall c :: 0 <= c < |recs| ==>
                recs[c] == if Touches(offset, n, c)
                           then Written(old(recs)[c], WriteBase(bases, c, baseStamp)) else old(recs)[c]
    {
      var first, last := RecordRange(offset, n);
      var c := first;
      while c <= last
        invariant first <= c && (c <= last + 1 || c == first)
        invariant |recs| == |old(recs)|
        invariant forall d :: 0 <= d < |recs| ==>
                    recs[d] == if first <= d < c then Written(old(recs)[d], WriteBase(bases, d, baseStamp)) else old(recs)[d]
      {
        MarkWritten(c, WriteBase(bases, c, baseStamp));
        c := c + 1;
      }
    }

    /** The ledger's part of Write: the bases are captured for the whole buffer, the pwrite then stores `n` bytes of
        it, and what it touched is marked. This is the write of a session. */
    method NoteWrite(bm: ChunkBitmap, offset: int, len: int, n: int, heldStamp: int64)
      requires Sized() && bm.Valid() && bm.chunkSize == CHUNK_SIZE && n <= len
      modifies this`recs
      ensures Sized()
      ensures var s := Session(old(recs), bm.hashes, bm.Present(), heldStamp);
              recs == After(s, Event.Write(offset, n, bm.hashes), bm.total, hash).recs
    {
      var bases := BasesFor(bm, offset, len);
      MarkRange(offset, n, bases, heldStamp);
      forall c: nat | c < |recs| && Touches(offset, n, c)
        ensures Touches(offset, len, c)
      {
      }
    }
  }

  /** The base of a change: the captured identity, Go's 0 when none was captured, and the held version. */
  function WriteBase(bases: map<int, uint64>, c: int, baseStamp: int64): (r: ChunkRecord) {
    EMPTY_RECORD.(hash := if c in bases then bases[c] else 0, stamp := baseStamp)
  }
}
