/** pkg/filesystem/fuse_directory.go: the hybrid read, the fill before a write, the write and the read-ahead
    refill of one mounted file, with other goroutines' fetches interleaved wherever the code holds no lock. */
module MountedFiles {
  import opened Bytes
  import opened Bitmaps
  import opened CacheFiles
  import opened FetchTables

  /** What a read returns: bytes, and whether they came from the cache; end of file; no bytes because the mount
      is stopping or the peer no longer has the file; or an error number. */
  datatype ReadResult = Served(data: seq<byte>, fromCache: bool) | EndOfFile | Stopped | Failed

  /** What a read that missed does next. */
  datatype Plan = FromCache | AtEnd | GiveUp | FetchRange(lo: nat, hi: nat, leads: bool, id: nat)

  /** How a read is answered: from the cache at once, as past the end, out of the range it fetched, from the cache once
      the ranges it needs have landed, or not at all although they have. */
  datatype Way = Cached | PastEnd | Sliced | Uncovered | Stuck

  predicate Answers(r: ReadResult, way: Way) {
    match way
    case Cached => r.Served? && r.fromCache
    case PastEnd => r.EndOfFile?
    case Sliced => !r.EndOfFile? && (r.Served? ==> !r.fromCache)
    case Uncovered => !r.EndOfFile? && (r.Served? ==> r.fromCache)
    case Stuck => !r.EndOfFile? && !r.Served?
  }

  /** The ways on which only a failure keeps a read from being served. */
  predicate Serves(way: Way) { !way.PastEnd? && !way.Stuck? }

  /** No app write reaches into [lo, hi). */
  ghost predicate Untouched(writes: seq<AppWrite>, lo: nat, hi: nat) {
    forall w :: w in writes ==> w.off + |w.data| <= lo || hi <= w.off
  }

  lemma {:induction false} UntouchedReads(peer: seq<byte>, writes: seq<AppWrite>, lo: nat, hi: nat)
    requires Untouched(writes, lo, hi) && |Overlay(peer, writes)| == |peer|
    ensures ReadAt(Overlay(peer, writes), lo, hi) == ReadAt(peer, lo, hi)
    decreases |writes|
  {
    if writes != [] {
      var front := writes[..|writes| - 1];
      assert writes[|writes| - 1] in writes;
      UntouchedReads(peer, front, lo, hi);
      var before, after := Overlay(peer, front), Overlay(peer, writes);
      forall p | lo <= p < Min(hi, |peer|)
        ensures after[p] == before[p]
      {
      }
      assert ReadAt(after, lo, hi) == ReadAt(before, lo, hi);
    }
  }

  /** A fetch that was begun keeps its range, and once settled its outcome. */
  predicate FetchesKept(before: seq<BlockFetch>, after: seq<BlockFetch>) {
    && |before| <= |after|
    && forall i :: 0 <= i < |before| ==>
         && after[i].lo == before[i].lo && after[i].hi == before[i].hi
         && (before[i].settled ==> after[i] == before[i])
  }

  /** The unit that byte `x` lies in begins here. */
  function RoundDown(x: nat, wholeBlocks: bool): (u: nat)
    ensures Aligned(u, wholeBlocks) && u <= x < u + Unit(wholeBlocks)
  {
    if wholeBlocks then x / 0x100_0000 * 0x100_0000 else x / 0x20_0000 * 0x20_0000
  }

  /** How far the fetch of one miss reaches: to the end of its first unit or of the request's last one, cut at 16 MiB
      and at the end of the file. */
  function WindowEnd(fetchStart: nat, reqEnd: nat, size: nat, wholeBlocks: bool): (e: nat) {
    Min(Min(Max(fetchStart + Unit(wholeBlocks), RoundDown(reqEnd + Unit(wholeBlocks) - 1, wholeBlocks)),
            fetchStart + 0x100_0000), size)
  }

  method FetchWindow(fetchStart: nat, reqEnd: nat, size: nat, wholeBlocks: bool) returns (e: nat)
    requires Aligned(fetchStart, wholeBlocks)
    ensures e == WindowEnd(fetchStart, reqEnd, size, wholeBlocks)
    ensures e <= size && (Aligned(e, wholeBlocks) || e == size)
    ensures fetchStart < size ==> fetchStart < e
    // The request is covered, unless that would take more than one message; and nothing is fetched but the first
    // unit and the units the request reaches into.
    ensures fetchStart < size ==> GoodWindow(fetchStart, reqEnd, e, size, wholeBlocks)
  {
    var unit := Unit(wholeBlocks);
    AlignedNext(fetchStart, wholeBlocks);
    AlignedBlock(fetchStart, wholeBlocks);
    e := fetchStart + unit;
    var spanEnd := RoundDown(reqEnd + unit - 1, wholeBlocks);
    if spanEnd > e {
      e := spanEnd;
    }
    if e - fetchStart > 0x100_0000 {
      e := fetchStart + 0x100_0000;
    }
    if e > size {
      e := size;
    }
    if fetchStart < size { WindowIsGood(fetchStart, reqEnd, size, wholeBlocks); }
  }

  // ---------- the way of a read that no other goroutine meets ----------

  /** The end of the last unit of a file. */
  function LastUnitEnd(size: nat, wholeBlocks: bool): (e: nat)
    ensures Aligned(e, wholeBlocks) && size <= e < size + Unit(wholeBlocks)
  {
    RoundDown(size + Unit(wholeBlocks) - 1, wholeBlocks)
  }

  /** Every unit the request reaches into has landed. */
  ghost predicate AllLandedUnits(unitStart: nat, reqEnd: nat, present: set<int>, size: nat, wholeBlocks: bool) {
    forall u: nat :: unitStart <= u < Min(reqEnd, size) && Aligned(u, wholeBlocks) ==> Landed(u, present, size, wholeBlocks)
  }

  /** The request ends past the last unit, and every chunk from its first unit on is present. */
  ghost predicate PastUnits(unitStart: nat, reqEnd: nat, present: set<int>, size: nat, wholeBlocks: bool) {
    AllBelow(size, unitStart, present) && LastUnitEnd(size, wholeBlocks) < reqEnd
  }

  /** The units the request reaches into fit one message, and none of them has landed or all have. */
  ghost predicate OneFetch(unitStart: nat, reqEnd: nat, present: set<int>, size: nat, wholeBlocks: bool) {
    && Min(reqEnd, size) <= unitStart + 0x100_0000
    && (|| NoneLanded(unitStart, Min(reqEnd, size), present, size, wholeBlocks)
        || AllLandedUnits(unitStart, reqEnd, present, size, wholeBlocks))
  }

  ghost function WayOf(offset: nat, len: nat, present: set<int>, size: nat, wholeBlocks: bool): (w: Way) {
    var unitStart, reqEnd := RoundDown(offset, wholeBlocks), offset + len;
    if Touched(offset, len, CHUNK_SIZE) <= present then Cached
    else if PastUnits(unitStart, reqEnd, present, size, wholeBlocks) then PastEnd
    else if OneFetch(unitStart, reqEnd, present, size, wholeBlocks) then Sliced
    else if DeadEnd(offset, reqEnd, present, size, wholeBlocks) then Stuck
    else Uncovered
  }

  /** The request runs past the last chunk, where no test for presence can hold, and its first missing unit lies behind
      where it starts and begins a run of missing units to the end of the file that fits one message. */
  ghost predicate DeadEnd(offset: nat, reqEnd: nat, present: set<int>, size: nat, wholeBlocks: bool) {
    && ChunkStart(ChunkCount(size)) < reqEnd
    && exists at: nat :: FirstMissing(at, RoundDown(offset, wholeBlocks), reqEnd, present, size, wholeBlocks)
                         && offset < at < size <= at + 0x100_0000 && NoneLanded(at, size, present, size, wholeBlocks)
  }

  /** Where a read that missed starts to fetch. */
  ghost predicate FirstMissing(at: nat, unitStart: nat, reqEnd: nat, present: set<int>, size: nat, wholeBlocks: bool) {
    && unitStart <= at < reqEnd && Aligned(at, wholeBlocks) && AllBelow(Min(at, size), unitStart, present)
    && (at >= size <==> PastUnits(unitStart, reqEnd, present, size, wholeBlocks))
    && (at < size ==> !Landed(at, present, size, wholeBlocks) ||
                      (at == unitStart && AllLandedUnits(unitStart, reqEnd, present, size, wholeBlocks)))
  }

  lemma {:induction false} LandedBefore(u: nat, v: nat, first: nat, present: set<int>, size: nat, wholeBlocks: bool)
    requires Aligned(u, wholeBlocks) && Aligned(v, wholeBlocks) && first <= u < v && AllBelow(Min(v, size), first, present)
    ensures Landed(u, present, size, wholeBlocks)
  {
    AlignedGap(u, v, wholeBlocks);
  }

  lemma {:induction false} SkippedAll(u: nat, unitStart: nat, reqEnd: nat, present: set<int>, size: nat, wholeBlocks: bool)
    requires Aligned(u, wholeBlocks) && AllBelow(Min(u, size), unitStart, present) && u >= reqEnd
    ensures AllLandedUnits(unitStart, reqEnd, present, size, wholeBlocks)
  {
    hide AllBelow, Landed;
    forall v: nat | unitStart <= v < Min(reqEnd, size) && Aligned(v, wholeBlocks)
      ensures Landed(v, present, size, wholeBlocks)
    {
      LandedBefore(v, u, unitStart, present, size, wholeBlocks);
    }
  }

  lemma {:induction false} SkippedUnits(u: nat, unitStart: nat, reqEnd: nat, present: set<int>, size: nat, wholeBlocks: bool)
    requires unitStart <= u && Aligned(u, wholeBlocks) && Aligned(unitStart, wholeBlocks) && unitStart < reqEnd
    requires u == unitStart || u <= LastUnitEnd(size, wholeBlocks)
    requires AllBelow(Min(u, size), unitStart, present)
    requires u < reqEnd && u < size ==> !Landed(u, present, size, wholeBlocks)
    ensures FirstMissing(if u >= reqEnd then unitStart else u, unitStart, reqEnd, present, size, wholeBlocks)
  {
    hide AllBelow, Landed, Aligned, LastUnitEnd, Unit, AllLandedUnits;
    if u >= reqEnd {
      SkippedAll(u, unitStart, reqEnd, present, size, wholeBlocks);
      NoneBelow(Min(unitStart, size), unitStart, present);
      if unitStart >= size {
        NoneBelow(size, unitStart, present);
        FirstEnd(unitStart, size, wholeBlocks);
      }
    } else if u < size {
      NotPastUnits(u, unitStart, present, size, wholeBlocks);
    } else {
      FirstEnd(u, size, wholeBlocks);
    }
  }

  lemma {:induction false} NoneBelow(hi: int, lo: int, present: set<int>)
    requires hi <= lo
    ensures AllBelow(hi, lo, present)
  {
  }

  /** No unit bound at or past the end of the file comes before the end of its last unit. */
  lemma {:induction false} FirstEnd(a: nat, size: nat, wholeBlocks: bool)
    requires Aligned(a, wholeBlocks) && a >= size
    ensures LastUnitEnd(size, wholeBlocks) <= a
  {
    hide Aligned, RoundDown;
    if a < LastUnitEnd(size, wholeBlocks) { AlignedGap(a, LastUnitEnd(size, wholeBlocks), wholeBlocks); }
  }

  lemma {:induction false} NotPastUnits(u: nat, unitStart: nat, present: set<int>, size: nat, wholeBlocks: bool)
    requires unitStart <= u < size && !Landed(u, present, size, wholeBlocks)
    ensures !AllBelow(size, unitStart, present)
  {
    assert AllBelow(size, unitStart, present) ==> AllBelow(Min(u + Unit(wholeBlocks), size), u, present);
  }

  /** What FetchWindow promises of the end of the window. */
  ghost predicate GoodWindow(at: nat, reqEnd: nat, e: nat, size: nat, wholeBlocks: bool) {
    && Min(at + Unit(wholeBlocks), size) <= e <= Min(at + 0x100_0000, size)
    && (e >= Min(reqEnd, size) || e == at + 0x100_0000)
    && (forall u: nat :: Aligned(u, wholeBlocks) && at < u < e ==> u < reqEnd)
  }

  lemma {:induction false} WindowIsGood(at: nat, reqEnd: nat, size: nat, wholeBlocks: bool)
    requires Aligned(at, wholeBlocks) && at < size
    ensures GoodWindow(at, reqEnd, WindowEnd(at, reqEnd, size, wholeBlocks), size, wholeBlocks)
  {
    var spanEnd := RoundDown(reqEnd + Unit(wholeBlocks) - 1, wholeBlocks);
    forall u: nat | Aligned(u, wholeBlocks) && at < u < Max(at + Unit(wholeBlocks), spanEnd)
      ensures u < reqEnd
    {
      AlignedGap(at, u, wholeBlocks);
      AlignedGap(u, spanEnd, wholeBlocks);
    }
  }

  /** A quiet leader's range answers the whole request exactly when the units of the request fit one message and
      none has landed. */
  lemma {:induction false} LedCovers(at: nat, offset: nat, reqEnd: nat, e: nat, lo: nat, hi: nat, run: nat, present: set<int>,
                                     size: nat, wholeBlocks: bool)
    requires FirstMissing(at, RoundDown(offset, wholeBlocks), reqEnd, present, size, wholeBlocks) && at < size
    requires GoodWindow(at, reqEnd, e, size, wholeBlocks) && offset < reqEnd
    requires at <= lo < hi <= e && Aligned(lo, wholeBlocks) && (Aligned(hi, wholeBlocks) || hi == size)
    requires AllBelow(lo, at, present) && NoneLanded(lo, run, present, size, wholeBlocks) && hi <= run
    requires hi == e || Landed(hi, present, size, wholeBlocks)
    ensures lo <= offset && (hi >= reqEnd || hi >= size) <==>
            OneFetch(RoundDown(offset, wholeBlocks), reqEnd, present, size, wholeBlocks)
  {
    hide AllBelow, Landed;
    var unitStart := RoundDown(offset, wholeBlocks);
    if unitStart < lo { AlignedGap(unitStart, lo, wholeBlocks); }
    if NoneLanded(unitStart, Min(reqEnd, size), present, size, wholeBlocks) {
      if unitStart < at { LandedBefore(unitStart, at, unitStart, present, size, wholeBlocks); }
      if at < lo { assert Min(lo, size) == lo; LandedBefore(at, lo, at, present, size, wholeBlocks); }
    }
    if AllLandedUnits(unitStart, reqEnd, present, size, wholeBlocks) {
      assert lo < reqEnd;
    }
  }

  /** A range fetched though it has landed, because the request runs past the last chunk. */
  lemma {:induction false} LandedCovers(at: nat, offset: nat, reqEnd: nat, e: nat, present: set<int>, size: nat,
                                        wholeBlocks: bool)
    requires FirstMissing(at, RoundDown(offset, wholeBlocks), reqEnd, present, size, wholeBlocks) && at < size
    requires GoodWindow(at, reqEnd, e, size, wholeBlocks) && offset < reqEnd && AllBelow(e, at, present)
    ensures at <= offset && (e >= reqEnd || e >= size) <==>
            OneFetch(RoundDown(offset, wholeBlocks), reqEnd, present, size, wholeBlocks)
  {
    assert Landed(at, present, size, wholeBlocks);
  }

  /** Two first missing units of one request, of which the later has not landed, are the same. */
  lemma {:induction false} FirstMissingOnce(at: nat, at': nat, unitStart: nat, reqEnd: nat, present: set<int>, size: nat,
                                            wholeBlocks: bool)
    requires FirstMissing(at, unitStart, reqEnd, present, size, wholeBlocks) && at < size
    requires FirstMissing(at', unitStart, reqEnd, present, size, wholeBlocks) && unitStart < at' < size
    requires !Landed(at', present, size, wholeBlocks)
    ensures at == at'
  {
    hide AllBelow, Landed;
    if at < at' {
      LandedBefore(at, at', unitStart, present, size, wholeBlocks);
    } else if at' < at {
      LandedBefore(at', at, unitStart, present, size, wholeBlocks);
    }
  }

  /** A quiet leader whose range does not answer a request past the last chunk fetches to the end of the file exactly in
      a dead end. */
  lemma {:induction false} LedToEnd(at: nat, offset: nat, reqEnd: nat, e: nat, lo: nat, hi: nat, run: nat, present: set<int>,
                                    size: nat, wholeBlocks: bool)
    requires FirstMissing(at, RoundDown(offset, wholeBlocks), reqEnd, present, size, wholeBlocks) && at < size
    requires GoodWindow(at, reqEnd, e, size, wholeBlocks) && offset < reqEnd
    requires at <= lo < hi <= e && Aligned(lo, wholeBlocks) && (Aligned(hi, wholeBlocks) || hi == size)
    requires AllBelow(lo, at, present) && NoneLanded(lo, run, present, size, wholeBlocks) && hi <= run
    requires hi == e || Landed(hi, present, size, wholeBlocks)
    requires !(lo <= offset && (hi >= reqEnd || hi >= size))
    ensures DeadEnd(offset, reqEnd, present, size, wholeBlocks) <==> ChunkStart(ChunkCount(size)) < reqEnd && hi >= size
  {
    hide AllBelow, Landed;
    var unitStart := RoundDown(offset, wholeBlocks);
    if at < lo { LandedBefore(at, lo, at, present, size, wholeBlocks); }
    if DeadEnd(offset, reqEnd, present, size, wholeBlocks) {
      var at': nat :| FirstMissing(at', unitStart, reqEnd, present, size, wholeBlocks)
                      && offset < at' < size <= at' + 0x100_0000 && NoneLanded(at', size, present, size, wholeBlocks);
      FirstMissingOnce(at, at', unitStart, reqEnd, present, size, wholeBlocks);
      ChunkRoundsUp(size);
    }
  }

  /** A range fetched though it has landed never is one. */
  lemma {:induction false} LandedToEnd(at: nat, offset: nat, reqEnd: nat, e: nat, present: set<int>, size: nat, wholeBlocks: bool)
    requires FirstMissing(at, RoundDown(offset, wholeBlocks), reqEnd, present, size, wholeBlocks) && at < size
    requires GoodWindow(at, reqEnd, e, size, wholeBlocks) && offset < reqEnd && AllBelow(e, at, present)
    requires !(at <= offset && (e >= reqEnd || e >= size))
    ensures !DeadEnd(offset, reqEnd, present, size, wholeBlocks) && e < size
  {
    assert Landed(at, present, size, wholeBlocks);
    var unitStart := RoundDown(offset, wholeBlocks);
    if DeadEnd(offset, reqEnd, present, size, wholeBlocks) {
      var at': nat :| FirstMissing(at', unitStart, reqEnd, present, size, wholeBlocks)
                      && offset < at' < size <= at' + 0x100_0000 && NoneLanded(at', size, present, size, wholeBlocks);
      FirstMissingOnce(at, at', unitStart, reqEnd, present, size, wholeBlocks);
    }
  }

  lemma {:induction false} StartsOrEnds(at: nat, unitStart: nat, reqEnd: nat, present: set<int>, size: nat, wholeBlocks: bool)
    requires FirstMissing(at, unitStart, reqEnd, present, size, wholeBlocks)
    ensures unitStart <= at < reqEnd && Aligned(at, wholeBlocks) && AllBelow(Min(at, size), unitStart, present)
    ensures at >= size <==> PastUnits(unitStart, reqEnd, present, size, wholeBlocks)
  {
  }

  lemma {:induction false} PresentReads(peer: seq<byte>, view: seq<byte>, s: Copy, lo: nat, hi: nat)
    requires Faithful(peer, view, s) && |view| == |peer| && lo <= hi
    requires forall p :: lo <= p < Min(hi, |peer|) ==> Chunk(p) in s.present
    ensures ReadAt(s.disk, lo, hi) == ReadAt(view, lo, hi)
  {
    if lo < Min(hi, |peer|) {
      assert Chunk(Min(hi, |peer|) - 1) in s.present;
      assert |s.disk| >= Min(hi, |peer|);
      forall p | lo <= p < Min(hi, |peer|)
        ensures s.disk[p] == view[p]
      {
        assert Chunk(p) in s.present;
      }
    }
  }

  class MountedFile {
    const cache: CacheFile
    const table: FetchTable
    ghost var foreign: nat  // steps other goroutines have taken so far
    ghost var trouble: nat  // fetches that failed so far, and stops of the mount

    ghost predicate Valid()
      reads this, cache, table, cache.bm, table.bm
    {
      cache.Valid() && table.Valid() && table.bm == cache.bm
    }

    /** A file announced by the peer and opened here: nothing has landed, nothing is in flight. */
    constructor (version: seq<byte>, xxh3: seq<byte> -> uint64, readAheadOff: bool)
      requires version != []
      ensures Valid() && cache.peer == version && cache.writes == [] && cache.bm.Present() == {}
      ensures fresh(cache) && fresh(cache.bm) && fresh(table) && table.inflight == map[] && table.fetches == []
      ensures table.wholeBlocks == readAheadOff
    {
      var copy := new CacheFile(version, xxh3);
      cache := copy;
      table := new FetchTable(copy.bm, readAheadOff);
      foreign, trouble := 0, 0;
    }

    /** What other goroutines may do, and what every fetch here does: chunks are only gained, no app write is
        added or lost, and every fetch keeps its range and its outcome. */
    twostate predicate Progress()
      requires old(cache.bm.Valid()) && cache.bm.Valid()
      reads this, cache, table, cache.bm
    {
      && old(foreign) <= foreign && old(trouble) <= trouble && old(cache.faults) <= cache.faults
      && old(cache.bm.Present()) <= cache.bm.Present()
      && cache.writes == old(cache.writes)
      && FetchesKept(old(table.fetches), table.fetches)
    }

    /** No fetch fails, whoever began it, nor any write to the cache file, and the mount does not stop. */
    twostate predicate Smooth()
      reads this, cache
    {
      trouble == old(trouble) && cache.faults == old(cache.faults)
    }

    /** No other goroutine takes a step, and none has a fetch in flight to begin with. */
    twostate predicate Quiet()
      reads this, table
    {
      old(foreign) == foreign && old(table.inflight) == map[]
    }

    /** Nothing a read decides by has changed. */
    twostate predicate Still()
      requires old(cache.bm.Valid()) && cache.bm.Valid()
      reads this, cache, table, cache.bm
    {
      cache.bm.Present() == old(cache.bm.Present()) && table.inflight == old(table.inflight)
    }

    /** The stream: the whole range asked for, or an error. */
    method Fetch(lo: nat, hi: nat) returns (ok: bool, data: seq<byte>)
      requires lo <= hi <= |cache.peer|
      modifies this`trouble
      ensures ok ==> data == cache.peer[lo..hi]
      ensures trouble == old(trouble) + if ok then 0 else 1
    {
      ok := *;
      data := if ok then cache.peer[lo..hi] else [];
      trouble := trouble + if ok then 0 else 1;
    }

    /** The mount is stopping. */
    method Stopping() returns (stopping: bool)
      modifies this`trouble
      ensures trouble == old(trouble) + if stopping then 1 else 0
    {
      stopping := *;
      trouble := trouble + if stopping then 1 else 0;
    }

    /** Land a range of the peer's file. When it begins on a chunk boundary and ends on one or at the end of
        the file, every chunk that begins in it is present afterwards. */
    method Land(lo: nat, hi: nat, data: seq<byte>) returns (ok: bool)
      requires Valid() && lo <= hi <= |cache.peer| && data == cache.peer[lo..hi]
      modifies cache`disk, cache`faults, cache.bm
      ensures Valid() && Progress() && table.fetches == old(table.fetches)
      ensures ok <==> cache.faults == old(cache.faults)
      ensures ok && AlignedOrEnd(lo, |cache.peer|) && AlignedOrEnd(hi, |cache.peer|) ==>
                AllBelow(hi, lo, cache.bm.Present())
    {
      hide Faithful, TruePrints, Singleflight, Overlay, Indices, Touched;
      ghost var present := cache.bm.Present();
      ok := cache.LandBlock(data, lo);
      GrowKeepsSingleflight(table.fetches, table.inflight, present, |cache.peer|, table.wholeBlocks, cache.bm.Present());
    }

    /** How a leader ends, on every path: its range lands and its waiters are released, or they are released
        with an error. */
    method CompleteFetch(id: nat, lo: nat, hi: nat, fetched: bool, data: seq<byte>) returns (ok: bool)
      requires Valid() && id < |table.fetches| && !table.fetches[id].settled
      requires lo == table.fetches[id].lo <= hi == Min(table.fetches[id].hi, |cache.peer|)
      requires fetched ==> data == cache.peer[lo..hi]
      modifies this, cache`disk, cache`faults, cache.bm, table
      ensures Valid() && Progress() && |table.fetches| == |old(table.fetches)|
      ensures forall i :: 0 <= i < |table.fetches| && i != id ==> table.fetches[i] == old(table.fetches[i])
      ensures table.fetches[id].settled
      ensures ok ==> AllBelow(hi, lo, cache.bm.Present())
      ensures trouble == old(trouble) && (ok <==> fetched && cache.faults == old(cache.faults))
      ensures ok <==> !table.fetches[id].failed
    {
      ok := false;
      if fetched {
        ok := Land(lo, hi, data);
        AlignedChunk(table.fetches[id].lo, table.wholeBlocks);
        AlignedChunk(table.fetches[id].hi, table.wholeBlocks);
      }
      table.FinishFetch(id, !ok);
    }

    // ---------- interference ----------

    /** Some other goroutine's fetch ends, well or badly. */
    method OtherEnds(mine: int)
      requires Valid()
      modifies this, cache`disk, cache`faults, cache.bm, table
      ensures Valid() && Progress()
      ensures 0 <= mine < |old(table.fetches)| ==> table.fetches[mine] == old(table.fetches[mine])
    {
      if table.inflight.Keys != {} {
        var k :| k in table.inflight.Keys;
        var id := table.inflight[k];
        var lo, hi := table.fetches[id].lo, Min(table.fetches[id].hi, |cache.peer|);
        if id != mine && lo <= hi {
          var fetched, data := Fetch(lo, hi);
          var ok := CompleteFetch(id, lo, hi, fetched, data);
        }
      }
    }

    /** One step of some other goroutine: its fetch ends, it starts one, or bytes land unregistered. It never
        ends the fetch `mine`. */
    method OtherStep(mine: int)
      requires Valid()
      modifies this, cache`disk, cache`faults, cache.bm, table
      ensures Valid() && Progress()
      ensures 0 <= mine < |old(table.fetches)| ==> table.fetches[mine] == old(table.fetches[mine])
    {
      hide Faithful, TruePrints, Singleflight, Overlay, Indices, Touched;
      var lo: nat, hi: nat := *, *;
      if * {
        OtherEnds(mine);
      } else if * {
        var w := table.wholeBlocks;
        if Aligned(lo, w) && 0 < hi <= |cache.peer| && (Aligned(hi, w) || hi == |cache.peer|) {
          var turn := table.BeginFetchSpan(lo, hi);
        }
      } else if * {
        if Aligned(lo, table.wholeBlocks) {
          var id, leader := table.BeginBlockFetch(lo);
        }
      } else if lo <= hi <= |cache.peer| {
        var ok := Land(lo, hi, cache.peer[lo..hi]);
      }
    }

    /** Any number of steps of other goroutines, wherever this one holds no lock. */
    method Others(mine: int)
      requires Valid()
      modifies this, cache`disk, cache`faults, cache.bm, table
      ensures Valid() && Progress()
      ensures 0 <= mine < |old(table.fetches)| ==> table.fetches[mine] == old(table.fetches[mine])
      ensures foreign == old(foreign) ==> Still() && table.fetches == old(table.fetches)
    {
      hide Faithful, TruePrints, Singleflight, Overlay, Indices, Touched;
      var steps: nat := *;
      while steps > 0
        invariant Valid() && Progress()
        invariant 0 <= mine < |old(table.fetches)| ==> table.fetches[mine] == old(table.fetches[mine])
        invariant foreign == old(foreign) ==> Still() && table.fetches == old(table.fetches)
      {
        OtherStep(mine);
        foreign := foreign + 1;
        steps := steps - 1;
      }
    }

    // ---------- the read ----------

    /** Every byte the request asks of the file lies in a present chunk. */
    ghost predicate RequestPresent(offset: nat, len: nat)
      requires cache.bm.Valid()
      reads cache, cache.bm
    {
      forall p :: offset <= p < Min(offset + len, |cache.peer|) ==> Chunk(p) in cache.bm.Present()
    }

    /** The request reaches past the last chunk of the file, where HasRange can never hold. */
    predicate Crosses(offset: nat, len: nat) {
      len > 0 && ChunkStart(cache.bm.total) < offset + len
    }

    /** HasRange on the request. */
    ghost predicate Hit(offset: nat, len: nat)
      requires cache.bm.Valid()
      reads cache, cache.bm
    {
      Touched(offset, len, CHUNK_SIZE) <= cache.bm.Present()
    }

    /** HasRange on the request, by bytes. */
    method RequestHit(offset: nat, len: nat) returns (hit: bool)
      requires cache.Valid()
      ensures hit <==> Hit(offset, len)
      ensures hit ==> RequestPresent(offset, len) && !Crosses(offset, len)
      ensures len == 0 ==> hit
      ensures RequestPresent(offset, len) && offset < |cache.peer| && !Crosses(offset, len) ==> hit
    {
      hide Faithful, TruePrints, Overlay, Indices;
      hit := cache.bm.HasRange(offset, len);
      if hit { HitByBytes(offset, len); } else { MissByBytes(offset, len); }
    }

    lemma {:induction false} HitByBytes(offset: nat, len: nat)
      requires cache.Valid() && Touched(offset, len, CHUNK_SIZE) <= cache.bm.Present()
      ensures RequestPresent(offset, len) && !Crosses(offset, len)
    {
      if len > 0 {
        TouchedChunks(offset, len, Chunk(offset + len - 1));
        InIndices(cache.bm.bits, cache.bm.total, Chunk(offset + len - 1));
        forall p | offset <= p < offset + len
          ensures Chunk(p) in cache.bm.Present()
        {
          TouchedChunks(offset, len, Chunk(p));
        }
      }
    }

    lemma {:induction false} MissByBytes(offset: nat, len: nat)
      requires cache.Valid() && !(Touched(offset, len, CHUNK_SIZE) <= cache.bm.Present())
      ensures !RequestPresent(offset, len) || offset >= |cache.peer| || Crosses(offset, len)
    {
      hide Faithful, TruePrints, Touched;
      if RequestPresent(offset, len) && offset < |cache.peer| && !Crosses(offset, len) {
        forall c | c in Touched(offset, len, CHUNK_SIZE)
          ensures c in cache.bm.Present()
        {
          TouchedChunks(offset, len, c);
          assert Chunk(Max(offset, ChunkStart(c))) == c;
        }
      }
    }

    /** preadCached: the disk bytes of the request, clamped to the remote size. */
    method Pread(offset: nat, len: nat) returns (data: seq<byte>)
      requires cache.Valid() && |cache.View()| == |cache.peer| && RequestPresent(offset, len)
      ensures data == ReadAt(cache.View(), offset, offset + len)
    {
      data := ReadAt(cache.disk, offset, Min(offset + len, |cache.peer|));
      PresentReads(cache.peer, cache.View(), cache.State(), offset, offset + len);
    }

    function UnitsEnd(): (e: nat) {
      LastUnitEnd(|cache.peer|, table.wholeBlocks)
    }

    /** Which way a read takes when no other goroutine comes in between, by what is present when it starts. */
    ghost function QuietWay(offset: nat, len: nat): (w: Way)
      requires cache.bm.Valid()
      reads this, cache, table, cache.bm
    {
      WayOf(offset, len, cache.bm.Present(), |cache.peer|, table.wholeBlocks)
    }

    /** Does the fetched range answer the whole request? */
    predicate Covered(plan: Plan, offset: nat, len: nat)
      requires plan.FetchRange?
    {
      plan.lo <= offset && (plan.hi >= offset + len || plan.hi >= |cache.peer|)
    }

    /** The loop over the request's units that have landed. */
    method SkipUnits(unitStart: nat, reqEnd: nat) returns (u: nat)
      requires Valid() && Aligned(unitStart, table.wholeBlocks)
      ensures unitStart <= u && Aligned(u, table.wholeBlocks) && (u == unitStart || u <= UnitsEnd())
      ensures AllBelow(Min(u, |cache.peer|), unitStart, cache.bm.Present())
      ensures u < reqEnd && u < |cache.peer| ==> !table.UnitLanded(u)
    {
      hide Faithful, TruePrints, Singleflight, Overlay, Indices, Touched;
      var size := |cache.peer|;
      u := unitStart;
      while u < reqEnd
        invariant unitStart <= u && Aligned(u, table.wholeBlocks) && (u == unitStart || u <= UnitsEnd())
        invariant AllBelow(Min(u, size), unitStart, cache.bm.Present())
        decreases reqEnd - u
      {
        if u >= size {
          break;
        }
        var landed := table.UnitPresent(u, size);
        if !landed {
          break;
        }
        AlignedNext(u, table.wholeBlocks);
        AlignedGap(u, UnitsEnd(), table.wholeBlocks);
        u := u + table.unit;
      }
    }

    /** The first unit of the request that has not landed; the unit it starts in when all have. */
    method FirstMissingUnit(unitStart: nat, reqEnd: nat) returns (fetchStart: nat)
      requires Valid() && Aligned(unitStart, table.wholeBlocks) && unitStart < reqEnd
      ensures FirstMissing(fetchStart, unitStart, reqEnd, cache.bm.Present(), |cache.peer|, table.wholeBlocks)
    {
      hide Faithful, TruePrints, Singleflight, Overlay, Indices, Touched;
      var u := SkipUnits(unitStart, reqEnd);
      SkippedUnits(u, unitStart, reqEnd, cache.bm.Present(), |cache.peer|, table.wholeBlocks);
      fetchStart := if u >= reqEnd then unitStart else u;
    }

    /** The plan names a range of missing bytes to fetch, on unit bounds, with everything from the request's
        unit up to it landed; a leader's range is the one its fetch registered. */
    ghost predicate GoodRange(plan: Plan, unitStart: nat)
      requires cache.bm.Valid()
      reads cache, cache.bm, table
    {
      plan.FetchRange? ==>
        && unitStart <= plan.lo < plan.hi <= |cache.peer| && AllBelow(plan.lo, unitStart, cache.bm.Present())
        && Aligned(plan.lo, table.wholeBlocks) && (Aligned(plan.hi, table.wholeBlocks) || plan.hi == |cache.peer|)
        && (plan.leads ==>
              && plan.id < |table.fetches| && !table.fetches[plan.id].settled
              && plan.lo == table.fetches[plan.id].lo && plan.hi == Min(table.fetches[plan.id].hi, |cache.peer|))
    }

    /** A plan made in peace is the one the way calls for. */
    predicate Follows(plan: Plan, way: Way, offset: nat, len: nat) {
      match way
      case Cached => true
      case PastEnd => plan.AtEnd?
      case Sliced => plan.FetchRange? && Covered(plan, offset, len)
      case Uncovered => plan.FetchRange? && !Covered(plan, offset, len) && !(Crosses(offset, len) && plan.hi >= |cache.peer|)
      case Stuck => plan.FetchRange? && !Covered(plan, offset, len) && Crosses(offset, len) && plan.hi >= |cache.peer|
    }

    /** One attempt: lead, or wait for the owner of the first missing unit and look at the bitmap again. `retry`
        asks for another attempt; the plan is then to fetch unregistered. */
    method PlanOnce(offset: nat, len: nat, unitStart: nat) returns (plan: Plan, retry: bool)
      requires Valid() && unitStart == RoundDown(offset, table.wholeBlocks) && len > 0
      modifies this, cache`disk, cache`faults, cache.bm, table
      ensures Valid() && Progress() && GoodRange(plan, unitStart)
      ensures plan.FromCache? ==> RequestPresent(offset, len)
      ensures plan.AtEnd? ==> UnitsEnd() < offset + len
      ensures plan.GiveUp? ==> trouble > old(trouble)
      ensures AllBelow(|cache.peer|, unitStart, old(cache.bm.Present())) && UnitsEnd() < offset + len ==> plan.AtEnd?
      ensures retry ==> plan.FetchRange? && !plan.leads
      ensures Quiet() ==> Follows(plan, old(QuietWay(offset, len)), offset, len) && (retry ==> Still())
      ensures Quiet() && plan.FetchRange? && !plan.leads ==> AllBelow(plan.hi, plan.lo, old(cache.bm.Present()))
    {
      hide Faithful, TruePrints, Singleflight, Overlay, Indices, Touched, AllBelow, FirstMissing, OneFetch, GoodWindow, DeadEnd;
      var fetchStart := FirstMissingUnit(unitStart, offset + len);
      StartsOrEnds(fetchStart, unitStart, offset + len, cache.bm.Present(), |cache.peer|, table.wholeBlocks);
      var fetchEnd := FetchWindow(fetchStart, offset + len, |cache.peer|, table.wholeBlocks);
      if fetchEnd <= fetchStart {
        return AtEnd, false;
      }
      plan, retry := LeadOrWait(fetchStart, fetchEnd, offset, len, unitStart);
    }

    method LeadOrWait(fetchStart: nat, fetchEnd: nat, offset: nat, len: nat, unitStart: nat)
      returns (plan: Plan, retry: bool)
      requires Valid() && GoodRange(FetchRange(fetchStart, fetchEnd, false, 0), unitStart) && fetchStart < fetchEnd
      requires unitStart == RoundDown(offset, table.wholeBlocks) && len > 0
      requires FirstMissing(fetchStart, unitStart, offset + len, cache.bm.Present(), |cache.peer|, table.wholeBlocks)
      requires GoodWindow(fetchStart, offset + len, fetchEnd, |cache.peer|, table.wholeBlocks)
      modifies this, cache`disk, cache`faults, cache.bm, table
      ensures Valid() && Progress() && GoodRange(plan, unitStart) && !plan.AtEnd?
      ensures plan.FromCache? ==> RequestPresent(offset, len)
      ensures plan.GiveUp? ==> trouble > old(trouble)
      ensures retry ==> plan.FetchRange? && !plan.leads
      ensures Quiet() ==> (retry ==> Still())
      ensures Quiet() && plan.FetchRange? && !plan.leads ==> AllBelow(plan.hi, plan.lo, old(cache.bm.Present()))
      ensures Quiet() && !old(Hit(offset, len)) ==>
                && plan.FetchRange?
                && (Covered(plan, offset, len) <==>
                      OneFetch(unitStart, offset + len, old(cache.bm.Present()), |cache.peer|, table.wholeBlocks))
                && (!Covered(plan, offset, len) ==>
                      (DeadEnd(offset, offset + len, old(cache.bm.Present()), |cache.peer|, table.wholeBlocks) <==>
                         Crosses(offset, len) && plan.hi >= |cache.peer|))
    {
      hide Faithful, TruePrints, Singleflight, Overlay, Indices, Touched, Took, FirstMissing, OneFetch, GoodWindow, NoneLanded, DeadEnd;
      ghost var present := cache.bm.Present();
      var turn := table.BeginFetchSpan(fetchStart, fetchEnd);
      assert cache.bm.Present() == present;
      if turn.Lead? {
        JoinBelow(unitStart, fetchStart, turn.from, present, present);
        if old(table.inflight) == map[] {
          LedCovers(fetchStart, offset, offset + len, fetchEnd, turn.from, turn.owned, table.fetches[turn.id].hi,
                    cache.bm.Present(), |cache.peer|, table.wholeBlocks);
          if !Covered(FetchRange(turn.from, turn.owned, true, turn.id), offset, len) {
            LedToEnd(fetchStart, offset, offset + len, fetchEnd, turn.from, turn.owned, table.fetches[turn.id].hi,
                     cache.bm.Present(), |cache.peer|, table.wholeBlocks);
          }
        }
        return FetchRange(turn.from, turn.owned, true, turn.id), false;
      }
      if turn.AllLanded? {
        LandedCovers(fetchStart, offset, offset + len, fetchEnd, cache.bm.Present(), |cache.peer|, table.wholeBlocks);
        if !Covered(FetchRange(fetchStart, fetchEnd, false, 0), offset, len) {
          LandedToEnd(fetchStart, offset, offset + len, fetchEnd, cache.bm.Present(), |cache.peer|, table.wholeBlocks);
        }
      }
      plan := AwaitOwner(if turn.Join? then turn.id else -1, offset, len, FetchRange(fetchStart, fetchEnd, false, 0));
      retry := plan.FetchRange?;
    }

    /** Wait for the fetch this read joined, if any, and look at the bitmap again. */
    method AwaitOwner(owner: int, offset: nat, len: nat, otherwise: Plan) returns (plan: Plan)
      requires Valid() && owner < |table.fetches| && !otherwise.GiveUp?
      modifies this, cache`disk, cache`faults, cache.bm, table
      ensures Valid() && Progress()
      ensures plan == GiveUp || plan == otherwise || (plan == FromCache && RequestPresent(offset, len))
      ensures plan == GiveUp ==> trouble > old(trouble)
      ensures foreign == old(foreign) ==> Still()
      ensures foreign == old(foreign) && owner < 0 && !old(Hit(offset, len)) ==> plan == otherwise
    {
      hide Faithful, TruePrints, Singleflight, Overlay, Indices, Touched;
      Others(-1);
      if owner >= 0 && !table.fetches[owner].settled {
        trouble := trouble + 1;  // Nothing but a stop of the mount ends the wait before the fetch does.
        return GiveUp;
      }
      if owner < 0 || !table.fetches[owner].failed {
        var hit := RequestHit(offset, len);
        if hit {
          return FromCache;
        }
      }
      return otherwise;
    }

    /** The registration loop of a read that missed: at most three attempts, then fetch unregistered. */
    method PlanFetch(offset: nat, len: nat, unitStart: nat) returns (plan: Plan)
      requires Valid() && unitStart == RoundDown(offset, table.wholeBlocks) && len > 0
      modifies this, cache`disk, cache`faults, cache.bm, table
      ensures Valid() && Progress() && GoodRange(plan, unitStart)
      ensures plan.FromCache? ==> RequestPresent(offset, len)
      ensures plan.AtEnd? ==> UnitsEnd() < offset + len
      ensures plan.GiveUp? ==> trouble > old(trouble)
      ensures AllBelow(|cache.peer|, unitStart, old(cache.bm.Present())) && UnitsEnd() < offset + len ==> plan.AtEnd?
      ensures Quiet() ==> Follows(plan, old(QuietWay(offset, len)), offset, len)
      // What is missing is fetched unregistered only because of other goroutines.
      ensures Quiet() && plan.FetchRange? && !plan.leads ==> AllBelow(plan.hi, plan.lo, old(cache.bm.Present()))
    {
      hide Faithful, TruePrints, Singleflight, Overlay, Indices, Touched, AllBelow, WayOf;
      var retry;
      plan, retry := PlanOnce(offset, len, unitStart);
      var attempt := 0;
      while retry && attempt < 2
        invariant Valid() && Progress() && GoodRange(plan, unitStart)
        invariant plan.FromCache? ==> RequestPresent(offset, len)
        invariant plan.AtEnd? ==> UnitsEnd() < offset + len
        invariant plan.GiveUp? ==> trouble > old(trouble)
        invariant retry ==> plan.FetchRange?
        invariant AllBelow(|cache.peer|, unitStart, old(cache.bm.Present())) && UnitsEnd() < offset + len ==> plan.AtEnd?
        invariant Quiet() ==> Follows(plan, old(QuietWay(offset, len)), offset, len) && (retry ==> Still())
        invariant Quiet() && plan.FetchRange? && !plan.leads ==> AllBelow(plan.hi, plan.lo, old(cache.bm.Present()))
      {
        plan, retry := PlanOnce(offset, len, unitStart);
        attempt := attempt + 1;
      }
    }

    /** The bytes a demand fetch returned land, and when it led its waiters are released. */
    method LandDemand(plan: Plan, data: seq<byte>) returns (ok: bool)
      requires Valid() && plan.FetchRange? && GoodRange(plan, plan.lo) && data == cache.peer[plan.lo..plan.hi]
      modifies this, cache`disk, cache`faults, cache.bm, table
      ensures Valid() && Progress()
      ensures plan.leads ==> table.fetches[plan.id].settled
      ensures ok ==> AllBelow(plan.hi, plan.lo, cache.bm.Present())
      ensures Smooth() ==> ok
    {
      hide Faithful, TruePrints, Singleflight, Overlay, Indices, Touched;
      if plan.leads {
        ok := CompleteFetch(plan.id, plan.lo, plan.hi, true, data);
      } else {
        AlignedChunk(plan.lo, table.wholeBlocks);
        if Aligned(plan.hi, table.wholeBlocks) { AlignedChunk(plan.hi, table.wholeBlocks); }
        ok := Land(plan.lo, plan.hi, data);
      }
    }

    /** Up to where the rest of a request is fetched. */
    function RestEnd(offset: nat, len: nat): (e: nat) {
      Min(ChunkStart(ChunkCount(offset + len)), |cache.peer|)
    }

    /** The rest of a request that no other fetch landed, fetched unregistered up to a chunk bound; an empty rest fails. */
    method FetchRest(offset: nat, len: nat, unitStart: nat, hi: nat) returns (ok: bool)
      requires Valid() && Aligned(unitStart, table.wholeBlocks) && unitStart <= offset
      requires hi <= |cache.peer| && (Aligned(hi, table.wholeBlocks) || hi == |cache.peer|)
      requires AllBelow(hi, unitStart, cache.bm.Present())
      modifies this, cache`disk, cache`faults, cache.bm, table
      ensures Valid() && Progress()
      ensures ok ==> RequestPresent(offset, len) && hi < RestEnd(offset, len)
      ensures Smooth() && hi < RestEnd(offset, len) ==> ok
    {
      hide Faithful, TruePrints, Singleflight, Overlay, Indices, Touched;
      var restEnd := RestEnd(offset, len);
      if restEnd <= hi {
        return false;
      }
      var fetched, rest := Fetch(hi, restEnd);
      Others(-1);
      if !fetched {
        return false;
      }
      ChunkRoundsUp(offset + len);
      ok := LandRest(offset, len, unitStart, hi, restEnd, rest);
    }

    method LandRest(offset: nat, len: nat, unitStart: nat, hi: nat, restEnd: nat, rest: seq<byte>) returns (ok: bool)
      requires Valid() && Aligned(unitStart, table.wholeBlocks) && unitStart <= offset
      requires hi <= restEnd <= |cache.peer| && rest == cache.peer[hi..restEnd]
      requires Aligned(hi, table.wholeBlocks) || hi == |cache.peer|
      requires AlignedOrEnd(restEnd, |cache.peer|) && restEnd >= Min(offset + len, |cache.peer|)
      requires AllBelow(hi, unitStart, cache.bm.Present())
      modifies cache`disk, cache`faults, cache.bm
      ensures Valid() && Progress() && table.fetches == old(table.fetches)
      ensures ok ==> RequestPresent(offset, len)
      ensures Smooth() ==> ok
    {
      hide Faithful, TruePrints, Singleflight, Overlay, Indices, Touched;
      if Aligned(hi, table.wholeBlocks) { AlignedChunk(hi, table.wholeBlocks); }
      AlignedChunk(unitStart, table.wholeBlocks);
      ok := Land(hi, restEnd, rest);
      if ok { RequestBelow(offset, len, unitStart, hi, restEnd); }
    }

    lemma {:induction false} RequestBelow(offset: nat, len: nat, unitStart: nat, hi: nat, restEnd: nat)
      requires cache.bm.Valid() && unitStart == ChunkStart(Chunk(unitStart)) && unitStart <= offset
      requires restEnd >= Min(offset + len, |cache.peer|)
      requires AllBelow(hi, unitStart, cache.bm.Present()) && AllBelow(restEnd, hi, cache.bm.Present())
      ensures RequestPresent(offset, len)
    {
      forall p | offset <= p < Min(offset + len, |cache.peer|)
        ensures unitStart <= ChunkStart(Chunk(p)) < restEnd
      {
      }
    }

    /** The fetch did not cover the request: its bytes are on disk, the other owners are waited for, and what
        is still missing is fetched here; then the cache serves the whole request. */
    method ServeUncovered(offset: nat, len: nat, unitStart: nat, hi: nat) returns (r: ReadResult)
      requires Valid() && |cache.View()| == |cache.peer|
      requires Aligned(unitStart, table.wholeBlocks) && unitStart <= offset
      requires hi <= |cache.peer| && (Aligned(hi, table.wholeBlocks) || hi == |cache.peer|)
      requires AllBelow(hi, unitStart, cache.bm.Present()) && (offset < |cache.peer| || hi < |cache.peer|)
      modifies this, cache`disk, cache`faults, cache.bm, table
      ensures Valid() && Progress()
      ensures r.Failed? || r.Stopped? || (r.Served? && r.fromCache && r.data == ReadAt(cache.View(), offset, offset + len))
      // Past the last chunk the test for presence never holds: once the fetch reached the end of the file the rest is
      // empty and the read fails, with every byte it asked for on disk. Otherwise only a failure keeps it from being
      // served.
      ensures Crosses(offset, len) && hi >= |cache.peer| ==> !r.Served?
      ensures Smooth() ==> (r.Served? <==> !(Crosses(offset, len) && hi >= |cache.peer|))
      ensures r.Served? ==> RequestPresent(offset, len)
    {
      hide Faithful, TruePrints, Singleflight, Overlay, Indices, Touched;
      Others(-1);
      var stopping := Stopping();
      if stopping {
        return Stopped;
      }
      var ready := RequestHit(offset, len);
      if !ready {
        RestLeft(offset, len, unitStart, hi);
        ready := FetchRest(offset, len, unitStart, hi);
      }
      if !ready {
        return Failed;
      }
      var data := Pread(offset, len);
      r := Served(data, true);
    }

    /** A rest is left to fetch after a miss, unless the request runs past the last chunk and the file is fetched. */
    lemma {:induction false} RestLeft(offset: nat, len: nat, unitStart: nat, hi: nat)
      requires cache.Valid() && Aligned(unitStart, table.wholeBlocks) && unitStart <= offset && hi <= |cache.peer| && len > 0
      requires AllBelow(hi, unitStart, cache.bm.Present()) && (offset < |cache.peer| || hi < |cache.peer|)
      requires RequestPresent(offset, len) && offset < |cache.peer| ==> Crosses(offset, len)
      ensures hi < RestEnd(offset, len) <==> !(Crosses(offset, len) && hi >= |cache.peer|)
    {
      hide Faithful, TruePrints, Overlay, Indices, Touched;
      AlignedChunk(unitStart, table.wholeBlocks);
      ChunkRoundsUp(offset + len);
      ChunkRoundsUp(|cache.peer|);
      if hi >= RestEnd(offset, len) {
        RequestBelow(offset, len, unitStart, hi, hi);
      }
    }

    lemma {:induction false} UnitsEndPastChunks(offset: nat, len: nat)
      requires cache.bm.total == ChunkCount(|cache.peer|)
      ensures ChunkStart(cache.bm.total) <= UnitsEnd()
      ensures len > 0 && UnitsEnd() < offset + len ==> Crosses(offset, len)
    {
      AlignedChunk(UnitsEnd(), table.wholeBlocks);
      ChunkCountLeast(|cache.peer|, UnitsEnd());
    }

    /** The hybrid read. Bytes served from the cache are the overlaid file's; bytes served out of a fetched
        range are the peer's. End of file is answered only to a request that reaches past the last unit, and
        on a complete copy always to such a request. */
    method Read(offset: nat, len: nat) returns (r: ReadResult)
      requires Valid() && |cache.View()| == |cache.peer|
      modifies this, cache`disk, cache`faults, cache.bm, table
      ensures Valid() && Progress()
      ensures r.Served? && r.fromCache ==> r.data == ReadAt(cache.View(), offset, offset + len)
      ensures r.Served? && !r.fromCache ==> r.data == ReadAt(cache.peer, offset, offset + len)
      // Nothing the app wrote lies in the request: the answer is right whichever way it came.
      ensures r.Served? && Untouched(cache.writes, offset, offset + len) ==>
                r.data == ReadAt(cache.View(), offset, offset + len) == ReadAt(cache.peer, offset, offset + len)
      // With no step of another goroutine in between, what is present decides the way.
      ensures Quiet() ==> Answers(r, old(QuietWay(offset, len)))
      ensures Quiet() && Smooth() ==> (r.Served? <==> Serves(old(QuietWay(offset, len))))
      // Whatever others do, a request that does not run past the last chunk goes unserved only after a failure; and what
      // is served has landed.
      ensures Smooth() && !Crosses(offset, len) ==> r.Served?
      ensures Smooth() && r.Served? ==> RequestPresent(offset, len)
      ensures old(RequestPresent(offset, len)) && offset < |cache.peer| && !Crosses(offset, len) ==>
                r.Served? && r.fromCache
      ensures r.EndOfFile? ==> len > 0 && UnitsEnd() < offset + len
      ensures AllBelow(|cache.peer|, 0, old(cache.bm.Present())) && len > 0 && UnitsEnd() < offset + len ==> r.EndOfFile?
    {
      hide Faithful, TruePrints, Singleflight, Overlay, Indices, Touched, Untouched, PastUnits, OneFetch, DeadEnd, AllBelow;
      UnitsEndPastChunks(offset, len);
      if Untouched(cache.writes, offset, offset + len) { UntouchedReads(cache.peer, cache.writes, offset, offset + len); }
      var hit := RequestHit(offset, len);
      ghost var present := cache.bm.Present();
      Others(-1);
      BelowLater(|cache.peer|, 0, present, cache.bm.Present());
      if hit {
        var data := Pread(offset, len);
        return Served(data, true);
      }
      r := ReadMiss(offset, len);
    }

    method ReadMiss(offset: nat, len: nat) returns (r: ReadResult)
      requires Valid() && |cache.View()| == |cache.peer| && len > 0
      modifies this, cache`disk, cache`faults, cache.bm, table
      ensures Valid() && Progress()
      ensures Quiet() && !old(QuietWay(offset, len).Cached?) ==> Answers(r, old(QuietWay(offset, len)))
      ensures Quiet() && !old(QuietWay(offset, len).Cached?) && Smooth() ==>
                (r.Served? <==> Serves(old(QuietWay(offset, len))))
      ensures Smooth() && !Crosses(offset, len) ==> r.Served?
      ensures Smooth() && r.Served? ==> RequestPresent(offset, len)
      ensures r.Served? && r.fromCache ==> r.data == ReadAt(cache.View(), offset, offset + len)
      ensures r.Served? && !r.fromCache ==> r.data == ReadAt(cache.peer, offset, offset + len)
      ensures r.EndOfFile? ==> UnitsEnd() < offset + len
      ensures AllBelow(|cache.peer|, 0, old(cache.bm.Present())) && UnitsEnd() < offset + len ==> r.EndOfFile?
    {
      hide Faithful, TruePrints, Singleflight, Overlay, Indices, Touched, WayOf;
      ghost var way := QuietWay(offset, len);
      var unitStart := RoundDown(offset, table.wholeBlocks);
      assert AllBelow(|cache.peer|, 0, cache.bm.Present()) ==> AllBelow(|cache.peer|, unitStart, cache.bm.Present());
      hide AllBelow, Follows, Answers, Serves, Covered, Crosses, QuietWay;
      var plan := PlanFetch(offset, len, unitStart);
      match plan
      case FromCache =>
        var data := Pread(offset, len);
        r := Served(data, true);
      case AtEnd =>
        UnitsEndPastChunks(offset, len);
        r := EndOfFile;
      case GiveUp =>
        r := Stopped;
      case FetchRange(lo, hi, leads, id) =>
        r := ReadMissing(offset, len, unitStart, plan);
      if Quiet() && !way.Cached? { FollowedAnswers(plan, way, offset, len, r, Smooth()); }
    }

    /** The answer of a read whose plan is the one the way calls for. */
    lemma {:induction false} FollowedAnswers(plan: Plan, way: Way, offset: nat, len: nat, r: ReadResult, smooth: bool)
      requires Follows(plan, way, offset, len) && !way.Cached?
      requires plan.AtEnd? ==> r.EndOfFile?
      requires plan.FetchRange? ==> !r.EndOfFile? && (r.Served? ==> (r.fromCache <==> !Covered(plan, offset, len)))
      requires plan.FetchRange? && !Covered(plan, offset, len) && Crosses(offset, len) && plan.hi >= |cache.peer| ==> !r.Served?
      requires plan.FetchRange? && smooth ==>
                 (r.Served? <==> Covered(plan, offset, len) || !(Crosses(offset, len) && plan.hi >= |cache.peer|))
      ensures Answers(r, way) && (smooth ==> (r.Served? <==> Serves(way)))
    {
    }

    /** A read that fetches: serve the slice when the range covers the request, else land and serve from cache. */
    method ReadMissing(offset: nat, len: nat, unitStart: nat, plan: Plan) returns (r: ReadResult)
      requires Valid() && |cache.View()| == |cache.peer| && plan.FetchRange?
      requires Aligned(unitStart, table.wholeBlocks) && unitStart <= offset && GoodRange(plan, unitStart)
      modifies this, cache`disk, cache`faults, cache.bm, table
      ensures Valid() && Progress()
      ensures !r.EndOfFile?
      ensures plan.leads ==> table.fetches[plan.id].settled
      ensures r.Served? ==> (r.fromCache <==> !Covered(plan, offset, len))
      ensures !Covered(plan, offset, len) && Crosses(offset, len) && plan.hi >= |cache.peer| ==> !r.Served?
      ensures Smooth() ==>
                (r.Served? <==> Covered(plan, offset, len) || !(Crosses(offset, len) && plan.hi >= |cache.peer|))
      ensures Smooth() && r.Served? ==> RequestPresent(offset, len)
      ensures r.Served? && r.fromCache ==> r.data == ReadAt(cache.View(), offset, offset + len)
      ensures r.Served? && !r.fromCache ==> r.data == ReadAt(cache.peer, offset, offset + len)
    {
      hide Faithful, TruePrints, Singleflight, Overlay, Indices, Touched;
      var lo, hi := plan.lo, plan.hi;
      Others(if plan.leads then plan.id else -1);
      var fetched, data := Fetch(lo, hi);
      if !fetched {
        if plan.leads {
          table.FinishFetch(plan.id, true);
        }
        var stopping := Stopping();
        return if stopping then Stopped else Failed;
      }
      var covered := lo <= offset && (hi >= offset + len || hi >= |cache.peer|);
      if !covered {
        r := LandAndServe(offset, len, unitStart, plan, data);
        return;
      }
      r := ServeSlice(offset, len, plan, data);
    }

    /** The fetched range covers the request: its slice is served, and the range lands beside. */
    method ServeSlice(offset: nat, len: nat, plan: Plan, data: seq<byte>) returns (r: ReadResult)
      requires Valid() && plan.FetchRange? && Covered(plan, offset, len)
      requires GoodRange(plan, plan.lo) && data == cache.peer[plan.lo..plan.hi]
      modifies this, cache`disk, cache`faults, cache.bm, table
      ensures Valid() && Progress()
      ensures plan.leads ==> table.fetches[plan.id].settled
      ensures r == Served(ReadAt(cache.peer, offset, offset + len), false)
      ensures Smooth() ==> RequestPresent(offset, len)
    {
      hide Faithful, TruePrints, Singleflight, Overlay, Indices, Touched;
      var slice := ReadAt(data, offset - plan.lo, offset - plan.lo + len);
      SliceServes(cache.peer, plan.lo, plan.hi, offset, len);
      var ok := LandDemand(plan, data);
      AlignedChunk(plan.lo, table.wholeBlocks);
      if ok { RequestBelow(offset, len, plan.lo, plan.lo, plan.hi); }
      r := Served(slice, false);
    }

    method LandAndServe(offset: nat, len: nat, unitStart: nat, plan: Plan, data: seq<byte>) returns (r: ReadResult)
      requires Valid() && |cache.View()| == |cache.peer| && plan.FetchRange? && !Covered(plan, offset, len)
      requires Aligned(unitStart, table.wholeBlocks) && unitStart <= offset && GoodRange(plan, unitStart)
      requires data == cache.peer[plan.lo..plan.hi]
      modifies this, cache`disk, cache`faults, cache.bm, table
      ensures Valid() && Progress()
      ensures plan.leads ==> table.fetches[plan.id].settled
      ensures r.Failed? || r.Stopped? || (r.Served? && r.fromCache && r.data == ReadAt(cache.View(), offset, offset + len))
      ensures Crosses(offset, len) && plan.hi >= |cache.peer| ==> !r.Served?
      ensures Smooth() ==> (r.Served? <==> !(Crosses(offset, len) && plan.hi >= |cache.peer|))
      ensures r.Served? ==> RequestPresent(offset, len)
    {
      hide Faithful, TruePrints, Singleflight, Overlay, Indices, Touched;
      ghost var before := cache.bm.Present();
      var ok := LandDemand(plan, data);
      if !ok {
        return Failed;
      }
      JoinBelow(unitStart, plan.lo, plan.hi, before, cache.bm.Present());
      r := ServeUncovered(offset, len, unitStart, plan.hi);
    }

    // ---------- the write ----------

    /** fillForWrite: before a write, each chunk it reaches into is made present by reading it. */
    method FillForWrite(offset: nat, n: nat) returns (ok: bool)
      requires Valid() && |cache.View()| == |cache.peer|
      modifies this, cache`disk, cache`faults, cache.bm, table
      ensures Valid() && Progress()
      ensures ok ==> RequestPresent(offset, n)
      // Whatever was missing and whatever others do: only a failure keeps it from being filled.
      ensures Smooth() ==> ok
      ensures old(RequestPresent(offset, n)) && n > 0 && offset < |cache.peer| ==> ok
    {
      hide Faithful, TruePrints, Singleflight, Overlay, Indices, Touched;
      var end := Min(offset + n, |cache.peer|);
      var first := ChunkStart(Chunk(offset));
      if RequestPresent(offset, n) && offset < end { FillsRequested(offset, end, cache.bm.Present()); }
      ok := FillChunks(first, end);
      if ok { RequestBelow(offset, n, first, first, end); }
    }

    /** The loop of the fill: every chunk that begins in [first, end). */
    method FillChunks(first: nat, end: int) returns (ok: bool)
      requires Valid() && |cache.View()| == |cache.peer| && first == ChunkStart(Chunk(first)) && end <= |cache.peer|
      modifies this, cache`disk, cache`faults, cache.bm, table
      ensures Valid() && Progress()
      ensures ok ==> AllBelow(end, first, cache.bm.Present())
      ensures AllBelow(end, first, old(cache.bm.Present())) || Smooth() ==> ok
    {
      hide Faithful, TruePrints, Singleflight, Overlay, Indices, Touched;
      var pos: nat := first;
      while pos < end
        invariant first <= pos == ChunkStart(Chunk(pos))
        invariant Valid() && Progress()
        invariant AllBelow(pos, first, cache.bm.Present())
      {
        ghost var present := cache.bm.Present();
        ok := FillChunk(Chunk(pos));
        if !ok {
          return;
        }
        OneMoreBelow(pos, first, present, cache.bm.Present());
        pos := pos + CHUNK_SIZE;
      }
      ok := true;
    }

    /** One chunk of the fill: present already, or read and then found present. */
    method FillChunk(c: nat) returns (ok: bool)
      requires Valid() && |cache.View()| == |cache.peer| && ChunkStart(c) < |cache.peer|
      modifies this, cache`disk, cache`faults, cache.bm, table
      ensures Valid() && Progress()
      ensures ok ==> c in cache.bm.Present()
      ensures c in old(cache.bm.Present()) || Smooth() ==> ok
    {
      hide Faithful, TruePrints, Singleflight, Overlay, Indices, Touched;
      ok := cache.bm.Has(c);
      if ok {
        return;
      }
      ChunkInRequest(c);
      var r := Read(ChunkStart(c), Min(CHUNK_SIZE, |cache.peer| - ChunkStart(c)));
      if r.Failed? {
        return;
      }
      Others(-1);
      ok := cache.bm.Has(c);
    }

    /** One chunk, read as the fill reads it, does not run past the last chunk, and is present once its bytes are. */
    lemma {:induction false} ChunkInRequest(c: nat)
      requires cache.Valid() && ChunkStart(c) < |cache.peer|
      ensures var len := Min(CHUNK_SIZE, |cache.peer| - ChunkStart(c));
              !Crosses(ChunkStart(c), len) && (RequestPresent(ChunkStart(c), len) ==> c in cache.bm.Present())
    {
      hide Faithful, TruePrints, Overlay, Indices;
      assert Chunk(ChunkStart(c)) == c;
    }

    /** Write: fill what the write touches in a copy with missing chunks, then the pwrite. A copy that is still
        partial stays a faithful cache; a complete one is local from here on and the disk is what the app sees.
        `n` is negative when the fill failed and nothing was written. */
    method Write(offset: nat, data: seq<byte>) returns (n: int, partial: bool)
      requires Valid() && |cache.View()| == |cache.peer|
      modifies this, cache, cache.bm, table
      ensures table.Valid() && cache.Shaped() && Faithful(cache.peer, cache.View(), cache.State())
      ensures partial ==> Valid()
      ensures !partial ==> cache.disk == cache.View()
      ensures n <= |data| && old(cache.bm.Present()) <= cache.bm.Present()
      // Only a failure keeps it from writing all of `data`.
      ensures Smooth() ==> n == |data|
      ensures n >= 0 && partial ==> RequestPresent(offset, |data|)
      ensures cache.writes == if n > 0 then old(cache.writes) + [AppWrite(offset, data[..n])] else old(cache.writes)
    {
      hide Faithful, TruePrints, Singleflight, Overlay, Indices;
      partial := true;
      var complete := cache.bm.IsComplete();
      if !complete {
        var ok := FillForWrite(offset, |data|);
        if !ok {
          return -1, true;
        }
        complete := cache.bm.IsComplete();
      }
      partial := !complete;
      if partial {
        var readOk;
        n, readOk := cache.AppPwrite(offset, data);
      } else {
        n := cache.AppPwriteLocal(offset, data);
      }
    }

    // ---------- read-ahead and warming ----------

    /** How the block of a refill that begins at `blockStart` was dealt with, since `before`. */
    ghost predicate Dealt(blockStart: nat, turn: Turn, before: seq<BlockFetch>)
      requires cache.bm.Valid()
      reads this, cache, table, cache.bm
    {
      Handled(blockStart, turn, before, table.fetches, cache.bm.Present(), |cache.peer|, table.wholeBlocks)
    }

    /** prefetchRange: the blocks of one refill, in order, until the file ends, a fetch fails or the refill is stopped.
        `stops` are the blocks before which it finds the refill cancelled or the disk under its floor; turns[i] is how
        block fromBlock + i was dealt with. */
    method PrefetchRange(fromBlock: nat, toBlock: nat, stops: set<nat>) returns (ghost turns: seq<Turn>)
      requires Valid()
      modifies this, cache`disk, cache`faults, cache.bm, table
      ensures Valid() && Progress()
      ensures forall i :: 0 <= i < |turns| ==> Dealt((fromBlock + i) * 0x100_0000, turns[i], old(table.fetches))
      ensures forall b :: fromBlock <= b < fromBlock + |turns| ==> b !in stops && b * 0x100_0000 < |cache.peer|
      // It goes on to the last block, unless it is stopped, reaches the end of the file, or its own fetch failed.
      ensures var next := fromBlock + |turns|;
              next < toBlock ==>
                next in stops || next * 0x100_0000 >= |cache.peer| || (turns != [] && LedBadly(turns[|turns| - 1], table.fetches))
      ensures forall i :: 0 <= i < |turns| && LedBadly(turns[i], table.fetches) ==> i == |turns| - 1 && !Smooth()
    {
      hide Faithful, TruePrints, Singleflight, Overlay, Indices, Touched, Handled, LedBadly;
      turns := [];
      var b := fromBlock;
      var going := true;
      while b < toBlock && going
        invariant Valid() && Progress() && b == fromBlock + |turns|
        invariant forall i :: 0 <= i < |turns| ==> Dealt((fromBlock + i) * 0x100_0000, turns[i], old(table.fetches))
        invariant forall b :: fromBlock <= b < fromBlock + |turns| ==> b !in stops && b * 0x100_0000 < |cache.peer|
        invariant forall i :: 0 <= i < |turns| && LedBadly(turns[i], table.fetches) ==> i == |turns| - 1 && !going
        invariant !going ==> turns != [] && LedBadly(turns[|turns| - 1], table.fetches) && !Smooth()
      {
        if b in stops || b * 0x100_0000 >= |cache.peer| {
          return;
        }
        ghost var fetches, present := table.fetches, cache.bm.Present();
        assert old(trouble) <= trouble && old(cache.faults) <= cache.faults;
        ghost var turn;
        going, turn := PrefetchBlock(b * 0x100_0000);
        forall i | 0 <= i < |turns|
          ensures Dealt((fromBlock + i) * 0x100_0000, turns[i], old(table.fetches)) && !LedBadly(turns[i], table.fetches)
        {
          HandledLater((fromBlock + i) * 0x100_0000, turns[i], old(table.fetches), fetches, present, table.fetches,
                       cache.bm.Present(), |cache.peer|, table.wholeBlocks);
        }
        HandledSince(b * 0x100_0000, turn, old(table.fetches), fetches, table.fetches, cache.bm.Present(), |cache.peer|,
                     table.wholeBlocks);
        turns := turns + [turn];
        b := b + 1;
      }
    }

    /** One block of a refill. It is skipped when it is cached or its first missing unit is owned; else the run
        of free units is fetched and landed. */
    method PrefetchBlock(blockStart: nat) returns (going: bool, ghost turn: Turn)
      requires Valid() && blockStart % 0x100_0000 == 0 && blockStart < |cache.peer|
      modifies this, cache`disk, cache`faults, cache.bm, table
      ensures Valid() && Progress()
      ensures Dealt(blockStart, turn, old(table.fetches))
      ensures turn.Join? ==> !table.fetches[turn.id].settled
      ensures (going <==> !LedBadly(turn, table.fetches)) && (Smooth() ==> going)
    {
      hide Faithful, TruePrints, Singleflight, Overlay, Indices, Touched;
      Others(-1);
      var t := ClaimBlock(blockStart, Min(blockStart + 0x100_0000, |cache.peer|));
      turn := t;
      if !t.Lead? {
        return true, t;
      }
      ghost var present := cache.bm.Present();
      going := LeadRange(t.id, t.from, t.owned);
      if going { JoinBelow(blockStart, t.from, t.owned, present, cache.bm.Present()); }
    }

    method ClaimBlock(blockStart: nat, end: nat) returns (turn: Turn)
      requires Valid() && blockStart % 0x100_0000 == 0 && blockStart < end == Min(blockStart + 0x100_0000, |cache.peer|)
      modifies this, cache`disk, cache`faults, cache.bm, table
      ensures Valid() && Progress() && cache.faults == old(cache.faults) && trouble == old(trouble)
      ensures turn.Lead? ==>
                && |old(table.fetches)| == turn.id < |table.fetches| && !table.fetches[turn.id].settled
                && turn.from == table.fetches[turn.id].lo && turn.owned == Min(table.fetches[turn.id].hi, |cache.peer|)
                && blockStart <= turn.from < turn.owned <= end && AllBelow(turn.from, blockStart, cache.bm.Present())
      ensures turn.Join? ==>
                && turn.id < |table.fetches| && table.fetches == old(table.fetches) && !table.fetches[turn.id].settled
                && JoinsFor(turn.id, blockStart, end, table.fetches, cache.bm.Present(), table.wholeBlocks)
      ensures turn.AllLanded? ==> AllBelow(end, blockStart, cache.bm.Present())
    {
      hide Faithful, TruePrints, Singleflight, Overlay, Indices, Touched, Took, NoneLanded, Landed, AllBelow;
      var cached := cache.bm.HasRange(blockStart, end - blockStart);
      if cached {
        CachedBlock(blockStart, end, cache.bm.Present());
        return AllLanded;
      }
      BlockAligned(blockStart, table.wholeBlocks);
      turn := table.BeginFetchSpan(blockStart, end);
      if turn.Join? { JoinedOwner(turn.id, blockStart, end); }
    }

    lemma {:induction false} JoinedOwner(id: nat, blockStart: nat, end: nat)
      requires Valid() && id < |table.fetches|
      requires exists u: nat :: blockStart <= u < end && u in table.inflight && table.inflight[u] == id
                                && !table.UnitLanded(u) && AllBelow(u, blockStart, cache.bm.Present())
      ensures !table.fetches[id].settled
      ensures JoinsFor(id, blockStart, end, table.fetches, cache.bm.Present(), table.wholeBlocks)
    {
      hide AllBelow, Landed, Faithful, TruePrints, Overlay, Indices;
    }

    /** A leader of the window: its range is fetched while others go on, and it settles. */
    method LeadRange(id: nat, lo: nat, hi: nat) returns (ok: bool)
      requires Valid() && id < |table.fetches| && !table.fetches[id].settled
      requires lo == table.fetches[id].lo <= hi == Min(table.fetches[id].hi, |cache.peer|)
      modifies this, cache`disk, cache`faults, cache.bm, table
      ensures Valid() && Progress() && table.fetches[id].settled
      ensures ok ==> AllBelow(hi, lo, cache.bm.Present())
      ensures (ok <==> !table.fetches[id].failed) && (Smooth() ==> ok)
    {
      hide Faithful, TruePrints, Singleflight, Overlay, Indices, AllBelow;
      Others(id);
      var fetched, data := Fetch(lo, hi);
      ok := CompleteFetch(id, lo, hi, fetched, data);
    }

    /** The claim of the sibling warmer on a small file: the bitmap is asked first, outside the table's lock, and
        unit 0 is then registered whatever has landed since. */
    method ClaimWarm() returns (id: nat, leader: bool)
      requires Valid() && |cache.peer| <= WARM_THRESHOLD
      modifies this, cache`disk, cache`faults, cache.bm, table
      ensures Valid() && Progress()
      ensures leader ==> id < |table.fetches| && table.fetches[id] == BlockFetch(0, table.unit, false, false)
      // It stays out only of a file that is whole or that a fetch in flight will make whole.
      ensures !leader ==> AllBelow(|cache.peer|, 0, cache.bm.Present())
                          || (id < |table.fetches| && table.fetches[id].Covers(0, table.wholeBlocks) && !table.fetches[id].settled)
      ensures foreign == old(foreign) ==>
                (leader <==> !old(AllBelow(|cache.peer|, 0, cache.bm.Present())) && 0 !in old(table.inflight))
      // It leads a landed unit only when another goroutine came between the question and the registration.
      ensures leader && table.UnitLanded(0) ==> foreign > old(foreign)
    {
      hide Faithful, TruePrints, Singleflight, Overlay, Indices, Touched;
      id := 0;
      OneChunkBelow(cache.bm.Present(), |cache.peer|, cache.bm.total);
      var complete := cache.bm.IsComplete();
      if complete {
        return 0, false;
      }
      OneChunkUnit(cache.bm.Present(), |cache.peer|, cache.bm.total, table.wholeBlocks);
      Others(-1);
      ghost var present := cache.bm.Present();
      id, leader := table.BeginBlockFetch(0);
      assert cache.bm.Present() == present;
      if !leader { OwnerCovers(0); }
    }

    lemma {:induction false} OwnerCovers(u: nat)
      requires Valid() && u in table.inflight
      ensures var id := table.inflight[u];
              id < |table.fetches| && table.fetches[id].Covers(u, table.wholeBlocks) && !table.fetches[id].settled
    {
    }

    /** A claim of the sibling warmer lands: unit 0 of a small file, and its waiters are released either way. */
    method LandWarmClaim(id: nat, framed: bool, data: seq<byte>, guard: WarmGuard)
      requires Valid() && id < |table.fetches| && !table.fetches[id].settled && table.fetches[id].lo == 0
      requires |cache.peer| <= WARM_THRESHOLD && (framed ==> data == cache.peer)
      requires cache.writes != [] ==> guard.localNewer || guard.hadEdits
      modifies this, cache`disk, cache`faults, cache.bm, table
      ensures Valid() && Progress() && table.fetches[id].settled
      ensures table.fetches[id].failed <==>
                !(framed && guard.Open() && guard.stillCurrent && cache.faults == old(cache.faults))
      ensures !table.fetches[id].failed ==> AllBelow(|cache.peer|, 0, cache.bm.Present())
    {
      hide Faithful, TruePrints, Singleflight, Overlay, Indices, Touched;
      var ok := false;
      ghost var present := cache.bm.Present();
      if framed {
        ok := cache.LandWarmFile(data, guard);
        GrowKeepsSingleflight(table.fetches, table.inflight, present, |cache.peer|, table.wholeBlocks, cache.bm.Present());
      }
      table.FinishFetch(id, !ok);
    }
  }

  /** Fetch `id` covers the first missing unit of the block. */
  ghost predicate JoinsFor(id: nat, blockStart: nat, end: nat, fetches: seq<BlockFetch>, present: set<int>, wholeBlocks: bool)
    requires id < |fetches|
  {
    exists u: nat :: blockStart <= u < end && AllBelow(u, blockStart, present) && fetches[id].Covers(u, wholeBlocks)
  }

  /** How one block of a refill was dealt with: everything in it has landed; or its first missing unit was owned by a
      fetch that had not settled before; or a fetch of its own, begun since, led from that unit on, and landed or failed. */
  ghost predicate Handled(blockStart: nat, turn: Turn, before: seq<BlockFetch>, fetches: seq<BlockFetch>, present: set<int>,
                          size: nat, wholeBlocks: bool)
  {
    var end := Min(blockStart + 0x100_0000, size);
    match turn
    case AllLanded => AllBelow(end, blockStart, present)
    case Join(id) =>
      && id < |fetches| && (id < |before| ==> !before[id].settled)
      && JoinsFor(id, blockStart, end, fetches, present, wholeBlocks)
    case Lead(id, from, owned) =>
      && |before| <= id < |fetches| && fetches[id].settled && fetches[id].lo == from
      && blockStart <= from < owned <= end && AllBelow(from, blockStart, present)
      && (!fetches[id].failed ==> AllBelow(owned, blockStart, present))
  }

  /** The fetch it led failed. */
  ghost predicate LedBadly(turn: Turn, fetches: seq<BlockFetch>) {
    turn.Lead? && turn.id < |fetches| && fetches[turn.id].failed
  }

  lemma {:induction false} HandledLater(blockStart: nat, turn: Turn, before: seq<BlockFetch>, fetches: seq<BlockFetch>,
                                        present: set<int>, fetches': seq<BlockFetch>, present': set<int>, size: nat,
                                        wholeBlocks: bool)
    requires Handled(blockStart, turn, before, fetches, present, size, wholeBlocks)
    requires FetchesKept(fetches, fetches') && present <= present'
    ensures Handled(blockStart, turn, before, fetches', present', size, wholeBlocks)
    ensures LedBadly(turn, fetches') <==> LedBadly(turn, fetches)
  {
    match turn
    case AllLanded =>
    case Lead(id, from, owned) =>
    case Join(id) =>
      var end := Min(blockStart + 0x100_0000, size);
      var u: nat :| blockStart <= u < end && AllBelow(u, blockStart, present) && fetches[id].Covers(u, wholeBlocks);
      assert AllBelow(u, blockStart, present') && fetches'[id].Covers(u, wholeBlocks);
  }

  lemma {:induction false} HandledSince(blockStart: nat, turn: Turn, before: seq<BlockFetch>, later: seq<BlockFetch>,
                                        fetches: seq<BlockFetch>, present: set<int>, size: nat, wholeBlocks: bool)
    requires Handled(blockStart, turn, later, fetches, present, size, wholeBlocks) && FetchesKept(before, later)
    ensures Handled(blockStart, turn, before, fetches, present, size, wholeBlocks)
  {
  }

  lemma {:induction false} CachedBlock(blockStart: nat, end: nat, present: set<int>)
    requires blockStart < end && Touched(blockStart, end - blockStart, CHUNK_SIZE) <= present
    ensures AllBelow(end, blockStart, present)
  {
    forall c | blockStart <= ChunkStart(c) < end
      ensures c in present
    {
      TouchedChunks(blockStart, end - blockStart, c);
    }
  }

  lemma {:induction false} OneChunkBelow(present: set<int>, size: nat, total: nat)
    requires 0 < size <= WARM_THRESHOLD && total == ChunkCount(size)
    ensures AllBelow(size, 0, present) <==> forall c :: 0 <= c < total ==> c in present
  {
    assert total == 1;
  }

  /** A file of one chunk with a chunk missing has not landed its unit. */
  lemma {:induction false} OneChunkUnit(present: set<int>, size: nat, total: nat, wholeBlocks: bool)
    requires 0 < size <= WARM_THRESHOLD && total == ChunkCount(size)
    requires exists c :: 0 <= c < total && c !in present
    ensures !Landed(0, present, size, wholeBlocks)
  {
    assert total == 1;
  }

  /** The warmer leads a landed unit: it finds the bitmap empty, a demand fetch then leads, lands and settles, and the
      registration after that succeeds. */
  method LedAgain(version: seq<byte>, xxh3: seq<byte> -> uint64, readAheadOff: bool)
    returns (m: MountedFile, complete: bool, landed: bool, again: bool)
    requires 0 < |version| <= WARM_THRESHOLD
    ensures fresh(m) && m.Valid() && m.cache.peer == version && !complete
    ensures again && (landed ==> m.table.UnitLanded(0))
  {
    hide Faithful, TruePrints, Singleflight, Overlay, Touched, Indices, NoneLanded;
    m := new MountedFile(version, xxh3, readAheadOff);
    ghost var none: set<int> := {};
    assert m.cache.bm.total == ChunkCount(|version|) == 1 && 0 !in none;
    OneChunkUnit(none, |version|, m.cache.bm.total, readAheadOff);
    complete := m.cache.bm.IsComplete();
    var turn := m.table.BeginFetchSpan(0, |version|);
    assert m.cache.bm.Present() == {};
    landed := m.CompleteFetch(turn.id, turn.from, turn.owned, true, version[turn.from..turn.owned]);
    AllSettled(m.table.fetches, m.table.inflight, m.cache.bm.Present(), |version|, readAheadOff);
    var id;
    id, again := m.table.BeginBlockFetch(0);
  }

  lemma {:induction false} ChunkCountLeast(size: nat, e: nat)
    requires e == ChunkStart(Chunk(e)) && size <= e
    ensures ChunkStart(ChunkCount(size)) <= e
  {
  }

  lemma {:induction false} BelowLater(hi: int, lo: int, before: set<int>, after: set<int>)
    requires before <= after
    ensures AllBelow(hi, lo, before) ==> AllBelow(hi, lo, after)
  {
  }

  lemma {:induction false} OneMoreBelow(pos: nat, first: int, before: set<int>, after: set<int>)
    requires pos == ChunkStart(Chunk(pos)) && AllBelow(pos, first, before) && before <= after && Chunk(pos) in after
    ensures AllBelow(pos + CHUNK_SIZE, first, after) && pos + CHUNK_SIZE == ChunkStart(Chunk(pos + CHUNK_SIZE))
  {
  }

  /** Every chunk the fill looks at holds a byte of the request. */
  lemma {:induction false} FillsRequested(offset: nat, end: int, present: set<int>)
    requires offset < end && forall p :: offset <= p < end ==> Chunk(p) in present
    ensures AllBelow(end, ChunkStart(Chunk(offset)), present)
  {
    forall c | ChunkStart(Chunk(offset)) <= ChunkStart(c) < end
      ensures c in present
    {
      assert Chunk(Max(ChunkStart(c), offset)) == c;
    }
  }

  lemma {:induction false} BlockAligned(at: int, wholeBlocks: bool)
    requires at % 0x100_0000 == 0
    ensures Aligned(at, wholeBlocks) && Aligned(at + 0x100_0000, wholeBlocks)
  {
  }

  lemma {:induction false} ChunkRoundsUp(x: nat)
    ensures x <= ChunkStart(ChunkCount(x)) == ChunkStart(Chunk(ChunkStart(ChunkCount(x))))
  {
  }

  lemma {:induction false} SliceServes(peer: seq<byte>, lo: nat, hi: nat, offset: nat, len: nat)
    requires lo <= hi <= |peer| && lo <= offset && (hi >= offset + len || hi >= |peer|)
    ensures ReadAt(peer[lo..hi], offset - lo, offset - lo + len) == ReadAt(peer, offset, offset + len)
  {
    if len > 0 && offset < |peer| && offset < hi {
      SliceOfSlice(peer, lo, hi, offset - lo, Min(offset - lo + len, hi - lo));
    }
  }

  /** The bytes a read that is served answers with: the peer's out of a fetched range, the disk's otherwise. */
  ghost function AnswerOf(way: Way, peer: seq<byte>, view: seq<byte>, offset: nat, len: nat): (data: seq<byte>) {
    ReadAt(if way.Sliced? then peer else view, offset, offset + len)
  }

  /** A byte of the request lies in a present chunk in which the app changed it. */
  ghost predicate Rewritten(peer: seq<byte>, s: Copy, p: nat) {
    p < |peer| && p < |s.disk| && Chunk(p) in s.present && s.disk[p] != peer[p]
  }

  /** When exactly a read that nothing disturbs answers with stale bytes: its chunks are not all present, it does not
      run past the end, the units it reaches into fit one fetch and none (or each) of them has landed, and a present
      chunk of it holds a byte the app changed. */
  lemma {:induction false} StaleExactly(peer: seq<byte>, view: seq<byte>, s: Copy, offset: nat, len: nat, wholeBlocks: bool)
    requires Faithful(peer, view, s) && |view| == |peer|
    requires !PastUnits(RoundDown(offset, wholeBlocks), offset + len, s.present, |peer|, wholeBlocks)
    ensures AnswerOf(WayOf(offset, len, s.present, |peer|, wholeBlocks), peer, view, offset, len)
            != ReadAt(view, offset, offset + len) <==>
            && !(Touched(offset, len, CHUNK_SIZE) <= s.present)
            && OneFetch(RoundDown(offset, wholeBlocks), offset + len, s.present, |peer|, wholeBlocks)
            && (exists p :: offset <= p < offset + len && Rewritten(peer, s, p))
  {
    hide Touched, OneFetch, PastUnits;
    var served, seen := ReadAt(peer, offset, offset + len), ReadAt(view, offset, offset + len);
    if served != seen {
      var k :| 0 <= k < |seen| && served[k] != seen[k];
      assert Rewritten(peer, s, offset + k);
    }
    forall p | offset <= p < offset + len && Rewritten(peer, s, p)
      ensures served != seen
    {
      assert served[p - offset] != seen[p - offset];
    }
  }

  /** A landed chunk, and then a write of one byte into it. */
  const REWRITE: seq<CacheStep> := [LandChunk(0), Pwrite(AppWrite(0, [1]))]

  lemma {:induction false} RewriteRuns(peer: seq<byte>)
    requires peer != []
    ensures CanTakeAll(peer, Copy([], {}, None), REWRITE) && TakeAll(peer, Copy([], {}, None), REWRITE).present == {0}
    ensures Overlay(peer, AppWrites(REWRITE)) == WriteAt(peer, 0, [1])
  {
    var empty := Copy([], {}, None);
    assert REWRITE[..1] == [LandChunk(0)] && [LandChunk(0)][..0] == [];
    assert TakeAll(peer, empty, [LandChunk(0)]).present == {0};
    assert AppWrites([LandChunk(0)]) == [];
    assert AppWrites(REWRITE) == [] + [AppWrite(0, [1])];
    OverlayAppend(peer, [], AppWrite(0, [1]));
  }

  lemma {:induction false} OneOfTwo(size: nat)
    requires size == 2 * CHUNK_SIZE
    ensures WayOf(0, CHUNK_SIZE + 1, {0}, size, false).Sliced?
  {
    TouchedChunks(0, CHUNK_SIZE + 1, 1);
    assert ChunkStart(1) < size && 1 !in {0};
    assert !AllBelow(size, 0, {0});
    assert NoneLanded(0, CHUNK_SIZE + 1, {0}, size, false);
  }

  /** Two chunks of zeros, the first landed and then overwritten at its first byte: a read of both answers with the
      zero that the app has replaced. */
  lemma {:induction false} StaleRead() returns (peer: seq<byte>)
    ensures peer != [] && CanTakeAll(peer, Copy([], {}, None), REWRITE)
    ensures var s, view := TakeAll(peer, Copy([], {}, None), REWRITE), Overlay(peer, AppWrites(REWRITE));
            && |view| == |peer| && Faithful(peer, view, s)
            && WayOf(0, CHUNK_SIZE + 1, s.present, |peer|, false).Sliced?
            && ReadAt(peer, 0, CHUNK_SIZE + 1)[..1] == [0] && ReadAt(view, 0, CHUNK_SIZE + 1)[..1] == [1]
  {
    hide Faithful, WayOf, Overlay, TakeAll, CanTakeAll, AppWrites;
    peer := seq(2 * CHUNK_SIZE, _ => 0);
    RewriteRuns(peer);
    PartialCopyRun(peer, REWRITE);
    OneOfTwo(|peer|);
  }

  /** The same copy as a mounted file, when neither write fails. */
  method RewrittenFile(xxh3: seq<byte> -> uint64) returns (m: MountedFile, staged: bool)
    ensures fresh(m) && fresh(m.cache) && fresh(m.cache.bm) && fresh(m.table) && m.Valid()
    ensures !m.table.wholeBlocks && m.table.inflight == map[] && |m.cache.peer| == 2 * CHUNK_SIZE
    ensures staged ==> m.cache.bm.Present() == {0} && m.cache.writes == [AppWrite(0, [1])] && m.cache.peer[..1] == [0]
  {
    hide Faithful, TruePrints, Overlay, Touched, Indices, Singleflight;
    var version: seq<byte> := seq(2 * CHUNK_SIZE, _ => 0);
    m := new MountedFile(version, xxh3, false);
    var landed := Fetched(version[0..CHUNK_SIZE], 0, |version|);
    var written, readOk, n;
    written, staged := m.cache.MarkCached(landed);
    FirstChunkMarked(landed, m.cache.bm.total, m.cache.bm.Present());
    if staged {
      n, readOk := m.cache.AppPwrite(0, [1]);
      staged := n == 1;
      assert [1][..1] == [1];
    }
    GrowKeepsSingleflight([], map[], {}, |version|, false, m.cache.bm.Present());
  }

  /** A read of it that nothing disturbs answers with the zero, while the app must see the one. */
  method ReadStale(m: MountedFile) returns (r: ReadResult)
    requires m.Valid() && !m.table.wholeBlocks && m.table.inflight == map[] && |m.cache.peer| == 2 * CHUNK_SIZE
    requires m.cache.bm.Present() == {0} && m.cache.writes == [AppWrite(0, [1])] && m.cache.peer[..1] == [0]
    modifies m, m.cache`disk, m.cache`faults, m.cache.bm, m.table
    ensures m.cache.View()[..1] == [1]
    ensures m.foreign == old(m.foreign) && r.Served? ==> r.data != [] && r.data[0] == 0
    ensures m.foreign == old(m.foreign) && m.Smooth() ==> r.Served?
  {
    hide Faithful, TruePrints, Overlay, Touched, Indices, Singleflight, WayOf;
    OverlaidFirst(m.cache.peer);
    OneOfTwo(|m.cache.peer|);
    r := m.Read(0, CHUNK_SIZE + 1);
    assert ReadAt(m.cache.peer, 0, CHUNK_SIZE + 1)[0] == m.cache.peer[..1][0];
  }

  lemma {:induction false} FirstChunkMarked(f: Fetched, total: nat, present: set<int>)
    requires f.base == 0 && |f.data| == CHUNK_SIZE && f.remoteSize == 2 * CHUNK_SIZE && total == ChunkCount(f.remoteSize)
    ensures MarksUpTo(f, total, CHUNK_SIZE, {}, present) ==> present == {0}
  {
    if MarksUpTo(f, total, CHUNK_SIZE, {}, present) {
      assert f.Marks(0) && 0 in present;
      forall c | c in present
        ensures c == 0
      {
        assert f.Marks(c);
      }
    }
  }

  lemma {:induction false} OverlaidFirst(peer: seq<byte>)
    requires peer != []
    ensures |Overlay(peer, [AppWrite(0, [1])])| == |peer| && Overlay(peer, [AppWrite(0, [1])])[..1] == [1]
  {
    assert [AppWrite(0, [1])] == [] + [AppWrite(0, [1])];
    OverlayAppend(peer, [], AppWrite(0, [1]));
  }
}
