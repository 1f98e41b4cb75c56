/** pkg/filesystem/probe_fetch.go and finishFetch of fuse_directory.go: the singleflight over fetch units. */
module FetchTables {
  import opened Bytes
  import opened Bitmaps

  /** The fetch unit: ProbeFetch (2 MiB) with read-ahead on, the whole block (16 MiB) with it off. */
  function Unit(wholeBlocks: bool): (u: nat) { if wholeBlocks then 0x100_0000 else 0x20_0000 }

  /** `x` is a multiple of the fetch unit. */
  predicate Aligned(x: int, wholeBlocks: bool) {
    if wholeBlocks then x % 0x100_0000 == 0 else x % 0x20_0000 == 0
  }

  lemma {:induction false} AlignedGap(a: int, b: int, wholeBlocks: bool)
    requires Aligned(a, wholeBlocks) && Aligned(b, wholeBlocks) && a < b
    ensures a + Unit(wholeBlocks) <= b
  {
  }

  lemma {:induction false} AlignedNext(a: int, wholeBlocks: bool)
    requires Aligned(a, wholeBlocks)
    ensures Aligned(a + Unit(wholeBlocks), wholeBlocks)
  {
  }

  lemma {:induction false} AlignedBlock(a: int, wholeBlocks: bool)
    requires Aligned(a, wholeBlocks)
    ensures Aligned(a + 0x100_0000, wholeBlocks)
  {
  }

  /** A unit begins on a chunk boundary. */
  lemma {:induction false} AlignedChunk(a: int, wholeBlocks: bool)
    requires Aligned(a, wholeBlocks)
    ensures a == ChunkStart(Chunk(a))
  {
    if wholeBlocks {
      var q := a / 0x100_0000;
      assert a == q * 0x100_0000;
      assert Chunk(a) == 32 * q;
    } else {
      var q := a / 0x20_0000;
      assert a == q * 0x20_0000;
      assert Chunk(a) == 4 * q;
    }
  }

  /** One on-demand fetch. The units it registered are those of [lo, hi); `settled` stands for its closed
      channel and `failed` for the error published with it. */
  datatype BlockFetch = BlockFetch(lo: nat, hi: nat, settled: bool, failed: bool) {
    predicate Covers(u: int, wholeBlocks: bool) { lo <= u < hi && Aligned(u, wholeBlocks) }
  }

  /** What beginFetchSpan tells its caller: lead over [from, owned), wait for a fetch, or read the cache. */
  datatype Turn = Lead(id: nat, from: nat, owned: nat) | Join(id: nat) | AllLanded

  /** The singleflight invariant. A registered unit belongs to an unfinished fetch that covers it, an
      unfinished fetch owns every unit it covers, and a fetch that finished well has landed all of them. */
  ghost predicate Singleflight(fetches: seq<BlockFetch>, inflight: map<nat, nat>, present: set<int>, size: nat,
                               wholeBlocks: bool)
  {
    && (forall i :: 0 <= i < |fetches| ==>
          fetches[i].lo < fetches[i].hi && Aligned(fetches[i].lo, wholeBlocks) && Aligned(fetches[i].hi, wholeBlocks))
    && (forall u :: u in inflight ==>
          inflight[u] < |fetches| && !fetches[inflight[u]].settled && fetches[inflight[u]].Covers(u, wholeBlocks))
    && (forall i, u: nat :: 0 <= i < |fetches| && !fetches[i].settled && fetches[i].Covers(u, wholeBlocks) ==>
          u in inflight && inflight[u] == i)
    && (forall i :: 0 <= i < |fetches| && fetches[i].settled && !fetches[i].failed ==>
          AllBelow(Min(fetches[i].hi, size), fetches[i].lo, present))
  }

  /** The unit that starts at `u` has landed. */
  ghost predicate Landed(u: nat, present: set<int>, size: nat, wholeBlocks: bool) {
    AllBelow(Min(u + Unit(wholeBlocks), size), u, present)
  }

  /** No unit that starts in [lo, hi) has landed. */
  ghost predicate NoneLanded(lo: nat, hi: int, present: set<int>, size: nat, wholeBlocks: bool) {
    forall u: nat :: lo <= u < hi && Aligned(u, wholeBlocks) ==> !Landed(u, present, size, wholeBlocks)
  }

  lemma {:induction false} NoneLandedYet(lo: nat, present: set<int>, size: nat, wholeBlocks: bool)
    ensures NoneLanded(lo, lo, present, size, wholeBlocks)
  {
  }

  /** One more unit is looked at. */
  lemma {:induction false} NoneLandedNext(lo: nat, u: nat, present: set<int>, size: nat, wholeBlocks: bool)
    requires NoneLanded(lo, u, present, size, wholeBlocks) && Aligned(u, wholeBlocks)
    requires !Landed(u, present, size, wholeBlocks)
    ensures NoneLanded(lo, u + Unit(wholeBlocks), present, size, wholeBlocks)
  {
    forall v: nat | u < v < u + Unit(wholeBlocks)
      ensures !Aligned(v, wholeBlocks)
    {
      if Aligned(v, wholeBlocks) { AlignedGap(u, v, wholeBlocks); }
    }
  }

  /** Two unfinished fetches share no byte. */
  lemma {:induction false} UnfinishedAreDisjoint(fetches: seq<BlockFetch>, inflight: map<nat, nat>, present: set<int>, size: nat,
                              wholeBlocks: bool, a: nat, b: nat)
    requires Singleflight(fetches, inflight, present, size, wholeBlocks)
    requires a < |fetches| && b < |fetches| && a != b && !fetches[a].settled && !fetches[b].settled
    ensures fetches[a].hi <= fetches[b].lo || fetches[b].hi <= fetches[a].lo
  {
    var u := Max(fetches[a].lo, fetches[b].lo);
    if fetches[a].Covers(u, wholeBlocks) { assert inflight[u] == a; }
    if fetches[b].Covers(u, wholeBlocks) { assert inflight[u] == b; }
  }

  /** Whether a fetch that finished well is led over again: a leader, whoever registered it, stays clear of the
      finished range exactly when it takes no unit of it that has landed. */
  lemma {:induction false} NeverLedAgain(fetches: seq<BlockFetch>, inflight: map<nat, nat>, present: set<int>, size: nat,
                      wholeBlocks: bool, done: nat, leader: BlockFetch)
    requires Singleflight(fetches, inflight, present, size, wholeBlocks)
    requires done < |fetches| && fetches[done].settled && !fetches[done].failed
    requires Aligned(leader.lo, wholeBlocks) && Aligned(leader.hi, wholeBlocks) && leader.lo < leader.hi
    ensures leader.hi <= fetches[done].lo || fetches[done].hi <= leader.lo <==>
            forall u: nat :: leader.Covers(u, wholeBlocks) && fetches[done].Covers(u, wholeBlocks) ==>
              !Landed(u, present, size, wholeBlocks)
  {
    var u := Max(leader.lo, fetches[done].lo);
    if leader.Covers(u, wholeBlocks) && fetches[done].Covers(u, wholeBlocks) {
      ReleasedFindsUnit(fetches, inflight, present, size, wholeBlocks, done, u);
    }
  }

  /** A waiter released without an error finds what it joined for: the unit it joined on has landed. */
  lemma {:induction false} ReleasedFindsUnit(fetches: seq<BlockFetch>, inflight: map<nat, nat>, present: set<int>, size: nat,
                          wholeBlocks: bool, joined: nat, u: nat)
    requires Singleflight(fetches, inflight, present, size, wholeBlocks)
    requires joined < |fetches| && fetches[joined].Covers(u, wholeBlocks)
    requires fetches[joined].settled && !fetches[joined].failed
    ensures Landed(u, present, size, wholeBlocks)
  {
    AlignedGap(u, fetches[joined].hi, wholeBlocks);
  }

  lemma {:induction false} AllSettled(fetches: seq<BlockFetch>, inflight: map<nat, nat>, present: set<int>, size: nat, wholeBlocks: bool)
    requires Singleflight(fetches, inflight, present, size, wholeBlocks)
    requires forall i :: 0 <= i < |fetches| ==> fetches[i].settled
    ensures forall u :: u !in inflight
  {
  }

  /** Landing more chunks breaks nothing the table knows. */
  lemma {:induction false} GrowKeepsSingleflight(fetches: seq<BlockFetch>, inflight: map<nat, nat>, present: set<int>, size: nat,
                              wholeBlocks: bool, present': set<int>)
    requires Singleflight(fetches, inflight, present, size, wholeBlocks) && present <= present'
    ensures Singleflight(fetches, inflight, present', size, wholeBlocks)
  {
  }

  /** `owners'` is `owners` with the units of `b`, all of them free before, given to fetch `id`. */
  ghost predicate Took(b: BlockFetch, id: nat, owners: map<nat, nat>, owners': map<nat, nat>, wholeBlocks: bool) {
    && (forall u: nat :: b.Covers(u, wholeBlocks) ==> u !in owners)
    && (forall u: nat :: u in owners' <==> u in owners || b.Covers(u, wholeBlocks))
    && (forall u: nat :: u in owners' ==> owners'[u] == if b.Covers(u, wholeBlocks) then id else owners[u])
  }

  /** Taking the next unit, when it is free, extends the run by that unit alone. */
  lemma {:induction false} TookNext(from: nat, hi: nat, id: nat, owners: map<nat, nat>, owners': map<nat, nat>, wholeBlocks: bool)
    requires Took(BlockFetch(from, hi, false, false), id, owners, owners', wholeBlocks)
    requires from <= hi && Aligned(hi, wholeBlocks) && hi !in owners'
    ensures Took(BlockFetch(from, hi + Unit(wholeBlocks), false, false), id, owners, owners'[hi := id], wholeBlocks)
  {
    forall u: nat | Aligned(u, wholeBlocks) && hi < u
      ensures hi + Unit(wholeBlocks) <= u
    {
      AlignedGap(hi, u, wholeBlocks);
    }
  }

  lemma {:induction false} TookNone(from: nat, id: nat, owners: map<nat, nat>, wholeBlocks: bool)
    ensures Took(BlockFetch(from, from, false, false), id, owners, owners, wholeBlocks)
  {
  }

  /** The unit after the run, when owned, was owned before. */
  lemma {:induction false} TookBefore(from: nat, hi: nat, id: nat, owners: map<nat, nat>, owners': map<nat, nat>, wholeBlocks: bool)
    requires Took(BlockFetch(from, hi, false, false), id, owners, owners', wholeBlocks) && hi in owners'
    ensures hi in owners
  {
  }

  lemma {:induction false} LeadKeepsSingleflight(fetches: seq<BlockFetch>, inflight: map<nat, nat>, present: set<int>, size: nat,
                              wholeBlocks: bool, b: BlockFetch, inflight': map<nat, nat>)
    requires Singleflight(fetches, inflight, present, size, wholeBlocks)
    requires !b.settled && b.lo < b.hi && Aligned(b.lo, wholeBlocks) && Aligned(b.hi, wholeBlocks)
    requires Took(b, |fetches|, inflight, inflight', wholeBlocks)
    ensures Singleflight(fetches + [b], inflight', present, size, wholeBlocks)
  {
  }

  lemma {:induction false} SettleKeepsSingleflight(fetches: seq<BlockFetch>, inflight: map<nat, nat>, present: set<int>, size: nat,
                                wholeBlocks: bool, id: nat, err: bool, inflight': map<nat, nat>)
    requires Singleflight(fetches, inflight, present, size, wholeBlocks)
    requires id < |fetches| && (!err ==> AllBelow(Min(fetches[id].hi, size), fetches[id].lo, present))
    requires forall u :: u in inflight' <==> u in inflight && inflight[u] != id
    requires forall u :: u in inflight' ==> inflight'[u] == inflight[u]
    ensures Singleflight(fetches[id := fetches[id].(settled := true, failed := err)], inflight', present, size,
                         wholeBlocks)
  {
  }

  class FetchTable {
    const bm: ChunkBitmap
    const wholeBlocks: bool  // read-ahead is off
    const unit: nat := Unit(wholeBlocks)
    var inflight: map<nat, nat>  // unit start to the fetch that owns it
    var fetches: seq<BlockFetch>  // every fetch that ever led, by its number
    var remote: int  // the watermark, RemoteMtimeNs, which announces raise
    var held: int  // HeldMtimeNs

    ghost predicate Valid()
      reads this, bm
    {
      && bm.Valid() && bm.chunkSize == CHUNK_SIZE && bm.fileSize > 0
      && Singleflight(fetches, inflight, bm.Present(), bm.fileSize, wholeBlocks)
    }

    constructor (bitmap: ChunkBitmap, whole: bool)
      requires bitmap.Valid() && bitmap.chunkSize == CHUNK_SIZE && bitmap.fileSize > 0
      ensures Valid() && bm == bitmap && wholeBlocks == whole && inflight == map[] && fetches == []
    {
      bm, wholeBlocks := bitmap, whole;
      inflight, fetches, remote, held := map[], [], 0, 0;
    }

    ghost predicate UnitLanded(u: nat)
      requires bm.Valid() && bm.fileSize > 0
      reads bm
    {
      Landed(u, bm.Present(), bm.fileSize, wholeBlocks)
    }

    /** HasRange over one unit, as both loops of beginFetchSpan ask it. */
    method UnitPresent(u: nat, end: nat) returns (v: bool)
      requires bm.Valid() && bm.chunkSize == CHUNK_SIZE && Aligned(u, wholeBlocks) && u < end <= bm.fileSize
      requires Aligned(end, wholeBlocks) || end == bm.fileSize
      ensures v <==> UnitLanded(u)
    {
      AlignedChunk(u, wholeBlocks);
      if Aligned(end, wholeBlocks) { AlignedGap(u, end, wholeBlocks); }
      v := bm.HasRange(u, Min(unit, end - u));
      forall c
        ensures c in Touched(u, Min(unit, end - u), CHUNK_SIZE) <==> u <= ChunkStart(c) < Min(u + unit, bm.fileSize)
      {
        TouchedChunks(u, Min(unit, end - u), c);
      }
    }

    /** beginFetchSpan's first loop: the first unit of [start, end) that has not landed, or the end. */
    method SkipLanded(start: nat, end: nat) returns (from: nat)
      requires bm.Valid() && bm.chunkSize == CHUNK_SIZE
      requires Aligned(start, wholeBlocks) && 0 < end <= bm.fileSize
      requires Aligned(end, wholeBlocks) || end == bm.fileSize
      ensures start <= from && Aligned(from, wholeBlocks)
      ensures AllBelow(Min(from, bm.fileSize), start, bm.Present())
      ensures from < end ==> !UnitLanded(from)
    {
      from := start;
      while from < end
        invariant start <= from && Aligned(from, wholeBlocks)
        invariant AllBelow(Min(from, bm.fileSize), start, bm.Present())
      {
        var present := UnitPresent(from, end);
        if !present {
          break;
        }
        AlignedNext(from, wholeBlocks);
        from := from + unit;
      }
    }

    /** beginFetchSpan's second loop: register the free, missing units from `from` on, and stop before the
        first unit that another fetch owns or that has landed. */
    method Register(id: nat, from: nat, end: nat) returns (hi: nat)
      requires bm.Valid() && bm.chunkSize == CHUNK_SIZE
      requires Aligned(from, wholeBlocks) && from < end <= bm.fileSize && from !in inflight && !UnitLanded(from)
      requires Aligned(end, wholeBlocks) || end == bm.fileSize
      modifies this`inflight
      ensures from < hi && Aligned(hi, wholeBlocks) && Min(hi, end) == Min(hi, bm.fileSize)
      ensures Took(BlockFetch(from, hi, false, false), id, old(inflight), inflight, wholeBlocks)
      ensures NoneLanded(from, hi, bm.Present(), bm.fileSize, wholeBlocks)
      ensures hi >= end || hi in old(inflight) || UnitLanded(hi)
    {
      hide Took, Landed, NoneLanded;
      hi := from;
      NoneLandedYet(from, bm.Present(), bm.fileSize, wholeBlocks);
      TookNone(from, id, inflight, wholeBlocks);
      while hi < end
        invariant from <= hi && Aligned(hi, wholeBlocks) && (Aligned(end, wholeBlocks) ==> hi <= end)
        invariant Took(BlockFetch(from, hi, false, false), id, old(inflight), inflight, wholeBlocks)
        invariant NoneLanded(from, hi, bm.Present(), bm.fileSize, wholeBlocks)
      {
        if hi in inflight {
          TookBefore(from, hi, id, old(inflight), inflight, wholeBlocks);
          break;
        }
        if hi > from {
          var present := UnitPresent(hi, end);
          if present {
            break;
          }
        }
        TookNext(from, hi, id, old(inflight), inflight, wholeBlocks);
        inflight := inflight[hi := id];
        NoneLandedNext(from, hi, bm.Present(), bm.fileSize, wholeBlocks);
        AlignedNext(hi, wholeBlocks);
        if Aligned(end, wholeBlocks) { AlignedGap(hi, end, wholeBlocks); }
        hi := hi + unit;
      }
    }

    lemma {:induction false} NextUnit(a: nat)
      requires Aligned(a, wholeBlocks)
      ensures Aligned(a + unit, wholeBlocks)
      ensures forall u: nat :: Aligned(u, wholeBlocks) && u < a + unit ==> u <= a
    {
      AlignedNext(a, wholeBlocks);
      forall u: nat | Aligned(u, wholeBlocks) && a < u
        ensures a + unit <= u
      {
        AlignedGap(a, u, wholeBlocks);
      }
    }

    /** beginFetchSpan: lead a fetch over the free, missing units of [start, end), join the fetch that owns the
        first missing one, or find that every unit landed. */
    method BeginFetchSpan(start: nat, end: nat) returns (turn: Turn)
      requires Valid() && Aligned(start, wholeBlocks) && 0 < end <= bm.fileSize
      requires Aligned(end, wholeBlocks) || end == bm.fileSize
      modifies this`inflight, this`fetches
      ensures Valid()
      // A leader owns exactly the run of units from `from`: none had landed, none was owned, everything before
      // them has landed, and it stops only at the end or before a unit that is landed or owned.
      ensures turn.Lead? ==>
                && turn.id == |old(fetches)| && |fetches| == turn.id + 1 && fetches[..turn.id] == old(fetches)
                && !fetches[turn.id].settled && fetches[turn.id].lo == turn.from
                && Aligned(turn.from, wholeBlocks) && start <= turn.from < turn.owned <= end
                && turn.owned == Min(fetches[turn.id].hi, bm.fileSize)
                && Took(fetches[turn.id], turn.id, old(inflight), inflight, wholeBlocks)
                && NoneLanded(turn.from, fetches[turn.id].hi, bm.Present(), bm.fileSize, wholeBlocks)
                && (turn.owned == end || turn.owned in old(inflight) || UnitLanded(turn.owned))
                && (Aligned(turn.owned, wholeBlocks) || turn.owned == bm.fileSize)
                && AllBelow(turn.from, start, bm.Present())
      ensures !turn.Lead? ==> inflight == old(inflight) && fetches == old(fetches)
      ensures turn.Join? ==>
                && turn.id < |fetches|
                && (exists u: nat :: start <= u < end && u in inflight && inflight[u] == turn.id
                                     && !UnitLanded(u) && AllBelow(u, start, bm.Present()))
      ensures turn.AllLanded? ==> AllBelow(end, start, bm.Present())
    {
      var from := SkipLanded(start, end);
      if from >= end {
        return AllLanded;
      }
      if from in inflight {
        return Join(inflight[from]);
      }
      var id := |fetches|;
      ghost var owners := inflight;
      var hi := Register(id, from, end);
      LeadKeepsSingleflight(fetches, owners, bm.Present(), bm.fileSize, wholeBlocks,
                            BlockFetch(from, hi, false, false), inflight);
      fetches := fetches + [BlockFetch(from, hi, false, false)];
      turn := Lead(id, from, Min(hi, end));
    }

    /** beginBlockFetch: register one unit, or join its owner. It never looks at the bitmap. */
    method BeginBlockFetch(start: nat) returns (id: nat, leader: bool)
      requires Valid() && Aligned(start, wholeBlocks)
      modifies this`inflight, this`fetches
      ensures Valid()
      ensures leader <==> start !in old(inflight)
      ensures !leader ==> id == old(inflight)[start] && inflight == old(inflight) && fetches == old(fetches)
      ensures leader ==>
                && id == |old(fetches)| && fetches == old(fetches) + [BlockFetch(start, start + unit, false, false)]
                && inflight == old(inflight)[start := id]
    {
      if start in inflight {
        return inflight[start], false;
      }
      id, leader := |fetches|, true;
      AlignedNext(start, wholeBlocks);
      TookNone(start, id, inflight, wholeBlocks);
      TookNext(start, start, id, inflight, inflight, wholeBlocks);
      LeadKeepsSingleflight(fetches, inflight, bm.Present(), bm.fileSize, wholeBlocks,
                            BlockFetch(start, start + unit, false, false), inflight[start := id]);
      inflight := inflight[start := id];
      fetches := fetches + [BlockFetch(start, start + unit, false, false)];
    }

    /** finishFetch: note the announced version as held when bytes of it landed, drop exactly the units this fetch still
        owns, then wake its waiters; a second call drops and wakes nothing. A fetch may only finish without an error
        once its units landed. */
    method FinishFetch(id: nat, err: bool)
      requires Valid() && id < |fetches|
      requires !err && !fetches[id].settled ==> AllBelow(Min(fetches[id].hi, bm.fileSize), fetches[id].lo, bm.Present())
      modifies this`inflight, this`fetches, this`held
      ensures Valid()
      ensures held == if err then old(held) else Max(old(held), remote)
      ensures fetches == old(fetches)[id := if old(fetches[id]).settled then old(fetches[id])
                                            else old(fetches[id]).(settled := true, failed := err)]
      ensures forall u :: u in inflight <==> u in old(inflight) && old(inflight)[u] != id
      ensures forall u :: u in inflight ==> inflight[u] == old(inflight)[u]
    {
      if !err && remote > held {
        held := remote;
      }
      DropUnits(id);
      if !fetches[id].settled {
        SettleKeepsSingleflight(fetches, old(inflight), bm.Present(), bm.fileSize, wholeBlocks, id, err, inflight);
        fetches := fetches[id := fetches[id].(settled := true, failed := err)];
      } else {
        assert inflight == old(inflight);
      }
    }

    method DropUnits(id: nat)
      requires id < |fetches| && Aligned(fetches[id].lo, wholeBlocks)
      requires forall u :: u in inflight && inflight[u] == id ==> fetches[id].Covers(u, wholeBlocks)
      modifies this`inflight
      ensures forall u :: u in inflight <==> u in old(inflight) && old(inflight)[u] != id
      ensures forall u :: u in inflight ==> inflight[u] == old(inflight)[u]
    {
      var k := fetches[id].lo;
      while k < fetches[id].hi
        invariant Aligned(k, wholeBlocks)
        invariant forall u :: u in inflight <==> u in old(inflight) && !(old(inflight)[u] == id && u < k)
        invariant forall u :: u in inflight ==> inflight[u] == old(inflight)[u]
      {
        if k in inflight && inflight[k] == id {
          inflight := inflight - {k};
        }
        NextUnit(k);
        k := k + unit;
      }
    }
  }
}
