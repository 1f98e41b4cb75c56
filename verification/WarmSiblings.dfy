/** pkg/filesystem/warm_siblings.go: one warm batch, from the candidates of a directory to the settling of every
    claim. What a landing does to its file is CacheFile.LandWarmFile. */
module WarmBatches {
  import opened Bytes

  const MAX_FILES: nat := 512  // WarmBatchMaxFiles
  const BUDGET: nat := 0x40_0000  // WarmBatchBudget, 4 MiB
  const SMALL: nat := 0x4_0000  // SmallFileWarmThreshold, 256 KiB

  /** A small-file candidate as the scan sees it: `owned` when a reader or another batch fetches its unit 0. */
  datatype Candidate = Candidate(hasBitmap: bool, notSynced: bool, edited: bool, gone: bool, size: nat, complete: bool,
                                 owned: bool)

  /** Worth claiming: announced, uncached, unedited, small and free. */
  predicate Claimable(c: Candidate) {
    c.hasBitmap && c.notSynced && !c.edited && !c.gone && 0 < c.size <= SMALL && !c.complete && !c.owned
  }

  /** The bytes claimed. */
  function Total(cands: seq<Candidate>, claims: seq<nat>): (n: nat) {
    if claims == [] then 0
    else
      var k := claims[|claims| - 1];
      Total(cands, claims[..|claims| - 1]) + if k < |cands| then cands[k].size else 0
  }

  lemma {:induction false} TotalNone(cands: seq<Candidate>)
    ensures Total(cands, []) == 0
  {
  }

  lemma {:induction false} TotalAdds(cands: seq<Candidate>, claims: seq<nat>, i: nat)
    requires i < |cands|
    ensures Total(cands, claims + [i]) == Total(cands, claims) + cands[i].size
  {
    assert (claims + [i])[..|claims|] == claims;
  }

  /** The scan is full: nothing more is claimed. */
  predicate Full(cands: seq<Candidate>, claims: seq<nat>) {
    |claims| >= MAX_FILES || Total(cands, claims) >= BUDGET
  }

  /** collectWarmCandidates, on the candidates in their rotated order: the claimable ones, from the first on, until
      the batch is full; the bytes claimed pass the budget by less than one small file. */
  method CollectWarmCandidates(cands: seq<Candidate>) returns (claims: seq<nat>)
    ensures forall k :: k in claims ==> k < |cands| && Claimable(cands[k])
    ensures forall i, j :: 0 <= i < j < |claims| ==> claims[i] < claims[j]
    ensures |claims| <= MAX_FILES && Total(cands, claims) < BUDGET + SMALL
    ensures forall k :: 0 <= k < |cands| && Claimable(cands[k]) && k !in claims ==>
              Full(cands, claims) && forall j :: j in claims ==> j < k
  {
    hide Total;
    TotalNone(cands);
    claims := [];
    var budget := 0;
    var i: nat := 0;
    while i < |cands|
      invariant 0 <= i <= |cands|
      invariant forall k :: k in claims ==> k < i && Claimable(cands[k])
      invariant forall a, b :: 0 <= a < b < |claims| ==> claims[a] < claims[b]
      invariant |claims| <= MAX_FILES && budget == Total(cands, claims) < BUDGET + SMALL
      invariant forall k :: 0 <= k < i && Claimable(cands[k]) ==> k in claims
    {
      if |claims| >= MAX_FILES || budget >= BUDGET {
        break;
      }
      var c := cands[i];
      if c.hasBitmap && c.notSynced && !c.edited && !c.gone && c.size > 0 && c.size <= SMALL && !c.complete && !c.owned {
        TotalAdds(cands, claims, i);
        assert forall a :: 0 <= a < |claims| ==> claims[a] in claims;
        claims := claims + [i];
        budget := budget + c.size;
      }
      i := i + 1;
    }
  }

  // ---------- one batch ----------

  /** A frame of the reply: which claim its path names (None: none), its fields, and whether its bytes, once taken for
      the whole file, land (LandWarmFile). */
  datatype Frame = Frame(claim: Option<nat>, errCode: int, offset: int, fileDone: bool, totalSize: int, dataLen: int,
                         lands: bool) {
    /** It carries the whole of a file of `size` bytes, without an error. */
    predicate Whole(size: int) { errCode == 0 && offset == 0 && fileDone && totalSize == dataLen == size }
  }

  /** A frame's bytes are the file's from its offset on, as far as the file goes; nothing is known of others. */
  ghost predicate Carries(f: Frame, file: seq<byte>, data: seq<byte>) {
    && f.dataLen == |data| && f.totalSize == |file|
    && forall k :: 0 <= k < |data| && 0 <= f.offset + k < |file| ==> data[k] == file[f.offset + k]
  }

  /** What lands is the whole file: without an error a frame is taken only when its bytes are all of a file of the size
      claimed, and any frame that ends such a file and carries it from the start is. */
  lemma {:induction false} WholeIsFile(f: Frame, file: seq<byte>, data: seq<byte>, size: int)
    requires Carries(f, file, data)
    ensures f.Whole(size) ==> f.errCode == 0 && f.fileDone && size == |file| && data == file
    ensures f.errCode == 0 && f.fileDone && f.offset == 0 && |data| == size == |file| ==> f.Whole(size)
  {
  }

  /** The size claimed, how often the claim was settled, and whether it was settled without an error. */
  datatype Claim = Claim(size: int, done: bool, settled: nat, landed: bool)

  function Open(size: int): (c: Claim) { Claim(size, false, 0, false) }

  /** The first frame that names claim `i`. */
  function FirstFrame(frames: seq<Frame>, i: nat): (f: Option<Frame>) {
    if frames == [] then None
    else if frames[0].claim == Some(i) then Some(frames[0]) else FirstFrame(frames[1..], i)
  }

  lemma {:induction false} FirstFrameAppend(frames: seq<Frame>, f: Frame, i: nat)
    ensures FirstFrame(frames + [f], i) ==
            if FirstFrame(frames, i).Some? then FirstFrame(frames, i) else if f.claim == Some(i) then Some(f) else None
    decreases |frames|
  {
    if frames == [] {
      assert [f][1..] == [];
    } else {
      assert (frames + [f])[1..] == frames[1..] + [f];
      FirstFrameAppend(frames[1..], f, i);
    }
  }

  /** A claim after some frames: its first frame alone decides. */
  predicate Decided(c: Claim, first: Option<Frame>) {
    if first.None? then c == Open(c.size)
    else c == Claim(c.size, true, 1, first.value.Whole(c.size) && first.value.lands)
  }

  class WarmBatch {
    var claims: seq<Claim>

    constructor (sizes: seq<int>)
      ensures |claims| == |sizes| && forall i :: 0 <= i < |sizes| ==> claims[i] == Open(sizes[i])
    {
      claims := seq(|sizes|, i requires 0 <= i < |sizes| => Open(sizes[i]));
    }

    /** warmClaim.finish: settles a claim once; a second call changes nothing. */
    method Finish(i: nat, ok: bool)
      requires i < |claims|
      modifies this
      ensures claims == if old(claims[i].done) then old(claims)
                        else old(claims)[i := old(claims[i]).(done := true, settled := old(claims[i].settled) + 1, landed := ok)]
    {
      if claims[i].done {
        return;
      }
      claims := claims[i := claims[i].(done := true, settled := claims[i].settled + 1, landed := ok)];
    }

    /** warmSiblings on a reply that ends anywhere, well or badly: on every exit every claim is settled, exactly
        once, and without an error exactly when the first frame that names it carried the whole file and landed. */
    method WarmSiblings(frames: seq<Frame>)
      requires forall i :: 0 <= i < |claims| ==> claims[i] == Open(claims[i].size)
      modifies this
      ensures |claims| == |old(claims)|
      ensures forall i :: 0 <= i < |claims| ==>
                var first, size := FirstFrame(frames, i), old(claims)[i].size;
                claims[i] == Claim(size, true, 1, first.Some? && first.value.Whole(size) && first.value.lands)
    {
      var n := 0;
      while n < |frames|
        invariant 0 <= n <= |frames| && |claims| == |old(claims)|
        invariant forall i :: 0 <= i < |claims| ==>
                    Decided(claims[i], FirstFrame(frames[..n], i)) && claims[i].size == old(claims)[i].size
      {
        var f := frames[n];
        assert frames[..n + 1] == frames[..n] + [f];
        forall i: nat
          ensures FirstFrame(frames[..n + 1], i) ==
                  if FirstFrame(frames[..n], i).Some? then FirstFrame(frames[..n], i)
                  else if f.claim == Some(i) then Some(f) else None
        {
          FirstFrameAppend(frames[..n], f, i);
        }
        if f.claim.Some? && f.claim.value < |claims| && !claims[f.claim.value].done {
          var c := f.claim.value;
          if f.errCode != 0 {
            Finish(c, false);
          } else if f.offset != 0 || !f.fileDone || f.totalSize != claims[c].size || f.dataLen != claims[c].size {
            Finish(c, false);
          } else {
            Finish(c, f.lands);
          }
        }
        n := n + 1;
      }
      assert frames[..n] == frames;
      Backstop();
    }

    /** The deferred backstop. */
    method Backstop()
      modifies this
      ensures |claims| == |old(claims)|
      ensures forall i :: 0 <= i < |claims| ==>
                claims[i] == if old(claims)[i].done then old(claims)[i]
                             else old(claims)[i].(done := true, settled := old(claims)[i].settled + 1, landed := false)
    {
      var i := 0;
      while i < |claims|
        invariant 0 <= i <= |claims| == |old(claims)|
        invariant forall j :: 0 <= j < |claims| ==>
                    claims[j] == if j >= i || old(claims)[j].done then old(claims)[j]
                                 else old(claims)[j].(done := true, settled := old(claims)[j].settled + 1, landed := false)
      {
        Finish(i, false);
        i := i + 1;
      }
    }
  }
}
