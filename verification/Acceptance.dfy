/** The content side of AddRemoteFileWithBase and EditRemoteFileWithBase (pkg/filesystem/fuse_directory.go): what an
    accepted announce makes of the local copy, and when reads then show the announced version. */
module Acceptances {
  import opened Bytes
  import opened Bitmaps
  import opened VersionProtocols

  /** The local copy as reads see it: the file on disk, its size in the tree, the chunks of its bitmap (None: it has no
      bitmap), and NotLocalSynced. */
  datatype Content = Content(disk: seq<byte>, size: nat, present: Option<set<int>>, notSynced: bool)

  /** os.Truncate: cut, or extended with zeros. */
  function Cut(file: seq<byte>, n: nat): (r: seq<byte>)
    ensures |r| == n
  {
    if n <= |file| then file[..n] else file + seq(n - |file|, _ => 0)
  }

  predicate Complete(present: set<int>, size: nat) { forall c :: 0 <= c < ChunkCount(size) ==> c in present }

  /** NewChunkBitmap: none for an empty file. */
  function NewBitmap(size: nat): (present: Option<set<int>>) { if size == 0 then None else Some({}) }

  /** How the loser of a conflict was set aside: moved away, so that its path starts over, or copied. */
  datatype Sibling = NoConflict | Moved | Copied

  function SetAside(disk: seq<byte>, sibling: Sibling, newSize: nat): (r: seq<byte>) {
    match sibling
    case NoConflict => disk
    case Moved => Cut([], newSize)
    case Copied => Cut(disk, newSize)
  }

  /** The copy after an accepted ADD. `newer` tells an announce above the identity from a tie our rank gave away;
      `sidecar` is what a sidecar on disk says is present, which a conflict removes. */
  function Added(c: Content, newSize: nat, newer: bool, sibling: Sibling, sidecar: Option<set<int>>): (r: Content) {
    var disk := SetAside(c.disk, sibling, newSize);
    if newSize != c.size then Content(Cut(disk, newSize), newSize, NewBitmap(newSize), true)
    else if newer then Content(disk, newSize, NewBitmap(newSize), true)
    else match c.present
      case Some(present) => c.(disk := disk, notSynced := c.notSynced || !Complete(present, newSize))
      case None =>
        var loaded := if sibling.NoConflict? then sidecar.UnwrapOr({}) else {};
        Content(disk, newSize, Some(loaded), !Complete(loaded, newSize))
  }

  /** The copy after an accepted EDIT. */
  function Edited(c: Content, newSize: nat, sibling: Sibling): (r: Content) {
    Content(Cut(SetAside(c.disk, sibling, newSize), newSize), newSize, NewBitmap(newSize), true)
  }

  /** The byte a read shows at `p` once the peer holds `peer`: a missing chunk of a copy that is not synced is fetched. */
  function Shown(c: Content, peer: seq<byte>, p: nat): (b: Option<byte>)
    requires p < |peer|
  {
    if c.notSynced && (c.present.None? || Chunk(p) !in c.present.value) then Some(peer[p])
    else if p < |c.disk| then Some(c.disk[p]) else None
  }

  /** Whatever the announced version holds, reads show it. */
  ghost predicate ShowsAny(c: Content, size: nat) {
    forall peer: seq<byte>, p: nat :: |peer| == size && p < size ==> Shown(c, peer, p) == Some(peer[p])
  }

  /** The bitmap starts over, or has no chunk. */
  predicate StartsOver(c: Content, newSize: nat, newer: bool, sibling: Sibling, sidecar: Option<set<int>>) {
    || newSize != c.size || newer
    || (if c.present.Some? then c.present.value == {} else !sibling.NoConflict? || sidecar.UnwrapOr({}) == {})
  }

  predicate OfFile(present: set<int>, size: nat) { forall c :: c in present ==> 0 <= c < ChunkCount(size) }

  lemma {:induction false} ByteOfChunk(c: int, size: nat)
    requires 0 <= c < ChunkCount(size)
    ensures 0 <= ChunkStart(c) < size && Chunk(ChunkStart(c)) == c
  {
  }

  lemma {:induction false} SomeMember(s: set<int>) returns (i: int)
    requires s != {}
    ensures i in s
  {
    assert (forall x :: x !in s) ==> s == {};
    i :| i in s;
  }

  /** Two versions that differ everywhere cannot both be shown from one disk. */
  lemma {:induction false} ServedFromDisk(c: Content, size: nat, p: nat)
    requires p < size && !(c.notSynced && (c.present.None? || Chunk(p) !in c.present.value))
    ensures !ShowsAny(c, size)
  {
    var zeros: seq<byte> := seq(size, _ => 0);
    var ones: seq<byte> := seq(size, _ => 1);
    assert Shown(c, zeros, p) == Shown(c, ones, p);
    assert zeros[p] != ones[p];
  }

  /** Content convergence: an accepted ADD leaves reads with the announced version, whatever it holds, exactly when the
      bitmap starts over or has no chunk; otherwise some byte is served from the replaced copy's disk. */
  lemma {:induction false} AddShowsExactly(c: Content, newSize: nat, newer: bool, sibling: Sibling, sidecar: Option<set<int>>)
    requires newSize > 0 && (c.present.Some? ==> OfFile(c.present.value, c.size))
    requires sidecar.Some? ==> OfFile(sidecar.value, newSize)
    ensures ShowsAny(Added(c, newSize, newer, sibling, sidecar), newSize) <==> StartsOver(c, newSize, newer, sibling, sidecar)
  {
    var after := Added(c, newSize, newer, sibling, sidecar);
    assert ChunkCount(newSize) > 0;
    if StartsOver(c, newSize, newer, sibling, sidecar) {
      assert after.present == Some({}) && (after.notSynced <== 0 !in after.present.value);
    } else {
      var i := SomeMember(after.present.value);
      ByteOfChunk(i, newSize);
      ServedFromDisk(after, newSize, ChunkStart(i));
    }
  }

  /** An accepted EDIT always does. */
  lemma {:induction false} EditShowsAny(c: Content, newSize: nat, sibling: Sibling)
    ensures ShowsAny(Edited(c, newSize, sibling), newSize)
  {
  }

  /** The bytes both sizes share stay on disk for the reconcile, unless the loser was moved away: then they are zeros. */
  ghost predicate KeepsPrefix(before: seq<byte>, after: seq<byte>, newSize: nat, sibling: Sibling) {
    forall p :: 0 <= p < |before| && p < newSize ==> p < |after| && after[p] == if sibling.Moved? then 0 else before[p]
  }

  /** What an accepted announce keeps: the common prefix on disk; and on an ADD that ties at the same size the bitmap,
      whose missing chunks are then fetched, or without one the sidecar's, unless there was a conflict. */
  lemma {:induction false} AcceptKeeps(c: Content, newSize: nat, newer: bool, sibling: Sibling, sidecar: Option<set<int>>)
    ensures KeepsPrefix(c.disk, Added(c, newSize, newer, sibling, sidecar).disk, newSize, sibling)
    ensures KeepsPrefix(c.disk, Edited(c, newSize, sibling).disk, newSize, sibling) && |Edited(c, newSize, sibling).disk| == newSize
    ensures var after := Added(c, newSize, newer, sibling, sidecar);
            && after.size == Edited(c, newSize, sibling).size == newSize
            && (newSize != c.size || !sibling.NoConflict? ==> |after.disk| == newSize)
            && (newSize == c.size && sibling.NoConflict? ==> after.disk == c.disk)
            && (newSize == c.size && !newer ==>
                  && after.present == Some(if c.present.Some? then c.present.value
                                           else if sibling.NoConflict? && sidecar.Some? then sidecar.value else {})
                  && (after.notSynced <==> (c.present.Some? && c.notSynced) ||
                                           exists k :: 0 <= k < ChunkCount(newSize) && k !in after.present.value))
  {
    SetAsideKeeps(c.disk, sibling, newSize);
  }

  lemma {:induction false} SetAsideKeeps(disk: seq<byte>, sibling: Sibling, newSize: nat)
    ensures KeepsPrefix(disk, SetAside(disk, sibling, newSize), newSize, sibling)
    ensures KeepsPrefix(disk, Cut(SetAside(disk, sibling, newSize), newSize), newSize, sibling)
  {
  }

  /** So an accepted announce leaves stale bytes only as a tie with our own write, of the same size, over a copy with
      a bitmap on it or beside it. */
  lemma {:induction false} StaleOnlyOnTie(f: FileState, m: Message, peerWinsTie: bool, c: Content, newSize: nat, sibling: Sibling,
                                          sidecar: Option<set<int>>)
    requires VersionProtocols.Accepts(f, m, peerWinsTie) && m.kind.Add? && newSize > 0
    requires c.present.Some? ==> OfFile(c.present.value, c.size)
    requires sidecar.Some? ==> OfFile(sidecar.value, newSize)
    requires !ShowsAny(Added(c, newSize, m.stamp > Identity(f), sibling, sidecar), newSize)
    ensures f.localNewer && peerWinsTie && m.stamp == Identity(f) && newSize == c.size
    ensures c.present.Some? || (sidecar.Some? && sibling.NoConflict?)
  {
    AddShowsExactly(c, newSize, m.stamp > Identity(f), sibling, sidecar);
  }

  /** A tie with our own write, lost by rank and concurrent by its base, over a complete copy of the same size: ours is
      moved to the sibling, the file is created anew, no bitmap is reset, and reads show zeros that neither wrote. */
  lemma {:induction false} TieShowsZeros(f: FileState, m: Message, ours: seq<byte>, theirs: seq<byte>, present: set<int>, p: nat)
    requires m.kind.Add? && m.stamp == Identity(f) && VersionProtocols.Accepts(f, m, true) && Conflicts(f, m, true)
    requires |ours| == |theirs| && p < |ours| && Complete(present, |ours|)
    ensures var after := Added(Content(ours, |ours|, Some(present), false), |ours|, m.stamp > Identity(f), Moved, None);
            Shown(after, theirs, p) == Some(0)
  {
  }

  /** Such a tie exists: both peers held 5, and both stamped their next edit 10. */
  lemma {:induction false} TieExists() returns (f: FileState, m: Message)
    ensures m.kind.Add? && m.stamp == Identity(f) && VersionProtocols.Accepts(f, m, true) && Conflicts(f, m, true)
  {
    f, m := FileState(10, true, 5, 10, 10, 5, false), Message(Add, 10, 5);
  }

  // ---------- the copy, updated in place ----------

  class LocalCopy {
    var disk: seq<byte>
    var size: nat
    var bitmap: ChunkBitmap?
    var notSynced: bool

    ghost predicate Valid()
      reads this, bitmap
    {
      bitmap != null ==> bitmap.Valid() && bitmap.total == ChunkCount(size)
    }

    ghost function Value(): (c: Content)
      requires Valid()
      reads this, bitmap
    {
      Content(disk, size, if bitmap == null then None else Some(bitmap.Present()), notSynced)
    }

    /** The file kept apart before the winner lands on its path. */
    method PreserveLoser(sibling: Sibling, newSize: nat)
      requires Valid()
      modifies this`disk
      ensures Valid() && disk == SetAside(old(disk), sibling, newSize)
    {
      if sibling.Moved? {
        disk := [];
      }
      if !sibling.NoConflict? {
        disk := Cut(disk, newSize);
      }
    }

    /** A fresh bitmap for the announced size. */
    method Reset(newSize: nat)
      requires Valid()
      modifies this
      ensures Valid() && Value() == Content(old(disk), newSize, NewBitmap(newSize), true)
    {
      size, notSynced, bitmap := newSize, true, null;
      if newSize > 0 {
        bitmap := new ChunkBitmap(newSize, CHUNK_SIZE);
      }
    }

    /** A copy without a bitmap takes the one of its sidecar, or an empty one. */
    method AttachBitmap(sidecar: ChunkBitmap?)
      requires Valid() && bitmap == null && size > 0
      requires sidecar != null ==> sidecar.Valid() && sidecar.total == ChunkCount(size)
      modifies this
      ensures Valid() && disk == old(disk) && size == old(size) && bitmap != null
      ensures bitmap.Present() == if sidecar == null then {} else sidecar.Present()
      ensures notSynced <==> !Complete(bitmap.Present(), size)
    {
      if sidecar != null {
        bitmap := sidecar;
      } else {
        bitmap := new ChunkBitmap(size, CHUNK_SIZE);
      }
      var complete := bitmap.IsComplete();
      notSynced := !complete;
    }

    /** The switch of an accepted ADD. `sidecar` is the bitmap a sidecar on disk loads to, or null. */
    method AcceptAdd(newSize: nat, newer: bool, sibling: Sibling, sidecar: ChunkBitmap?)
      requires Valid() && newSize > 0
      requires sidecar != null ==> sidecar.Valid() && sidecar.total == ChunkCount(newSize)
      modifies this
      ensures Valid()
      ensures Value() == Added(old(Value()), newSize, newer, sibling,
                               if sidecar == null then None else Some(sidecar.Present()))
    {
      hide Indices;
      PreserveLoser(sibling, newSize);
      if newSize != size {
        Reset(newSize);
        disk := Cut(disk, newSize);
      } else if newer {
        Reset(newSize);
      } else if bitmap != null {
        var complete := bitmap.IsComplete();
        if !complete {
          notSynced := true;
        }
      } else {
        AttachBitmap(if sibling.NoConflict? then sidecar else null);
      }
    }

    /** The same for an accepted EDIT, which always starts over. */
    method AcceptEdit(newSize: nat, sibling: Sibling)
      requires Valid()
      modifies this
      ensures Valid() && Value() == Edited(old(Value()), newSize, sibling)
    {
      PreserveLoser(sibling, newSize);
      Reset(newSize);
      disk := Cut(disk, newSize);
    }
  }
}
