/** pkg/filesystem/sidecar.go: what survives a restart of the daemon. An unannounced edit of a cache copy is saved in
    the sidecar, adopted at the next session, and judged against the peer's announce of the version it held. */
module Restarts {
  import opened Bytes
  import opened Bitmaps
  import opened ChunkLedgers
  import opened Sidecars
  import opened VersionProtocols

  /** What the flush stores: the edit base is zero unless some record is dirty. */
  function MetaOf(held: int64, editBase: int64, recs: Option<seq<ChunkRecord>>): (m: SidecarMeta) {
    SidecarMeta(held, if recs.Some? && HasDirty(recs.value) then editBase else 0, recs)
  }

  predicate HasDirty(recs: seq<ChunkRecord>) { exists c :: 0 <= c < |recs| && recs[c].dirty }

  /** A file registered from its copy on disk, before its sidecar's metadata. */
  function FromDisk(f: FileState, mtime: int): (r: FileState) { f.(localNewer := false, stat := mtime) }

  /** restoreSidecarMetaLocked. */
  function Restored(f: FileState, meta: Option<SidecarMeta>): (r: FileState) {
    if meta.None? then f
    else
      var m := meta.value;
      var g := f.(held := Max(f.held, m.held), remote := Max(f.remote, m.held));
      if m.recs.None? || !HasDirty(m.recs.value) then g
      else g.(localNewer := true, dirty := true,
              editBase := if m.editBase == 0 && g.remote > 0 then -1 else m.editBase,
              stat := Max(g.stat, MaxDirty(m.recs.value, |m.recs.value|)))
  }

  /** The records as the flush saves them: synced with the bitmap first. */
  function SyncedAll(recs: seq<ChunkRecord>, ids: seq<Option<uint64>>, held: int64): (r: seq<ChunkRecord>)
    requires |ids| == |recs|
    ensures |r| == |recs|
  {
    seq(|recs|, c requires 0 <= c < |recs| => Synced(recs[c], ids[c], held))
  }

  /** A sync keeps the pending edit: which records are dirty, and each one's stamp and base. */
  lemma {:induction false} SyncKeepsEdit(recs: seq<ChunkRecord>, ids: seq<Option<uint64>>, held: int64, n: nat)
    requires |ids| == |recs| && n <= |recs|
    ensures forall c :: 0 <= c < n && recs[c].dirty ==>
              var r := SyncedAll(recs, ids, held)[c];
              r.dirty && r.stamp == recs[c].stamp && r.baseHash == recs[c].baseHash && r.baseStamp == recs[c].baseStamp
    ensures MaxDirty(SyncedAll(recs, ids, held), n) == MaxDirty(recs, n)
  {
    if n > 0 { SyncKeepsEdit(recs, ids, held, n - 1); }
  }

  lemma {:induction false} SyncKeepsDirtySet(recs: seq<ChunkRecord>, ids: seq<Option<uint64>>, held: int64)
    requires |ids| == |recs|
    ensures HasDirty(SyncedAll(recs, ids, held)) <==> HasDirty(recs)
  {
    forall c | 0 <= c < |recs|
      ensures SyncedAll(recs, ids, held)[c].dirty == recs[c].dirty
    {
    }
  }

  /** Every saved sidecar, with a ledger or without one and with a pending edit or without, restores the held stamp: it
      raises what the file knew of held versions and its watermark. Without a pending edit nothing else changes; with one
      the file is local-newer with the saved base, -1 for none over a known version, at the newest stamp of its records. */
  lemma {:induction false} RestartRestores(f: FileState, held: int64, editBase: int64, s: BitmapState,
                                           recs: Option<seq<ChunkRecord>>)
    requires WellFormed(s) && s.total < TWO_32 && (recs.Some? ==> |recs.value| == LedgerRecords(s.fileSize))
    ensures var loaded := Decode(EncodeV2(s, MetaOf(held, editBase, recs)), s.fileSize);
            && loaded.Ok? && loaded.value.bitmap == s && loaded.value.meta.Some? && loaded.value.meta.value.recs == recs
            && loaded.value.meta.value.held == held
            && loaded.value.meta.value.editBase ==
               (if recs.Some? && exists c :: 0 <= c < |recs.value| && recs.value[c].dirty then editBase else 0)
            && var g := Restored(f, loaded.value.meta);
               && g.held == Max(f.held, held) && g.remote == Max(f.remote, held) && g.announced == f.announced
               && (if recs.Some? && exists c :: 0 <= c < |recs.value| && recs.value[c].dirty then
                     && g.localNewer && g.dirty && g.stat == Max(f.stat, MaxDirty(recs.value, |recs.value|))
                     && g.editBase == if editBase == 0 && (f.remote > 0 || held > 0) then -1 else editBase
                   else
                     g.localNewer == f.localNewer && g.dirty == f.dirty && g.stat == f.stat && g.editBase == f.editBase)
  {
    hide Decode, EncodeV2;
    RoundTrip(s, MetaOf(held, editBase, recs));
  }

  /** After the restart of a clean copy of version `held`, the peer's announce of that version is a redelivery, whatever
      base it declares and whoever wins ties; and the next session declares that version as its base, unless the file
      knew of a newer one. */
  lemma {:induction false} CleanRestartKeepsVersion(f: FileState, held: int64, editBase: int64, s: BitmapState,
                                                    recs: Option<seq<ChunkRecord>>, mtime: int, t: int, base: int, tie: bool)
    requires WellFormed(s) && s.total < TWO_32 && (recs.Some? ==> |recs.value| == LedgerRecords(s.fileSize))
    requires held > 0 && !f.dirty && (recs.None? || forall c :: 0 <= c < |recs.value| ==> !recs.value[c].dirty)
    ensures var loaded := Decode(EncodeV2(s, MetaOf(held, editBase, recs)), s.fileSize);
            && loaded.Ok?
            && var g := Restored(FromDisk(f, mtime), loaded.value.meta);
               && !VersionProtocols.Accepts(g, Message(Add, held, base), tie)
               && Wrote(g, t).editBase == Max(Max(f.held, held), f.announced)
  {
    hide Decode, EncodeV2, Restored, MetaOf;
    RestartRestores(FromDisk(f, mtime), held, editBase, s, recs);
  }

  /** The sidecar of a file with a pending edit loads with every bit and record, and restores the edit: after the
      restart the file is local-newer with its base and its held stamp, at the newest stamp of its records or of the
      disk. When those do not exceed the identity it had and one of them reaches it, only the watermark, which becomes
      the held stamp, and the last announce are not what they were. */
  lemma {:induction false} RestartKeepsEdit(f: FileState, held: int64, editBase: int64, s: BitmapState, recs: seq<ChunkRecord>,
                         ids: seq<Option<uint64>>, mtime: int)
    requires WellFormed(s) && s.total < TWO_32 && |recs| == |ids| == LedgerRecords(s.fileSize)
    requires f.held == held > 0 && f.editBase == editBase != 0 && f.localNewer && f.dirty && HasDirty(recs)
    ensures var saved := SyncedAll(recs, ids, held);
            var loaded := Decode(EncodeV2(s, MetaOf(held, editBase, Some(saved))), s.fileSize);
            && loaded.Ok? && loaded.value.bitmap == s && loaded.value.meta.Some? && loaded.value.meta.value.recs == Some(saved)
            && var g := Restored(FromDisk(ABSENT, mtime), loaded.value.meta);
               && g == f.(stat := Max(mtime, MaxDirty(recs, |recs|)), remote := f.held, announced := 0)
               && (f.stat == Max(mtime, MaxDirty(recs, |recs|)) <==> g == f.(remote := f.held, announced := 0))
  {
    var saved := SyncedAll(recs, ids, held);
    SyncKeepsEdit(recs, ids, held, |recs|);
    SyncKeepsDirtySet(recs, ids, held);
    RoundTrip(s, MetaOf(held, editBase, Some(saved)));
  }

  /** The peer's announce of the held version is then not accepted and resets nothing, exactly when the edit was
      settled above that version or the disk carries a newer time; otherwise a tie with the watermark lets the
      rank give the edit up. */
  lemma {:induction false} ReannounceResetsNothing(mtime: int, newest: int, held: int, editBase: int, base: int, shrinks: bool)
    requires held > 0
    ensures var g := FileState(Max(mtime, newest), true, held, held, 0, editBase, true);
            g.stat > held <==>
            forall kind, tie :: !VersionProtocols.Accepts(g, Message(kind, held, base), tie)
                                && Judged(g, Message(kind, held, base), tie, shrinks) == g
  {
    var g := FileState(Max(mtime, newest), true, held, held, 0, editBase, true);
    if g.stat <= held { assert VersionProtocols.Accepts(g, Message(Add, held, base), true); }
  }

  /** A settled edit satisfies the condition: Release gives every dirty record the announce's identity, which is
      above everything its writer had seen. */
  lemma {:induction false} SettledAboveHeld(recs: seq<ChunkRecord>, settled: seq<ChunkRecord>, stat: int64, n: nat)
    requires |settled| == |recs| && n <= |recs| && forall c :: 0 <= c < |recs| ==> settled[c] == SettledStamp(recs[c], stat)
    requires stat >= 0
    ensures (exists c :: 0 <= c < n && recs[c].dirty) ==> MaxDirty(settled, n) >= stat
  {
    MaxDirtyIsMaximum(settled, n);
    if c :| 0 <= c < n && recs[c].dirty {
      assert settled[c].dirty && settled[c].stamp >= stat;
    }
  }

  /** An edit that changed the file's length is not restored: its sidecar no longer loads. */
  lemma {:induction false} ResizedEditIsForgotten(s: BitmapState, m: SidecarMeta, size: int)
    requires WellFormed(s) && LedgerFits(s, m) && size != s.fileSize
    ensures Decode(EncodeV2(s, m), size) == Err(SizeMismatch)
  {
    var data := EncodeV2(s, m);
    EncodeV2Parts(Header(s, 2), WordBytes(s.bits), PrintSection(s), MetaHead(m), RecordBytes(m.recs.UnwrapOr([])));
    HoldsWhole(data);
    HoldsParts(data, 0, Header(s, 2),
               WordBytes(s.bits) + (PrintSection(s) + (MetaHead(m) + RecordBytes(m.recs.UnwrapOr([])))));
    HeaderFields(data, s, 2);
  }

  // ---------- flush, restore and adopt ----------

  /** The bitmap's fields as the saver reads them. */
  function Snapshot(bm: ChunkBitmap): (s: BitmapState)
    requires -0x8000_0000_0000_0000 <= bm.fileSize < 0x8000_0000_0000_0000
    reads bm
  {
    BitmapState(bm.bits, bm.hashes, bm.total, bm.have, bm.fileSize, bm.chunkSize)
  }

  lemma {:induction false} SnapshotWellFormed(bm: ChunkBitmap)
    requires bm.Valid() && bm.Sized() && bm.chunkSize == CHUNK_SIZE && bm.fileSize < 0x8000_0000_0000_0000
    ensures WellFormed(Snapshot(bm))
  {
    IndicesInRange(bm.bits, bm.total);
    FullBySize(bm.Present(), bm.total);
  }

  /** flushSidecar: compose the metadata, lift the bitmap into the ledger, save. */
  method FlushSidecar(f: TrackedFile, held: int64, editBase: int64, bm: ChunkBitmap, ledger: ChunkLedger?)
    returns (data: seq<byte>)
    requires f.held == held && f.editBase == editBase
    requires bm.Valid() && bm.chunkSize == CHUNK_SIZE && 0 < bm.fileSize < 0x8000_0000_0000_0000
    modifies if ledger == null then {} else {ledger}
    ensures ledger == null ==> data == EncodeV2(Snapshot(bm), MetaOf(held, 0, None))
    ensures ledger != null ==>
              && |ledger.recs| == |old(ledger.recs)|
              && (forall c :: 0 <= c < |ledger.recs| ==>
                    ledger.recs[c] == Synced(old(ledger.recs)[c], ledger.IdentityOf(bm, c), held))
              && data == EncodeV2(Snapshot(bm), MetaOf(held, if HasDirty(old(ledger.recs)) then editBase else 0,
                                                       Some(ledger.recs)))
  {
    var base: int64 := 0;
    if ledger == null {
      data := SaveSidecar(Snapshot(bm), Some(SidecarMeta(held, 0, None)));
      return;
    }
    var pending := ledger.AnyDirty();
    if pending {
      base := editBase;
    }
    ghost var before := ledger.recs;
    ledger.SyncFromBitmap(bm, held);
    assert HasDirty(before) ==> HasDirty(ledger.recs) by {
      if c :| 0 <= c < |before| && before[c].dirty { assert ledger.recs[c].dirty; }
    }
    data := SaveSidecar(Snapshot(bm), Some(SidecarMeta(held, base, Some(ledger.recs))));
  }

  /** restoreSidecarMetaLocked on a tracked file: true when an edit came back. */
  method RestoreSidecarMeta(f: TrackedFile, meta: Option<SidecarMeta>) returns (restored: bool)
    modifies f
    ensures f.State() == Restored(old(f.State()), meta)
    ensures restored <==> meta.Some? && meta.value.recs.Some? && HasDirty(meta.value.recs.value)
    // The held stamp comes back with or without an edit.
    ensures meta.Some? ==> f.held == Max(old(f.held), meta.value.held) && f.remote == Max(old(f.remote), meta.value.held)
    ensures !restored ==>
              && f.localNewer == old(f.localNewer) && f.dirty == old(f.dirty)
              && f.editBase == old(f.editBase) && f.stat == old(f.stat)
    ensures restored ==>
              && f.localNewer && f.dirty
              && f.editBase == (if meta.value.editBase == 0 && f.remote > 0 then -1 else meta.value.editBase)
              && f.stat == Max(old(f.stat), MaxDirty(meta.value.recs.value, |meta.value.recs.value|))
  {
    if meta.None? {
      return false;
    }
    var m := meta.value;
    if m.held > f.held {
      f.held := m.held;
    }
    if m.held > f.remote {
      f.remote := m.held;
    }
    if m.recs.None? || !HasDirty(m.recs.value) {
      return false;
    }
    f.localNewer, f.dirty, f.editBase := true, true, m.editBase;
    if f.editBase == 0 && f.remote > 0 {
      f.editBase := -1;
    }
    var newest := MaxDirty(m.recs.value, |m.recs.value|);
    if newest > f.stat {
      f.stat := newest;
    }
    return true;
  }

  /** adoptSidecarInto: the copy's size on disk is what the sidecar must be of; without a sidecar, or with a broken
      one, nothing changes. */
  method AdoptSidecarInto(f: TrackedFile, size: int, mtime: int, sidecar: Option<seq<byte>>)
    returns (adopted: bool, bitmap: Option<BitmapState>, restored: bool)
    modifies f
    ensures adopted <==> size > 0 && sidecar.Some? && Decode(sidecar.value, size).Ok?
    ensures adopted ==> bitmap == Some(Decode(sidecar.value, size).value.bitmap)
    ensures f.State() == if adopted then Restored(FromDisk(old(f.State()), mtime), Decode(sidecar.value, size).value.meta)
                         else old(f.State())
    // An adopted copy has the held stamp it was saved with, and is at the disk's time unless an edit comes back newer.
    ensures adopted && Decode(sidecar.value, size).value.meta.Some? ==>
              var m := Decode(sidecar.value, size).value.meta.value;
              f.held == Max(old(f.held), m.held) && f.remote == Max(old(f.remote), m.held) && f.localNewer == restored
    ensures adopted && !restored ==> f.stat == mtime && !f.localNewer && f.dirty == old(f.dirty) && f.editBase == old(f.editBase)
  {
    if size <= 0 || sidecar.None? {
      return false, None, false;
    }
    var loaded := LoadSidecar(sidecar.value, size);
    if loaded.Err? {
      return false, None, false;
    }
    f.localNewer, f.stat := false, mtime;
    restored := RestoreSidecarMeta(f, loaded.value.meta);
    return true, Some(loaded.value.bitmap), restored;
  }
}
