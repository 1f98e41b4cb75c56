/** pkg/filesystem/fuse_directory.go: a directory rename re-keys everything tracked under it, and the undo of a
    crossing move puts it back. Tracked objects are numbered; their stored paths are kept beside the maps. */
module DirMoves {
  import opened Bytes

  type Path = string

  /** `k` lies inside the subtree of `dir`, `dir` itself excluded. */
  predicate Under(k: Path, dir: Path) { dir + "/" <= k }

  predicate Within(k: Path, dir: Path) { k == dir || Under(k, dir) }

  /** `k`, which lies within `from`, at the same place within `to`. */
  function Reroot(k: Path, from: Path, to: Path): (r: Path)
    requires |from| <= |k|
  {
    to + k[|from|..]
  }

  /** Where the entry at `k` ends up. */
  function Target(k: Path, from: Path, to: Path): (r: Path) { if Within(k, from) then Reroot(k, from, to) else k }

  /** Neither path contains the other. */
  predicate Apart(p: Path, q: Path) { !Within(p, q) && !Within(q, p) }

  /** Nothing is tracked at or under `dir`. */
  predicate Free<V>(m: map<Path, V>, dir: Path) { forall k :: k in m ==> !Within(k, dir) }

  /** The map after the subtree at `from` moved to `to`, which was free. */
  function Moved<V>(m: map<Path, V>, from: Path, to: Path): (r: map<Path, V>)
    requires Free(m, to)
  {
    TargetsBack(m, from, to);
    map p | p in Targets(m.Keys, from, to) :: m[Target(p, to, from)]
  }

  function Targets(keys: set<Path>, from: Path, to: Path): (s: set<Path>) { set k | k in keys :: Target(k, from, to) }

  /** Moving back is the inverse, key by key. */
  lemma {:induction false} TargetBack(k: Path, from: Path, to: Path)
    requires !Within(k, to)
    ensures Target(Target(k, from, to), to, from) == k
  {
    if Within(k, from) {
      var moved := Reroot(k, from, to);
      assert moved[|to|..] == k[|from|..];
      assert k == from + k[|from|..];
      if k == from { assert moved == to; } else { assert k[|from|] == '/' && to + "/" <= moved; }
    }
  }

  lemma {:induction false} TargetsBack<V>(m: map<Path, V>, from: Path, to: Path)
    requires Free(m, to)
    ensures forall p :: p in Targets(m.Keys, from, to) ==> Target(p, to, from) in m
  {
    forall k | k in m
      ensures Target(Target(k, from, to), to, from) == k
    {
      TargetBack(k, from, to);
    }
  }

  /** What the moved map holds: every entry, at its target, and nothing else. */
  lemma {:induction false} MovedEntries<V>(m: map<Path, V>, from: Path, to: Path)
    requires Free(m, to)
    ensures forall k :: k in m ==> Target(k, from, to) in Moved(m, from, to) && Moved(m, from, to)[Target(k, from, to)] == m[k]
    ensures forall p :: p in Moved(m, from, to) ==> Target(p, to, from) in m && Target(Target(p, to, from), from, to) == p
  {
    forall k | k in m
      ensures Target(k, from, to) in Targets(m.Keys, from, to) && Target(Target(k, from, to), to, from) == k
    {
      TargetBack(k, from, to);
    }
  }

  /** A path re-rooted out of `from` lies within `from` again only when one of the two paths contains the other. */
  lemma {:induction false} RerootedInside(k: Path, from: Path, to: Path)
    requires Within(k, from) && Within(Reroot(k, from, to), from)
    ensures Within(to, from) || Within(from, to)
  {
    var moved, suffix := Reroot(k, from, to), k[|from|..];
    assert moved[..|to|] == to && moved[..|from|] == from;
    if |from| <= |to| {
      assert from == to[..|from|];
      if |from| < |to| { assert to[|from|] == moved[|from|] == '/'; }
    } else {
      assert to == from[..|to|] && from[|to|] == moved[|to|] == suffix[0] == '/';
    }
  }

  /** A moved key is not within the old directory. */
  lemma {:induction false} TargetLeaves(k: Path, from: Path, to: Path)
    requires Apart(from, to)
    ensures !Within(Target(k, from, to), from)
  {
    if Within(k, from) && Within(Target(k, from, to), from) { RerootedInside(k, from, to); }
  }

  /** The move and its undo restore the map exactly. */
  lemma {:induction false} UndoRestores<V>(m: map<Path, V>, from: Path, to: Path)
    requires Apart(from, to) && Free(m, to)
    ensures Free(Moved(m, from, to), from)
    ensures Moved(Moved(m, from, to), to, from) == m
  {
    var moved := Moved(m, from, to);
    MovedEntries(m, from, to);
    forall p | p in moved
      ensures !Within(p, from)
    {
      TargetLeaves(Target(p, to, from), from, to);
    }
    MovedEntries(moved, to, from);
    var restored := Moved(moved, to, from);
    forall k | k in m
      ensures k in restored && restored[k] == m[k]
    {
      TargetBack(k, from, to);
      assert Target(k, from, to) in moved;
    }
    forall k | k in restored
      ensures k in m
    {
      assert Target(k, from, to) in moved;
    }
  }

  /** No entry is lost and none duplicated on the way: the keys correspond one to one. */
  lemma {:induction false} NothingLost<V>(m: map<Path, V>, from: Path, to: Path)
    requires Free(m, to)
    ensures |Moved(m, from, to)| == |m|
    ensures forall k, k' :: k in m && k' in m && Target(k, from, to) == Target(k', from, to) ==> k == k'
  {
    forall k | k in m
      ensures Target(Target(k, from, to), to, from) == k
    {
      TargetBack(k, from, to);
    }
    SameCount(m.Keys, from, to);
    assert Moved(m, from, to).Keys == Targets(m.Keys, from, to);
  }

  lemma {:induction false} SameCount(keys: set<Path>, from: Path, to: Path)
    requires forall k, k' :: k in keys && k' in keys && Target(k, from, to) == Target(k', from, to) ==> k == k'
    ensures |Targets(keys, from, to)| == |keys|
    decreases |keys|
  {
    if keys != {} {
      var k :| k in keys;
      SameCount(keys - {k}, from, to);
      assert Targets(keys, from, to) == Targets(keys - {k}, from, to) + {Target(k, from, to)};
    }
  }

  lemma {:induction false} AtMostAsMany(keys: set<Path>, from: Path, to: Path)
    ensures |Targets(keys, from, to)| <= |keys|
    decreases |keys|
  {
    if keys != {} {
      var k :| k in keys;
      AtMostAsMany(keys - {k}, from, to);
      assert Targets(keys, from, to) == Targets(keys - {k}, from, to) + {Target(k, from, to)};
    }
  }

  /** Two entries of the directory keep apart. */
  lemma {:induction false} RerootInjective(k: Path, k': Path, from: Path, to: Path)
    requires Within(k, from) && Within(k', from) && Reroot(k, from, to) == Reroot(k', from, to)
    ensures k == k'
  {
    assert k == from + Reroot(k, from, to)[|to|..] && k' == from + Reroot(k', from, to)[|to|..];
  }

  /** Whether a move loses an entry, for any map: it does exactly when an entry inside the directory has its target
      already tracked. */
  lemma {:induction false} OccupiedTargetLoses<V>(m: map<Path, V>, from: Path, to: Path)
    requires Apart(from, to)
    ensures |Targets(m.Keys, from, to)| < |m| <==> exists k :: k in m && Within(k, from) && Target(k, from, to) in m
  {
    if k :| k in m && Within(k, from) && Target(k, from, to) in m {
      TargetLeaves(k, from, to);
      AtMostAsMany(m.Keys - {k}, from, to);
      assert Target(Target(k, from, to), from, to) == Target(k, from, to) && Target(k, from, to) != k;
      assert Targets(m.Keys, from, to) == Targets(m.Keys - {k}, from, to);
    } else {
      forall k, k' | k in m && k' in m && Target(k, from, to) == Target(k', from, to)
        ensures k == k'
      {
        if Within(k, from) && Within(k', from) { RerootInjective(k, k', from, to); }
      }
      SameCount(m.Keys, from, to);
    }
  }

  // ---------- the maps ----------

  /** Every object stands at its stored path; so no object stands at two keys. */
  ghost predicate Stored(m: map<Path, nat>, paths: map<nat, Path>) {
    forall k :: k in m ==> m[k] in paths && paths[m[k]] == k
  }

  /** The keys of `m` inside `from`, `from` itself excluded. */
  function Children(m: map<Path, nat>, from: Path): (s: set<Path>) { set k | k in m.Keys && Under(k, from) }

  /** `m'` is `m` with the entries at `keys`, all within `from`, moved to `to`. */
  ghost predicate MovedKeys(m: map<Path, nat>, keys: set<Path>, from: Path, to: Path, m': map<Path, nat>) {
    && (forall k :: k in m && k !in keys ==> k in m' && m'[k] == m[k])
    && (forall k :: k in keys && k in m ==> Target(k, from, to) in m' && m'[Target(k, from, to)] == m[k])
    && (forall p :: p in m' ==> (p in m && p !in keys) || exists k :: k in keys && k in m && p == Target(k, from, to))
  }

  /** The targets of `keys` are free in `m`, and `keys` lie within `from`. */
  ghost predicate Clear(m: map<Path, nat>, keys: set<Path>, from: Path, to: Path) {
    forall k :: k in keys ==> Within(k, from) && Target(k, from, to) !in m
  }

  /** The stored paths moved on: each object has its old path, or the one its original path moves to. */
  ghost predicate PathsFollow(paths0: map<nat, Path>, paths: map<nat, Path>, from: Path, to: Path, paths': map<nat, Path>) {
    && paths'.Keys == paths.Keys == paths0.Keys
    && forall i :: i in paths ==> paths'[i] == paths[i] || paths'[i] == Target(paths0[i], from, to)
  }

  /** The objects at `keys` have the paths their keys move to. */
  ghost predicate Arrived(m: map<Path, nat>, keys: set<Path>, from: Path, to: Path, paths: map<nat, Path>) {
    forall k :: k in keys && k in m ==> m[k] in paths && paths[m[k]] == Target(k, from, to)
  }

  lemma {:induction false} TargetInjective(k: Path, k': Path, from: Path, to: Path)
    requires Within(k, from) && Within(k', from) && Target(k, from, to) == Target(k', from, to)
    ensures k == k'
  {
    assert k[|from|..] == Reroot(k, from, to)[|to|..] == Reroot(k', from, to)[|to|..] == k'[|from|..];
    assert k == from + k[|from|..] && k' == from + k'[|from|..];
  }

  lemma {:induction false} MoveOneMore(m: map<Path, nat>, keys: set<Path>, k: Path, from: Path, to: Path, m': map<Path, nat>)
    requires MovedKeys(m, keys, from, to, m') && Clear(m, keys + {k}, from, to) && k in m && k !in keys
    ensures k in m' && m'[k] == m[k] && MovedKeys(m, keys + {k}, from, to, (m' - {k})[Target(k, from, to) := m'[k]])
  {
    hide Target, Within;
    ClearApart(m, keys, k, from, to);
    var nk := Target(k, from, to);
    var next := (m' - {k})[nk := m'[k]];
    assert next.Keys == m'.Keys - {k} + {nk};
    forall p | p in next
      ensures (p in m && p !in keys + {k}) || exists j :: j in keys + {k} && j in m && p == Target(j, from, to)
    {
      if p == nk { assert k in keys + {k}; }
    }
  }

  lemma {:induction false} ClearApart(m: map<Path, nat>, keys: set<Path>, k: Path, from: Path, to: Path)
    requires Clear(m, keys + {k}, from, to) && k in m && k !in keys
    ensures Within(k, from) && Target(k, from, to) !in m
    ensures forall j :: j in keys ==> Target(j, from, to) != Target(k, from, to) && Target(j, from, to) != k
  {
    forall j | j in keys
      ensures Target(j, from, to) != Target(k, from, to)
    {
      if Target(j, from, to) == Target(k, from, to) { TargetInjective(j, k, from, to); }
    }
  }

  /** One loop of RekeyChildren: collect the keys below the old directory; then delete each, give its object the new
      path, and insert it there. */
  method RekeyMap(m: map<Path, nat>, paths: map<nat, Path>, from: Path, to: Path, ghost paths0: map<nat, Path>)
    returns (m': map<Path, nat>, paths': map<nat, Path>)
    requires Clear(m, Children(m, from), from, to) && paths.Keys == paths0.Keys
    requires forall k :: k in Children(m, from) ==> m[k] in paths0 && paths0[m[k]] == k
    ensures MovedKeys(m, Children(m, from), from, to, m')
    ensures PathsFollow(paths0, paths, from, to, paths') && Arrived(m, Children(m, from), from, to, paths')
  {
    hide MovedKeys, PathsFollow, Arrived, Target, Within;
    NothingMoved(m, from, to, paths, paths0);
    ChildrenWithin(m, from);
    var keys := Children(m, from);
    ghost var all, done: set<Path> := keys, {};
    m', paths' := m, paths;
    while keys != {}
      invariant keys <= all && done == all - keys
      invariant MovedKeys(m, done, from, to, m')
      invariant PathsFollow(paths0, paths, from, to, paths') && Arrived(m, done, from, to, paths')
      decreases |keys|
    {
      var k :| k in keys;
      MoveOneMore(m, done, k, from, to, m');
      m', paths' := RekeyOne(m', paths', k, from, to, m, paths, paths0, done);
      assert done + {k} == all - (keys - {k});
      keys, done := keys - {k}, done + {k};
    }
    assert done == all;
  }

  lemma {:induction false} ChildrenWithin(m: map<Path, nat>, from: Path)
    ensures forall k :: k in Children(m, from) ==> k in m && Within(k, from) && k != from
  {
    assert |from + "/"| > |from|;
  }

  lemma {:induction false} NothingMoved(m: map<Path, nat>, from: Path, to: Path, paths: map<nat, Path>,
                                        paths0: map<nat, Path>)
    requires paths.Keys == paths0.Keys
    ensures MovedKeys(m, {}, from, to, m) && PathsFollow(paths0, paths, from, to, paths) && Arrived(m, {}, from, to, paths)
  {
  }

  /** Re-key one entry. */
  method RekeyOne(m': map<Path, nat>, paths': map<nat, Path>, k: Path, from: Path, to: Path, ghost m: map<Path, nat>,
                  ghost paths: map<nat, Path>, ghost paths0: map<nat, Path>, ghost done: set<Path>)
    returns (m'': map<Path, nat>, paths'': map<nat, Path>)
    requires k in m && k in m' && m'[k] == m[k] && Within(k, from) && m[k] in paths0 && paths0[m[k]] == k
    requires PathsFollow(paths0, paths, from, to, paths') && Arrived(m, done, from, to, paths')
    requires forall j :: j in done && j in m ==> m[j] in paths0 && paths0[m[j]] == j
    ensures m'' == (m' - {k})[Target(k, from, to) := m'[k]]
    ensures PathsFollow(paths0, paths, from, to, paths'') && Arrived(m, done + {k}, from, to, paths'')
  {
    var obj, nk := m'[k], Reroot(k, from, to);
    m'' := (m' - {k})[nk := obj];
    paths'' := paths'[obj := nk];
  }

  /** Re-key the entry of the directory itself, when there is one. */
  method MoveRoot(m: map<Path, nat>, paths: map<nat, Path>, from: Path, to: Path)
    returns (m': map<Path, nat>, paths': map<nat, Path>)
    requires to !in m && (from in m ==> m[from] in paths && (paths[m[from]] == from || paths[m[from]] == to))
    ensures MovedKeys(m, {from}, from, to, m')
    ensures PathsFollow(paths, paths, from, to, paths') && Arrived(m, {from}, from, to, paths')
    ensures RootOnly(paths, paths', from)
  {
    m', paths' := m, paths;
    assert Target(from, from, to) == to;
    if from in m {
      var obj := m[from];
      m' := (m - {from})[to := obj];
      paths' := paths[obj := to];
    }
  }

  lemma {:induction false} RootTarget(from: Path, to: Path)
    ensures Target(from, from, to) == to
  {
  }

  /** A child's target is a child of `to`. */
  lemma {:induction false} ChildTarget(k: Path, from: Path, to: Path)
    requires Under(k, from)
    ensures Within(Target(k, from, to), to) && Target(k, from, to) != to
  {
    assert Reroot(k, from, to)[..|to|] == to && Reroot(k, from, to)[|to|] == '/';
  }

  /** After the root moved, the children are the same and may be moved. */
  lemma {:induction false} RootMoved(m: map<Path, nat>, from: Path, to: Path, m1: map<Path, nat>)
    requires Apart(from, to) && Free(m, to) && MovedKeys(m, {from}, from, to, m1)
    ensures Children(m1, from) == Children(m, from) && Clear(m1, Children(m1, from), from, to)
    ensures forall k :: k in Children(m, from) ==> k in m1 && m1[k] == m[k]
  {
    ChildrenWithin(m, from);
    ChildrenWithin(m1, from);
    RootTarget(from, to);
    forall k | k in m1 && Under(k, from)
      ensures k in m && Target(k, from, to) !in m1
    {
      ChildTarget(k, from, to);
    }
  }

  /** Root and children, in either order, make the whole move. */
  lemma {:induction false} RootThenChildren(m: map<Path, nat>, from: Path, to: Path, m1: map<Path, nat>, m2: map<Path, nat>)
    requires Apart(from, to) && Free(m, to) && MovedKeys(m, {from}, from, to, m1)
    requires MovedKeys(m1, Children(m1, from), from, to, m2)
    ensures m2 == Moved(m, from, to)
  {
    RootMoved(m, from, to, m1);
    RootTarget(from, to);
    hide Moved, Under, Reroot;
    forall k | k in m
      ensures Target(k, from, to) in m2 && m2[Target(k, from, to)] == m[k]
    {
      if k !in Children(m, from) && k != from { assert Target(k, from, to) == k; }
    }
    forall p | p in m2
      ensures exists k :: k in m && p == Target(k, from, to)
    {
      if p in m1 && p !in Children(m1, from) && p in m { assert Target(p, from, to) == p; }
    }
    WholeMove(m, from, to, m2);
  }

  lemma {:induction false} ChildrenMoved(m: map<Path, nat>, from: Path, to: Path, m1: map<Path, nat>)
    requires Apart(from, to) && Free(m, to) && MovedKeys(m, Children(m, from), from, to, m1)
    ensures to !in m1 && (from in m1 <==> from in m) && (from in m ==> m1[from] == m[from])
  {
    ChildrenWithin(m, from);
    forall k | k in Children(m, from)
      ensures Target(k, from, to) != to && Target(k, from, to) != from
    {
      ChildTarget(k, from, to);
      TargetLeaves(k, from, to);
    }
  }

  lemma {:induction false} ChildrenThenRoot(m: map<Path, nat>, from: Path, to: Path, m1: map<Path, nat>, m2: map<Path, nat>)
    requires Apart(from, to) && Free(m, to) && MovedKeys(m, Children(m, from), from, to, m1)
    requires MovedKeys(m1, {from}, from, to, m2)
    ensures m2 == Moved(m, from, to)
  {
    ChildrenMoved(m, from, to, m1);
    ChildrenWithin(m, from);
    RootTarget(from, to);
    ChildrenLeave(m, from, to);
    hide Moved, Under, Reroot;
    forall k | k in m
      ensures Target(k, from, to) in m2 && m2[Target(k, from, to)] == m[k]
    {
      if k !in Children(m, from) && k != from { assert Target(k, from, to) == k; }
    }
    forall p | p in m2
      ensures exists k :: k in m && p == Target(k, from, to)
    {
      if p in m && p !in Children(m, from) && p != from { assert Target(p, from, to) == p; }
    }
    WholeMove(m, from, to, m2);
  }

  lemma {:induction false} ChildrenLeave(m: map<Path, nat>, from: Path, to: Path)
    requires Apart(from, to)
    ensures forall k :: k in Children(m, from) ==> Target(k, from, to) != from
  {
    forall k | k in Children(m, from)
      ensures Target(k, from, to) != from
    {
      TargetLeaves(k, from, to);
    }
  }

  /** A map that holds every entry at its target and nothing else is the moved map. */
  lemma {:induction false} WholeMove(m: map<Path, nat>, from: Path, to: Path, m2: map<Path, nat>)
    requires Free(m, to)
    requires forall k :: k in m ==> Target(k, from, to) in m2 && m2[Target(k, from, to)] == m[k]
    requires forall p :: p in m2 ==> exists k :: k in m && p == Target(k, from, to)
    ensures m2 == Moved(m, from, to)
  {
    MovedEntries(m, from, to);
    var moved := Moved(m, from, to);
    forall p | p in moved
      ensures p in m2 && m2[p] == moved[p]
    {
      assert Target(Target(p, to, from), from, to) == p;
    }
  }

  /** Where the objects stand after the move: each at its stored path. */
  lemma {:induction false} StoredAfter(m: map<Path, nat>, paths0: map<nat, Path>, from: Path, to: Path, paths: map<nat, Path>)
    requires Stored(m, paths0) && Free(m, to) && PathsFollow(paths0, paths0, from, to, paths)
    requires Arrived(m, Children(m, from) + {from}, from, to, paths)
    ensures Stored(Moved(m, from, to), paths)
  {
    MovedEntries(m, from, to);
    var moved := Moved(m, from, to);
    forall p | p in moved
      ensures moved[p] in paths && paths[moved[p]] == p
    {
      var k := Target(p, to, from);
      assert Target(k, from, to) == p && moved[p] == m[k];
      assert k in Children(m, from) + {from} || Target(k, from, to) == k;
    }
  }

  /** A path that moved stays where it arrived. */
  lemma {:induction false} TargetSettled(k: Path, from: Path, to: Path)
    requires Apart(from, to)
    ensures Target(Target(k, from, to), from, to) == Target(k, from, to)
  {
    TargetLeaves(k, from, to);
  }

  /** Two steps of one move, followed one after the other. */
  lemma {:induction false} FollowOn(p0: map<nat, Path>, p1: map<nat, Path>, p2: map<nat, Path>, from: Path, to: Path)
    requires Apart(from, to) && PathsFollow(p0, p0, from, to, p1) && PathsFollow(p1, p1, from, to, p2)
    ensures PathsFollow(p0, p0, from, to, p2)
    ensures forall m, keys :: Arrived(m, keys, from, to, p1) ==> Arrived(m, keys, from, to, p2)
  {
    forall i | i in p0
      ensures p2[i] == p0[i] || p2[i] == Target(p0[i], from, to)
    {
      TargetSettled(p0[i], from, to);
    }
    forall k | true
      ensures Target(Target(k, from, to), from, to) == Target(k, from, to)
    {
      TargetSettled(k, from, to);
    }
  }

  /** The children of a map may be re-keyed: their targets are free and each object stands at its key. */
  ghost predicate ChildrenReady(m: map<Path, nat>, paths: map<nat, Path>, from: Path, to: Path) {
    Clear(m, Children(m, from), from, to) && forall k :: k in Children(m, from) ==> m[k] in paths && paths[m[k]] == k
  }

  /** The directory's own path is the only one that changed. */
  ghost predicate RootOnly(p0: map<nat, Path>, p1: map<nat, Path>, from: Path) {
    p0.Keys == p1.Keys && forall i :: i in p0 && p0[i] != from ==> p1[i] == p0[i]
  }

  lemma {:induction false} ReadyAfterRoot(m: map<Path, nat>, p0: map<nat, Path>, from: Path, to: Path, m1: map<Path, nat>,
                                          p1: map<nat, Path>)
    requires Apart(from, to) && Free(m, to) && Stored(m, p0) && RootOnly(p0, p1, from)
    requires m1 == m || MovedKeys(m, {from}, from, to, m1)
    ensures ChildrenReady(m1, p1, from, to)
  {
    ChildrenWithin(m, from);
    if m1 == m {
      forall k | k in Children(m, from)
        ensures Target(k, from, to) !in m
      {
        ChildTarget(k, from, to);
      }
    } else {
      RootMoved(m, from, to, m1);
    }
  }

  lemma {:induction false} NotThere(m: map<Path, nat>, dir: Path)
    requires Free(m, dir)
    ensures dir !in m && m - {dir} == m
  {
    assert forall k :: k in m ==> k != dir;
  }

  /** A map whose root moved before its children: the objects end where their stored paths say. */
  lemma {:induction false} RootFirstStored(m: map<Path, nat>, from: Path, to: Path, m1: map<Path, nat>, m2: map<Path, nat>,
                                           p0: map<nat, Path>, p1: map<nat, Path>, p2: map<nat, Path>, p3: map<nat, Path>)
    requires Apart(from, to) && Free(m, to) && Stored(m, p0) && MovedKeys(m, {from}, from, to, m1)
    requires MovedKeys(m1, Children(m1, from), from, to, m2)
    requires PathsFollow(p0, p0, from, to, p1) && PathsFollow(p1, p1, from, to, p2) && PathsFollow(p2, p2, from, to, p3)
    requires Arrived(m, {from}, from, to, p1) && Arrived(m1, Children(m1, from), from, to, p2)
    ensures m2 == Moved(m, from, to) && Stored(m2, p3)
  {
    hide Target, Within, MovedKeys, PathsFollow, Moved, Clear;
    RootThenChildren(m, from, to, m1, m2);
    RootMoved(m, from, to, m1);
    FollowOn(p0, p1, p2, from, to);
    FollowOn(p0, p2, p3, from, to);
    FollowOn(p1, p2, p3, from, to);
    assert Arrived(m, {from}, from, to, p2) && Arrived(m, {from}, from, to, p3);
    assert Arrived(m1, Children(m1, from), from, to, p3);
    assert Arrived(m, Children(m, from) + {from}, from, to, p3) by { ChildrenWithin(m, from); }
    StoredAfter(m, p0, from, to, p3);
  }

  /** The same when the children moved before the root. */
  lemma {:induction false} ChildrenFirstStored(m: map<Path, nat>, from: Path, to: Path, m1: map<Path, nat>,
                                               m2: map<Path, nat>, p0: map<nat, Path>, p1: map<nat, Path>,
                                               p2: map<nat, Path>, p3: map<nat, Path>)
    requires Apart(from, to) && Free(m, to) && Stored(m, p0) && MovedKeys(m, Children(m, from), from, to, m1)
    requires MovedKeys(m1, {from}, from, to, m2)
    requires PathsFollow(p0, p0, from, to, p1) && PathsFollow(p1, p1, from, to, p2) && PathsFollow(p2, p2, from, to, p3)
    requires Arrived(m, Children(m, from), from, to, p2) && Arrived(m1, {from}, from, to, p3)
    ensures m2 == Moved(m, from, to) && Stored(m2, p3)
  {
    hide Target, Within, MovedKeys, PathsFollow, Moved, Clear;
    ChildrenThenRoot(m, from, to, m1, m2);
    ChildrenMoved(m, from, to, m1);
    FollowOn(p0, p1, p2, from, to);
    FollowOn(p0, p2, p3, from, to);
    assert Arrived(m, Children(m, from), from, to, p3);
    assert Arrived(m, Children(m, from) + {from}, from, to, p3) by { ChildrenWithin(m, from); }
    StoredAfter(m, p0, from, to, p3);
  }

  /** The object of the remote root, which may be the file object too, has its old path or its new one. */
  lemma {:induction false} RemoteRootPath(m: map<Path, nat>, p0: map<nat, Path>, p1: map<nat, Path>, p2: map<nat, Path>,
                                          from: Path, to: Path)
    requires Apart(from, to) && Stored(m, p0) && PathsFollow(p0, p0, from, to, p1) && PathsFollow(p1, p1, from, to, p2)
    ensures from in m ==> m[from] in p2 && (p2[m[from]] == from || p2[m[from]] == to)
  {
    FollowOn(p0, p1, p2, from, to);
    RootTarget(from, to);
  }

  lemma {:induction false} StaysPut(p: map<nat, Path>, from: Path, to: Path)
    ensures PathsFollow(p, p, from, to, p)
  {
  }

  lemma {:induction false} RootsOnly(p0: map<nat, Path>, p1: map<nat, Path>, p2: map<nat, Path>, from: Path)
    requires RootOnly(p0, p1, from) && RootOnly(p1, p2, from)
    ensures RootOnly(p0, p2, from)
  {
  }

  class DirTree {
    var files: map<Path, nat>  // AllFileMap
    var remote: map<Path, nat>  // RemoteFiles, over the same objects
    var dirs: map<Path, nat>  // AllDirMap
    var filePath: map<nat, Path>  // RelativePath of each file object
    var dirPath: map<nat, Path>

    ghost predicate Valid()
      reads this
    {
      Stored(files, filePath) && Stored(remote, filePath) && Stored(dirs, dirPath)
    }

    ghost predicate FreeAt(dir: Path)
      reads this
    {
      Free(files, dir) && Free(remote, dir) && Free(dirs, dir)
    }

    /** RekeyChildren: the three loops, over files, remote files and directories. */
    method RekeyChildren(from: Path, to: Path)
      requires ChildrenReady(files, filePath, from, to) && ChildrenReady(remote, filePath, from, to)
      requires ChildrenReady(dirs, dirPath, from, to)
      modifies this
      ensures MovedKeys(old(files), Children(old(files), from), from, to, files)
      ensures MovedKeys(old(remote), Children(old(remote), from), from, to, remote)
      ensures MovedKeys(old(dirs), Children(old(dirs), from), from, to, dirs)
      ensures PathsFollow(old(filePath), old(filePath), from, to, filePath)
      ensures PathsFollow(old(dirPath), old(dirPath), from, to, dirPath)
      ensures Arrived(old(files), Children(old(files), from), from, to, filePath)
      ensures Arrived(old(remote), Children(old(remote), from), from, to, filePath)
      ensures Arrived(old(dirs), Children(old(dirs), from), from, to, dirPath)
    {
      hide Target, Within, Clear, MovedKeys, Children;
      ghost var paths0 := filePath;
      files, filePath := RekeyMap(files, filePath, from, to, paths0);
      remote, filePath := RekeyMap(remote, filePath, from, to, paths0);
      dirs, dirPath := RekeyMap(dirs, dirPath, from, to, dirPath);
    }

    /** The map update of a directory rename: nothing is lost, and every object stands at its stored path. */
    method RenameDir(from: Path, to: Path)
      requires Valid() && Apart(from, to) && FreeAt(to)
      modifies this
      ensures Valid()
      ensures files == Moved(old(files), from, to) && remote == Moved(old(remote), from, to)
      ensures dirs == Moved(old(dirs), from, to)
    {
      hide Target, Within, Under, MovedKeys, Moved, Clear, PathsFollow, Arrived, Children, ChildrenReady, RootOnly;
      ghost var files0, remote0, dirs0, p0, d0 := files, remote, dirs, filePath, dirPath;
      NotThere(files0, to);
      NotThere(dirs0, to);
      files := files - {to};
      files, filePath := MoveRoot(files, filePath, from, to);
      dirs, dirPath := MoveRoot(dirs, dirPath, from, to);
      ghost var files1, dirs1, p1, d1 := files, dirs, filePath, dirPath;
      ReadyAfterRoot(files0, p0, from, to, files1, p1);
      ReadyAfterRoot(remote0, p0, from, to, remote0, p1);
      ReadyAfterRoot(dirs0, d0, from, to, dirs1, d1);
      RekeyChildren(from, to);
      ghost var remote1, p2 := remote, filePath;
      ChildrenMoved(remote0, from, to, remote1);
      RemoteRootPath(remote0, p0, p1, p2, from, to);
      remote, filePath := MoveRoot(remote, filePath, from, to);
      RootFirstStored(files0, from, to, files1, files, p0, p1, p2, filePath);
      StaysPut(dirPath, from, to);
      RootFirstStored(dirs0, from, to, dirs1, dirs, d0, d1, dirPath, dirPath);
      ChildrenFirstStored(remote0, from, to, remote1, remote, p0, p1, p2, filePath);
    }

    /** UndoLocalDirMove, whose disk rename succeeded: the move back, root first in every map. */
    method UndoLocalDirMove(movedTo: Path, movedFrom: Path)
      requires Valid() && Apart(movedTo, movedFrom) && FreeAt(movedFrom)
      modifies this
      ensures Valid()
      ensures files == Moved(old(files), movedTo, movedFrom) && remote == Moved(old(remote), movedTo, movedFrom)
      ensures dirs == Moved(old(dirs), movedTo, movedFrom)
    {
      hide Target, Within, Under, MovedKeys, Moved, Clear, PathsFollow, Arrived, Children, ChildrenReady, RootOnly;
      ghost var from, to := movedTo, movedFrom;
      ghost var files0, remote0, dirs0, p0, d0 := files, remote, dirs, filePath, dirPath;
      NotThere(files0, to);
      NotThere(dirs0, to);
      NotThere(remote0, to);
      files, filePath := MoveRoot(files, filePath, movedTo, movedFrom);
      ghost var p1 := filePath;
      dirs, dirPath := MoveRoot(dirs, dirPath, movedTo, movedFrom);
      StaysPut(p0, from, to);
      RemoteRootPath(remote0, p0, p0, p1, from, to);
      remote, filePath := MoveRoot(remote, filePath, movedTo, movedFrom);
      ghost var files1, remote1, dirs1, p2, d1 := files, remote, dirs, filePath, dirPath;
      RootsOnly(p0, p1, p2, from);
      ReadyAfterRoot(files0, p0, from, to, files1, p2);
      ReadyAfterRoot(remote0, p0, from, to, remote1, p2);
      ReadyAfterRoot(dirs0, d0, from, to, dirs1, d1);
      RekeyChildren(movedTo, movedFrom);
      StaysPut(filePath, from, to);
      StaysPut(dirPath, from, to);
      FollowOn(p0, p1, p2, from, to);
      FollowOn(p1, p2, filePath, from, to);
      RootFirstStored(files0, from, to, files1, files, p0, p1, filePath, filePath);
      RootFirstStored(remote0, from, to, remote1, remote, p0, p2, filePath, filePath);
      RootFirstStored(dirs0, from, to, dirs1, dirs, d0, d1, dirPath, dirPath);
    }
  }
}
