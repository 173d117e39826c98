/** `Put` (`storage/local/local.go`): write a temporary file beside the target,
    then rename it over the target. */
module Puts {
  import opened Options
  import opened Stores

  const TEMP_PREFIX := ".tethux-"
  const DEFAULT_MODE := 420 // 0o644
  const TEMP_MODE := 384 // 0o600

  /** `conditional` and `metadata` stand for the options a local store refuses. */
  datatype PutOptions = PutOptions(mode: nat, conditional: bool, metadata: bool)

  function Mode(options: PutOptions): nat {
    if options.mode == 0 then DEFAULT_MODE else options.mode
  }

  /** A name that `os.CreateTemp` may choose. */
  predicate IsTempName(name: string) {
    TEMP_PREFIX <= name
  }

  /** After success only the target differs, and missing directories above it. */
  ghost predicate StoredAt(was: Tree, now: Tree, path: Path, entry: Entry, q: Path) {
    if q == path then q in now && now[q] == entry
    else Same(was, now, q) || (q < path && q !in was && q in now && now[q].Dir?)
  }

  ghost predicate Stored(was: Tree, now: Tree, path: Path, entry: Entry) {
    forall q :: StoredAt(was, now, path, entry, q)
  }

  /** After a failure nothing differs but missing directories above the target
      and a temporary file that could not be removed. */
  ghost predicate KeptAt(was: Tree, now: Tree, path: Path, left: Option<Path>, q: Path) {
    if left == Some(q) then q !in was && q in now
    else Same(was, now, q) || (q < path && q !in was && q in now && now[q].Dir?)
  }

  ghost predicate Kept(was: Tree, now: Tree, path: Path, left: Option<Path>) {
    forall q :: KeptAt(was, now, path, left, q)
  }

  /** The temporary file is the only addition to `base` so far. */
  ghost predicate Staged(base: Tree, now: Tree, tmp: Path) {
    tmp !in base && tmp in now && now[tmp].File? && now == base[tmp := now[tmp]]
  }

  /** How the host behaves around one call: which directories cannot be made,
      whether the temporary file can be created, the suffix that makes its name,
      and whether it can be removed again. */
  datatype Host = Host(unmade: Path -> bool, createFails: bool, suffix: string, removeFails: bool)

  function TempPath(path: Path, host: Host): Path
    requires path != []
  {
    Parent(path) + [TEMP_PREFIX + host.suffix]
  }

  /** `os.CreateTemp` in the directory of the target. */
  method CreateTemp(store: Store, path: Path, host: Host) returns (tmp: Option<Path>)
    requires store.Valid() && path != [] && Parent(path) in store.tree && store.tree[Parent(path)].Dir?
    modifies store`tree
    ensures store.Valid()
    ensures tmp == if host.createFails || TempPath(path, host) in old(store.tree) then None else Some(TempPath(path, host))
    ensures tmp.None? ==> store.tree == old(store.tree)
    ensures tmp.Some? ==> Staged(old(store.tree), store.tree, tmp.value) && store.tree[tmp.value] == File([], TEMP_MODE)
  {
    var p := TempPath(path, host);
    if host.createFails || p in store.tree {
      return None;
    }
    Attach(store.tree, p, File([], TEMP_MODE));
    store.tree := store.tree[p := File([], TEMP_MODE)];
    tmp := Some(p);
  }

  /** Fills the temporary file: mode, contents, sync, close. */
  method Fill(store: Store, tmp: Path, reader: Reader, mode: nat, ghost base: Tree) returns (ok: bool)
    requires store.Valid() && Staged(base, store.tree, tmp) && store.tree[tmp].bytes == []
    modifies store, reader
    ensures store.Valid() && Staged(base, store.tree, tmp)
    ensures store.faults >= old(store.faults)
    ensures ok <==> Ends(old(reader.script)) && store.faults == old(store.faults)
    ensures ok ==> store.tree[tmp] == File(Stream(old(reader.script)), mode)
  {
    ok := store.Chmod(tmp, mode);
    if !ok {
      return;
    }
    ghost var whole := Stream(reader.script);
    var written;
    written, ok := CopyContext(store, tmp, reader);
    assert ok ==> [] + whole[..written] == whole;
    if !ok {
      return;
    }
    var synced := store.Try();
    if !synced {
      return false;
    }
    ok := store.Try();
  }

  /** Removes the temporary file after a failure. */
  method Discard(store: Store, tmp: Path, host: Host, ghost base: Tree)
    requires store.Valid() && Staged(base, store.tree, tmp)
    modifies store`tree
    ensures store.Valid()
    ensures if host.removeFails then Staged(base, store.tree, tmp) else store.tree == base
  {
    store.Remove(tmp, host.removeFails);
  }

  /** The call gets as far as creating its temporary file. */
  ghost predicate Stages(was: Tree, path: Path, admitted: bool, host: Host)
    requires path != []
  {
    && admitted && Creatable(was, Parent(path), host.unmade)
    && !host.createFails && TempPath(path, host) !in was
  }

  /** Nothing but a fault can keep the call from succeeding: it stages its file, the
      stream has an end, and no directory has the target's place. */
  ghost predicate Putable(was: Tree, path: Path, admitted: bool, script: seq<Chunk>, host: Host)
    requires path != []
  {
    Stages(was, path, admitted, host) && Ends(script) && !(path in was && was[path].Dir?)
  }

  /** What a failed call leaves behind. */
  ghost function Leftover(was: Tree, path: Path, admitted: bool, host: Host): Option<Path>
    requires path != []
  {
    if Stages(was, path, admitted, host) && host.removeFails then Some(TempPath(path, host)) else None
  }

  /** The request is one that the store accepts. */
  ghost predicate Admitted(refused: bool, reader: Reader?, options: PutOptions) {
    !refused && reader != null && !options.conditional && !options.metadata
  }

  /** `Put`, where `refused` says that the context is done or the reference
      invalid. The target ends up with the reader's whole stream, or as it was,
      unless the call fails after it gave the temporary file the name of an absent
      target and cannot remove it. */
  method Put(store: Store, path: Path, reader: Reader?, options: PutOptions, refused: bool, host: Host)
    returns (ok: bool)
    requires store.Valid() && path != []
    modifies store, reader
    ensures store.Valid()
    ensures ok <==> && store.faults == old(store.faults)
                    && Admitted(refused, reader, options)
                    && Putable(old(store.tree), path, true, old(reader.script), host)
    ensures ok ==> Stored(old(store.tree), store.tree, path,
                          File(Stream(old(reader.script)), if options.mode == 0 then 420 else options.mode))
    ensures !ok ==> Kept(old(store.tree), store.tree, path,
                         Leftover(old(store.tree), path, Admitted(refused, reader, options), host))
    ensures !ok ==> (Same(old(store.tree), store.tree, path) <==>
                     !Exposed(old(store.tree), path, Admitted(refused, reader, options), host))
    ensures !ok && (path in old(store.tree) || !IsTempName(Last(path))) ==> Same(old(store.tree), store.tree, path)
    ensures !Admitted(refused, reader, options) ==> store.tree == old(store.tree)
  {
    ghost var was, admitted := store.tree, Admitted(refused, reader, options);
    ghost var left := Leftover(was, path, admitted, host);
    NothingIsKept(was, path);
    ExposedByName(was, path, admitted, host);
    if refused || reader == null || options.conditional || options.metadata {
      assert KeptAt(was, store.tree, path, left, path);
      return false;
    }
    ok := store.MkdirAll(Parent(path), host.unmade);
    KeptByGrowth(was, store.tree, path);
    if ok {
      assert Same(was, store.tree, TempPath(path, host)) && Same(was, store.tree, path) by {
        assert KeptAt(was, store.tree, path, None, TempPath(path, host));
        assert KeptAt(was, store.tree, path, None, path);
      }
      ok := Replace(store, path, reader, Mode(options), host, was);
    }
    assert ok || KeptAt(was, store.tree, path, left, path);
  }

  lemma NothingIsKept(was: Tree, path: Path)
    ensures Kept(was, was, path, None)
  {
    forall q ensures KeptAt(was, was, path, None, q) {
    }
  }

  lemma KeptByGrowth(was: Tree, now: Tree, path: Path)
    requires path != [] && Grown(was, now, Parent(path))
    ensures Kept(was, now, path, None)
  {
    forall q ensures KeptAt(was, now, path, None, q) {
      assert GrownAt(was, now, Parent(path), q);
    }
  }

  /** `Put` from the temporary file on. */
  method Replace(store: Store, path: Path, reader: Reader, mode: nat, host: Host, ghost was: Tree) returns (ok: bool)
    requires store.Valid() && path != [] && Parent(path) in store.tree && store.tree[Parent(path)].Dir?
    requires Kept(was, store.tree, path, None) && Creatable(was, Parent(path), host.unmade)
    requires Same(was, store.tree, TempPath(path, host)) && Same(was, store.tree, path)
    modifies store, reader
    ensures store.Valid() && store.faults >= old(store.faults)
    ensures ok <==> store.faults == old(store.faults) && Putable(was, path, true, old(reader.script), host)
    ensures ok ==> Stored(was, store.tree, path, File(Stream(old(reader.script)), mode))
    ensures !ok ==> Kept(was, store.tree, path, Leftover(was, path, true, host))
  {
    ghost var base := store.tree;
    var tmp := CreateTemp(store, path, host);
    if tmp.None? {
      return false;
    }
    ok := Fill(store, tmp.value, reader, mode, base);
    if ok {
      ghost var filled := store.tree;
      ok := store.Rename(tmp.value, path);
      if ok {
        StoredByRename(was, base, filled, store.tree, path, tmp.value);
        return;
      }
    }
    Discard(store, tmp.value, host, base);
    KeptByStaging(was, base, store.tree, path, Leftover(was, path, true, host));
  }

  lemma StoredByRename(was: Tree, base: Tree, filled: Tree, now: Tree, path: Path, tmp: Path)
    requires Kept(was, base, path, None) && Staged(base, filled, tmp) && now == (filled - {tmp})[path := filled[tmp]]
    ensures Stored(was, now, path, filled[tmp])
  {
    forall q ensures StoredAt(was, now, path, filled[tmp], q) {
      assert KeptAt(was, base, path, None, q);
    }
  }

  lemma KeptByStaging(was: Tree, base: Tree, now: Tree, path: Path, left: Option<Path>)
    requires Kept(was, base, path, None) && path != []
    requires left.None? ==> now == base
    requires left.Some? ==> left.value !in base && left.value in now && now == base[left.value := now[left.value]]
    ensures Kept(was, now, path, left)
  {
    forall q ensures KeptAt(was, now, path, left, q) {
      assert KeptAt(was, base, path, None, q);
    }
  }

  // ------------------------------------------------------------ when a failure shows

  /** The host gives the temporary file the name of an absent target and cannot
      remove it. */
  ghost predicate Exposed(was: Tree, path: Path, admitted: bool, host: Host)
    requires path != []
  {
    && admitted && Creatable(was, Parent(path), host.unmade) && !host.createFails
    && path !in was && Last(path) == TEMP_PREFIX + host.suffix && host.removeFails
  }

  lemma ExposedByName(was: Tree, path: Path, admitted: bool, host: Host)
    requires path != []
    ensures Exposed(was, path, admitted, host) <==> Leftover(was, path, admitted, host) == Some(path)
    ensures Exposed(was, path, admitted, host) ==> path !in was && IsTempName(Last(path))
  {
    assert path == Parent(path) + [Last(path)];
    assert TempPath(path, host) == path <==> Last(path) == TEMP_PREFIX + host.suffix by {
      assert Last(TempPath(path, host)) == TEMP_PREFIX + host.suffix;
    }
  }

  /** What a caller can check beforehand: some host exposes the target exactly when
      the request is admitted, the target is absent and named like a temporary
      file, and no file is in the way of its parents. */
  lemma SomeHostExposes(was: Tree, path: Path, admitted: bool)
    requires path != []
    ensures (exists host :: Exposed(was, path, admitted, host)) <==>
            && admitted && path !in was && IsTempName(Last(path))
            && forall k :: 0 <= k < |path| && path[..k] in was ==> was[path[..k]].Dir?
  {
    if admitted && path !in was && IsTempName(Last(path))
       && forall k :: 0 <= k < |path| && path[..k] in was ==> was[path[..k]].Dir?
    {
      var host := Host(_ => false, false, Last(path)[|TEMP_PREFIX|..], true);
      forall k | 0 <= k <= |Parent(path)| ensures Passable(was, Parent(path)[..k], host.unmade) {
        assert Parent(path)[..k] == path[..k];
      }
      assert Exposed(was, path, admitted, host);
    }
    forall host | Exposed(was, path, admitted, host)
      ensures IsTempName(Last(path)) && forall k :: 0 <= k < |path| && path[..k] in was ==> was[path[..k]].Dir?
    {
      forall k | 0 <= k < |path| && path[..k] in was ensures was[path[..k]].Dir? {
        assert Parent(path)[..k] == path[..k];
        assert Passable(was, Parent(path)[..k], host.unmade);
      }
    }
  }

  /** Such a call: the reader breaks after one byte, and what was staged under the
      target's name stays. */
  method FailedPutShows() returns (tree: Tree, ok: bool)
    ensures !ok && [".tethux-1"] in tree
  {
    var store := new Store(0);
    var reader := new Reader([Chunk([1], Broken)]);
    var path, host := [".tethux-1"], Host(_ => false, false, "1", true);
    ghost var was := store.tree;
    assert Exposed(was, path, true, host) by {
      assert Parent(path) == [];
      assert forall k :: 0 <= k <= |Parent(path)| ==> Parent(path)[..k] == [];
    }
    ok := Put(store, path, reader, PutOptions(0, false, false), false, host);
    tree := store.tree;
  }
}
