/** `Copy` and `copyPath` (`storage/local/local.go`): the recursive copy of a tree
    that holds no symbolic links onto a place outside it, or onto itself. */
module TreeCopies {
  import opened Options
  import opened Stores

  // ------------------------------------------------------------ references

  /** What stands between two slashes of a key: nothing, `.`, `..`, or a name. */
  datatype Component = Nothing | Dot | DotDot | Named(name: string)

  datatype Ref = Ref(provider: string, key: seq<Component>)

  /** `filepath.Clean` of a relative key; `None` when it leads out of the root. */
  function Clean(key: seq<Component>): Option<Path> {
    if key == [] then Some([])
    else
      var before := Clean(key[..|key| - 1]);
      if before.None? then None
      else
        match key[|key| - 1]
        case Nothing => before
        case Dot => before
        case DotDot => if before.value == [] then None else Some(Parent(before.value))
        case Named(name) => Some(before.value + [name])
  }

  /** The key that spells a path out. */
  function KeyOf(p: Path): seq<Component> {
    seq(|p|, i requires 0 <= i < |p| => Named(p[i]))
  }

  /** Every path is what its own key cleans to. */
  lemma {:induction false} CleanKeepsPaths(p: Path)
    ensures Clean(KeyOf(p)) == Some(p)
    decreases |p|
  {
    if p != [] {
      CleanKeepsPaths(Parent(p));
      assert KeyOf(p)[..|p| - 1] == KeyOf(Parent(p));
      assert p == Parent(p) + [Last(p)];
    }
  }

  lemma CleanNext(key: seq<Component>, c: Component)
    ensures Clean(key).None? ==> Clean(key + [c]) == None
    ensures Clean(key).Some? && (c.Nothing? || c.Dot?) ==> Clean(key + [c]) == Clean(key)
    ensures Clean(key).Some? && c.DotDot? ==>
              Clean(key + [c]) == if Clean(key).value == [] then None else Some(Parent(Clean(key).value))
    ensures Clean(key).Some? && c.Named? ==> Clean(key + [c]) == Some(Clean(key).value + [c.name])
  {
    assert (key + [c])[..|key|] == key;
  }

  /** What comes before matters only by what it cleans to. */
  lemma {:induction false} CleanFollows(a: seq<Component>, b: seq<Component>, rest: seq<Component>)
    requires Clean(a) == Clean(b)
    ensures Clean(a + rest) == Clean(b + rest)
    ensures Clean(a) == None ==> Clean(a + rest) == None
    decreases |rest|
  {
    if rest == [] {
      assert a + rest == a && b + rest == b;
    } else {
      var front, last := rest[..|rest| - 1], rest[|rest| - 1];
      assert a + rest == a + front + [last] && b + rest == b + front + [last];
      CleanFollows(a, b, front);
      CleanNext(a + front, last);
      CleanNext(b + front, last);
    }
  }

  /** The rules of cleaning, at any place of a key: empty components and dots count for
      nothing, a name and the way up from it cancel out, and a way up from the root
      leads out for good. */
  lemma CleanRules(a: seq<Component>, name: string, rest: seq<Component>)
    ensures Clean(a + [Nothing] + rest) == Clean(a + rest) && Clean(a + [Dot] + rest) == Clean(a + rest)
    ensures Clean(a + [Named(name), DotDot] + rest) == Clean(a + rest)
    ensures Clean(a) == Some([]) ==> Clean(a + [DotDot] + rest) == None
  {
    CleanNext(a, Nothing);
    CleanNext(a, Dot);
    CleanNext(a, DotDot);
    CleanNext(a, Named(name));
    CleanNext(a + [Named(name)], DotDot);
    assert a + [Named(name)] + [DotDot] == a + [Named(name), DotDot];
    if Clean(a).Some? {
      assert Parent(Clean(a).value + [name]) == Clean(a).value;
    }
    CleanFollows(a + [Nothing], a, rest);
    CleanFollows(a + [Dot], a, rest);
    CleanFollows(a + [Named(name), DotDot], a, rest);
    CleanFollows(a + [DotDot], a + [DotDot], rest);
  }

  /** `pathFor`, for a provider called `name`. */
  function PathFor(name: string, ref: Ref): (p: Option<Path>)
    ensures p.Some? ==> p.value != []
  {
    if ref.provider == "" || ref.key == [Nothing] || ref.provider != name then None
    else if |ref.key| > 1 && ref.key[0].Nothing? then None
    else if Clean(ref.key) == Some([]) then None
    else Clean(ref.key)
  }

  /** A place other than the root can be named, and what a reference names is a place of
      its own provider, never the root. */
  lemma PathForNames(name: string, p: Path, ref: Ref)
    ensures |name| > 0 && p != [] ==> PathFor(name, Ref(name, KeyOf(p))) == Some(p)
    ensures PathFor(name, ref) == Some(p) ==> |name| > 0 && ref.provider == name && p != [] && Clean(ref.key) == Some(p)
    ensures ref.key != [] && ref.key[0].Nothing? && |ref.key| > 1 ==> PathFor(name, ref) == None
  {
    CleanKeepsPaths(p);
    if p != [] {
      assert KeyOf(p)[0] == Named(p[0]);
    }
  }

  // ------------------------------------------------------------ what a copy does

  /** Neither path lies within the other. */
  ghost predicate Apart(a: Path, b: Path) {
    !(a <= b) && !(b <= a)
  }

  /** The source path that `p` below `dst` is copied from. */
  function Origin(src: Path, dst: Path, p: Path): Path
    requires dst <= p
  {
    src + p[|dst|..]
  }

  /** Whether the source has something for `p`. */
  predicate Covered(tree: Tree, src: Path, dst: Path, p: Path) {
    dst <= p && Origin(src, dst, p) in tree
  }

  ghost predicate Related(a: Path, b: Path) {
    a == b || Apart(a, b)
  }

  /** A special file that is already at `p` takes the mode but stays what it is; a
      file that is copied onto itself is emptied before it is read. */
  function Placed(was: Tree, origin: Path, p: Path): Entry
    requires origin in was
  {
    if was[origin].File? && p in was && was[p].Special? then was[p].(perm := was[origin].perm)
    else if was[origin].File? && origin == p then was[origin].(bytes := [])
    else was[origin]
  }

  /** Untouched, or a directory added above the destination. */
  ghost predicate Outside(was: Tree, now: Tree, dst: Path, p: Path) {
    Same(was, now, p) || (p < dst && p !in was && p in now && now[p].Dir?)
  }

  /** `origin` may be copied to `p`: it is a file or directory, and what is at `p`
      may be overwritten by its kind. */
  ghost predicate Allowed(was: Tree, overwrite: bool, origin: Path, p: Path)
    requires origin in was
  {
    !was[origin].Special? && (p in was ==> overwrite && (was[p].Dir? <==> was[origin].Dir?))
  }

  ghost predicate CopiedAt(was: Tree, now: Tree, src: Path, dst: Path, overwrite: bool, p: Path) {
    if Covered(was, src, dst, p) then
      && Allowed(was, overwrite, Origin(src, dst, p), p)
      && p in now && now[p] == Placed(was, Origin(src, dst, p), p)
    else Outside(was, now, dst, p)
  }

  /** The copy to `p` meets nothing that stops it: it is allowed, and a directory that
      is missing at `p` can be made. */
  ghost predicate FitsAt(was: Tree, src: Path, dst: Path, overwrite: bool, unmade: Path -> bool, p: Path) {
    Covered(was, src, dst, p) ==>
      && Allowed(was, overwrite, Origin(src, dst, p), p)
      && (was[Origin(src, dst, p)].Dir? && p !in was ==> !unmade(p))
  }

  ghost predicate Fits(was: Tree, src: Path, dst: Path, overwrite: bool, unmade: Path -> bool) {
    forall p :: FitsAt(was, src, dst, overwrite, unmade, p)
  }

  /** Nothing but a fault can keep the copy from succeeding. */
  ghost predicate Copyable(was: Tree, src: Path, dst: Path, overwrite: bool, unmade: Path -> bool)
    requires dst != []
  {
    src in was && Creatable(was, Parent(dst), unmade) && Fits(was, src, dst, overwrite, unmade)
  }

  /** The destination is its old tree overlaid with the source tree; everything
      else is as it was, but for added directories above the destination. */
  ghost predicate Copied(was: Tree, now: Tree, src: Path, dst: Path, overwrite: bool) {
    forall p :: CopiedAt(was, now, src, dst, overwrite, p)
  }

  /** A copy that stopped: only covered places may differ, and none is removed. */
  ghost predicate ConfinedAt(was: Tree, now: Tree, src: Path, dst: Path, p: Path) {
    if Covered(was, src, dst, p) then p in was ==> p in now else Outside(was, now, dst, p)
  }

  ghost predicate Confined(was: Tree, now: Tree, src: Path, dst: Path) {
    forall p :: ConfinedAt(was, now, src, dst, p)
  }

  /** What is confined to the destination leaves the source alone. */
  lemma SourceIsKept(was: Tree, now: Tree, src: Path, dst: Path, p: Path)
    requires Confined(was, now, src, dst) && Apart(src, dst) && src <= p
    ensures Same(was, now, p)
  {
    assert ConfinedAt(was, now, src, dst, p);
    if dst <= p {
      PrefixesMeet(src, dst, p);
    }
  }

  /** The part of the tree below a path. */
  ghost function Below(tree: Tree, p: Path): set<Path> {
    set q | q in tree && p <= q
  }

  /** A child's part is smaller than its directory's. */
  lemma ChildIsSmaller(tree: Tree, p: Path, name: string)
    requires p in tree
    ensures |Below(tree, p + [name])| < |Below(tree, p)|
  {
    var child := p + [name];
    forall q | q in Below(tree, child) ensures q in Below(tree, p) {
      assert p == child[..|p|] && child == q[..|child|];
      assert p == q[..|p|];
    }
    assert p in Below(tree, p) && p !in Below(tree, child);
    Smaller(Below(tree, child), Below(tree, p));
  }

  lemma Smaller(a: set<Path>, b: set<Path>)
    requires a < b
    ensures |a| < |b|
  {
    assert b == a + (b - a);
    assert |b| == |a| + |b - a|;
  }

  lemma ChildrenAreRelated(src: Path, dst: Path, name: string)
    requires Related(src, dst)
    ensures Related(src + [name], dst + [name])
  {
    if src == dst {
      return;
    }
    if src + [name] <= dst + [name] {
      ParentsFollow(src, dst, name);
    }
    if dst + [name] <= src + [name] {
      ParentsFollow(dst, src, name);
    }
  }

  lemma ParentsFollow(a: Path, b: Path, name: string)
    requires a + [name] <= b + [name]
    ensures a <= b
  {
    assert (a + [name])[..|a|] == a && (b + [name])[..|a|] == b[..|a|];
  }

  // ------------------------------------------------------------ one file

  /** The second half of `copyPath`: a regular file. */
  method CopyFile(store: Store, src: Path, dst: Path, overwrite: bool, unmade: Path -> bool) returns (ok: bool)
    requires store.Valid() && Related(src, dst) && dst != [] && src in store.tree && store.tree[src].File?
    modifies store
    ensures store.Valid() && Confined(old(store.tree), store.tree, src, dst)
    ensures store.faults >= old(store.faults)
    ensures ok <==> && store.faults == old(store.faults)
                    && Creatable(old(store.tree), Parent(dst), unmade) && Allowed(old(store.tree), overwrite, src, dst)
    ensures ok ==> Copied(old(store.tree), store.tree, src, dst, overwrite)
  {
    ghost var was := store.tree;
    ok := store.MkdirAll(Parent(dst), unmade);
    ghost var grown := store.tree;
    GrowthIsConfined(was, grown, src, dst);
    if !ok {
      return;
    }
    assert GrownAt(was, grown, Parent(dst), src) && GrownAt(was, grown, Parent(dst), dst);
    var perm := store.tree[src].perm;
    var readable := store.Try();
    if !readable {
      return false;
    }
    ok := store.OpenForWriting(dst, overwrite, perm);
    if !ok {
      return;
    }
    ok := Transfer(store, src, dst, perm);
    FileIsConfined(was, grown, store.tree, src, dst);
    if ok {
      FileIsCopied(was, grown, store.tree, src, dst, overwrite);
    }
  }

  /** Contents and mode, once the destination is open and empty. */
  method Transfer(store: Store, src: Path, dst: Path, perm: nat) returns (ok: bool)
    requires store.Valid() && src in store.tree && store.tree[src].File?
    requires dst in store.tree && (store.tree[dst].Special? || (store.tree[dst].File? && store.tree[dst].bytes == []))
    modifies store
    ensures store.Valid() && dst in store.tree && store.tree == old(store.tree)[dst := store.tree[dst]]
    ensures store.faults >= old(store.faults) && (ok <==> store.faults == old(store.faults))
    ensures ok ==> store.tree[dst] == if old(store.tree)[dst].Special? then Special(perm)
                                      else File(old(store.tree)[src].bytes, perm)
  {
    var reader := store.ReaderOf(src);
    ghost var script, bytes := reader.script, store.tree[src].bytes;
    var written;
    written, ok := CopyContext(store, dst, reader);
    assert ok ==> [] + Stream(script)[..written] == bytes;
    if !ok {
      return;
    }
    var closed := store.Try();
    if !closed {
      return false;
    }
    ok := store.Chmod(dst, perm);
  }

  lemma GrowthIsConfined(was: Tree, grown: Tree, src: Path, dst: Path)
    requires dst != [] && Grown(was, grown, Parent(dst))
    ensures Confined(was, grown, src, dst)
  {
    forall p ensures ConfinedAt(was, grown, src, dst, p) {
      assert GrownAt(was, grown, Parent(dst), p);
    }
  }

  lemma FileIsConfined(was: Tree, grown: Tree, now: Tree, src: Path, dst: Path)
    requires dst != [] && src in was && Grown(was, grown, Parent(dst)) && dst in now && now == grown[dst := now[dst]]
    ensures Confined(was, now, src, dst)
  {
    forall p ensures ConfinedAt(was, now, src, dst, p) {
      assert GrownAt(was, grown, Parent(dst), p);
      if p == dst {
        assert Origin(src, dst, p) == src;
      }
    }
  }

  lemma FileIsCopied(was: Tree, grown: Tree, now: Tree, src: Path, dst: Path, overwrite: bool)
    requires WellFormed(was) && src in was && was[src].File?
    requires dst != [] && Grown(was, grown, Parent(dst)) && dst in now && now == grown[dst := now[dst]]
    requires Allowed(was, overwrite, src, dst) && now[dst] == Placed(was, src, dst)
    ensures Copied(was, now, src, dst, overwrite)
  {
    forall p ensures CopiedAt(was, now, src, dst, overwrite, p) {
      assert GrownAt(was, grown, Parent(dst), p);
      if dst <= p {
        if p == dst {
          assert Origin(src, dst, p) == src;
        } else if Origin(src, dst, p) in was {
          AncestorsAreDirs(was, Origin(src, dst, p), src);
        }
      }
    }
  }

  // ------------------------------------------------------------ directories

  /** The directory itself and the children named in `done` are copied. */
  ghost predicate PartlyAt(was: Tree, now: Tree, src: Path, dst: Path, overwrite: bool, done: set<string>, p: Path) {
    if p == dst then src in was && Allowed(was, overwrite, src, dst) && p in now && now[p] == was[src]
    else if dst < p && p[|dst|] !in done then Same(was, now, p)
    else CopiedAt(was, now, src, dst, overwrite, p)
  }

  ghost predicate Partly(was: Tree, now: Tree, src: Path, dst: Path, overwrite: bool, done: set<string>) {
    src in was && was[src].Dir? && dst in now && forall p :: PartlyAt(was, now, src, dst, overwrite, done, p)
  }

  /** What is still to be copied is as it was. */
  lemma PartlyKeepsSource(was: Tree, now: Tree, src: Path, dst: Path, overwrite: bool, done: set<string>, p: Path)
    requires Partly(was, now, src, dst, overwrite, done) && Related(src, dst) && src <= p
    requires src == dst ==> p == src || p[|src|] !in done
    ensures Same(was, now, p)
  {
    assert PartlyAt(was, now, src, dst, overwrite, done, p);
    if src != dst && dst <= p {
      PrefixesMeet(src, dst, p);
    }
  }

  /** Two prefixes of one path are not apart. */
  lemma PrefixesMeet(a: Path, b: Path, p: Path)
    requires a <= p && b <= p
    ensures !Apart(a, b)
  {
    assert a == p[..|a|] && b == p[..|b|];
    assert if |a| <= |b| then a == b[..|a|] else b == a[..|b|];
  }

  /** The directory branch up to the loop over the entries. */
  method PrepareDir(store: Store, src: Path, dst: Path, overwrite: bool, unmade: Path -> bool) returns (ok: bool)
    requires store.Valid() && Related(src, dst) && dst != [] && src in store.tree && store.tree[src].Dir?
    modifies store
    ensures store.Valid() && Confined(old(store.tree), store.tree, src, dst)
    ensures store.faults >= old(store.faults)
    ensures ok <==> && store.faults == old(store.faults) && Creatable(old(store.tree), Parent(dst), unmade)
                    && FitsAt(old(store.tree), src, dst, overwrite, unmade, dst)
    ensures ok ==> Partly(old(store.tree), store.tree, src, dst, overwrite, {})
  {
    ghost var was := store.tree;
    MakeableDir(was, src, dst, overwrite, unmade);
    if dst in store.tree {
      if !store.tree[dst].Dir? || !overwrite {
        DirIsConfined(was, was, was, src, dst);
        return false;
      }
    } else {
      ok := store.MkdirAll(dst, unmade);
      DirIsConfined(was, store.tree, store.tree, src, dst);
      if !ok {
        return;
      }
    }
    ghost var grown := store.tree;
    DirIsConfined(was, grown, grown, src, dst);
    assert Grown(was, grown, dst) && GrownAt(was, grown, dst, src);
    var perm := store.tree[src].perm;
    ok := store.Chmod(dst, perm);
    DirIsConfined(was, grown, store.tree, src, dst);
    if ok {
      DirIsPartly(was, grown, store.tree, src, dst, overwrite);
    }
  }

  /** What it takes to have a directory at `dst`. */
  lemma MakeableDir(was: Tree, src: Path, dst: Path, overwrite: bool, unmade: Path -> bool)
    requires WellFormed(was) && dst != [] && src in was && was[src].Dir?
    ensures Creatable(was, Parent(dst), unmade) && FitsAt(was, src, dst, overwrite, unmade, dst) <==>
            if dst in was then was[dst].Dir? && overwrite else Creatable(was, dst, unmade)
  {
    assert Origin(src, dst, dst) == src && dst[..|dst|] == dst;
    if dst in was {
      forall k | 0 <= k <= |Parent(dst)| ensures Passable(was, Parent(dst)[..k], unmade) {
        AncestorsAreDirs(was, dst, Parent(dst)[..k]);
      }
    } else {
      assert forall k :: 0 <= k < |dst| ==> Parent(dst)[..k] == dst[..k];
      if Creatable(was, Parent(dst), unmade) && !unmade(dst) {
        forall k | 0 <= k <= |dst| ensures Passable(was, dst[..k], unmade) {
          if k < |dst| {
            assert Passable(was, Parent(dst)[..k], unmade);
          }
        }
      }
      if Creatable(was, dst, unmade) {
        assert Passable(was, dst[..|dst|], unmade);
        forall k | 0 <= k <= |Parent(dst)| ensures Passable(was, Parent(dst)[..k], unmade) {
          assert Passable(was, dst[..k], unmade);
        }
      }
    }
  }

  lemma DirIsConfined(was: Tree, grown: Tree, now: Tree, src: Path, dst: Path)
    requires src in was && Grown(was, grown, dst)
    requires now == grown || (dst in now && now == grown[dst := now[dst]])
    ensures Confined(was, now, src, dst)
  {
    forall p ensures ConfinedAt(was, now, src, dst, p) {
      assert GrownAt(was, grown, dst, p);
      if p == dst {
        assert Origin(src, dst, p) == src;
      }
    }
  }

  lemma DirIsPartly(was: Tree, grown: Tree, now: Tree, src: Path, dst: Path, overwrite: bool)
    requires src in was && was[src].Dir? && Grown(was, grown, dst) && Allowed(was, overwrite, src, dst)
    requires now == grown[dst := was[src]]
    ensures Partly(was, now, src, dst, overwrite, {})
  {
    forall p ensures PartlyAt(was, now, src, dst, overwrite, {}, p) {
      assert GrownAt(was, grown, dst, p);
    }
  }

  /** One more child. */
  lemma ChildIsCopied(was: Tree, now: Tree, more: Tree, src: Path, dst: Path, overwrite: bool,
                      done: set<string>, name: string)
    requires WellFormed(now) && Related(src, dst) && name !in done
    requires Partly(was, now, src, dst, overwrite, done)
    requires Copied(now, more, src + [name], dst + [name], overwrite)
    ensures Partly(was, more, src, dst, overwrite, done + {name})
  {
    forall p ensures PartlyAt(was, more, src, dst, overwrite, done + {name}, p) {
      ChildAt(was, now, more, src, dst, overwrite, done, name, p);
    }
    ChildAt(was, now, more, src, dst, overwrite, done, name, dst);
  }

  lemma ChildAt(was: Tree, now: Tree, more: Tree, src: Path, dst: Path, overwrite: bool,
                done: set<string>, name: string, p: Path)
    requires WellFormed(now) && Related(src, dst) && name !in done
    requires Partly(was, now, src, dst, overwrite, done)
    requires Copied(now, more, src + [name], dst + [name], overwrite)
    ensures PartlyAt(was, more, src, dst, overwrite, done + {name}, p)
  {
    var child := dst + [name];
    assert PartlyAt(was, now, src, dst, overwrite, done, p);
    assert CopiedAt(now, more, src + [name], child, overwrite, p);
    if child <= p {
      ChildOrigin(src, dst, name, p);
      PartlyKeepsSource(was, now, src, dst, overwrite, done, Origin(src, dst, p));
    } else {
      if p < child {
        AboveChild(now, dst, name, p);
      }
      if dst < p && p[|dst|] == name {
        ChildIsPrefix(dst, name, p);
      }
    }
  }

  lemma ChildIsPrefix(dst: Path, name: string, p: Path)
    requires dst < p && p[|dst|] == name
    ensures dst + [name] <= p
  {
    assert p[..|dst| + 1] == dst + [name];
  }

  lemma ChildOrigin(src: Path, dst: Path, name: string, p: Path)
    requires dst + [name] <= p
    ensures dst < p && p[|dst|] == name && Origin(src + [name], dst + [name], p) == Origin(src, dst, p)
    ensures src <= Origin(src, dst, p)
  {
    assert (dst + [name])[..|dst|] == dst;
    assert dst == p[..|dst|] && p[|dst|] == (dst + [name])[|dst|];
    assert p[|dst|..] == [name] + p[|dst| + 1..];
  }

  /** What lies above a child of an existing directory exists. */
  lemma AboveChild(now: Tree, dst: Path, name: string, p: Path)
    requires WellFormed(now) && dst in now && p < dst + [name]
    ensures p in now
  {
    assert p == (dst + [name])[..|p|] == dst[..|p|];
    if p < dst {
      AncestorsAreDirs(now, dst, p);
    }
  }

  /** All children done. */
  lemma AllIsCopied(was: Tree, now: Tree, src: Path, dst: Path, overwrite: bool, done: set<string>)
    requires WellFormed(was) && Partly(was, now, src, dst, overwrite, done)
    requires forall name :: src + [name] in was ==> name in done
    ensures Copied(was, now, src, dst, overwrite)
  {
    forall p ensures CopiedAt(was, now, src, dst, overwrite, p) {
      assert PartlyAt(was, now, src, dst, overwrite, done, p);
      if p == dst {
        assert Origin(src, dst, p) == src;
      } else if Covered(was, src, dst, p) {
        ChildExists(was, src, Origin(src, dst, p));
      }
    }
  }

  lemma ChildExists(was: Tree, src: Path, origin: Path)
    requires WellFormed(was) && origin in was && src < origin
    ensures src + [origin[|src|]] in was
  {
    var child := src + [origin[|src|]];
    assert child == origin[..|child|];
    if child != origin {
      AncestorsAreDirs(was, origin, child);
    }
  }

  /** A child whose copy stopped. */
  lemma ChildIsConfined(was: Tree, now: Tree, more: Tree, src: Path, dst: Path, overwrite: bool,
                        done: set<string>, name: string)
    requires WellFormed(now) && Related(src, dst) && name !in done
    requires Partly(was, now, src, dst, overwrite, done)
    requires Confined(now, more, src + [name], dst + [name])
    ensures Confined(was, more, src, dst)
  {
    forall p ensures ConfinedAt(was, more, src, dst, p) {
      assert PartlyAt(was, now, src, dst, overwrite, done, p);
      assert ConfinedAt(now, more, src + [name], dst + [name], p);
      if dst + [name] <= p {
        ChildOrigin(src, dst, name, p);
        PartlyKeepsSource(was, now, src, dst, overwrite, done, Origin(src, dst, p));
      } else if p < dst + [name] {
        AboveChild(now, dst, name, p);
      }
      if p == dst {
        assert Origin(src, dst, p) == src;
      }
    }
  }

  lemma PartlyIsConfined(was: Tree, now: Tree, src: Path, dst: Path, overwrite: bool, done: set<string>)
    requires Partly(was, now, src, dst, overwrite, done)
    ensures Confined(was, now, src, dst)
  {
    forall p ensures ConfinedAt(was, now, src, dst, p) {
      assert PartlyAt(was, now, src, dst, overwrite, done, p);
      if p == dst {
        assert Origin(src, dst, p) == src;
      }
    }
  }

  lemma ChildOfKeptSource(was: Tree, now: Tree, src: Path, dst: Path, overwrite: bool, done: set<string>, name: string)
    requires Partly(was, now, src, dst, overwrite, done) && Related(src, dst) && name !in done
    ensures |Below(now, src + [name])| < |Below(was, src)|
  {
    var child := src + [name];
    assert child[..|src|] == src;
    forall q ensures q in Below(now, child) <==> q in Below(was, child) {
      if child <= q {
        assert src == child[..|src|] == q[..|src|];
        PartlyKeepsSource(was, now, src, dst, overwrite, done, q);
      }
    }
    assert Below(now, child) == Below(was, child);
    ChildIsSmaller(was, src, name);
  }

  lemma ListedChildren(was: Tree, now: Tree, src: Path, dst: Path, overwrite: bool, done: set<string>, names: seq<string>)
    requires Partly(was, now, src, dst, overwrite, done) && Related(src, dst) && ListsChildren(now, src, names)
    requires done == {}
    ensures forall name :: src + [name] in was <==> name in names
  {
    forall name ensures src + [name] in was <==> name in names {
      PartlyKeepsSource(was, now, src, dst, overwrite, done, src + [name]);
      assert Last(src + [name]) == name && src < src + [name];
    }
  }

  // ------------------------------------------------------------ when a copy succeeds

  /** A regular file has nothing below it. */
  lemma FileFits(was: Tree, src: Path, dst: Path, overwrite: bool, unmade: Path -> bool)
    requires WellFormed(was) && src in was && was[src].File?
    ensures Fits(was, src, dst, overwrite, unmade) <==> Allowed(was, overwrite, src, dst)
  {
    assert Origin(src, dst, dst) == src;
    if Allowed(was, overwrite, src, dst) {
      forall p ensures FitsAt(was, src, dst, overwrite, unmade, p) {
        if Covered(was, src, dst, p) && p != dst {
          AncestorsAreDirs(was, Origin(src, dst, p), src);
        }
      }
    } else {
      assert !FitsAt(was, src, dst, overwrite, unmade, dst);
    }
  }

  /** The directory itself and the children named in `done` fit. */
  ghost predicate FitsSoFarAt(was: Tree, src: Path, dst: Path, overwrite: bool, unmade: Path -> bool,
                              done: set<string>, p: Path)
  {
    p == dst || (dst < p && p[|dst|] in done) ==> FitsAt(was, src, dst, overwrite, unmade, p)
  }

  ghost predicate FitsSoFar(was: Tree, src: Path, dst: Path, overwrite: bool, unmade: Path -> bool, done: set<string>) {
    forall p :: FitsSoFarAt(was, src, dst, overwrite, unmade, done, p)
  }

  /** A place below a child that is still to be copied fits now if it did before. */
  lemma ChildFitsAt(was: Tree, now: Tree, src: Path, dst: Path, overwrite: bool, unmade: Path -> bool,
                    done: set<string>, name: string, p: Path)
    requires Related(src, dst) && name !in done && Partly(was, now, src, dst, overwrite, done) && dst + [name] <= p
    ensures FitsAt(now, src + [name], dst + [name], overwrite, unmade, p) <==>
            FitsAt(was, src, dst, overwrite, unmade, p)
  {
    ChildOrigin(src, dst, name, p);
    assert PartlyAt(was, now, src, dst, overwrite, done, p);
    var origin := Origin(src, dst, p);
    assert origin[|src|] == p[|dst|] == name;
    PartlyKeepsSource(was, now, src, dst, overwrite, done, origin);
  }

  /** One more child fits. */
  lemma ChildFits(was: Tree, now: Tree, src: Path, dst: Path, overwrite: bool, unmade: Path -> bool,
                  done: set<string>, name: string)
    requires Related(src, dst) && name !in done && Partly(was, now, src, dst, overwrite, done)
    requires FitsSoFar(was, src, dst, overwrite, unmade, done)
    requires Fits(now, src + [name], dst + [name], overwrite, unmade)
    ensures FitsSoFar(was, src, dst, overwrite, unmade, done + {name})
  {
    forall p ensures FitsSoFarAt(was, src, dst, overwrite, unmade, done + {name}, p) {
      assert FitsSoFarAt(was, src, dst, overwrite, unmade, done, p);
      if dst < p && p[|dst|] == name {
        ChildIsPrefix(dst, name, p);
        assert FitsAt(now, src + [name], dst + [name], overwrite, unmade, p);
        ChildFitsAt(was, now, src, dst, overwrite, unmade, done, name, p);
      }
    }
  }

  /** A child that cannot be copied is one that did not fit to begin with. */
  lemma ChildDoesNotFit(was: Tree, now: Tree, src: Path, dst: Path, overwrite: bool, unmade: Path -> bool,
                        done: set<string>, name: string)
    requires WellFormed(now) && Related(src, dst) && name !in done && Partly(was, now, src, dst, overwrite, done)
    requires src + [name] in was && !Copyable(now, src + [name], dst + [name], overwrite, unmade)
    ensures !Fits(was, src, dst, overwrite, unmade)
  {
    PartlyKeepsSource(was, now, src, dst, overwrite, done, src + [name]);
    assert Creatable(now, Parent(dst + [name]), unmade) by {
      assert Parent(dst + [name]) == dst && PartlyAt(was, now, src, dst, overwrite, done, dst);
      forall k | 0 <= k <= |dst| ensures Passable(now, dst[..k], unmade) {
        if k < |dst| {
          AncestorsAreDirs(now, dst, dst[..k]);
        } else {
          assert dst[..k] == dst;
        }
      }
    }
    var p :| !FitsAt(now, src + [name], dst + [name], overwrite, unmade, p);
    ChildFitsAt(was, now, src, dst, overwrite, unmade, done, name, p);
  }

  lemma AllFits(was: Tree, src: Path, dst: Path, overwrite: bool, unmade: Path -> bool, done: set<string>)
    requires WellFormed(was) && FitsSoFar(was, src, dst, overwrite, unmade, done)
    requires forall name :: src + [name] in was ==> name in done
    ensures Fits(was, src, dst, overwrite, unmade)
  {
    forall p ensures FitsAt(was, src, dst, overwrite, unmade, p) {
      assert FitsSoFarAt(was, src, dst, overwrite, unmade, done, p);
      if p != dst && Covered(was, src, dst, p) {
        ChildExists(was, src, Origin(src, dst, p));
      }
    }
  }

  /** `copyPath`, where `unmade` tells which directories cannot be made. It succeeds
      exactly when nothing is in the way anywhere and no fault occurs. The recursion
      ends, whatever fails. */
  method CopyPath(store: Store, src: Path, dst: Path, overwrite: bool, unmade: Path -> bool) returns (ok: bool)
    requires store.Valid() && Related(src, dst) && dst != []
    modifies store
    ensures store.Valid() && Confined(old(store.tree), store.tree, src, dst)
    ensures store.faults >= old(store.faults)
    ensures ok <==> store.faults == old(store.faults) && Copyable(old(store.tree), src, dst, overwrite, unmade)
    ensures ok ==> src in old(store.tree) && Copied(old(store.tree), store.tree, src, dst, overwrite)
    decreases |Below(store.tree, src)|, 2
  {
    ghost var was := store.tree;
    assert Confined(was, was, src, dst) by {
      assert forall p :: ConfinedAt(was, was, src, dst, p);
    }
    var live := store.Try();
    if !live || src !in store.tree {
      return false;
    }
    assert Origin(src, dst, dst) == src;
    if store.tree[src].Special? {
      assert !FitsAt(was, src, dst, overwrite, unmade, dst);
      return false;
    }
    if store.tree[src].File? {
      FileFits(was, src, dst, overwrite, unmade);
      ok := CopyFile(store, src, dst, overwrite, unmade);
      return;
    }
    ok := PrepareDir(store, src, dst, overwrite, unmade);
    if !ok {
      return;
    }
    PartlyKeepsSource(was, store.tree, src, dst, overwrite, {}, src);
    ok := CopyChildren(store, src, dst, overwrite, unmade, was);
  }

  /** The loop over the entries of a directory. */
  method CopyChildren(store: Store, src: Path, dst: Path, overwrite: bool, unmade: Path -> bool, ghost was: Tree)
    returns (ok: bool)
    requires WellFormed(was) && store.Valid() && Related(src, dst)
    requires FitsAt(was, src, dst, overwrite, unmade, dst)
    requires Partly(was, store.tree, src, dst, overwrite, {}) && src in store.tree && store.tree[src].Dir?
    modifies store
    ensures store.Valid() && Confined(was, store.tree, src, dst)
    ensures store.faults >= old(store.faults)
    ensures ok <==> store.faults == old(store.faults) && Fits(was, src, dst, overwrite, unmade)
    ensures ok ==> Copied(was, store.tree, src, dst, overwrite)
    decreases |Below(was, src)|, 1
  {
    PartlyIsConfined(was, store.tree, src, dst, overwrite, {});
    var names;
    names, ok := store.ReadDir(src);
    if !ok {
      return;
    }
    ListedChildren(was, store.tree, src, dst, overwrite, {}, names);
    ghost var done: set<string> := {};
    assert FitsSoFar(was, src, dst, overwrite, unmade, done) by {
      assert forall p :: FitsSoFarAt(was, src, dst, overwrite, unmade, done, p);
    }
    for i := 0 to |names|
      invariant store.Valid() && store.faults == old(store.faults)
      invariant Partly(was, store.tree, src, dst, overwrite, done) && FitsSoFar(was, src, dst, overwrite, unmade, done)
      invariant Taken(names, i, done)
    {
      TakeNext(names, i, done);
      ok := CopyChild(store, src, dst, overwrite, unmade, was, done, names[i]);
      if !ok {
        return;
      }
      done := done + {names[i]};
    }
    PartlyIsConfined(was, store.tree, src, dst, overwrite, done);
    AllIsCopied(was, store.tree, src, dst, overwrite, done);
    AllFits(was, src, dst, overwrite, unmade, done);
    ok := true;
  }

  /** `done` holds the first `i` names. */
  ghost predicate Taken(names: seq<string>, i: nat, done: set<string>) {
    forall j :: 0 <= j < |names| ==> (names[j] in done <==> j < i)
  }

  lemma TakeNext(names: seq<string>, i: nat, done: set<string>)
    requires i < |names| && Taken(names, i, done) && forall j, k | 0 <= j < k < |names| :: names[j] != names[k]
    ensures names[i] !in done && Taken(names, i + 1, done + {names[i]})
  {
  }

  /** One pass of the loop. */
  method CopyChild(store: Store, src: Path, dst: Path, overwrite: bool, unmade: Path -> bool,
                   ghost was: Tree, ghost done: set<string>, name: string)
    returns (ok: bool)
    requires WellFormed(was) && store.Valid() && Related(src, dst) && name !in done && src + [name] in was
    requires Partly(was, store.tree, src, dst, overwrite, done) && FitsSoFar(was, src, dst, overwrite, unmade, done)
    modifies store
    ensures store.Valid() && store.faults >= old(store.faults)
    ensures ok ==> && store.faults == old(store.faults)
                   && Partly(was, store.tree, src, dst, overwrite, done + {name})
                   && FitsSoFar(was, src, dst, overwrite, unmade, done + {name})
    ensures !ok ==> Confined(was, store.tree, src, dst)
    ensures !ok && store.faults == old(store.faults) ==> !Fits(was, src, dst, overwrite, unmade)
    decreases |Below(was, src)|, 0
  {
    PartlyIsConfined(was, store.tree, src, dst, overwrite, done);
    var live := store.Try();
    if !live {
      return false;
    }
    ChildrenAreRelated(src, dst, name);
    ChildOfKeptSource(was, store.tree, src, dst, overwrite, done, name);
    ghost var now := store.tree;
    ok := CopyPath(store, src + [name], dst + [name], overwrite, unmade);
    if ok {
      ChildIsCopied(was, now, store.tree, src, dst, overwrite, done, name);
      ChildFits(was, now, src, dst, overwrite, unmade, done, name);
    } else {
      ChildIsConfined(was, now, store.tree, src, dst, overwrite, done, name);
      if store.faults == old(store.faults) {
        ChildDoesNotFit(was, now, src, dst, overwrite, unmade, done, name);
      }
    }
  }

  /** `Copy` of two references in a store called `name`. Equal references are
      refused; different ones that name the same place are not. */
  method Copy(store: Store, name: string, src: Ref, dst: Ref, overwrite: bool, unmade: Path -> bool) returns (ok: bool)
    requires store.Valid()
    requires PathFor(name, src).Some? && PathFor(name, dst).Some? ==>
               Related(PathFor(name, src).value, PathFor(name, dst).value)
    modifies store
    ensures store.Valid()
    ensures src == dst || PathFor(name, src).None? || PathFor(name, dst).None? ==> !ok && store.tree == old(store.tree)
    ensures src != dst && PathFor(name, src).Some? && PathFor(name, dst).Some? ==>
              var from, to := PathFor(name, src).value, PathFor(name, dst).value;
              && Confined(old(store.tree), store.tree, from, to)
              && (ok ==> from in old(store.tree) && Copied(old(store.tree), store.tree, from, to, overwrite))
              && (ok <==> && store.faults == old(store.faults) && Copyable(old(store.tree), from, to, overwrite, unmade)
                          && (to in old(store.tree) ==> !old(store.tree)[to].Special?))
  {
    var live := store.Try();
    if !live || src == dst {
      NothingIsConfined(store.tree, name, src, dst);
      return false;
    }
    var from, to := PathFor(name, src), PathFor(name, dst);
    NothingIsConfined(store.tree, name, src, dst);
    if from.None? || to.None? || from.value !in store.tree {
      return false;
    }
    assert Origin(from.value, to.value, to.value) == from.value;
    assert Copyable(store.tree, from.value, to.value, overwrite, unmade) ==>
             FitsAt(store.tree, from.value, to.value, overwrite, unmade, to.value);
    if to.value in store.tree {
      if !overwrite || store.tree[from.value].Dir? != store.tree[to.value].Dir? {
        return false;
      }
      if !store.tree[from.value].Dir? && (!store.tree[from.value].File? || !store.tree[to.value].File?) {
        return false;
      }
    }
    ok := CopyPath(store, from.value, to.value, overwrite, unmade);
  }

  lemma NothingIsConfined(was: Tree, name: string, src: Ref, dst: Ref)
    ensures PathFor(name, src).Some? && PathFor(name, dst).Some? ==>
              Confined(was, was, PathFor(name, src).value, PathFor(name, dst).value)
  {
    if PathFor(name, src).Some? && PathFor(name, dst).Some? {
      var from, to := PathFor(name, src).value, PathFor(name, dst).value;
      forall p ensures ConfinedAt(was, was, from, to, p) {
      }
    }
  }

  // ------------------------------------------------------------ what the copy means

  /** The destination shows exactly what the source shows. */
  ghost predicate Mirrors(was: Tree, now: Tree, src: Path, dst: Path) {
    forall p :: Covered(was, src, dst, p) ==> p in now && now[p] == was[Origin(src, dst, p)]
  }

  /** No special file is where the source has a regular one. */
  ghost predicate NoSpecialInTheWay(was: Tree, src: Path, dst: Path) {
    forall p :: Covered(was, src, dst, p) && was[Origin(src, dst, p)].File? && p in was ==> !was[p].Special?
  }

  /** No regular file of the tree has contents. */
  ghost predicate NoContents(was: Tree, src: Path) {
    forall p :: p in was && src <= p && was[p].File? ==> was[p].bytes == []
  }

  /** A successful copy mirrors the source exactly when no special file is in the
      way, since such a file is opened, written to and kept, and when a tree that is
      copied onto itself had nothing to lose. */
  lemma MirrorsUnlessSpecial(was: Tree, now: Tree, src: Path, dst: Path, overwrite: bool)
    requires Copied(was, now, src, dst, overwrite) && Related(src, dst)
    ensures Mirrors(was, now, src, dst) <==>
            NoSpecialInTheWay(was, src, dst) && (src == dst ==> NoContents(was, src))
  {
    forall p | Covered(was, src, dst, p)
      ensures p in now && now[p] == Placed(was, Origin(src, dst, p), p)
      ensures Origin(src, dst, p) == p <==> src == dst
    {
      assert CopiedAt(was, now, src, dst, overwrite, p);
      OriginIsElsewhere(src, dst, p);
    }
    if src == dst && Mirrors(was, now, src, dst) {
      forall p | p in was && src <= p && was[p].File? ensures was[p].bytes == [] {
        assert Origin(src, dst, p) == p && Covered(was, src, dst, p);
      }
    }
  }

  lemma OriginIsElsewhere(src: Path, dst: Path, p: Path)
    requires Related(src, dst) && dst <= p
    ensures Origin(src, dst, p) == p <==> src == dst
  {
    assert p == dst + p[|dst|..];
    if Origin(src, dst, p) == p && src != dst {
      PrefixesMeet(src, dst, p);
    }
  }

  /** A tree copied onto itself keeps its entries and loses the contents of every
      regular file; nothing else changes. */
  lemma SelfCopyEmpties(was: Tree, now: Tree, p: Path, overwrite: bool, q: Path)
    requires WellFormed(was) && p in was && Copied(was, now, p, p, overwrite)
    ensures if p <= q && q in was && was[q].File? then q in now && now[q] == was[q].(bytes := []) else Same(was, now, q)
  {
    assert CopiedAt(was, now, p, p, overwrite, q);
    if p <= q {
      assert Origin(p, p, q) == q;
    } else if q < p {
      AncestorsAreDirs(was, p, q);
    }
  }

  const PLAIN := Ref("local", [Named("a")])
  const DOTTED := Ref("local", [Dot, Named("a")])

  lemma AliasesMeet()
    ensures PLAIN != DOTTED && PathFor("local", PLAIN) == Some(["a"]) && PathFor("local", DOTTED) == Some(["a"])
  {
    var root: Path := [];
    assert root + ["a"] == ["a"];
    assert [Named("a")][..0] == [] && Clean(PLAIN.key) == Some(["a"]);
    assert [Dot][..0] == [] && Clean([Dot]) == Some([]);
    assert DOTTED.key[..1] == [Dot] && Clean(DOTTED.key) == Some(["a"]);
    assert |PLAIN.key| != |DOTTED.key| && PLAIN.key[0] == Named("a") && |PLAIN.provider| == 5 && |["a"]| == 1;
  }

  lemma FileCopiesOntoItself(was: Tree, unmade: Path -> bool)
    requires WellFormed(was) && ["a"] in was && was[["a"]].File?
    ensures Copyable(was, ["a"], ["a"], true, unmade)
  {
    FileFits(was, ["a"], ["a"], true, unmade);
    assert Parent(["a"]) == [];
    assert forall k :: 0 <= k <= 0 ==> Parent(["a"])[..k] == [];
  }

  /** Such a copy: `a` and `./a` are different references to one file. */
  method AliasedCopyEmpties() returns (tree: Tree, ok: bool, ghost faults: nat)
    ensures ok <==> faults == 0
    ensures ok ==> ["a"] in tree && tree[["a"]] == File([], 0)
  {
    var store := new Store(0);
    Attach(store.tree, ["a"], File([1], 0));
    store.tree := store.tree[["a"] := File([1], 0)];
    ghost var was := store.tree;
    var unmade: Path -> bool := _ => false;
    AliasesMeet();
    FileCopiesOntoItself(was, unmade);
    ok := Copy(store, "local", PLAIN, DOTTED, true, unmade);
    if ok {
      SelfCopyEmpties(was, store.tree, ["a"], true, ["a"]);
    }
    tree, faults := store.tree, store.faults;
  }

  const PIPE_IN_THE_WAY: Tree :=
    map[[] := Dir(0), ["a"] := Dir(0), ["a", "f"] := File([1], 0), ["b"] := Dir(0), ["b", "f"] := Special(1)]

  /** Such a copy: a directory with one file onto one with a pipe of that name. */
  lemma SpecialFileIsKept(now: Tree)
    requires Copied(PIPE_IN_THE_WAY, now, ["a"], ["b"], true)
    ensures ["b", "f"] in now && now[["b", "f"]] == Special(0)
  {
    assert CopiedAt(PIPE_IN_THE_WAY, now, ["a"], ["b"], true, ["b", "f"]);
    assert Origin(["a"], ["b"], ["b", "f"]) == ["a", "f"];
  }

  /** The source survives its copy, entry by entry. */
  lemma CopyKeepsSource(was: Tree, now: Tree, src: Path, dst: Path, overwrite: bool, p: Path)
    requires Copied(was, now, src, dst, overwrite) && Apart(src, dst) && src <= p
    ensures Same(was, now, p)
  {
    assert CopiedAt(was, now, src, dst, overwrite, p);
    if dst <= p {
      PrefixesMeet(src, dst, p);
    }
  }

  /** Copying again changes nothing more. */
  lemma CopyIsIdempotent(was: Tree, once: Tree, twice: Tree, src: Path, dst: Path, first: bool, again: bool)
    requires WellFormed(was) && WellFormed(once) && Apart(src, dst) && src in was
    requires Copied(was, once, src, dst, first) && Copied(once, twice, src, dst, again)
    ensures twice == once
  {
    forall p ensures Same(once, twice, p) {
      assert CopiedAt(was, once, src, dst, first, p) && CopiedAt(once, twice, src, dst, again, p);
      if dst <= p {
        CopyKeepsSource(was, once, src, dst, first, Origin(src, dst, p));
      } else if p < dst {
        assert Origin(src, dst, dst) == src;
        assert CopiedAt(was, once, src, dst, first, dst);
        AncestorsAreDirs(once, dst, p);
      }
    }
    forall p ensures (p in twice <==> p in once) && (p in once ==> twice[p] == once[p]) {
      assert Same(once, twice, p);
    }
    assert twice.Keys == once.Keys;
  }
}
