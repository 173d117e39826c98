/** The file tree under a store's root and the system calls that
    `storage/local/local.go` makes on it. Every call may fail. */
module Stores {
  /** A path below the root, component by component. */
  type Path = seq<string>

  datatype Entry = Dir(perm: nat) | File(bytes: seq<bv8>, perm: nat) | Special(perm: nat)

  type Tree = map<Path, Entry>

  function Parent(p: Path): Path
    requires p != []
  {
    p[..|p| - 1]
  }

  function Last(p: Path): string
    requires p != []
  {
    p[|p| - 1]
  }

  ghost predicate Hangs(tree: Tree, p: Path) {
    p in tree && p != [] ==> Parent(p) in tree && tree[Parent(p)].Dir?
  }

  /** Every entry hangs in a directory, and the root is one. */
  ghost predicate WellFormed(tree: Tree) {
    [] in tree && tree[[]].Dir? && forall p :: Hangs(tree, p)
  }

  lemma {:induction false} AncestorsAreDirs(tree: Tree, p: Path, q: Path)
    requires WellFormed(tree) && p in tree && q < p
    ensures q in tree && tree[q].Dir?
    decreases |p|
  {
    assert Hangs(tree, p);
    if q != Parent(p) {
      AncestorsAreDirs(tree, Parent(p), q);
    }
  }

  ghost predicate Same(was: Tree, now: Tree, p: Path) {
    (p in now <==> p in was) && (p in was ==> now[p] == was[p])
  }

  /** `now` is `was` with some missing directories on the way to `p` added. */
  ghost predicate GrownAt(was: Tree, now: Tree, p: Path, q: Path) {
    Same(was, now, q) || (q !in was && q <= p && q in now && now[q].Dir?)
  }

  ghost predicate Grown(was: Tree, now: Tree, p: Path) {
    forall q :: GrownAt(was, now, p, q)
  }

  // ------------------------------------------------------------ readers

  /** What one `Read` returns: some bytes, and whether more may follow. */
  datatype Status = More | Eof | Broken
  datatype Chunk = Chunk(bytes: seq<bv8>, status: Status)

  /** All bytes that a reader yields until it stops. A reader with nothing left
      to say reports the end. */
  function Stream(script: seq<Chunk>): seq<bv8> {
    if script == [] then []
    else script[0].bytes + if script[0].status.More? then Stream(script[1..]) else []
  }

  /** Whether the reader stops at the end of its data. */
  predicate Ends(script: seq<Chunk>) {
    script == [] || script[0].status.Eof? || (script[0].status.More? && Ends(script[1..]))
  }

  class Reader {
    var script: seq<Chunk>

    constructor (script: seq<Chunk>)
      ensures this.script == script
    {
      this.script := script;
    }

    method Read() returns (chunk: Chunk)
      modifies this
      ensures chunk == if old(script) == [] then Chunk([], Eof) else old(script)[0]
      ensures script == if old(script) == [] then [] else old(script)[1..]
    {
      chunk := Chunk([], Eof);
      if script != [] {
        chunk, script := script[0], script[1..];
      }
    }
  }

  /** Some way of reading a file's bytes in chunks; reading may break off. */
  ghost predicate Yields(script: seq<Chunk>, bytes: seq<bv8>) {
    Ends(script) ==> Stream(script) == bytes
  }

  // ------------------------------------------------------------ the store

  /** `faults` counts the system calls that failed for reasons outside the tree, and
      the times a context was found done. */
  class Store {
    var tree: Tree
    ghost var faults: nat

    ghost predicate Valid()
      reads this
    {
      WellFormed(tree)
    }

    constructor (perm: nat)
      ensures Valid() && tree == map[[] := Dir(perm)] && faults == 0
    {
      tree := map[[] := Dir(perm)];
      faults := 0;
    }

    /** A call that only the host can make fail, or a look at the context. */
    method Try() returns (ok: bool)
      modifies this`faults
      ensures faults >= old(faults) && (ok <==> faults == old(faults))
    {
      ok := *;
      if !ok {
        faults := faults + 1;
      }
    }

    /** `os.MkdirAll`, where `fails` tells which directories cannot be made. A
        failure may leave some of the directories. */
    method MkdirAll(p: Path, fails: Path -> bool) returns (ok: bool)
      requires Valid()
      modifies this`tree
      ensures Valid() && Grown(old(tree), tree, p)
      ensures ok ==> p in tree && tree[p].Dir?
      ensures ok <==> Creatable(old(tree), p, fails)
    {
      ok := true;
      for k := 0 to |p|
        invariant Valid() && Grown(old(tree), tree, p)
        invariant p[..k] in tree && tree[p[..k]].Dir?
        invariant forall j :: 0 <= j <= k ==> Passable(old(tree), p[..j], fails)
        invariant forall q :: |q| > k ==> Same(old(tree), tree, q)
      {
        assert Parent(p[..k + 1]) == p[..k];
        assert Same(old(tree), tree, p[..k + 1]);
        ok := Mkdir(p[..k + 1], p, fails);
        if !ok {
          assert !Passable(old(tree), p[..k + 1], fails);
          return;
        }
      }
      assert p[..|p|] == p;
      ok := true;
    }

    /** One directory of `MkdirAll`. */
    method Mkdir(q: Path, ghost p: Path, fails: Path -> bool) returns (ok: bool)
      requires Valid() && q != [] && q <= p && Parent(q) in tree && tree[Parent(q)].Dir?
      modifies this`tree
      ensures Valid()
      ensures tree == old(tree) || (q !in old(tree) && q in tree && tree == old(tree)[q := tree[q]] && tree[q].Dir?)
      ensures ok ==> q in tree && tree[q].Dir?
      ensures ok <==> Passable(old(tree), q, fails)
      ensures forall was :: Grown(was, old(tree), p) ==> Grown(was, tree, p)
    {
      if q in tree {
        return tree[q].Dir?;
      }
      ok := !fails(q);
      if ok {
        var perm: nat := *;
        Attach(tree, q, Dir(perm));
        tree := tree[q := Dir(perm)];
        forall was | Grown(was, old(tree), p) ensures Grown(was, tree, p) {
          forall x ensures GrownAt(was, tree, p, x) {
            assert GrownAt(was, old(tree), p, x);
          }
        }
      }
    }

    /** `os.Chmod`. */
    method Chmod(p: Path, perm: nat) returns (ok: bool)
      requires Valid() && p in tree
      modifies this
      ensures Valid() && tree == if ok then old(tree)[p := old(tree)[p].(perm := perm)] else old(tree)
      ensures faults >= old(faults) && (ok <==> faults == old(faults))
    {
      ok := Try();
      if ok {
        Attach(tree, p, tree[p].(perm := perm));
        tree := tree[p := tree[p].(perm := perm)];
      }
    }

    /** `os.OpenFile` for writing, truncating or exclusive. */
    method OpenForWriting(p: Path, overwrite: bool, perm: nat) returns (ok: bool)
      requires Valid() && p != [] && Parent(p) in tree && tree[Parent(p)].Dir?
      modifies this
      ensures Valid()
      ensures !ok ==> tree == old(tree)
      ensures faults >= old(faults)
      ensures ok <==> faults == old(faults) && (p in old(tree) ==> overwrite && !old(tree)[p].Dir?)
      ensures ok ==> p in tree && tree == old(tree)[p := tree[p]]
      ensures ok && p in old(tree) && old(tree)[p].Special? ==> tree == old(tree)
      ensures ok && !(p in old(tree) && old(tree)[p].Special?) ==> tree[p].File? && tree[p].bytes == []
    {
      ok := Try();
      if !ok || (p in tree && (!overwrite || tree[p].Dir?)) {
        return false;
      }
      if p in tree && tree[p].Special? {
        assert tree == tree[p := tree[p]];
        return;
      }
      var actual: nat := *;
      if p in tree {
        actual := tree[p].perm;
      }
      Attach(tree, p, File([], actual));
      tree := tree[p := File([], actual)];
    }

    /** `Write` on an open file: it may stop short, with or without an error. */
    method Write(p: Path, bytes: seq<bv8>) returns (n: nat, failed: bool)
      requires Valid() && p in tree && !tree[p].Dir?
      modifies this
      ensures Valid() && n <= |bytes|
      ensures tree == Appended(old(tree), p, bytes[..n])
      ensures faults >= old(faults) && (!failed && n == |bytes| <==> faults == old(faults))
    {
      var complete := Try();
      n, failed := |bytes|, false;
      if !complete {
        var short: nat, error: bool := *, *;
        failed := error || short >= |bytes|;
        n := if short < |bytes| then short else |bytes|;
      }
      if tree[p].File? {
        Attach(tree, p, File(tree[p].bytes + bytes[..n], tree[p].perm));
      }
      tree := Appended(tree, p, bytes[..n]);
    }

    /** `os.Remove` of a file. */
    method Remove(p: Path, fails: bool)
      requires Valid() && p in tree && !tree[p].Dir?
      modifies this`tree
      ensures Valid() && tree == if fails then old(tree) else old(tree) - {p}
    {
      if !fails {
        forall q ensures Hangs(tree - {p}, q) {
          assert Hangs(tree, q);
        }
        assert Hangs(tree, p);
        tree := tree - {p};
      }
    }

    /** `os.Rename` of a file inside one directory: it replaces the target or
        changes nothing, and cannot replace a directory. */
    method Rename(p: Path, q: Path) returns (ok: bool)
      requires Valid() && p in tree && !tree[p].Dir? && p != [] && q != [] && Parent(p) == Parent(q)
      modifies this
      ensures Valid() && tree == if ok then (old(tree) - {p})[q := old(tree)[p]] else old(tree)
      ensures faults >= old(faults)
      ensures ok <==> faults == old(faults) && !(q in old(tree) && old(tree)[q].Dir?)
    {
      ok := Try();
      ok := ok && !(q in tree && tree[q].Dir?);
      if ok {
        ghost var now := (tree - {p})[q := tree[p]];
        assert Hangs(tree, p);
        forall x ensures Hangs(now, x) {
          assert Hangs(tree, x);
        }
        tree := (tree - {p})[q := tree[p]];
      }
    }

    /** A handle on a regular file reads what the file holds when it is read. */
    method ReaderOf(p: Path) returns (reader: Reader)
      requires p in tree && tree[p].File?
      modifies this`faults
      ensures fresh(reader) && Yields(reader.script, tree[p].bytes)
      ensures faults >= old(faults) && (Ends(reader.script) <==> faults == old(faults))
    {
      var complete := Try();
      var script: seq<Chunk> := *;
      if complete && !(Ends(script) && Stream(script) == tree[p].bytes) {
        script := [Chunk(tree[p].bytes, Eof)];
      } else if !complete && Ends(script) {
        script := [Chunk([], Broken)];
      }
      reader := new Reader(script);
    }

    /** `os.ReadDir`: the names in a directory. */
    method ReadDir(p: Path) returns (names: seq<string>, ok: bool)
      requires p in tree && tree[p].Dir?
      modifies this`faults
      ensures faults >= old(faults) && (ok <==> faults == old(faults))
      ensures ok ==> ListsChildren(tree, p, names)
    {
      names := [];
      ok := Try();
      if ok {
        names := Names(set q | q in tree && |q| == |p| + 1 && p < q :: Last(q));
        ListedNames(tree, p, names);
      }
    }
  }

  /** `q` is a directory, or is missing and can be made. */
  ghost predicate Passable(tree: Tree, q: Path, fails: Path -> bool) {
    if q in tree then tree[q].Dir? else !fails(q)
  }

  ghost predicate Creatable(tree: Tree, p: Path, fails: Path -> bool) {
    forall k :: 0 <= k <= |p| ==> Passable(tree, p[..k], fails)
  }

  ghost predicate ListsChildren(tree: Tree, p: Path, names: seq<string>) {
    && (forall name | name in names :: p + [name] in tree)
    && (forall q | q in tree :: |q| == |p| + 1 && p < q ==> Last(q) in names)
    && (forall i, j | 0 <= i < j < |names| :: names[i] != names[j])
  }

  /** The elements of a set in some order. */
  method Names(all: set<string>) returns (names: seq<string>)
    ensures forall name :: name in names <==> name in all
    ensures forall i, j | 0 <= i < j < |names| :: names[i] != names[j]
  {
    var todo := all;
    names := [];
    while todo != {}
      invariant todo <= all && forall name :: name in names <==> name in all && name !in todo
      invariant forall i, j | 0 <= i < j < |names| :: names[i] != names[j]
      decreases |todo|
    {
      var name :| name in todo;
      names, todo := names + [name], todo - {name};
    }
  }

  lemma ListedNames(tree: Tree, p: Path, names: seq<string>)
    requires forall name :: name in names <==> name in set q | q in tree && |q| == |p| + 1 && p < q :: Last(q)
    requires forall i, j | 0 <= i < j < |names| :: names[i] != names[j]
    ensures ListsChildren(tree, p, names)
  {
    forall name | name in names ensures p + [name] in tree {
      var q :| q in tree && |q| == |p| + 1 && p < q && Last(q) == name;
      assert q == p + [name];
    }
  }

  /** Bytes appended to a regular file; what a special file does with them is
      not seen in the tree. */
  function Appended(tree: Tree, p: Path, bytes: seq<bv8>): Tree
    requires p in tree
  {
    if tree[p].File? then tree[p := File(tree[p].bytes + bytes, tree[p].perm)] else tree
  }

  /** A new or changed entry keeps the tree well formed. */
  lemma Attach(tree: Tree, p: Path, entry: Entry)
    requires WellFormed(tree)
    requires p in tree ==> (tree[p].Dir? <==> entry.Dir?)
    requires p !in tree ==> p != [] && Parent(p) in tree && tree[Parent(p)].Dir?
    ensures WellFormed(tree[p := entry])
  {
    var now := tree[p := entry];
    forall q ensures Hangs(now, q) {
      assert Hangs(tree, q) && Hangs(tree, p);
    }
  }

  // ------------------------------------------------------------ copyContext

  /** `copyContext` into an open file. It succeeds exactly when the stream has an end
      and nothing goes wrong on the way there, with the whole stream written; otherwise
      a part of it is. */
  method CopyContext(store: Store, p: Path, reader: Reader) returns (written: nat, ok: bool)
    requires store.Valid() && p in store.tree && !store.tree[p].Dir?
    modifies store, reader
    ensures store.Valid() && written <= |Stream(old(reader.script))|
    ensures store.tree == Appended(old(store.tree), p, Stream(old(reader.script))[..written])
    ensures store.faults >= old(store.faults)
    ensures ok <==> Ends(old(reader.script)) && store.faults == old(store.faults)
    ensures ok ==> written == |Stream(old(reader.script))|
  {
    ghost var whole, tree := Stream(reader.script), store.tree;
    written := 0;
    AppendNothing(tree, p);
    assert whole[..0] == [];
    while true
      invariant store.Valid() && store.faults == old(store.faults)
      invariant written <= |whole| && store.tree == Appended(tree, p, whole[..written])
      invariant whole == whole[..written] + Stream(reader.script) && (Ends(old(reader.script)) <==> Ends(reader.script))
      decreases |reader.script|
    {
      var live := store.Try();
      if !live {
        return written, false;
      }
      ghost var script := reader.script;
      var chunk := reader.Read();
      assert Stream(script) == chunk.bytes + if chunk.status.More? then Stream(reader.script) else [];
      if |chunk.bytes| > 0 {
        var n, failed := store.Write(p, chunk.bytes);
        AppendMore(tree, p, whole, written, chunk.bytes, n);
        written := written + n;
        if failed || n != |chunk.bytes| {
          return written, false;
        }
      }
      if !chunk.status.More? {
        return written, chunk.status.Eof?;
      }
    }
  }

  lemma AppendNothing(tree: Tree, p: Path)
    requires p in tree
    ensures Appended(tree, p, []) == tree
  {
    if tree[p].File? {
      assert tree[p].bytes + [] == tree[p].bytes;
    }
  }

  lemma AppendMore(tree: Tree, p: Path, whole: seq<bv8>, written: nat, bytes: seq<bv8>, n: nat)
    requires p in tree && written + |bytes| <= |whole| && n <= |bytes|
    requires whole[written..written + |bytes|] == bytes
    ensures Appended(Appended(tree, p, whole[..written]), p, bytes[..n]) == Appended(tree, p, whole[..written + n])
  {
    assert whole[..written + n] == whole[..written] + bytes[..n];
    if tree[p].File? {
      assert tree[p].bytes + whole[..written] + bytes[..n] == tree[p].bytes + whole[..written + n];
    }
  }
}
