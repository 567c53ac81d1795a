/** The directory tree: a flat map from component lists, and the mutable tree that refines it. */
module Namespaces {
  import opened Common
  import opened Paths

  datatype FileMeta = FileMeta(path: string, size: int, chunkCount: nat, replicationFactor: nat,
                               checksum: string, chunkIDs: seq<string>)

  datatype Node = Dir | File(meta: FileMeta)

  type Tree = map<Key, Node>

  datatype NsError =
    | EmptyPath | ComponentIsFile | ParentNotFound | ParentNotDirectory | NotFound | IsDirectory

  // ---------------------------------------------------------------- specification

  const EMPTY_TREE: Tree := map[[] := Dir]

  function Parent(key: Key): Key
    requires key != []
  {
    key[..|key| - 1]
  }

  /** The root is a directory and everything else hangs in a directory. */
  ghost predicate Shape(t: Tree) {
    && [] in t && t[[]] == Dir
    && forall key {:trigger Parent(key)} :: key in t && key != [] ==> Parent(key) in t && t[Parent(key)] == Dir
  }

  /** The directories of a path's first `n` components exist afterwards. */
  function WithDirs(t: Tree, key: Key, n: nat): Tree
    requires n <= |key|
  {
    if n == 0 then t
    else if key[..n] in t then WithDirs(t, key, n - 1)
    else WithDirs(t, key, n - 1)[key[..n] := Dir]
  }

  /** A file lies on the way to the directory `key`, itself included. */
  ghost predicate Blocked(t: Tree, key: Key) {
    exists n: nat :: n <= |key| && key[..n] in t && t[key[..n]].File?
  }

  /** No file among the first `n` steps. */
  ghost predicate Clear(t: Tree, key: Key, n: nat)
    requires n <= |key|
  {
    (key[..n] in t ==> t[key[..n]] == Dir) && (n > 0 ==> Clear(t, key, n - 1))
  }

  lemma {:induction false} ClearUpTo(t: Tree, key: Key, n: nat)
    requires n <= |key|
    ensures Clear(t, key, n) <==> forall i: nat :: i <= n && key[..i] in t ==> t[key[..i]] == Dir
  {
    if n > 0 { ClearUpTo(t, key, n - 1); }
  }

  lemma {:induction false} ClearIsNotBlocked(t: Tree, key: Key)
    ensures Clear(t, key, |key|) <==> !Blocked(t, key)
  {
    ClearUpTo(t, key, |key|);
  }

  ghost function Create(t: Tree, path: string, meta: FileMeta): Result<Tree, NsError> {
    match CreateKey(path)
    case None => Err(EmptyPath)
    case Some(key) =>
      if Blocked(t, Parent(key)) then Err(ComponentIsFile)
      else if key in t && t[key] == Dir then Err(IsDirectory)
      else Ok(WithDirs(t, Parent(key), |key| - 1)[key := File(meta)])
  }

  function Get(t: Tree, path: string): Result<FileMeta, NsError> {
    var key := GetKey(path);
    if key !in t then Err(NotFound)
    else match t[key]
      case Dir => Err(IsDirectory)
      case File(meta) => Ok(meta)
  }

  function Delete(t: Tree, path: string): Result<(Tree, FileMeta), NsError> {
    match CreateKey(path)
    case None => Err(EmptyPath)
    case Some(key) =>
      if Parent(key) !in t then Err(ParentNotFound)
      else if t[Parent(key)].File? then Err(ParentNotDirectory)
      else if key !in t then Err(NotFound)
      else match t[key]
        case Dir => Err(IsDirectory)
        case File(meta) => Ok((t - {key}, meta))
  }

  /** The tree as the map from positions to files that it represents. */
  function Files(t: Tree): map<Key, FileMeta> {
    map key | key in t && t[key].File? :: t[key].meta
  }

  // -------------------------------------------------------- laws of the flat map

  lemma {:induction false} WithDirsAt(t: Tree, key: Key, n: nat, k: Key)
    requires n <= |key|
    ensures k in WithDirs(t, key, n) <==> k in t || (exists i: nat :: 0 < i <= n && k == key[..i])
    ensures k in t ==> k in WithDirs(t, key, n) && WithDirs(t, key, n)[k] == t[k]
    ensures k !in t && k in WithDirs(t, key, n) ==> WithDirs(t, key, n)[k] == Dir
  {
    if n > 0 {
      WithDirsAt(t, key, n - 1, k);
      if k == key[..n] { assert 0 < n <= n && k == key[..n]; }
    }
  }

  lemma {:induction false} WithDirsFiles(t: Tree, key: Key, n: nat)
    requires n <= |key|
    ensures Files(WithDirs(t, key, n)) == Files(t)
  {
    forall k ensures k in Files(WithDirs(t, key, n)) <==> k in Files(t) {
      WithDirsAt(t, key, n, k);
    }
    forall k | k in Files(t) ensures Files(WithDirs(t, key, n))[k] == Files(t)[k] {
      WithDirsAt(t, key, n, k);
    }
  }

  lemma {:induction false} WithDirsShape(t: Tree, key: Key, n: nat)
    requires Shape(t) && n <= |key| && !Blocked(t, key)
    ensures Shape(WithDirs(t, key, n))
  {
    var u := WithDirs(t, key, n);
    WithDirsAt(t, key, n, []);
    forall k | k in u && k != [] ensures Parent(k) in u && u[Parent(k)] == Dir {
      WithDirsAt(t, key, n, k);
      WithDirsAt(t, key, n, Parent(k));
      if k !in t {
        var i: nat :| 0 < i <= n && k == key[..i];
        assert Parent(k) == key[..i - 1];
      }
    }
  }

  /** No file is a proper prefix of any other entry. */
  lemma {:induction false} FilesAreLeaves(t: Tree, key: Key, n: nat)
    requires Shape(t) && key in t && n < |key|
    ensures key[..n] in t && t[key[..n]] == Dir
    decreases |key| - n
  {
    if n < |key| - 1 {
      assert Parent(key)[..n] == key[..n];
      FilesAreLeaves(t, Parent(key), n);
    } else {
      assert Parent(key) == key[..n];
    }
  }

  lemma {:induction false} NothingToCreate(t: Tree, key: Key, n: nat)
    requires n <= |key| && forall i: nat :: i <= n ==> key[..i] in t
    ensures WithDirs(t, key, n) == t
  {
    if n > 0 { NothingToCreate(t, key, n - 1); }
  }

  /** When the walk meets a file it has created nothing, since everything above an existing entry exists. */
  lemma {:induction false} StoppedBeforeCreating(t: Tree, key: Key, n: nat)
    requires Shape(t) && n < |key|
    requires key[..n + 1] in WithDirs(t, key, n) && WithDirs(t, key, n)[key[..n + 1]].File?
    ensures WithDirs(t, key, n) == t && Blocked(t, key)
  {
    WithDirsAt(t, key, n, key[..n + 1]);
    forall i: nat | i <= n ensures key[..i] in t {
      FilesAreLeaves(t, key[..n + 1], i);
      assert key[..n + 1][..i] == key[..i];
    }
    NothingToCreate(t, key, n);
  }

  lemma {:induction false} NextDir(t: Tree, key: Key, n: nat)
    requires n < |key|
    ensures var u, k := WithDirs(t, key, n), key[..n + 1];
      && (k in u <==> k in t) && (k in t ==> u[k] == t[k])
      && WithDirs(t, key, n + 1) == if k in u then u else u[k := Dir]
  {
    WithDirsAt(t, key, n, key[..n + 1]);
  }

  /** A create that ends at a directory has created nothing on its way there. */
  lemma {:induction false} ReachedDir(t: Tree, key: Key)
    requires Shape(t) && key != []
    ensures var u := WithDirs(t, Parent(key), |key| - 1);
      && (key in u <==> key in t) && (key in t ==> u[key] == t[key]) && (key in t ==> u == t)
  {
    WithDirsAt(t, Parent(key), |key| - 1, key);
    if key in t {
      forall i: nat | i <= |key| - 1 ensures Parent(key)[..i] in t {
        FilesAreLeaves(t, key, i);
        assert Parent(key)[..i] == key[..i];
      }
      NothingToCreate(t, Parent(key), |key| - 1);
    }
  }

  /** A create changes the files in one position only, and keeps the shape. */
  lemma {:induction false} CreateAddsOneFile(t: Tree, path: string, meta: FileMeta)
    requires Shape(t) && Create(t, path, meta).Ok?
    ensures var u := Create(t, path, meta).value;
      CreateKey(path).Some? && Shape(u) && Files(u) == Files(t)[CreateKey(path).value := meta]
  {
    var key := CreateKey(path).value;
    WithDirsFiles(t, Parent(key), |key| - 1);
    FileInPlace(t, key, meta);
    assert Files(Create(t, path, meta).value) == Files(WithDirs(t, Parent(key), |key| - 1))[key := meta];
  }

  /** The entries after a create: those before, the directories on the way, and the file; no other entry changes. */
  lemma {:induction false} CreateAddsDirs(t: Tree, path: string, meta: FileMeta, k: Key)
    requires Create(t, path, meta).Ok? && CreateKey(path).Some?
    ensures var u, key := Create(t, path, meta).value, CreateKey(path).value;
      && (k in u <==> k in t || (exists i: nat :: 0 < i <= |key| && k == key[..i]))
      && (k in u && k != key ==> u[k] == if k in t then t[k] else Dir)
  {
    var key := CreateKey(path).value;
    WithDirsAt(t, Parent(key), |key| - 1, k);
    PrefixOf(key, k);
  }

  lemma {:induction false} PrefixOf(key: Key, k: Key)
    requires key != []
    ensures (exists i: nat :: 0 < i <= |key| && k == key[..i])
       <==> k == key || exists i: nat :: 0 < i <= |key| - 1 && k == Parent(key)[..i]
  {
    assert key == key[..|key|];
    forall i: nat | i <= |key| - 1 ensures Parent(key)[..i] == key[..i] {
    }
    if i: nat :| 0 < i <= |key| && k == key[..i] && i < |key| { assert k == Parent(key)[..i]; }
    if i: nat :| 0 < i <= |key| - 1 && k == Parent(key)[..i] { assert k == key[..i]; }
  }

  /** A lookup finds exactly the files, and tells directories from missing entries. */
  lemma {:induction false} GetFindsIff(t: Tree, path: string)
    ensures Get(t, path).Ok? <==> GetKey(path) in Files(t)
    ensures Get(t, path).Ok? ==> Get(t, path).value == Files(t)[GetKey(path)]
    ensures Get(t, path) == Err(NotFound) <==> GetKey(path) !in t
    ensures Get(t, path) == Err(IsDirectory) <==> GetKey(path) in t && t[GetKey(path)] == Dir
  {
  }

  lemma {:induction false} FileInPlace(t: Tree, key: Key, meta: FileMeta)
    requires Shape(t) && key != [] && !Blocked(t, Parent(key)) && (key in t ==> t[key].File?)
    ensures Shape(WithDirs(t, Parent(key), |key| - 1)[key := File(meta)])
  {
    var v := WithDirs(t, Parent(key), |key| - 1);
    var u := v[key := File(meta)];
    WithDirsShape(t, Parent(key), |key| - 1);
    DirIsThere(t, Parent(key));
    forall k | k in u && k != [] ensures Parent(k) in u && u[Parent(k)] == Dir {
      if k != key { NothingBelow(t, key, k); }
    }
  }

  lemma {:induction false} NothingBelow(t: Tree, key: Key, k: Key)
    requires Shape(t) && key != [] && (key !in t || t[key].File?)
    requires k != [] && k in WithDirs(t, Parent(key), |key| - 1)
    ensures Parent(k) != key
  {
    WithDirsAt(t, Parent(key), |key| - 1, k);
    if k in t {
      assert t[Parent(k)] == Dir;
    } else {
      assert |Parent(k)| < |key|;
    }
  }

  lemma {:induction false} DirIsThere(t: Tree, dir: Key)
    requires Shape(t) && !Blocked(t, dir)
    ensures dir in WithDirs(t, dir, |dir|) && WithDirs(t, dir, |dir|)[dir] == Dir
  {
    WithDirsAt(t, dir, |dir|, dir);
    assert dir[..|dir|] == dir;
    if dir in t { assert t[dir[..|dir|]] == Dir; }
  }

  /** A delete takes one file away, keeps the directories, and keeps the shape. */
  lemma {:induction false} DeleteRemovesOneFile(t: Tree, path: string)
    requires Shape(t) && Delete(t, path).Ok?
    ensures var (u, meta) := Delete(t, path).value;
      && CreateKey(path).Some? && CreateKey(path).value in Files(t) && meta == Files(t)[CreateKey(path).value]
      && Shape(u) && Files(u) == Files(t) - {CreateKey(path).value}
  {
    var key := CreateKey(path).value;
    var (u, meta) := Delete(t, path).value;
    forall k | k in u && k != [] ensures Parent(k) in u && u[Parent(k)] == Dir {
    }
  }

  /** A delete succeeds exactly for the paths whose position holds a file. */
  lemma {:induction false} DeleteSucceedsIff(t: Tree, path: string)
    requires Shape(t)
    ensures Delete(t, path).Ok? <==> CreateKey(path).Some? && CreateKey(path).value in Files(t)
    ensures Delete(t, path) == Err(EmptyPath) <==> CreateKey(path).None?
    ensures Delete(t, path) == Err(IsDirectory) <==>
      CreateKey(path).Some? && CreateKey(path).value in t && t[CreateKey(path).value] == Dir
    ensures Delete(t, path) == Err(ParentNotDirectory) <==>
      CreateKey(path).Some? && Parent(CreateKey(path).value) in Files(t)
    ensures Delete(t, path) == Err(ParentNotFound) <==>
      CreateKey(path).Some? && Parent(CreateKey(path).value) !in t
    ensures Delete(t, path).Err? ==>
      Delete(t, path).error in {EmptyPath, IsDirectory, ParentNotDirectory, ParentNotFound, NotFound}
  {
  }

  /** A create fails exactly for the empty path, below a file, and onto a directory. */
  lemma {:induction false} CreateFailsIff(t: Tree, path: string, meta: FileMeta)
    requires Shape(t)
    ensures Create(t, path, meta).Err? <==>
      || CreateKey(path).None?
      || (exists n: nat :: n < |CreateKey(path).value| && CreateKey(path).value[..n] in Files(t))
      || (CreateKey(path).value in t && t[CreateKey(path).value] == Dir)
    ensures Create(t, path, meta) == Err(EmptyPath) <==> CreateKey(path).None?
    ensures Create(t, path, meta) == Err(ComponentIsFile) <==>
      CreateKey(path).Some? && exists n: nat :: n < |CreateKey(path).value| && CreateKey(path).value[..n] in Files(t)
    ensures Create(t, path, meta).Err? ==> Create(t, path, meta).error in {EmptyPath, ComponentIsFile, IsDirectory}
  {
    if CreateKey(path).Some? {
      var key := CreateKey(path).value;
      forall n: nat | n < |key| ensures key[..n] == Parent(key)[..n] {
      }
      if n: nat :| n < |key| && key[..n] in Files(t) {
        assert n <= |Parent(key)| && Parent(key)[..n] in t && t[Parent(key)[..n]].File?;
      }
    }
  }

  /** Every file sits where its own path says. */
  ghost predicate WellKeyed(t: Tree) {
    forall key :: key in Files(t) ==> CreateKey(Files(t)[key].path) == Some(key)
  }

  /**
   Looking up a path after creating a file under it finds that file exactly when creation and lookup agree
   on the path's position.
   */
  lemma {:induction false} CreateThenGet(t: Tree, path: string, meta: FileMeta)
    requires Shape(t) && WellKeyed(t) && meta.path == path && Create(t, path, meta).Ok?
    ensures Get(Create(t, path, meta).value, path) == Ok(meta) <==> Agreeable(Components(path))
    ensures WellKeyed(Create(t, path, meta).value)
  {
    CreateAddsOneFile(t, path, meta);
    KeysAgreeIff(path);
    var u := Create(t, path, meta).value;
    var key := CreateKey(path).value;
    assert key in Files(u) && u[key] == File(meta);
    if Get(u, path) == Ok(meta) {
      assert GetKey(path) in Files(u);
    }
  }

  /** Deleting what was just created gives the meta data back, and the files are as before the create, if it overwrote none. */
  lemma {:induction false} CreateThenDelete(t: Tree, path: string, meta: FileMeta)
    requires Shape(t) && Create(t, path, meta).Ok?
    ensures var u := Create(t, path, meta).value;
      && Delete(u, path).Ok? && Delete(u, path).value.1 == meta
      && Files(Delete(u, path).value.0) == Files(t) - {CreateKey(path).value}
  {
    var u := Create(t, path, meta).value;
    CreateAddsOneFile(t, path, meta);
    DeleteSucceedsIff(u, path);
    DeleteRemovesOneFile(u, path);
  }

  /** A lookup of another position is unaffected by a create, except that it may find a directory where there was nothing. */
  lemma {:induction false} CreateElsewhere(t: Tree, path: string, meta: FileMeta, other: string)
    requires Shape(t) && Create(t, path, meta).Ok? && CreateKey(path) != Some(GetKey(other))
    ensures var u := Create(t, path, meta).value;
      Get(u, other) == Get(t, other) || (Get(t, other) == Err(NotFound) && Get(u, other) == Err(IsDirectory))
  {
    var key := CreateKey(path).value;
    WithDirsAt(t, Parent(key), |key| - 1, GetKey(other));
  }
}
