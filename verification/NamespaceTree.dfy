/** The namespace as the source keeps it: a tree of directory entries on the heap, updated in place. */
module NamespaceTrees {
  import opened Common
  import opened Paths
  import opened Namespaces

  class DirEntry {
    const name: string
    const isDir: bool
    var children: map<string, DirEntry>
    const file: Option<FileMeta>
    ghost const key: Key   // the entry's position

    constructor (name: string, isDir: bool, file: Option<FileMeta>, ghost key: Key)
      ensures this.name == name && this.isDir == isDir && this.file == file && this.key == key
      ensures children == map[]
    {
      this.name, this.isDir, this.file, this.key := name, isDir, file, key;
      children := map[];
    }

    function AsNode(): Node { if isDir || file.None? then Dir else File(file.value) }
  }

  // ------------------------------------------------------------- shape of the links

  type Entries = map<Key, DirEntry>

  type Links = map<Key, map<string, DirEntry>>

  function Sub(key: Key, name: string): (k: Key)
    ensures k != [] && Parent(k) == key && k[|k| - 1] == name
  {
    key + [name]
  }

  lemma {:induction false} SubOfPrefix(key: Key, i: nat)
    requires i < |key|
    ensures Sub(key[..i], key[i]) == key[..i + 1]
  {
  }

  lemma {:induction false} SubOfParent(key: Key)
    requires key != []
    ensures Sub(Parent(key), key[|key| - 1]) == key
  {
  }

  /** The entry knows its position, files have no children, and children are entries one level down. */
  ghost predicate Linked(entries: Entries, links: Links, key: Key)
    requires key in entries && key in links
  {
    && entries[key].key == key
    && (if entries[key].isDir then entries[key].file.None? else entries[key].file.Some? && links[key] == map[])
    && forall n :: n in links[key] ==> Sub(key, n) in entries && entries[Sub(key, n)] == links[key][n]
  }

  ghost predicate Hung(links: Links, key: Key) {
    key == [] || (Parent(key) in links && key[|key| - 1] in links[Parent(key)])
  }

  /** The entries are exactly what the links reach from the root. */
  ghost predicate Wired(root: DirEntry, entries: Entries, links: Links) {
    && links.Keys == entries.Keys
    && [] in entries && entries[[]] == root && root.isDir
    && (forall key {:trigger Linked(entries, links, key)} :: key in entries ==> Linked(entries, links, key))
    && (forall key {:trigger Hung(links, key)} :: key in links ==> Hung(links, key))
  }

  lemma {:induction false} ChildAt(root: DirEntry, entries: Entries, links: Links, key: Key, n: string)
    requires Wired(root, entries, links) && key in entries
    ensures n in links[key] <==> Sub(key, n) in entries
    ensures n in links[key] ==> links[key][n] == entries[Sub(key, n)]
  {
    assert Linked(entries, links, key);
    if Sub(key, n) in entries { assert Hung(links, Sub(key, n)); }
  }

  lemma {:induction false} LinkedAttached(entries: Entries, links: Links, dir: Key, name: string, child: DirEntry,
                                          k: Key)
    requires dir in links && k in entries && k in links && k != Sub(dir, name) && Linked(entries, links, k)
    requires k == dir ==> entries[k].isDir
    ensures Linked(entries[Sub(dir, name) := child],
                   links[dir := links[dir][name := child]][Sub(dir, name) := map[]], k)
  {
    var es, ls := entries[Sub(dir, name) := child], links[dir := links[dir][name := child]][Sub(dir, name) := map[]];
    forall n | n in ls[k] ensures Sub(k, n) in es && es[Sub(k, n)] == ls[k][n] {
      if k == dir && n == name {
      } else {
        assert Sub(k, n) != Sub(dir, name) by { if Sub(k, n) == Sub(dir, name) { SameSub(k, n, dir, name); } }
      }
    }
  }

  lemma {:induction false} SameSub(k: Key, n: string, dir: Key, name: string)
    requires Sub(k, n) == Sub(dir, name)
    ensures k == dir && n == name
  {
    assert Parent(Sub(k, n)) == k;
  }

  lemma {:induction false} HungAttached(links: Links, dir: Key, name: string, child: DirEntry, k: Key)
    requires dir in links && dir != Sub(dir, name) && (Sub(dir, name) in links ==> links[Sub(dir, name)] == map[])
    requires k == Sub(dir, name) || Hung(links, k)
    ensures Hung(links[dir := links[dir][name := child]][Sub(dir, name) := map[]], k)
  {
  }

  lemma {:induction false} Attached(root: DirEntry, entries: Entries, links: Links, dir: Key, name: string,
                                    child: DirEntry)
    requires Wired(root, entries, links) && dir in entries && entries[dir].isDir
    requires child.key == Sub(dir, name) && child.isDir == child.file.None?
    requires Sub(dir, name) in entries ==> !entries[Sub(dir, name)].isDir
    ensures Wired(root, entries[Sub(dir, name) := child],
                  links[dir := links[dir][name := child]][Sub(dir, name) := map[]])
  {
    var key := Sub(dir, name);
    var es, ls := entries[key := child], links[dir := links[dir][name := child]][key := map[]];
    assert |dir| < |key|;
    assert key in links ==> links[key] == map[] by { if key in entries { assert Linked(entries, links, key); } }
    forall k | k in es ensures Linked(es, ls, k) {
      if k != key {
        assert Linked(entries, links, k);
        LinkedAttached(entries, links, dir, name, child, k);
      }
    }
    forall k | k in ls ensures Hung(ls, k) {
      assert k == key || Hung(links, k);
      HungAttached(links, dir, name, child, k);
    }
  }

  lemma {:induction false} LinkedDetached(entries: Entries, links: Links, dir: Key, name: string, k: Key)
    requires dir in links && k in entries && k in links && k != Sub(dir, name) && Linked(entries, links, k)
    ensures Linked(entries - {Sub(dir, name)}, links[dir := links[dir] - {name}] - {Sub(dir, name)}, k)
  {
    var es, ls := entries - {Sub(dir, name)}, links[dir := links[dir] - {name}] - {Sub(dir, name)};
    forall n | n in ls[k] ensures Sub(k, n) in es && es[Sub(k, n)] == ls[k][n] {
      if Sub(k, n) == Sub(dir, name) { SameSub(k, n, dir, name); }
    }
  }

  lemma {:induction false} HungDetached(links: Links, dir: Key, name: string, k: Key)
    requires dir in links && dir != Sub(dir, name) && (Sub(dir, name) in links ==> links[Sub(dir, name)] == map[])
    requires k != Sub(dir, name) && Hung(links, k)
    ensures Hung(links[dir := links[dir] - {name}] - {Sub(dir, name)}, k)
  {
    if k != [] { SubOfParent(k); }
  }

  lemma {:induction false} Detached(root: DirEntry, entries: Entries, links: Links, dir: Key, name: string)
    requires Wired(root, entries, links) && dir in entries
    requires Sub(dir, name) in entries && !entries[Sub(dir, name)].isDir
    ensures Wired(root, entries - {Sub(dir, name)}, links[dir := links[dir] - {name}] - {Sub(dir, name)})
  {
    var key := Sub(dir, name);
    var es, ls := entries - {key}, links[dir := links[dir] - {name}] - {key};
    assert |dir| < |key| && Linked(entries, links, key);
    forall k | k in es ensures Linked(es, ls, k) {
      assert Linked(entries, links, k);
      LinkedDetached(entries, links, dir, name, k);
    }
    forall k | k in ls ensures Hung(ls, k) {
      assert Hung(links, k);
      HungDetached(links, dir, name, k);
    }
  }

  // -------------------------------------------------------------------- the class

  class Namespace {
    const root: DirEntry
    ghost var tree: Entries        // every reachable entry by its position
    ghost var Repr: set<DirEntry>

    ghost function LinksNow(): Links
      reads this, Repr
    {
      map key | key in tree && tree[key] in Repr :: tree[key].children
    }

    ghost predicate Valid()
      reads this, Repr
    {
      Wired(root, tree, LinksNow())
    }

    /** The tree as a flat map. */
    ghost function View(): Tree
      reads this
    {
      map key | key in tree :: tree[key].AsNode()
    }

    lemma {:induction false} ViewShape()
      requires Valid()
      ensures Shape(View())
    {
      var links := LinksNow();
      forall key | key in tree && key != [] ensures Parent(key) in tree && View()[Parent(key)] == Dir {
        assert Hung(links, key) && Linked(tree, links, Parent(key));
      }
      assert Linked(tree, links, []);
    }

    constructor ()
      ensures Valid() && View() == EMPTY_TREE && fresh(Repr)
    {
      root := new DirEntry("/", true, None, []);
      tree := map[[] := root];
      Repr := {root};
    }

    /** Put a new, childless entry into a directory, in place of a file if there is one of that name. */
    method Attach(dir: DirEntry, name: string, child: DirEntry)
      requires Valid() && dir.isDir && dir.key in tree && tree[dir.key] == dir
      requires child.key == Sub(dir.key, name) && child.children == map[] && child.isDir == child.file.None?
      requires Sub(dir.key, name) in tree ==> !tree[Sub(dir.key, name)].isDir
      modifies `tree, `Repr, dir`children
      ensures Valid() && tree == old(tree)[Sub(dir.key, name) := child] && Repr == old(Repr) + {child}
    {
      ghost var key, links := Sub(dir.key, name), LinksNow();
      Attached(root, tree, links, dir.key, name, child);
      assert |dir.key| < |key|;
      forall k | k in tree && tree[k] == dir ensures k == dir.key { assert Linked(tree, links, k); }
      dir.children := dir.children[name := child];
      tree := tree[key := child];
      Repr := Repr + {child};
      assert LinksNow() == links[dir.key := links[dir.key][name := child]][key := map[]];
    }

    /** Unlink a file from its directory. */
    method Detach(dir: DirEntry, name: string)
      requires Valid() && dir.key in tree && tree[dir.key] == dir
      requires Sub(dir.key, name) in tree && !tree[Sub(dir.key, name)].isDir
      modifies `tree, `Repr, dir`children
      ensures Valid() && tree == old(tree) - {Sub(dir.key, name)} && Repr == old(Repr)
    {
      ghost var key, links := Sub(dir.key, name), LinksNow();
      Detached(root, tree, links, dir.key, name);
      assert |dir.key| < |key|;
      forall k | k in tree && tree[k] == dir ensures k == dir.key { assert Linked(tree, links, k); }
      dir.children := dir.children - {name};
      tree := tree - {key};
      assert LinksNow() == links[dir.key := links[dir.key] - {name}] - {key};
    }

    // ----------------------------------------------------------------- walking

    /** Nothing exists below a position that does not. */
    lemma {:induction false} NothingBelowMissing(key: Key, n: nat)
      requires Valid() && n <= |key| && key[..n] !in tree
      ensures key !in tree
      decreases |key| - n
    {
      if n == |key| {
        assert key[..n] == key;
      } else {
        assert Parent(key[..n + 1]) == key[..n];
        assert key[..n + 1] in tree ==> Hung(LinksNow(), key[..n + 1]);
        NothingBelowMissing(key, n + 1);
      }
    }

    method Resolve(parts: Key) returns (found: Option<DirEntry>)
      requires Valid()
      ensures found == if parts in tree then Some(tree[parts]) else None
    {
      var current := root;
      for i := 0 to |parts|
        invariant parts[..i] in tree && tree[parts[..i]] == current
      {
        SubOfPrefix(parts, i);
        ChildAt(root, tree, LinksNow(), parts[..i], parts[i]);
        if parts[i] !in current.children {
          NothingBelowMissing(parts, i + 1);
          return None;
        }
        current := current.children[parts[i]];
      }
      assert parts[..|parts|] == parts;
      found := Some(current);
    }

    method ResolveDir(path: string) returns (r: Result<DirEntry, NsError>)
      requires Valid()
      ensures var key := DirKey(path);
        r == if key !in tree then Err(ParentNotFound)
             else if !tree[key].isDir then Err(ParentNotDirectory)
             else Ok(tree[key])
    {
      if path == "/" || path == "" { return Ok(root); }
      var entry := Resolve(CleanPath(path));
      if entry.None? { return Err(ParentNotFound); }
      if !entry.value.isDir { return Err(ParentNotDirectory); }
      r := Ok(entry.value);
    }

    /** One step down, into a directory that is created if there is nothing of that name. */
    method Enter(current: DirEntry, part: string) returns (r: Result<DirEntry, NsError>)
      requires Valid() && current.isDir && current.key in tree && tree[current.key] == current
      modifies `tree, `Repr, current`children
      ensures Valid() && fresh(Repr - old(Repr))
      ensures var key, t := Sub(current.key, part), old(View());
        && View() == (if key in t then t else t[key := Dir])
        && key in tree && (if View()[key] == Dir then r == Ok(tree[key]) && tree[key].isDir else r == Err(ComponentIsFile))
    {
      assert Sub(current.key, part) in tree ==> Linked(tree, LinksNow(), Sub(current.key, part));
      ChildAt(root, tree, LinksNow(), current.key, part);
      if part !in current.children {
        var child := new DirEntry(part, true, None, Sub(current.key, part));
        Attach(current, part, child);
        return Ok(child);
      }
      var child := current.children[part];
      r := if child.isDir then Ok(child) else Err(ComponentIsFile);
    }

    method MkdirAll(path: string) returns (r: Result<DirEntry, NsError>)
      requires Valid()
      modifies `tree, `Repr, Repr
      ensures Valid() && fresh(Repr - old(Repr))
      ensures Descended(old(View()), DirKey(path), r)
    {
      if path == "/" || path == "" {
        assert Linked(tree, LinksNow(), []);
        ViewShape();
        ClearIsNotBlocked(View(), []);
        return Ok(root);
      }
      r := Descend(CleanPath(path));
    }

    /** All directories of `key` exist now and the last one was reached; or a file blocks the way and nothing changed. */
    ghost predicate Descended(before: Tree, key: Key, r: Result<DirEntry, NsError>)
      reads this
    {
      if Blocked(before, key) then
        r == Err(ComponentIsFile) && View() == before
      else
        View() == WithDirs(before, key, |key|) && key in tree && r == Ok(tree[key]) && tree[key].isDir
    }

    /** The walk has reached the directory at the first `i` components, creating what was missing. */
    ghost predicate Reached(before: Tree, parts: Key, i: nat, current: DirEntry)
      requires i <= |parts|
      reads this
    {
      && parts[..i] in tree && tree[parts[..i]] == current && current.isDir
      && View() == WithDirs(before, parts, i) && Clear(before, parts, i)
    }

    method Step(ghost before: Tree, parts: Key, i: nat, current: DirEntry) returns (r: Result<DirEntry, NsError>)
      requires Valid() && Shape(before) && i < |parts| && Reached(before, parts, i, current)
      modifies `tree, `Repr, Repr
      ensures Valid() && fresh(Repr - old(Repr))
      ensures r.Ok? ==> Reached(before, parts, i + 1, r.value)
      ensures r.Err? ==> Blocked(before, parts) && r.error == ComponentIsFile && View() == before
    {
      SubOfPrefix(parts, i);
      assert Linked(tree, LinksNow(), parts[..i]);
      NextDir(before, parts, i);
      r := Enter(current, parts[i]);
      if r.Err? { StoppedBeforeCreating(before, parts, i); }
    }

    /** The directories are created one by one on the way down. */
    method Descend(parts: Key) returns (r: Result<DirEntry, NsError>)
      requires Valid()
      modifies `tree, `Repr, Repr
      ensures Valid() && fresh(Repr - old(Repr))
      ensures Descended(old(View()), parts, r)
    {
      ghost var t := View();
      ViewShape();
      var current := root;
      for i := 0 to |parts|
        invariant Valid() && fresh(Repr - old(Repr))
        invariant Reached(t, parts, i, current)
      {
        r := Step(t, parts, i, current);
        if r.Err? { return; }
        current := r.value;
      }
      assert parts[..|parts|] == parts;
      ClearIsNotBlocked(t, parts);
      r := Ok(current);
    }

    // ------------------------------------------------------------------ operations

    method CreateFile(path: string, meta: FileMeta) returns (r: Result<(), NsError>)
      requires Valid()
      modifies `tree, `Repr, Repr
      ensures Valid() && fresh(Repr - old(Repr))
      ensures match Create(old(View()), path, meta)
              case Ok(t) => r.Ok? && View() == t
              case Err(e) => r == Err(e) && View() == old(View())
    {
      var split := SplitPath(path);
      if split.None? { return Err(EmptyPath); }
      var (dir, name) := split.value;
      ghost var key, t := Sub(DirKey(dir), name), View();
      assert CreateKey(path) == Some(key);
      ViewShape();
      ReachedDir(t, key);
      var parent := MkdirAll(dir);
      if parent.Err? { return Err(parent.error); }
      assert Linked(tree, LinksNow(), DirKey(dir));
      r := Link(parent.value, name, meta);
    }

    /** Put a file into a directory, in place of the file of that name if there is one. */
    method Link(parent: DirEntry, name: string, meta: FileMeta) returns (r: Result<(), NsError>)
      requires Valid() && parent.isDir && parent.key in tree && tree[parent.key] == parent
      modifies `tree, `Repr, parent`children
      ensures Valid() && fresh(Repr - old(Repr))
      ensures var key, t := Sub(parent.key, name), old(View());
        if key in t && t[key] == Dir then r == Err(IsDirectory) && View() == t
        else r.Ok? && View() == t[key := File(meta)]
    {
      ghost var key := Sub(parent.key, name);
      ChildAt(root, tree, LinksNow(), parent.key, name);
      assert key in tree ==> Linked(tree, LinksNow(), key);
      if name in parent.children && parent.children[name].isDir {
        return Err(IsDirectory);
      }
      assert key in tree ==> !tree[key].isDir;
      var entry := new DirEntry(name, false, Some(meta), key);
      Attach(parent, name, entry);
      r := Ok(());
    }

    method GetFile(path: string) returns (r: Result<FileMeta, NsError>)
      requires Valid()
      ensures r == Get(View(), path)
    {
      var entry := Resolve(CleanPath(path));
      if entry.None? { return Err(NotFound); }
      assert Linked(tree, LinksNow(), GetKey(path));
      if entry.value.isDir { return Err(IsDirectory); }
      r := Ok(entry.value.file.value);
    }

    method DeleteFile(path: string) returns (r: Result<FileMeta, NsError>)
      requires Valid()
      modifies `tree, `Repr, Repr
      ensures Valid() && fresh(Repr - old(Repr))
      ensures match Delete(old(View()), path)
              case Ok((t, meta)) => r == Ok(meta) && View() == t
              case Err(e) => r == Err(e) && View() == old(View())
    {
      var split := SplitPath(path);
      if split.None? { return Err(EmptyPath); }
      var (dir, name) := split.value;
      ghost var key := Sub(DirKey(dir), name);
      assert CreateKey(path) == Some(key);
      assert DirKey(dir) in tree ==> Linked(tree, LinksNow(), DirKey(dir));
      var parent := ResolveDir(dir);
      if parent.Err? { return Err(parent.error); }
      assert Linked(tree, LinksNow(), DirKey(dir));
      r := Unlink(parent.value, name);
    }

    method Unlink(parent: DirEntry, name: string) returns (r: Result<FileMeta, NsError>)
      requires Valid() && parent.isDir && parent.key in tree && tree[parent.key] == parent
      modifies `tree, `Repr, parent`children
      ensures Valid() && fresh(Repr - old(Repr))
      ensures var key, t := Sub(parent.key, name), old(View());
        if key !in t then r == Err(NotFound) && View() == t
        else if t[key] == Dir then r == Err(IsDirectory) && View() == t
        else r == Ok(t[key].meta) && View() == t - {key}
    {
      ChildAt(root, tree, LinksNow(), parent.key, name);
      if name !in parent.children { return Err(NotFound); }
      var entry := parent.children[name];
      assert Linked(tree, LinksNow(), Sub(parent.key, name));
      if entry.isDir { return Err(IsDirectory); }
      Detach(parent, name);
      r := Ok(entry.file.value);
    }
  }
}
