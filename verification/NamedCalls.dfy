/** The calls of `FileTree` on a name in a directory that may be reached through
  * links. Where the directory leads is fixed beforehand, as `w`; a change may
  * lose it, and then every call fails and changes nothing.
  */
module NamedCalls {
  import opened Wrappers
  import opened FileTree
  import opened Links

  /** `d` leads to `w`, unless it leads to no directory at all. */
  predicate Aimed(t: Tree, d: Path, w: Path) {
    Leads(t, d).None? || Leads(t, d) == Some(w)
  }

  /** The place in `w` of what `path` names. */
  function Here(w: Path, path: Path): (p: Path)
    requires path != []
    ensures w < p && p != [] && Parent(p) == w
  {
    w + [path[|path| - 1]]
  }

  lemma LocatedHere(t: Tree, path: Path, w: Path)
    requires path != [] && Aimed(t, Parent(path), w)
    ensures Locate(t, path) == if Leads(t, Parent(path)).Some? then Some(Here(w, path)) else None
  {
  }

  /** A removal loses a name or leaves it where it was. */
  lemma AimAfterRemoval(t: Tree, r: Tree, d: Path, w: Path)
    requires WellFormed(t) && Covers(r, t) && Aimed(t, d, w)
    ensures Aimed(r, d, w)
  {
    if Leads(r, d).Some? {
      FollowGrows(r, t, [], d, MAX_LINKS);
    }
  }

  lemma AimGrows(t: Tree, r: Tree, d: Path)
    requires Covers(t, r) && Leads(t, d).Some?
    ensures Leads(r, d) == Leads(t, d)
  {
    FollowGrows(t, r, [], d, MAX_LINKS);
  }

  /** The node a found name stands for, when it is no link, is what the name leads to. */
  lemma LeadsHere(t: Tree, path: Path, w: Path)
    requires WellFormed(t) && path != [] && Leads(t, Parent(path)) == Some(w)
    ensures var p := Here(w, path); p in t && !t[p].Link? ==> Follow(t, [], path, MAX_LINKS) == Some(p)
    ensures var p := Here(w, path); p !in t ==> Follow(t, [], path, MAX_LINKS) == None
  {
    NamedStep(t, path);
  }

  method MetadataNamed(fs: FileSystem, path: Path, ghost w: Path) returns (r: Result<Node, IoError>)
    requires path != [] && Aimed(fs.tree, Parent(path), w)
    ensures r.Ok? ==> Leads(fs.tree, Parent(path)).Some? && At(fs.tree, Here(w, path)) == Some(r.value)
    ensures r == Err(NotFound) ==> Leads(fs.tree, Parent(path)).None? || Here(w, path) !in fs.tree
    ensures fs.sound && Leads(fs.tree, Parent(path)).Some? ==>
      r == if Here(w, path) in fs.tree then Ok(fs.tree[Here(w, path)]) else Err(NotFound)
  {
    LocatedHere(fs.tree, path, w);
    r := fs.SymlinkMetadata(path);
  }

  method ReadNamed(fs: FileSystem, path: Path, ghost w: Path) returns (r: Result<Bytes, IoError>)
    requires WellFormed(fs.tree) && path != [] && Leads(fs.tree, Parent(path)) == Some(w)
    requires Here(w, path) in fs.tree && fs.tree[Here(w, path)].File?
    ensures r.Ok? ==> r.value == fs.tree[Here(w, path)].bytes
    ensures fs.sound ==> r.Ok?
  {
    LeadsHere(fs.tree, path, w);
    r := fs.Read(path);
  }

  method RemoveNamed(fs: FileSystem, path: Path, ghost w: Path) returns (r: Result<(), IoError>)
    requires WellFormed(fs.tree) && path != [] && Aimed(fs.tree, Parent(path), w)
    modifies fs
    ensures fs.trace == old(fs.trace) + [fs.tree]
    ensures WellFormed(fs.tree) && OnlyAt(old(fs.tree), fs.tree, Here(w, path)) && Aimed(fs.tree, Parent(path), w)
    ensures r.Ok? ==> Leads(old(fs.tree), Parent(path)).Some? && fs.tree == old(fs.tree) - {Here(w, path)}
    ensures r == Err(NotFound) ==> Leads(fs.tree, Parent(path)).None? || Here(w, path) !in fs.tree
    ensures r.Err? ==> fs.tree == old(fs.tree)
    ensures Leads(old(fs.tree), Parent(path)).Some? && IsDir(old(fs.tree), Here(w, path)) ==> r.Err? && r != Err(NotFound)
    ensures fs.sound && Leads(old(fs.tree), Parent(path)).Some? && !IsDir(old(fs.tree), Here(w, path)) ==>
      if Here(w, path) in old(fs.tree) then r.Ok? else r == Err(NotFound)
  {
    LocatedHere(fs.tree, path, w);
    if !IsDir(fs.tree, Here(w, path)) {
      DropKeepsForm(fs.tree, Here(w, path));
    }
    r := fs.RemoveFile(path);
    AimAfterRemoval(old(fs.tree), fs.tree, Parent(path), w);
  }

  method CreateNamed(fs: FileSystem, path: Path, mode: nat, ghost w: Path) returns (r: Result<(), IoError>)
    requires WellFormed(fs.tree) && path != [] && Aimed(fs.tree, Parent(path), w)
    modifies fs
    ensures fs.trace == old(fs.trace) + [fs.tree]
    ensures WellFormed(fs.tree) && OnlyAt(old(fs.tree), fs.tree, Here(w, path))
    ensures Leads(fs.tree, Parent(path)) == Leads(old(fs.tree), Parent(path))
    ensures r.Ok? ==>
      && Leads(fs.tree, Parent(path)) == Some(w)
      && Here(w, path) !in old(fs.tree) && At(fs.tree, Here(w, path)) == Some(File([], mode))
    ensures r.Err? ==> fs.tree == old(fs.tree)
    ensures fs.sound && Leads(old(fs.tree), Parent(path)).Some? && Here(w, path) !in old(fs.tree) ==> r.Ok?
  {
    LocatedHere(fs.tree, path, w);
    var p := Here(w, path);
    if Leads(fs.tree, Parent(path)).Some? && p !in fs.tree {
      PutKeepsForm(fs.tree, p, File([], mode));
    }
    r := fs.CreateNew(path, mode);
    if r.Ok? {
      AimGrows(old(fs.tree), fs.tree, Parent(path));
    }
  }

  /** A file of this mode that holds a first part of these bytes. */
  predicate Begun(t: Tree, p: Path, bytes: Bytes, mode: nat) {
    p in t && t[p].File? && t[p].mode == mode && t[p].bytes <= bytes
  }

  /** Writes to the file just made. */
  method WriteNamed(fs: FileSystem, path: Path, bytes: Bytes) returns (r: Result<(), IoError>)
    requires WellFormed(fs.tree) && path != [] && Leads(fs.tree, Parent(path)).Some?
    requires var p := Here(Leads(fs.tree, Parent(path)).value, path); p in fs.tree && fs.tree[p].File?
    modifies fs
    ensures var p := Here(Leads(old(fs.tree), Parent(path)).value, path);
      && Continues(old(fs.trace), fs.trace) && OnlyAtSince(fs.trace, |old(fs.trace)|, old(fs.tree), p)
      && OnlyAt(old(fs.tree), fs.tree, p) && WellFormed(fs.tree)
      && p in fs.tree && fs.tree[p].File?
      && (forall i :: |old(fs.trace)| <= i < |fs.trace| ==> Begun(fs.trace[i], p, bytes, old(fs.tree)[p].mode))
      && (r.Ok? ==> At(fs.tree, p) == Some(File(bytes, old(fs.tree)[p].mode)))
    ensures Leads(fs.tree, Parent(path)) == Leads(old(fs.tree), Parent(path))
    ensures fs.sound ==> r.Ok?
  {
    var p := Here(Leads(fs.tree, Parent(path)).value, path);
    forall bs: Bytes ensures WellFormed(fs.tree[p := File(bs, fs.tree[p].mode)]) {
      PutKeepsForm(fs.tree, p, File(bs, fs.tree[p].mode));
    }
    r := fs.WriteAll(p, bytes);
    assert Covers(old(fs.tree), fs.tree);
    AimGrows(old(fs.tree), fs.tree, Parent(path));
  }

  method SetModeNamed(fs: FileSystem, path: Path, mode: nat, ghost w: Path) returns (r: Result<(), IoError>)
    requires WellFormed(fs.tree) && path != [] && Leads(fs.tree, Parent(path)) == Some(w)
    requires Here(w, path) in fs.tree && fs.tree[Here(w, path)].File?
    modifies fs
    ensures fs.trace == old(fs.trace) + [fs.tree]
    ensures OnlyAt(old(fs.tree), fs.tree, Here(w, path)) && WellFormed(fs.tree)
    ensures fs.tree == if r.Ok? then old(fs.tree)[Here(w, path) := WithMode(old(fs.tree)[Here(w, path)], mode)] else old(fs.tree)
    ensures Leads(fs.tree, Parent(path)) == Leads(old(fs.tree), Parent(path))
    ensures fs.sound ==> r.Ok?
  {
    var p := Here(w, path);
    LeadsHere(fs.tree, path, w);
    PutKeepsForm(fs.tree, p, WithMode(fs.tree[p], mode));
    r := fs.SetPermissions(path, mode);
    assert Covers(old(fs.tree), fs.tree);
    AimGrows(old(fs.tree), fs.tree, Parent(path));
  }

  /** Both names are in one directory, as a temporary file and its target are. */
  method RenameNamed(fs: FileSystem, from: Path, to: Path, ghost w: Path) returns (r: Result<(), IoError>)
    requires from != [] && to != [] && Parent(from) == Parent(to) && Here(w, from) != Here(w, to)
    requires WellFormed(fs.tree) && Leads(fs.tree, Parent(to)) == Some(w)
    requires Here(w, from) in fs.tree && fs.tree[Here(w, from)].File?
    modifies fs
    ensures fs.trace == old(fs.trace) + [fs.tree] && WellFormed(fs.tree)
    ensures r.Ok? ==> !IsDir(old(fs.tree), Here(w, to))
    ensures fs.tree == if r.Ok? then (old(fs.tree) - {Here(w, from)})[Here(w, to) := old(fs.tree)[Here(w, from)]] else old(fs.tree)
    ensures fs.sound && !IsDir(old(fs.tree), Here(w, to)) ==> r.Ok?
  {
    LocatedHere(fs.tree, from, w);
    LocatedHere(fs.tree, to, w);
    var f, p := Here(w, from), Here(w, to);
    DropKeepsForm(fs.tree, f);
    if !IsDir(fs.tree, p) {
      assert IsDir(fs.tree - {f}, w);
      PutKeepsForm(fs.tree - {f}, p, fs.tree[f]);
    }
    r := fs.Rename(from, to);
  }

  /** The names in the directory `d`. */
  method ListNamed(fs: FileSystem, d: Path, ghost w: Path) returns (r: Result<seq<string>, IoError>)
    requires Aimed(fs.tree, d, w)
    ensures r.Ok? ==>
      && Leads(fs.tree, d) == Some(w)
      && (forall name :: name in r.value <==> w + [name] in fs.tree)
      && forall i, j :: 0 <= i < j < |r.value| ==> r.value[i] != r.value[j]
    ensures fs.sound && Leads(fs.tree, d).Some? ==> r.Ok?
  {
    r := fs.ReadDir(d);
  }

  method RemoveDirNamed(fs: FileSystem, path: Path, ghost w: Path) returns (r: Result<(), IoError>)
    requires WellFormed(fs.tree) && path != [] && Aimed(fs.tree, Parent(path), w)
    modifies fs
    ensures Continues(old(fs.trace), fs.trace) && WellFormed(fs.tree)
    ensures forall i :: |old(fs.trace)| <= i < |fs.trace| ==> Pruned(old(fs.tree), Here(w, path), fs.trace[i])
    ensures Pruned(old(fs.tree), Here(w, path), fs.tree)
    ensures r.Ok? ==> fs.tree == Without(old(fs.tree), Here(w, path))
    ensures fs.sound && Leads(old(fs.tree), Parent(path)).Some? && IsDir(old(fs.tree), Here(w, path)) ==> r.Ok?
  {
    LocatedHere(fs.tree, path, w);
    r := fs.RemoveDirAll(path);
  }
}
