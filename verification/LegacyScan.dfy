/** The report on the old workflows folder (`chocofactoryd/src/config_root.rs`,
  * lines 330 to 381): which of its files are built-ins as they are now, and which are not.
  */
module LegacyScan {
  import opened Wrappers
  import opened FileTree
  import opened Links
  import opened NamedCalls

  datatype Scan = Scan(stale: nat, other: seq<Path>)

  /** The folder being scanned, and the built-ins by their place in it. */
  datatype Folder = Folder(dir: Path, builtins: map<Path, Bytes>)

  /** A file, no link, that is a built-in byte for byte. */
  predicate IsStale(t: Tree, f: Folder, q: Path) {
    && q in t && t[q].File? && f.dir <= q
    && q[|f.dir|..] in f.builtins && f.builtins[q[|f.dir|..]] == t[q].bytes
  }

  /** What is to be reported on: everything below the folder but directories. */
  predicate Counted(t: Tree, f: Folder, q: Path) {
    q in t && f.dir < q && !t[q].Dir?
  }

  /** Each thing in the folder counts once: as stale, or by its path. */
  ghost predicate Reported(t: Tree, f: Folder, scan: Scan) {
    && (forall i, j :: 0 <= i < j < |scan.other| ==> scan.other[i] != scan.other[j])
    && (forall q :: q in scan.other <==> Counted(t, f, q) && !IsStale(t, f, q))
    && (exists stale: set<Path> :: scan.stale == |stale| && forall q :: q in stale <==> Counted(t, f, q) && IsStale(t, f, q))
  }

  // ---- The walk -----------------------------------------------------------------------------

  /** At or under one of the paths still to be looked at. */
  ghost predicate Left(open: set<Path>, q: Path) {
    exists x :: x in open && x <= q
  }

  /** No open path lies under another. */
  ghost predicate Apart(open: set<Path>) {
    forall x, y :: x in open && y in open && x <= y ==> x == y
  }

  /** What has been found is what is no longer left. */
  ghost predicate Walked(t: Tree, f: Folder, open: set<Path>, stale: set<Path>, other: seq<Path>) {
    && Apart(open) && (forall x :: x in open ==> x in t && f.dir <= x)
    && (forall i, j :: 0 <= i < j < |other| ==> other[i] != other[j])
    && (forall q :: q in other <==> Counted(t, f, q) && !Left(open, q) && !IsStale(t, f, q))
    && (forall q :: q in stale <==> Counted(t, f, q) && !Left(open, q) && IsStale(t, f, q))
  }

  function Children(current: Path, names: seq<string>): (c: set<Path>)
    ensures forall x :: x in c <==> exists i :: 0 <= i < |names| && x == current + [names[i]]
  {
    set i | 0 <= i < |names| :: current + [names[i]]
  }

  /** A directory gives way to what it holds: nothing of the rest is left or found by that. */
  lemma OpensUp(t: Tree, f: Folder, rest: set<Path>, current: Path, names: seq<string>, q: Path)
    requires WellFormed(t) && IsDir(t, current) && forall name :: name in names <==> current + [name] in t
    requires q in t && !t[q].Dir?
    ensures Left(rest + {current}, q) <==> Left(rest + Children(current, names), q)
  {
    if current <= q {
      assert current != q && current < q;
      NameOf(t, current, q);
      var i :| 0 <= i < |names| && names[i] == q[|current|];
      UnderName(current, names[i], q);
      assert current + [names[i]] in Children(current, names);
    }
    if x :| x in Children(current, names) && x <= q {
      var i :| 0 <= i < |names| && x == current + [names[i]];
      UnderName(current, names[i], q);
    }
  }

  lemma ApartBelow(rest: set<Path>, current: Path, names: seq<string>)
    requires Apart(rest + {current}) && current !in rest
    ensures Apart(rest + Children(current, names))
  {
    var open := rest + Children(current, names);
    assert current in rest + {current};
    assert forall x :: x in rest ==> x in rest + {current};
    forall x, y | x in open && y in open && x <= y ensures x == y {
      if x in rest && y in Children(current, names) {
        PrefixOfChild(x, current, y[|y| - 1], y);
      }
    }
  }

  lemma PrefixOfChild(x: Path, current: Path, name: string, y: Path)
    requires x <= y && y == current + [name]
    ensures x == y || x <= current
  {
    if |x| <= |current| {
      assert x == y[..|x|] == current[..|x|];
    }
  }

  lemma WalkOpensUp(t: Tree, f: Folder, rest: set<Path>, current: Path, names: seq<string>, stale: set<Path>, other: seq<Path>)
    requires WellFormed(t) && IsDir(t, current) && current !in rest
    requires forall name :: name in names <==> current + [name] in t
    requires Walked(t, f, rest + {current}, stale, other)
    ensures Walked(t, f, rest + Children(current, names), stale, other)
  {
    ApartBelow(rest, current, names);
    assert current in rest + {current};
    forall q | Counted(t, f, q) ensures Left(rest + {current}, q) <==> Left(rest + Children(current, names), q) {
      OpensUp(t, f, rest, current, names, q);
    }
    forall x | x in rest + Children(current, names) ensures x in t && f.dir <= x {
      if x !in rest {
        var i :| 0 <= i < |names| && x == current + [names[i]];
        assert names[i] in names && current <= x;
      }
    }
  }

  /** A leaf among the open paths is found when it is closed, and nothing else is. */
  lemma LeafCloses(t: Tree, f: Folder, open: set<Path>, leaf: Path, q: Path)
    requires WellFormed(t) && Apart(open) && leaf in open && leaf in t && !t[leaf].Dir? && q in t
    ensures Left(open - {leaf}, q) <==> Left(open, q) && q != leaf
  {
    if leaf < q {
      NothingBelow(t, leaf, q);
    }
    if Left(open, q) && q != leaf {
      var x :| x in open && x <= q;
      assert x in open - {leaf};
    }
  }

  lemma WalkTakes(t: Tree, f: Folder, open: set<Path>, leaf: Path, stale: set<Path>, other: seq<Path>)
    requires WellFormed(t) && Walked(t, f, open, stale, other) && leaf in open && !t[leaf].Dir? && f.dir < leaf
    ensures IsStale(t, f, leaf) ==> Walked(t, f, open - {leaf}, stale + {leaf}, other) && leaf !in stale
    ensures !IsStale(t, f, leaf) ==> Walked(t, f, open - {leaf}, stale, other + [leaf])
  {
    assert Left(open, leaf) && leaf !in other && leaf !in stale;
    forall q | Counted(t, f, q) ensures Left(open - {leaf}, q) <==> Left(open, q) && q != leaf {
      LeafCloses(t, f, open, leaf, q);
    }
    assert Apart(open - {leaf});
  }

  // ---- The folder as it is seen ---------------------------------------------------------------

  /** The tree by the names that begin with `dir`, which leads to `place`. */
  ghost function Seen(t: Tree, dir: Path, place: Path): (v: Tree)
    ensures forall q :: dir <= q ==> At(v, q) == At(t, place + q[|dir|..])
    ensures forall q :: q < dir ==> IsDir(v, q)
    ensures forall q :: q in v ==> dir <= q || q < dir
  {
    var below := set p | p in t && place <= p :: dir + p[|place|..];
    var above := set i | 0 <= i < |dir| :: dir[..i];
    var v := map q | q in below + above && (dir <= q ==> place + q[|dir|..] in t) ::
      if dir <= q then t[place + q[|dir|..]] else Dir(0);
    assert forall q :: dir <= q ==> At(v, q) == At(t, place + q[|dir|..]) by {
      forall q | dir <= q && place + q[|dir|..] in t ensures q in below {
        var p := place + q[|dir|..];
        assert place <= p && p[|place|..] == q[|dir|..];
        assert q == dir + q[|dir|..];
      }
    }
    assert forall q :: q < dir ==> IsDir(v, q) by {
      forall q | q < dir ensures q in above {
        assert q == dir[..|q|];
      }
    }
    v
  }

  lemma SeenIsWellFormed(t: Tree, dir: Path, place: Path)
    requires WellFormed(t) && IsDir(t, place)
    ensures WellFormed(Seen(t, dir, place)) && IsDir(Seen(t, dir, place), dir)
  {
    var v := Seen(t, dir, place);
    assert place + dir[|dir|..] == place;
    assert IsDir(v, dir);
    forall p ensures Hangs(v, p) {
      if p in v && p != [] {
        if p <= dir {
          assert Parent(p) < dir;
        } else {
          var q := place + p[|dir|..];
          assert Hangs(t, q) && Parent(q) == place + Parent(p)[|dir|..];
          assert dir <= Parent(p);
        }
      }
    }
    assert [] == dir || [] < dir;
  }

  /** What the scan goes by: the folder leads to `place`, and `v` is what it shows. */
  ghost predicate Viewed(t: Tree, f: Folder, place: Path, v: Tree) {
    && WellFormed(t) && Leads(t, f.dir) == Some(place) && v == Seen(t, f.dir, place) && WellFormed(v) && IsDir(v, f.dir)
  }

  /** A name in the folder leads where it shows. */
  lemma {:induction false} LeadsAsSeen(t: Tree, f: Folder, place: Path, v: Tree, name: Path)
    requires Viewed(t, f, place, v) && f.dir <= name && name in v
    ensures name != f.dir ==> Leads(t, Parent(name)) == Some(place + Parent(name)[|f.dir|..]) && f.dir <= Parent(name)
    ensures !v[name].Link? ==> Follow(t, [], name, MAX_LINKS) == Some(place + name[|f.dir|..])
    ensures At(t, place + name[|f.dir|..]) == Some(v[name])
    decreases |name|
  {
    if name == f.dir {
      assert place + name[|f.dir|..] == place;
    } else {
      var up, x := Parent(name), name[|name| - 1];
      assert Hangs(v, name) && f.dir <= up;
      LeadsAsSeen(t, f, place, v, up);
      assert place + name[|f.dir|..] == place + up[|f.dir|..] + [x];
      NamedStep(t, name);
    }
  }

  method LookAt(fs: FileSystem, f: Folder, name: Path, ghost place: Path, ghost v: Tree) returns (r: Result<Node, IoError>)
    requires Viewed(fs.tree, f, place, v) && f.dir < name && name in v
    ensures r.Ok? ==> r.value == v[name]
    ensures fs.sound ==> r.Ok?
  {
    LeadsAsSeen(fs.tree, f, place, v, name);
    assert Parent(name) + [name[|name| - 1]] == name;
    ghost var w := place + Parent(name)[|f.dir|..];
    assert Here(w, name) == place + name[|f.dir|..];
    r := MetadataNamed(fs, name, w);
  }

  method ReadAt(fs: FileSystem, f: Folder, name: Path, ghost place: Path, ghost v: Tree) returns (r: Result<Bytes, IoError>)
    requires Viewed(fs.tree, f, place, v) && f.dir < name && name in v && v[name].File?
    ensures r.Ok? ==> r.value == v[name].bytes
    ensures fs.sound ==> r.Ok?
  {
    LeadsAsSeen(fs.tree, f, place, v, name);
    r := fs.Read(name);
  }

  method ListAt(fs: FileSystem, f: Folder, current: Path, ghost place: Path, ghost v: Tree) returns (r: Result<seq<string>, IoError>)
    requires Leads(fs.tree, f.dir).Some? ==> Viewed(fs.tree, f, place, v) && IsDir(v, current)
    requires Leads(fs.tree, f.dir).Some? || current == f.dir
    requires f.dir <= current
    ensures r.Ok? ==>
      && Leads(fs.tree, f.dir).Some?
      && (forall name :: name in r.value <==> current + [name] in v)
      && forall i, j :: 0 <= i < j < |r.value| ==> r.value[i] != r.value[j]
    ensures fs.sound && Leads(fs.tree, f.dir).Some? ==> r.Ok?
  {
    if Leads(fs.tree, f.dir).Some? {
      LeadsAsSeen(fs.tree, f, place, v, current);
    }
    r := ListNamed(fs, current, place + current[|f.dir|..]);
    if Leads(fs.tree, f.dir).None? {
      return;
    }
    forall name ensures current + [name] in v <==> place + current[|f.dir|..] + [name] in fs.tree {
      var p := current + [name];
      assert p[|f.dir|..] == current[|f.dir|..] + [name];
      assert place + p[|f.dir|..] == place + current[|f.dir|..] + [name];
      assert f.dir <= p && At(v, p) == At(fs.tree, place + p[|f.dir|..]);
    }
  }

  // ---- The scan -------------------------------------------------------------------------------

  function Open(pending: seq<Path>): (open: set<Path>)
    ensures forall p :: p in open <==> p in pending
  {
    set p | p in pending
  }

  ghost predicate AreDirs(t: Tree, pending: seq<Path>) {
    && (forall p :: p in pending ==> IsDir(t, p))
    && (forall i, j :: 0 <= i < j < |pending| ==> pending[i] != pending[j])
  }

  /** One entry: a directory is for later, anything else is counted now. */
  method ScanEntry(fs: FileSystem, f: Folder, entry: Path, stale: nat, other: seq<Path>,
                   ghost open: set<Path>, ghost found: set<Path>, ghost place: Path, ghost v: Tree)
    returns (r: Result<bool, IoError>, nowStale: nat, nowOther: seq<Path>, ghost nowFound: set<Path>)
    requires Viewed(fs.tree, f, place, v) && entry in open && f.dir < entry && Walked(v, f, open, found, other) && stale == |found|
    ensures r.Ok? ==> r.value == IsDir(v, entry) && nowStale == |nowFound|
    ensures r.Ok? ==> Walked(v, f, if r.value then open else open - {entry}, nowFound, nowOther)
    ensures fs.sound ==> r.Ok?
  {
    nowStale, nowOther, nowFound := stale, other, found;
    var meta := LookAt(fs, f, entry, place, v);
    if meta.Err? {
      return Err(meta.error), nowStale, nowOther, nowFound;
    }
    if meta.value.Dir? {
      return Ok(true), nowStale, nowOther, nowFound;
    }
    WalkTakes(v, f, open, entry, found, other);
    var relative := entry[|f.dir|..];
    if meta.value.File? && relative in f.builtins {
      var bytes := ReadAt(fs, f, entry, place, v);
      if bytes.Err? {
        return Err(bytes.error), nowStale, nowOther, nowFound;
      }
      if bytes.value == f.builtins[relative] {
        return Ok(false), stale + 1, other, found + {entry};
      }
    }
    nowOther := other + [entry];
    r := Ok(false);
  }

  /** In the middle of a directory: the first `i` names are dealt with. */
  ghost predicate Within(t: Tree, f: Folder, current: Path, rest: seq<Path>, names: seq<string>, i: nat,
                         pending: seq<Path>, stale: nat, other: seq<Path>, found: set<Path>)
  {
    && i <= |names| && AreDirs(t, pending) && stale == |found|
    && Walked(t, f, Open(pending) + Children(current, names[i..]), found, other)
    && (forall p :: p in pending ==> p in rest || current < p)
    && (forall k :: i <= k < |names| ==> current + [names[k]] !in pending)
  }

  ghost predicate DistinctNames(names: seq<string>) {
    forall i, j :: 0 <= i < j < |names| ==> names[i] != names[j]
  }

  method ScanNext(fs: FileSystem, f: Folder, current: Path, rest: seq<Path>, names: seq<string>, i: nat,
                  pending: seq<Path>, stale: nat, other: seq<Path>,
                  ghost found: set<Path>, ghost place: Path, ghost v: Tree)
    returns (r: Result<seq<Path>, IoError>, nowStale: nat, nowOther: seq<Path>, ghost nowFound: set<Path>)
    requires Viewed(fs.tree, f, place, v) && i < |names| && DistinctNames(names) && f.dir <= current
    requires Within(v, f, current, rest, names, i, pending, stale, other, found)
    ensures r.Ok? ==> Within(v, f, current, rest, names, i + 1, r.value, nowStale, nowOther, nowFound)
    ensures fs.sound ==> r.Ok?
  {
    var entry := current + [names[i]];
    ghost var open := Open(pending) + Children(current, names[i..]);
    FirstChild(current, names, i);
    var isDir;
    isDir, nowStale, nowOther, nowFound := ScanEntry(fs, f, entry, stale, other, open, found, place, v);
    if isDir.Err? {
      return Err(isDir.error), nowStale, nowOther, nowFound;
    }
    OpenAfter(pending, current, names, i);
    OthersDiffer(current, names, i);
    r := Ok(if isDir.value then pending + [entry] else pending);
  }

  lemma WithinAtFirst(t: Tree, f: Folder, current: Path, rest: seq<Path>, names: seq<string>, stale: nat, other: seq<Path>, found: set<Path>)
    requires WellFormed(t) && AreDirs(t, rest + [current]) && stale == |found|
    requires forall name :: name in names <==> current + [name] in t
    requires Walked(t, f, Open(rest) + {current}, found, other)
    ensures Within(t, f, current, rest, names, 0, rest, stale, other, found) && current !in rest
  {
    assert current in rest + [current] && current in Open(rest) + {current};
    CurrentIsApart(rest, current);
    WalkOpensUp(t, f, Open(rest), current, names, found, other);
    assert names[0..] == names;
    assert forall i :: 0 <= i < |rest| ==> (rest + [current])[i] == rest[i];
    assert forall p :: p in rest ==> p in rest + [current];
    forall k | 0 <= k < |names| ensures current + [names[k]] !in rest {
      assert current < current + [names[k]];
      assert forall x :: x in rest ==> x in Open(rest) + {current};
    }
  }

  /** One directory: what it holds is counted or for later. */
  method ScanDir(fs: FileSystem, f: Folder, current: Path, rest: seq<Path>, stale: nat, other: seq<Path>,
                 ghost found: set<Path>, ghost place: Path, ghost v: Tree)
    returns (r: Result<seq<Path>, IoError>, nowStale: nat, nowOther: seq<Path>, ghost nowFound: set<Path>)
    requires Leads(fs.tree, f.dir).Some? ==> Viewed(fs.tree, f, place, v) && AreDirs(v, rest + [current])
    requires Leads(fs.tree, f.dir).Some? || current == f.dir
    requires stale == |found| && Walked(v, f, Open(rest) + {current}, found, other)
    ensures r.Ok? ==> AreDirs(v, r.value) && Walked(v, f, Open(r.value), nowFound, nowOther)
    ensures r.Ok? ==> nowStale == |nowFound| && forall p :: p in r.value ==> p in rest || current < p
    ensures r.Ok? ==> Leads(fs.tree, f.dir).Some?
    ensures fs.sound && Leads(fs.tree, f.dir).Some? ==> r.Ok?
  {
    nowStale, nowOther, nowFound := stale, other, found;
    assert current in rest + [current] && current in Open(rest) + {current};
    var listed := ListAt(fs, f, current, place, v);
    if listed.Err? {
      return Err(listed.error), nowStale, nowOther, nowFound;
    }
    var names := listed.value;
    WithinAtFirst(v, f, current, rest, names, stale, other, found);
    r := Ok(rest);
    for i := 0 to |names|
      invariant r.Ok? && Within(v, f, current, rest, names, i, r.value, nowStale, nowOther, nowFound)
    {
      r, nowStale, nowOther, nowFound := ScanNext(fs, f, current, rest, names, i, r.value, nowStale, nowOther,
                                               nowFound, place, v);
      if r.Err? {
        return;
      }
    }
    assert Open(r.value) + Children(current, names[|names|..]) == Open(r.value);
  }

  lemma CurrentIsApart(rest: seq<Path>, current: Path)
    requires forall i, j :: 0 <= i < j < |rest + [current]| ==> (rest + [current])[i] != (rest + [current])[j]
    ensures current !in rest
  {
    var all := rest + [current];
    forall i | 0 <= i < |rest| ensures rest[i] != current {
      assert all[i] != all[|rest|];
    }
  }

  lemma FirstChild(current: Path, names: seq<string>, i: nat)
    requires i < |names|
    ensures current + [names[i]] in Children(current, names[i..]) && current < current + [names[i]]
  {
    assert names[i..][0] == names[i];
  }

  lemma OthersDiffer(current: Path, names: seq<string>, i: nat)
    requires i < |names| && forall k, l :: 0 <= k < l < |names| ==> names[k] != names[l]
    ensures forall k :: i < k < |names| ==> current + [names[k]] != current + [names[i]]
  {
    forall k | i < k < |names| ensures current + [names[k]] != current + [names[i]] {
      assert (current + [names[k]])[|current|] == names[k] && (current + [names[i]])[|current|] == names[i];
    }
  }

  /** What is open once the `i`-th entry is dealt with. */
  lemma OpenAfter(pending: seq<Path>, current: Path, names: seq<string>, i: nat)
    requires i < |names| && current + [names[i]] !in pending
    requires forall k, l :: 0 <= k < l < |names| ==> names[k] != names[l]
    ensures var entry, open := current + [names[i]], Open(pending) + Children(current, names[i..]);
      && open - {entry} == Open(pending) + Children(current, names[i + 1..])
      && open == Open(pending + [entry]) + Children(current, names[i + 1..])
  {
    var entry := current + [names[i]];
    var now, next := names[i..], names[i + 1..];
    assert now == [names[i]] + next;
    OthersDiffer(current, names, i);
    forall x ensures x in Children(current, now) <==> x == entry || x in Children(current, next) {
      if x in Children(current, now) {
        var k :| 0 <= k < |now| && x == current + [now[k]];
        assert k > 0 ==> now[k] == next[k - 1];
      }
      if x in Children(current, next) {
        var k :| 0 <= k < |next| && x == current + [next[k]];
        assert next[k] == now[k + 1];
      }
      assert now[0] == names[i];
    }
    assert entry !in Children(current, next) by {
      forall k | 0 <= k < |next| ensures current + [next[k]] != entry {
        assert next[k] == names[i + 1 + k];
      }
    }
  }

  ghost function DirsLeft(t: Tree, open: set<Path>): set<Path> {
    set d | d in t && IsDir(t, d) && Left(open, d)
  }

  /** Every directory is opened once. */
  lemma FewerLeft(t: Tree, rest: seq<Path>, current: Path, pending: seq<Path>)
    requires IsDir(t, current) && Apart(Open(rest) + {current}) && current !in rest
    requires forall p :: p in pending ==> p in rest || current < p
    ensures DirsLeft(t, Open(pending)) < DirsLeft(t, Open(rest) + {current})
  {
    var before := Open(rest) + {current};
    forall d | d in DirsLeft(t, Open(pending)) ensures d in DirsLeft(t, before) {
      var x :| x in Open(pending) && x <= d;
      if x in rest {
        assert x in before;
      } else {
        assert current in before && current <= d;
      }
    }
    assert current in before && current in DirsLeft(t, before);
    forall x | x in Open(pending) ensures !(x <= current) {
      assert x in rest ==> x in before;
    }
    assert current !in DirsLeft(t, Open(pending));
  }

  /** Nothing there is no folder. Otherwise the folder is read, through links if it is
    * one itself or lies below one; inside it none is followed.
    */
  method ScanLegacyWorkflows(fs: FileSystem, f: Folder) returns (r: Result<Option<Scan>, IoError>)
    requires f.dir != [] && WellFormed(fs.tree)
    ensures r == Ok(None) ==> Locate(fs.tree, f.dir).None? || Locate(fs.tree, f.dir).value !in fs.tree
    ensures r.Ok? && r.value.Some? ==>
      && Leads(fs.tree, f.dir).Some?
      && Reported(Seen(fs.tree, f.dir, Leads(fs.tree, f.dir).value), f, r.value.value)
    ensures fs.sound && Locate(fs.tree, f.dir).Some? ==>
      (r.Ok? <==> Locate(fs.tree, f.dir).value !in fs.tree || Leads(fs.tree, f.dir).Some?)
    ensures fs.sound && Leads(fs.tree, f.dir).Some? ==> r.Ok? && r.value.Some?
  {
    NamedStep(fs.tree, f.dir);
    var meta := fs.SymlinkMetadata(f.dir);
    if meta.Err? {
      return if meta.error == NotFound then Ok(None) else Err(meta.error);
    }
    var scan := ScanFolder(fs, f);
    r := if scan.Ok? then Ok(Some(scan.value)) else Err(scan.error);
  }

  method ScanFolder(fs: FileSystem, f: Folder) returns (r: Result<Scan, IoError>)
    requires WellFormed(fs.tree)
    ensures r.Ok? ==>
      && Leads(fs.tree, f.dir).Some?
      && Reported(Seen(fs.tree, f.dir, Leads(fs.tree, f.dir).value), f, r.value)
    ensures fs.sound && Leads(fs.tree, f.dir).Some? ==> r.Ok?
  {
    ghost var place := if Leads(fs.tree, f.dir).Some? then Leads(fs.tree, f.dir).value else [];
    ghost var v := if Leads(fs.tree, f.dir).Some? then Seen(fs.tree, f.dir, place) else map[f.dir := Dir(0)];
    if Leads(fs.tree, f.dir).Some? {
      SeenIsWellFormed(fs.tree, f.dir, place);
    }
    var pending := [f.dir];
    var stale, other := 0, [];
    ghost var found := {};
    StartWalk(v, f);
    while pending != []
      invariant Leads(fs.tree, f.dir).Some? || pending == [f.dir]
      invariant AreDirs(v, pending) && stale == |found| && Walked(v, f, Open(pending), found, other)
      decreases DirsLeft(v, Open(pending))
    {
      var current, rest := pending[|pending| - 1], pending[..|pending| - 1];
      assert pending == rest + [current];
      assert Open(pending) == Open(rest) + {current};
      CurrentIsApart(rest, current);
      var more;
      more, stale, other, found := ScanDir(fs, f, current, rest, stale, other, found, place, v);
      if more.Err? {
        return Err(more.error);
      }
      FewerLeft(v, rest, current, more.value);
      pending := more.value;
    }
    EndWalk(v, f, found, other);
    r := Ok(Scan(stale, other));
  }

  lemma StartWalk(t: Tree, f: Folder)
    requires f.dir in t
    ensures Walked(t, f, Open([f.dir]), {}, [])
  {
    assert f.dir in Open([f.dir]);
  }

  lemma EndWalk(t: Tree, f: Folder, stale: set<Path>, other: seq<Path>)
    requires Walked(t, f, Open([]), stale, other)
    ensures Reported(t, f, Scan(|stale|, other))
  {
    forall q ensures q in stale <==> Counted(t, f, q) && IsStale(t, f, q) {
      assert !Left(Open([]), q);
    }
    forall q ensures q in other <==> Counted(t, f, q) && !IsStale(t, f, q) {
      assert !Left(Open([]), q);
    }
  }
}
