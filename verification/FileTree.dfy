/** A file system as a tree of nodes, and the calls the sources make on it.
  *
  * A path is its list of names from the root. Every call resolves the directory
  * part of its path through symbolic links, as the kernel does, and may fail for
  * reasons of its own unless the system is `sound`. `trace` keeps the tree after
  * every change, so that what a crash at any moment leaves behind can be stated.
  */
module FileTree {
  import opened Wrappers

  type Path = seq<string>
  type Bytes = seq<bv8>

  datatype Node = File(bytes: Bytes, mode: nat) | Dir(mode: nat) | Link(target: Path)

  type Tree = map<Path, Node>

  datatype IoError = NotFound | AlreadyExists | Other

  function At(t: Tree, p: Path): Option<Node> {
    if p in t then Some(t[p]) else None
  }

  predicate IsDir(t: Tree, p: Path) { p in t && t[p].Dir? }

  function Parent(p: Path): Path
    requires p != []
  {
    p[..|p| - 1]
  }

  /** Every node hangs in a directory. */
  ghost predicate WellFormed(t: Tree) {
    IsDir(t, []) && forall p :: Hangs(t, p)
  }

  predicate Hangs(t: Tree, p: Path) {
    p in t && p != [] ==> IsDir(t, Parent(p))
  }

  const MAX_LINKS: nat := 40

  /** The real path of what `base` followed by `rest` names. */
  function Follow(t: Tree, base: Path, rest: Path, links: nat): Option<Path>
    decreases links, |rest|
  {
    if rest == [] then Some(base)
    else
      var next := base + [rest[0]];
      if next !in t then None
      else
        match t[next]
        case Dir(_) => Follow(t, next, rest[1..], links)
        case File(_, _) => if |rest| == 1 then Some(next) else None
        case Link(target) => if links == 0 then None else Follow(t, [], target + rest[1..], links - 1)
  }

  /** Where a call on `p` lands: its directory resolved, its last name as it is. */
  function Locate(t: Tree, p: Path): Option<Path> {
    if p == [] then None
    else
      match Follow(t, [], Parent(p), MAX_LINKS)
      case None => None
      case Some(d) => if IsDir(t, d) then Some(d + [p[|p| - 1]]) else None
  }

  /** Every directory above `p` is a real one. */
  ghost predicate RealAbove(t: Tree, p: Path) {
    forall q :: q < p ==> IsDir(t, q)
  }

  function WithMode(n: Node, mode: nat): Node {
    match n
    case File(bytes, _) => File(bytes, mode)
    case Dir(_) => Dir(mode)
    case Link(target) => n
  }

  function Without(t: Tree, p: Path): (r: Tree)
    ensures forall q :: q in r <==> q in t && !(p <= q)
    ensures forall q :: q in r ==> r[q] == t[q]
  {
    map q | q in t && !(p <= q) :: t[q]
  }

  class FileSystem {
    var tree: Tree
    ghost var trace: seq<Tree>
    /** No call fails but for what the tree itself forbids. */
    const sound: bool

    constructor (t: Tree, s: bool)
      ensures tree == t && trace == [t] && sound == s
    {
      tree := t;
      trace := [t];
      sound := s;
    }

    /** Whether a call fails for a reason outside the tree. */
    method Falters() returns (b: bool)
      ensures sound ==> !b
    {
      b := *;
      b := b && !sound;
    }

    /** `lstat`: the node itself, links not followed. */
    method SymlinkMetadata(p: Path) returns (r: Result<Node, IoError>)
      ensures var q := Locate(tree, p);
        match r
        case Ok(n) => q.Some? && At(tree, q.value) == Some(n)
        case Err(NotFound) => q.None? || q.value !in tree
        case Err(_) => true
      ensures sound && Locate(tree, p).Some? ==> r != Err(Other) && r != Err(AlreadyExists)
    {
      var falters := Falters();
      if falters { return Err(Other); }
      var q := Locate(tree, p);
      if q.None? || q.value !in tree { return Err(NotFound); }
      r := Ok(tree[q.value]);
    }

    /** Reads a regular file through any links. */
    method Read(p: Path) returns (r: Result<Bytes, IoError>)
      ensures r.Ok? ==>
        var q := Follow(tree, [], p, MAX_LINKS);
        q.Some? && q.value in tree && tree[q.value].File? && r.value == tree[q.value].bytes
      ensures var q := Follow(tree, [], p, MAX_LINKS);
        (sound && q.Some? && q.value in tree && tree[q.value].File?) ==> r.Ok?
    {
      var falters := Falters();
      var q := Follow(tree, [], p, MAX_LINKS);
      if falters || q.None? || q.value !in tree || !tree[q.value].File? { return Err(Other); }
      r := Ok(tree[q.value].bytes);
    }

    /** `unlink`: never a directory, never what a link points to. */
    method RemoveFile(p: Path) returns (r: Result<(), IoError>)
      modifies this
      ensures trace == old(trace) + [tree]
      ensures var q := Locate(old(tree), p);
        match r
        case Ok(_) => q.Some? && q.value in old(tree) && !old(tree)[q.value].Dir? && tree == old(tree) - {q.value}
        case Err(e) => tree == old(tree) && (e == NotFound ==> q.None? || q.value !in tree)
      ensures var q := Locate(old(tree), p);
        sound && q.Some? && q.value in old(tree) && !old(tree)[q.value].Dir? ==> r.Ok?
      ensures var q := Locate(old(tree), p);
        sound && q.Some? && q.value !in old(tree) ==> r == Err(NotFound)
    {
      var falters := Falters();
      var q := Locate(tree, p);
      if falters {
        r := Err(Other);
      } else if q.None? || q.value !in tree {
        r := Err(NotFound);
      } else if tree[q.value].Dir? {
        r := Err(Other);
      } else {
        tree := tree - {q.value};
        r := Ok(());
      }
      trace := trace + [tree];
    }

    /** `open` with `O_CREAT | O_EXCL`: an empty file where there was nothing. */
    method CreateNew(p: Path, mode: nat) returns (r: Result<(), IoError>)
      modifies this
      ensures trace == old(trace) + [tree]
      ensures var q := Locate(old(tree), p);
        match r
        case Ok(_) => q.Some? && q.value !in old(tree) && tree == old(tree)[q.value := File([], mode)]
        case Err(e) => tree == old(tree) && (e == AlreadyExists ==> q.Some? && q.value in tree)
      ensures var q := Locate(old(tree), p);
        sound && q.Some? ==> r == if q.value in old(tree) then Err(AlreadyExists) else Ok(())
    {
      var falters := Falters();
      var q := Locate(tree, p);
      if falters || q.None? {
        r := Err(Other);
      } else if q.value in tree {
        r := Err(AlreadyExists);
      } else {
        tree := tree[q.value := File([], mode)];
        r := Ok(());
      }
      trace := trace + [tree];
    }

    /** Writes to the file just opened at `at`: all of it, or, failing, a first part. */
    method WriteAll(at: Path, bytes: Bytes) returns (r: Result<(), IoError>)
      requires at in tree && tree[at].File?
      modifies this
      ensures |trace| == |old(trace)| + 2 && trace[..|old(trace)|] == old(trace)
      ensures forall i :: |old(trace)| <= i < |trace| ==>
        exists bs :: bs <= bytes && trace[i] == old(tree)[at := File(bs, old(tree)[at].mode)]
      ensures tree == trace[|trace| - 1]
      ensures r.Ok? ==> tree == old(tree)[at := File(bytes, old(tree)[at].mode)]
      ensures sound ==> r.Ok?
    {
      var k: int := *;
      k := if 0 <= k <= |bytes| then k else 0;
      var mode := tree[at].mode;
      tree := tree[at := File(bytes[..k], mode)];
      trace := trace + [tree];
      var falters := Falters();
      if falters {
        r := Err(Other);
      } else {
        tree := tree[at := File(bytes, mode)];
        r := Ok(());
      }
      trace := trace + [tree];
    }

    /** `chmod`, through links. */
    method SetPermissions(p: Path, mode: nat) returns (r: Result<(), IoError>)
      modifies this
      ensures trace == old(trace) + [tree]
      ensures var q := Follow(old(tree), [], p, MAX_LINKS);
        match r
        case Ok(_) => q.Some? && q.value in old(tree)
                      && tree == old(tree)[q.value := WithMode(old(tree)[q.value], mode)]
        case Err(_) => tree == old(tree)
      ensures var q := Follow(old(tree), [], p, MAX_LINKS);
        sound && q.Some? && q.value in old(tree) ==> r.Ok?
    {
      var falters := Falters();
      var q := Follow(tree, [], p, MAX_LINKS);
      if falters || q.None? || q.value !in tree {
        r := Err(Other);
      } else {
        tree := tree[q.value := WithMode(tree[q.value], mode)];
        r := Ok(());
      }
      trace := trace + [tree];
    }

    /** `rename` of a file: atomically takes the place of any node that is no directory. */
    method Rename(from: Path, to: Path) returns (r: Result<(), IoError>)
      modifies this
      ensures trace == old(trace) + [tree]
      ensures var f, q := Locate(old(tree), from), Locate(old(tree), to);
        match r
        case Ok(_) =>
          && f.Some? && q.Some? && f.value in old(tree) && old(tree)[f.value].File?
          && !IsDir(old(tree), q.value)
          && tree == (old(tree) - {f.value})[q.value := old(tree)[f.value]]
        case Err(_) => tree == old(tree)
      ensures var f, q := Locate(old(tree), from), Locate(old(tree), to);
        (sound && f.Some? && q.Some? && f.value in old(tree) && old(tree)[f.value].File? && !IsDir(old(tree), q.value))
        ==> r.Ok?
    {
      var falters := Falters();
      var f, q := Locate(tree, from), Locate(tree, to);
      if falters || f.None? || q.None? || f.value !in tree || !tree[f.value].File? || IsDir(tree, q.value) {
        r := Err(Other);
      } else {
        tree := (tree - {f.value})[q.value := tree[f.value]];
        r := Ok(());
      }
      trace := trace + [tree];
    }

    /** One directory, made with mode 0755 less the umask, unless one is there already. */
    method MakeDir(p: Path) returns (r: Result<(), IoError>)
      modifies this
      ensures trace == old(trace) + [tree]
      ensures r.Err? ==> tree == old(tree)
      ensures r.Ok? ==>
        var q, f := Locate(old(tree), p), Follow(old(tree), [], p, MAX_LINKS);
        || (f.Some? && IsDir(old(tree), f.value) && tree == old(tree))
        || (q.Some? && q.value !in old(tree) && exists m :: tree == old(tree)[q.value := Dir(m)])
      ensures var q, f := Locate(old(tree), p), Follow(old(tree), [], p, MAX_LINKS);
        sound && ((f.Some? && IsDir(old(tree), f.value)) || (q.Some? && q.value !in old(tree))) ==> r.Ok?
    {
      var falters := Falters();
      var q, f := Locate(tree, p), Follow(tree, [], p, MAX_LINKS);
      if f.Some? && IsDir(tree, f.value) && !falters {
        r := Ok(());
      } else if falters || q.None? || q.value in tree {
        r := Err(Other);
      } else {
        var m: nat := *;
        tree := tree[q.value := Dir(m)];
        r := Ok(());
      }
      trace := trace + [tree];
    }

    /** The names in a directory, in any order. */
    method ReadDir(p: Path) returns (r: Result<seq<string>, IoError>)
      ensures r.Ok? ==>
        var q := Follow(tree, [], p, MAX_LINKS);
        && q.Some? && IsDir(tree, q.value)
        && (forall name :: name in r.value <==> q.value + [name] in tree)
        && forall i, j :: 0 <= i < j < |r.value| ==> r.value[i] != r.value[j]
      ensures var q := Follow(tree, [], p, MAX_LINKS);
        sound && q.Some? && IsDir(tree, q.value) ==> r.Ok?
    {
      var falters := Falters();
      var q := Follow(tree, [], p, MAX_LINKS);
      if falters || q.None? || !IsDir(tree, q.value) { return Err(Other); }
      var names: set<string> := set c | c in tree && c != [] && Parent(c) == q.value :: c[|c| - 1];
      forall name ensures name in names <==> q.value + [name] in tree {
        var c := q.value + [name];
        assert c != [] && Parent(c) == q.value && c[|c| - 1] == name;
        if name in names {
          var d :| d in tree && d != [] && Parent(d) == q.value && d[|d| - 1] == name;
          assert d == Parent(d) + [d[|d| - 1]];
        }
      }
      var listed: seq<string> := [];
      while names != {}
        invariant forall name :: name in names || name in listed <==> q.value + [name] in tree
        invariant forall i :: 0 <= i < |listed| ==> listed[i] !in names
        invariant forall i, j :: 0 <= i < j < |listed| ==> listed[i] != listed[j]
        decreases names
      {
        var name :| name in names;
        listed := listed + [name];
        names := names - {name};
      }
      r := Ok(listed);
    }

    /** Removes what stands at and under `top`, a node at a time, from the leaves. */
    method RemoveUnder(top: Path) returns (r: Result<(), IoError>)
      requires top != []
      modifies this
      ensures |trace| >= |old(trace)| && trace[..|old(trace)|] == old(trace)
      ensures forall i :: |old(trace)| <= i < |trace| ==> PrunedInForm(old(tree), top, trace[i])
      ensures PrunedInForm(old(tree), top, tree)
      ensures r.Ok? ==> tree == Without(old(tree), top)
      ensures sound ==> r.Ok?
    {
      var doomed := set d | d in tree && top <= d;
      while doomed != {}
        invariant forall d :: d in doomed <==> d in tree && top <= d
        invariant PrunedInForm(old(tree), top, tree)
        invariant |trace| >= |old(trace)| && trace[..|old(trace)|] == old(trace)
        invariant forall i :: |old(trace)| <= i < |trace| ==> PrunedInForm(old(tree), top, trace[i])
        decreases doomed
      {
        var falters := Falters();
        if falters {
          return Err(Other);
        }
        HasALeaf(doomed);
        var d :| Leaf(doomed, d);
        LeafGoes(old(tree), tree, top, doomed, d);
        tree := tree - {d};
        trace := trace + [tree];
        doomed := doomed - {d};
      }
      assert tree.Keys == Without(old(tree), top).Keys;
      r := Ok(());
    }

    /** Removes a directory and all it holds. */
    method RemoveDirAll(p: Path) returns (r: Result<(), IoError>)
      modifies this
      ensures |trace| >= |old(trace)| && trace[..|old(trace)|] == old(trace)
      ensures forall i :: |old(trace)| <= i < |trace| ==> PrunedAt(old(tree), p, trace[i])
      ensures tree == old(tree) || PrunedAt(old(tree), p, tree)
      ensures var q := Locate(old(tree), p);
        r.Ok? ==> q.Some? && IsDir(old(tree), q.value) && tree == Without(old(tree), q.value)
      ensures var q := Locate(old(tree), p);
        sound && q.Some? && IsDir(old(tree), q.value) ==> r.Ok?
    {
      var falters := Falters();
      var q := Locate(tree, p);
      if falters || q.None? || !IsDir(tree, q.value) {
        return Err(Other);
      }
      r := RemoveUnder(q.value);
    }
  }

  predicate Leaf(doomed: set<Path>, d: Path) {
    d in doomed && forall c :: c in doomed ==> !(d < c)
  }

  lemma {:induction false} HasALeaf(doomed: set<Path>)
    requires doomed != {}
    ensures exists d :: Leaf(doomed, d)
  {
    var x :| x in doomed;
    var rest := doomed - {x};
    assert forall c :: c in doomed ==> c == x || c in rest;
    if rest == {} {
      assert Leaf(doomed, x);
    } else {
      HasALeaf(rest);
      var d :| Leaf(rest, d);
      if d < x {
        assert Leaf(doomed, x);
      } else {
        assert Leaf(doomed, d);
      }
    }
  }

  lemma LeafGoes(t0: Tree, t: Tree, top: Path, doomed: set<Path>, d: Path)
    requires PrunedInForm(t0, top, t) && top != []
    requires forall d :: d in doomed <==> d in t && top <= d
    requires Leaf(doomed, d)
    ensures PrunedInForm(t0, top, t - {d})
  {
    if WellFormed(t0) {
      forall p ensures Hangs(t - {d}, p) {
        assert Hangs(t, p);
        assert p != [] ==> Parent(p) < p;
        assert p in t && d < p ==> p in doomed;
      }
    }
  }

  /** `t` with some nodes at or under `p` gone. */
  ghost predicate Pruned(t: Tree, p: Path, r: Tree) {
    && (forall q :: q in r ==> q in t && r[q] == t[q])
    && (forall q :: q in t && !(p <= q) ==> q in r)
  }

  /** And no node left hanging in a directory that is gone. */
  ghost predicate PrunedInForm(t: Tree, p: Path, r: Tree) {
    Pruned(t, p, r) && (WellFormed(t) ==> WellFormed(r))
  }

  ghost predicate PrunedAt(t: Tree, p: Path, r: Tree) {
    Locate(t, p).Some? && PrunedInForm(t, Locate(t, p).value, r)
  }

  // ---- Changes to a tree ------------------------------------------------------------------

  /** `t` and `r` agree but, perhaps, at `q`, where no directory and no link was made. */
  ghost predicate OnlyAt(t: Tree, r: Tree, q: Path) {
    && (forall p :: p != q ==> At(r, p) == At(t, p))
    && (IsDir(r, q) ==> IsDir(t, q)) && (q in r && r[q].Link? ==> At(t, q) == At(r, q))
  }

  /** Since `n` nothing but `q` has changed. */
  ghost predicate OnlyAtSince(trace: seq<Tree>, n: nat, t: Tree, q: Path) {
    n <= |trace| && forall i :: n <= i < |trace| ==> OnlyAt(t, trace[i], q)
  }

  ghost predicate Extends(before: seq<Tree>, trace: seq<Tree>) {
    |before| <= |trace| && trace[..|before|] == before
  }

  /** `trace` goes on from `before`, through trees that are well formed. */
  ghost predicate Continues(before: seq<Tree>, trace: seq<Tree>) {
    Extends(before, trace) && forall i :: |before| <= i < |trace| ==> WellFormed(trace[i])
  }

  lemma PutKeepsForm(t: Tree, q: Path, n: Node)
    requires WellFormed(t) && q != [] && IsDir(t, Parent(q)) && (IsDir(t, q) ==> n.Dir?)
    ensures WellFormed(t[q := n])
  {
    var r := t[q := n];
    forall p ensures Hangs(r, p) {
      assert Hangs(t, p);
    }
  }

  lemma DropKeepsForm(t: Tree, q: Path)
    requires WellFormed(t) && !IsDir(t, q)
    ensures WellFormed(t - {q})
  {
    forall p ensures Hangs(t - {q}, p) {
      assert Hangs(t, p);
    }
  }

  // ---- What hangs where ------------------------------------------------------------------

  lemma {:induction false} NothingBelow(t: Tree, p: Path, q: Path)
    requires WellFormed(t) && p < q && q in t
    ensures IsDir(t, p)
    decreases |q|
  {
    assert Hangs(t, q);
    if Parent(q) != p {
      assert p < Parent(q);
      NothingBelow(t, p, Parent(q));
    }
  }

  lemma UnderName(base: Path, name: string, q: Path)
    ensures base + [name] <= q <==> base < q && q[|base|] == name
  {
    if base + [name] <= q {
      assert (base + [name])[|base|] == name == q[|base|];
      assert base == (base + [name])[..|base|] == q[..|base|];
    }
  }

  lemma NameOf(t: Tree, base: Path, q: Path)
    requires WellFormed(t) && base < q && q in t
    ensures base + [q[|base|]] in t
  {
    var p := base + [q[|base|]];
    UnderName(base, q[|base|], q);
    if p != q {
      NothingBelow(t, p, q);
    }
  }

  lemma InTreeIsReal(t: Tree, p: Path)
    requires WellFormed(t) && p in t
    ensures RealAbove(t, p)
  {
    forall q | q < p ensures IsDir(t, q) {
      NothingBelow(t, q, p);
    }
  }
}
