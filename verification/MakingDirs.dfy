/** Making a directory and all those above it that are missing, through any links
  * on the way (`std::fs::create_dir_all`, as `chocofactoryd/src/config_root.rs`
  * calls it, lines 177 to 179 and 213).
  */
module MakingDirs {
  import opened Wrappers
  import opened FileTree
  import opened Links

  /** Where `p` leads, or where it will lead once what is missing is made. */
  ghost function Destination(t: Tree, p: Path): Path
    decreases |p|
  {
    if p == [] then []
    else
      match Follow(t, [], p, MAX_LINKS)
      case Some(q) => q
      case None => Destination(t, Parent(p)) + [p[|p| - 1]]
  }

  /** `p` leads to a directory, or a free name below one that is passable will be it. */
  ghost predicate Passable(t: Tree, p: Path)
    decreases |p|
  {
    || p == [] || Leads(t, p).Some?
    || (Follow(t, [], p, MAX_LINKS) == None && Passable(t, Parent(p)) && Destination(t, p) !in t)
  }

  /** `r` is `t` with missing directories on the way to `p` made. */
  ghost predicate Grown(t: Tree, r: Tree, p: Path) {
    forall q :: At(r, q) == At(t, q) || (q <= p && q !in t && IsDir(r, q))
  }

  /** The first level of `p` that is missing is free to be made. */
  ghost predicate FirstMissing(t: Tree, p: Path, k: nat) {
    && 0 < k <= |p| && Locate(t, p[..k]).Some? && Locate(t, p[..k]).value !in t
    && Locate(t, p[..k]).value <= Destination(t, p)
  }

  ghost predicate GrownFor(t: Tree, r: Tree, p: Path) {
    r == t || (Grown(t, r, Destination(t, p)) && exists k: nat :: FirstMissing(t, p, k))
  }

  lemma LeadsToDestination(t: Tree, p: Path)
    requires WellFormed(t) && Leads(t, p).Some?
    ensures Destination(t, p) == Leads(t, p).value
  {
  }

  lemma GrownCovers(t: Tree, r: Tree, p: Path)
    requires Grown(t, r, p)
    ensures Covers(t, r)
  {
    forall q | q in t ensures q in r && Alike(t[q], r[q]) {
      assert At(r, q) == At(t, q);
    }
  }

  lemma GrownLonger(t: Tree, r: Tree, p: Path, longer: Path)
    requires Grown(t, r, p) && p <= longer
    ensures Grown(t, r, longer)
  {
    forall q ensures At(r, q) == At(t, q) || (q <= longer && q !in t && IsDir(r, q)) {
      assert At(r, q) == At(t, q) || (q <= p && q !in t && IsDir(r, q));
    }
  }

  lemma GrownByOne(t: Tree, r: Tree, s: Tree, d: Path, x: string)
    requires Grown(t, r, d) && d + [x] !in r && IsDir(s, d + [x]) && s == r[d + [x] := s[d + [x]]]
    ensures Grown(t, s, d + [x])
  {
    GrownCovers(t, r, d);
    forall q ensures At(s, q) == At(t, q) || (q <= d + [x] && q !in t && IsDir(s, q)) {
      assert At(r, q) == At(t, q) || (q <= d && q !in t && IsDir(r, q));
      assert q <= d ==> q <= d + [x];
    }
  }

  /** What is missing of a path stays missing further down. */
  lemma {:induction false} MissingFurther(t: Tree, p: Path, k: nat)
    requires WellFormed(t) && 0 < k <= |p| && Follow(t, [], p[..k], MAX_LINKS) == None
    ensures Follow(t, [], p, MAX_LINKS) == None && Destination(t, p[..k]) <= Destination(t, p)
    decreases |p|
  {
    if k == |p| {
      assert p[..k] == p;
    } else {
      assert Parent(p)[..k] == p[..k];
      MissingFurther(t, Parent(p), k);
      NamedStep(t, p);
    }
  }

  lemma {:induction false} PassableAbove(t: Tree, p: Path, k: nat)
    requires WellFormed(t) && Passable(t, p) && k <= |p|
    ensures Passable(t, p[..k])
    decreases |p|
  {
    if k == |p| {
      assert p[..k] == p;
    } else {
      assert Parent(p)[..k] == p[..k];
      if Leads(t, p).Some? {
        NamedStep(t, p);
      }
      PassableAbove(t, Parent(p), k);
    }
  }

  /** The first levels of `p` are there, made if they were missing. */
  ghost predicate Reached(t: Tree, r: Tree, p: Path, k: nat)
    requires k <= |p|
  {
    var d := Destination(t, p[..k]);
    && WellFormed(t) && WellFormed(r) && Leads(r, p[..k]) == Some(d) && Passable(t, p[..k])
    && Grown(t, r, d) && (r == t || d !in t)
    && GrownFor(t, r, p)
  }

  lemma ReachedAtFirst(t: Tree, p: Path)
    requires WellFormed(t)
    ensures Reached(t, t, p, 0)
  {
    assert p[..0] == [];
  }

  /** The next name of a path that is being made. */
  lemma NextLevel(t: Tree, r: Tree, p: Path, k: nat) returns (d: Path, q: Path, x: string)
    requires k < |p| && Reached(t, r, p, k)
    ensures q == p[..k + 1] && x == p[k] && d == Destination(t, p[..k]) && Leads(r, p[..k]) == Some(d)
    ensures Locate(r, q) == Some(d + [x])
    ensures Follow(t, [], q, MAX_LINKS) == None ==> Destination(t, q) == d + [x]
    ensures r != t ==> Follow(t, [], q, MAX_LINKS) == None && d + [x] !in t
  {
    d, q, x := Destination(t, p[..k]), p[..k + 1], p[k];
    assert Parent(q) == p[..k] && q[|q| - 1] == x;
    if r != t {
      if Follow(t, [], p[..k], MAX_LINKS).Some? {
        FollowsToSomething(t, [], p[..k], MAX_LINKS);
        assert false;
      }
      NamedStep(t, q);
      assert Hangs(t, d + [x]);
    }
  }

  /** The name was there, and leads to a directory. */
  lemma LevelThere(t: Tree, r: Tree, p: Path, k: nat)
    requires k < |p| && Reached(t, r, p, k) && Leads(r, p[..k + 1]).Some?
    ensures Reached(t, r, p, k + 1)
  {
    var d, q, x := NextLevel(t, r, p, k);
    NamedStep(r, q);
  }

  /** The name was missing, and has been made a directory. */
  lemma LevelMade(t: Tree, r: Tree, s: Tree, p: Path, k: nat)
    requires k < |p| && Reached(t, r, p, k) && WellFormed(s)
    requires var q := Locate(r, p[..k + 1]); q.Some? && q.value !in r && IsDir(s, q.value) && s == r[q.value := s[q.value]]
    ensures Reached(t, s, p, k + 1)
  {
    var d, q, x := NextLevel(t, r, p, k);
    var l := d + [x];
    GrownCovers(t, r, d);
    NamedStep(r, q);
    if Follow(t, [], q, MAX_LINKS).Some? {
      FollowGrows(t, r, [], q, MAX_LINKS);
      assert false;
    }
    assert Covers(r, s);
    FollowGrows(r, s, [], p[..k], MAX_LINKS);
    assert Parent(q) == p[..k];
    NamedStep(s, q);
    GrownByOne(t, r, s, d, x);
    MissingFurther(t, p, k + 1);
    GrownLonger(t, s, l, Destination(t, p));
    if r == t {
      assert FirstMissing(t, p, k + 1);
    }
  }

  /** Unless calls fail, the next level of a passable path can be made. */
  lemma LevelIsFree(t: Tree, r: Tree, p: Path, k: nat)
    requires k < |p| && Reached(t, r, p, k) && Passable(t, p)
    ensures Leads(r, p[..k + 1]).Some? || (Locate(r, p[..k + 1]).Some? && Locate(r, p[..k + 1]).value !in r)
  {
    var d, q, x := NextLevel(t, r, p, k);
    PassableAbove(t, p, k + 1);
    GrownCovers(t, r, d);
    if Leads(t, q).Some? {
      FollowGrows(t, r, [], q, MAX_LINKS);
    }
  }

  method CreateDirAll(fs: FileSystem, p: Path) returns (r: Result<(), IoError>)
    requires WellFormed(fs.tree)
    modifies fs
    ensures WellFormed(fs.tree) && GrownFor(old(fs.tree), fs.tree, p)
    ensures Continues(old(fs.trace), fs.trace)
    ensures forall i :: |old(fs.trace)| <= i < |fs.trace| ==> GrownFor(old(fs.tree), fs.trace[i], p)
    ensures r.Ok? ==> Leads(fs.tree, p) == Some(Destination(old(fs.tree), p)) && Passable(old(fs.tree), p)
    ensures fs.sound && Passable(old(fs.tree), p) ==> r.Ok?
  {
    ghost var t := fs.tree;
    ReachedAtFirst(t, p);
    for k := 0 to |p|
      invariant Reached(t, fs.tree, p, k)
      invariant Continues(old(fs.trace), fs.trace)
      invariant forall i :: |old(fs.trace)| <= i < |fs.trace| ==> GrownFor(t, fs.trace[i], p)
    {
      r := MakeLevel(fs, p, k, t);
      if r.Err? {
        return;
      }
    }
    assert p[..|p|] == p;
    r := Ok(());
  }

  method MakeLevel(fs: FileSystem, p: Path, k: nat, ghost t: Tree) returns (r: Result<(), IoError>)
    requires k < |p| && Reached(t, fs.tree, p, k)
    modifies fs
    ensures fs.trace == old(fs.trace) + [fs.tree] && WellFormed(fs.tree) && GrownFor(t, fs.tree, p)
    ensures r.Ok? ==> Reached(t, fs.tree, p, k + 1)
    ensures fs.sound && Passable(t, p) ==> r.Ok?
  {
    ghost var before := fs.tree;
    var q := p[..k + 1];
    if Passable(t, p) {
      LevelIsFree(t, before, p, k);
    }
    r := fs.MakeDir(q);
    if r.Ok? && fs.tree == before && Leads(before, q).Some? {
      LevelThere(t, before, p, k);
    } else if r.Ok? {
      var l := Locate(before, q).value;
      WhereLocated(before, q);
      PutKeepsForm(before, l, fs.tree[l]);
      LevelMade(t, before, fs.tree, p, k);
    }
  }

  /** Nothing is made of a way that is there. */
  lemma NothingMissing(t: Tree, r: Tree, p: Path)
    requires WellFormed(t) && GrownFor(t, r, p) && Follow(t, [], p, MAX_LINKS).Some?
    ensures r == t
  {
    if r != t {
      var k: nat :| FirstMissing(t, p, k);
      WayIsThere(t, p, k);
    }
  }

  /** Where names are penned in, directories are made inside. */
  lemma GrownIsConfined(t: Tree, r: Tree, p: Path, place: Path)
    requires WellFormed(t) && WellFormed(r) && IsDir(t, place) && GrownFor(t, r, p)
    requires forall q :: q <= p && q != [] ==> MadeInside(t, q, place)
    ensures Confined(t, r, place)
  {
    if r != t {
      var k: nat :| FirstMissing(t, p, k);
      assert p[..k] <= p && MadeInside(t, p[..k], place);
      var top := Destination(t, p);
      assert place < Locate(t, p[..k]).value <= top;
      InTreeIsReal(t, place);
      forall q | !(place <= q) ensures At(r, q) == At(t, q) {
        if q <= top {
          assert q <= place;
          assert q == place || q < place;
          assert IsDir(t, q);
        }
        assert At(r, q) == At(t, q) || (q <= top && q !in t && IsDir(r, q));
      }
      assert At(r, place) == At(t, place) || (place <= top && place !in t && IsDir(r, place));
      forall q | q in r && r[q].Link? ensures At(t, q) == At(r, q) {
        assert At(r, q) == At(t, q) || (q <= top && q !in t && IsDir(r, q));
      }
    }
  }
}
