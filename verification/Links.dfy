/** Where names lead through symbolic links, and what changes to a tree do to that. */
module Links {
  import opened Wrappers
  import opened FileTree

  /** The same kind of node, and for a link the same link. */
  predicate Alike(a: Node, b: Node) {
    a == b || (a.Dir? && b.Dir?) || (a.File? && b.File?)
  }

  /** Every node of `t` has one like it in `r`. */
  ghost predicate Covers(t: Tree, r: Tree) {
    forall q :: q in t ==> q in r && Alike(t[q], r[q])
  }

  /** As the tree grows, a path that resolves goes on resolving to the same place. */
  lemma {:induction false} FollowGrows(t: Tree, r: Tree, base: Path, rest: Path, links: nat)
    requires Covers(t, r) && Follow(t, base, rest, links).Some?
    ensures Follow(r, base, rest, links) == Follow(t, base, rest, links)
    decreases links, |rest|
  {
    if rest != [] {
      var next := base + [rest[0]];
      match t[next]
      case Dir(_) => FollowGrows(t, r, next, rest[1..], links);
      case File(_, _) =>
      case Link(target) => FollowGrows(t, r, [], target + rest[1..], links - 1);
    }
  }

  /** A resolved directory, and a real directory in it. */
  lemma {:induction false} FollowThen(t: Tree, base: Path, rest: Path, links: nat, x: string)
    requires var d := Follow(t, base, rest, links);
      d.Some? && (rest != [] ==> IsDir(t, d.value)) && d.value + [x] in t && !t[d.value + [x]].Link?
    ensures Follow(t, base, rest + [x], links) == Some(Follow(t, base, rest, links).value + [x])
    decreases links, |rest|
  {
    var longer := rest + [x];
    if rest == [] {
      assert longer[1..] == [];
    } else {
      var next := base + [rest[0]];
      assert longer[1..] == rest[1..] + [x];
      match t[next]
      case Dir(_) => FollowThen(t, next, rest[1..], links, x);
      case File(_, _) =>
      case Link(target) =>
        assert target + longer[1..] == (target + rest[1..]) + [x];
        FollowThen(t, [], target + rest[1..], links - 1, x);
    }
  }

  /** A path that leads nowhere, or to no directory, or to one without `x`, leads no further. */
  lemma {:induction false} FollowStops(t: Tree, base: Path, rest: Path, links: nat, x: string)
    requires IsDir(t, []) && IsDir(t, base)
    requires var d := Follow(t, base, rest, links); d.None? || !IsDir(t, d.value) || d.value + [x] !in t
    ensures Follow(t, base, rest + [x], links) == None
    decreases links, |rest|
  {
    var longer := rest + [x];
    if rest == [] {
      assert longer[1..] == [];
    } else {
      var next := base + [rest[0]];
      assert longer[1..] == rest[1..] + [x];
      if next in t {
        match t[next]
        case Dir(_) => FollowStops(t, next, rest[1..], links, x);
        case File(_, _) =>
        case Link(target) =>
          assert target + longer[1..] == (target + rest[1..]) + [x];
          if links > 0 {
            FollowStops(t, [], target + rest[1..], links - 1, x);
          }
      }
    }
  }

  /** The directory `p` leads to, through any links. */
  function Leads(t: Tree, p: Path): Option<Path> {
    var d := Follow(t, [], p, MAX_LINKS);
    if d.Some? && IsDir(t, d.value) then d else None
  }

  /** A name leads to the node it is located at, if there is one and it is no link. */
  lemma NamedStep(t: Tree, p: Path)
    requires WellFormed(t) && p != []
    ensures Locate(t, p) == if Leads(t, Parent(p)).Some? then Some(Leads(t, Parent(p)).value + [p[|p| - 1]]) else None
    ensures var q, f := Locate(t, p), Follow(t, [], p, MAX_LINKS);
      && (q.None? || q.value !in t ==> f == None)
      && (q.Some? && q.value in t && !t[q.value].Link? ==> f == q)
  {
    var d, x := Parent(p), p[|p| - 1];
    assert p == d + [x];
    var q := Locate(t, p);
    if q.None? || q.value !in t {
      FollowStops(t, [], d, MAX_LINKS, x);
    } else if !t[q.value].Link? {
      FollowThen(t, [], d, MAX_LINKS, x);
    }
  }

  lemma {:induction false} FollowsToSomething(t: Tree, base: Path, rest: Path, links: nat)
    requires base in t && [] in t && Follow(t, base, rest, links).Some?
    ensures Follow(t, base, rest, links).value in t
    decreases links, |rest|
  {
    if rest != [] {
      var next := base + [rest[0]];
      match t[next]
      case Dir(_) => FollowsToSomething(t, next, rest[1..], links);
      case File(_, _) =>
      case Link(target) => FollowsToSomething(t, [], target + rest[1..], links - 1);
    }
  }

  lemma WhereLocated(t: Tree, p: Path)
    requires WellFormed(t) && Locate(t, p).Some?
    ensures var q := Locate(t, p).value; q != [] && IsDir(t, Parent(q)) && RealAbove(t, q)
  {
    var q := Locate(t, p).value;
    var d := Leads(t, Parent(p)).value;
    assert q == d + [p[|p| - 1]] && Parent(q) == d;
    InTreeIsReal(t, d);
    forall x | x < q ensures IsDir(t, x) {
      assert x <= d by {
        assert x == q[..|x|] == d[..|x|];
      }
      assert x == d || x < d;
    }
  }

  // ---- Changes below one directory ------------------------------------------------------

  /** `r` differs from `t` only below the directory `place`, which may have
    * another mode, and has no link that `t` has not.
    */
  ghost predicate Confined(t: Tree, r: Tree, place: Path) {
    && WellFormed(t) && WellFormed(r) && IsDir(t, place) && IsDir(r, place)
    && (forall q :: !(place <= q) ==> At(r, q) == At(t, q))
    && (forall q :: q in r && r[q].Link? ==> At(t, q) == At(r, q))
  }

  ghost predicate ConfinedSince(trace: seq<Tree>, n: nat, t: Tree, place: Path) {
    n <= |trace| && forall i :: n <= i < |trace| ==> Confined(t, trace[i], place)
  }

  lemma ConfinedTwice(t: Tree, r: Tree, s: Tree, place: Path)
    requires Confined(t, r, place) && Confined(r, s, place)
    ensures Confined(t, s, place)
  {
    forall q | q in s && s[q].Link? ensures At(t, q) == At(s, q) {
      assert At(r, q) == At(s, q);
    }
  }

  // ---- Sweeping ---------------------------------------------------------------------------

  /** From `t0` on nothing has changed but below `place`. */
  ghost predicate Goes(trace0: seq<Tree>, t0: Tree, trace: seq<Tree>, t: Tree, place: Path) {
    Extends(trace0, trace) && Confined(t0, t, place) && ConfinedSince(trace, |trace0|, t0, place)
  }

  lemma GoesOn(trace0: seq<Tree>, t0: Tree, trace1: seq<Tree>, t1: Tree, trace: seq<Tree>, t: Tree, place: Path)
    requires Goes(trace0, t0, trace1, t1, place) && Goes(trace1, t1, trace, t, place)
    ensures Goes(trace0, t0, trace, t, place)
  {
    ConfinedTwice(t0, t1, t, place);
    forall i | |trace0| <= i < |trace| ensures Confined(t0, trace[i], place) {
      if i < |trace1| {
        assert trace[i] == trace1[i];
      } else {
        ConfinedTwice(t0, t1, trace[i], place);
      }
    }
  }

  lemma GoesNowhere(trace: seq<Tree>, t: Tree, place: Path)
    requires WellFormed(t) && IsDir(t, place)
    ensures Goes(trace, t, trace, t, place)
  {
  }

  lemma ChangedBelow(t: Tree, r: Tree, place: Path, p: Path)
    requires WellFormed(t) && WellFormed(r) && IsDir(t, place) && place < p
    requires OnlyAt(t, r, p)
    ensures Confined(t, r, place)
  {
    assert At(r, place) == At(t, place);
    forall q | q in r && r[q].Link? ensures At(t, q) == At(r, q) {
      if q != p {
        assert At(r, q) == At(t, q);
      }
    }
  }

  lemma ModeChanged(t: Tree, place: Path, w: Path, mode: nat)
    requires WellFormed(t) && IsDir(t, place) && IsDir(t, w) && place <= w
    ensures Confined(t, t[w := Dir(mode)], place)
  {
    var r := t[w := Dir(mode)];
    forall p ensures Hangs(r, p) {
      assert Hangs(t, p);
    }
  }

  lemma PrunedBelow(t: Tree, r: Tree, place: Path, p: Path)
    requires WellFormed(t) && WellFormed(r) && IsDir(t, place) && place < p && Pruned(t, p, r)
    ensures Confined(t, r, place)
  {
    assert !(p <= place);
    forall q | !(place <= q) ensures At(r, q) == At(t, q) {
      assert p <= q ==> place <= q;
    }
  }

  ghost predicate LinkFree(r: Tree, d: Path) {
    forall q :: d <= q && q in r ==> !r[q].Link?
  }

  lemma {:induction false} FollowStaysBelow(r: Tree, top: Path, base: Path, rest: Path, links: nat)
    requires LinkFree(r, top) && top <= base && Follow(r, base, rest, links).Some?
    ensures top <= Follow(r, base, rest, links).value
    decreases |rest|
  {
    if rest != [] {
      var next := base + [rest[0]];
      assert top <= next;
      if r[next].Dir? {
        FollowStaysBelow(r, top, next, rest[1..], links);
      }
    }
  }

  /** After a confined change a path leads nowhere, or where it led, or below the place. */
  lemma {:induction false} FollowConfined(t: Tree, r: Tree, place: Path, base: Path, rest: Path, links: nat)
    requires Confined(t, r, place) && IsDir(t, base) && IsDir(r, base)
    requires var d := Follow(r, base, rest, links); d.Some? && IsDir(r, d.value)
    ensures var d := Follow(r, base, rest, links).value;
      (Follow(t, base, rest, links) == Some(d) && IsDir(t, d)) || place < d
    decreases links, |rest|
  {
    if rest != [] {
      var next := base + [rest[0]];
      match r[next]
      case Dir(_) =>
        if IsDir(t, next) {
          FollowConfined(t, r, place, next, rest[1..], links);
        } else {
          NewDirIsLinkFree(t, r, place, next);
          FollowStaysBelow(r, next, next, rest[1..], links);
        }
      case File(_, _) =>
      case Link(target) =>
        assert At(t, next) == At(r, next);
        FollowConfined(t, r, place, [], target + rest[1..], links - 1);
    }
  }

  lemma NewDirIsLinkFree(t: Tree, r: Tree, place: Path, p: Path)
    requires Confined(t, r, place) && IsDir(r, p) && !IsDir(t, p)
    ensures LinkFree(r, p) && place < p
  {
    assert At(r, p) != At(t, p);
    assert place <= p && place != p;
    forall q | p <= q && q in r ensures !r[q].Link? {
      if r[q].Link? {
        assert At(t, q) == At(r, q) && q != p && p < q;
        NothingBelow(t, p, q);
      }
    }
  }

  lemma LeadsConfined(t: Tree, r: Tree, place: Path, p: Path)
    requires Confined(t, r, place) && Leads(r, p).Some?
    ensures Leads(r, p) == Leads(t, p) || place < Leads(r, p).value
  {
    FollowConfined(t, r, place, [], p, MAX_LINKS);
  }

  /** `p` leads into `place`, if anywhere. */
  predicate Inside(t: Tree, p: Path, place: Path) {
    Leads(t, p).Some? ==> place <= Leads(t, p).value
  }

  lemma InsideStays(t: Tree, r: Tree, place: Path, p: Path)
    requires Confined(t, r, place) && Inside(t, p, place)
    ensures Inside(r, p, place)
  {
    if Leads(r, p).Some? {
      LeadsConfined(t, r, place, p);
    }
  }

  /** What is made under the name `p` is made below `place`. */
  predicate MadeInside(t: Tree, p: Path, place: Path) {
    Locate(t, p).Some? && Locate(t, p).value !in t ==> place < Locate(t, p).value
  }

  lemma MadeInsideStays(t: Tree, r: Tree, place: Path, p: Path)
    requires Confined(t, r, place) && MadeInside(t, p, place)
    ensures MadeInside(r, p, place)
  {
    if Locate(r, p).Some? && Locate(r, p).value !in r {
      var d, l := Leads(r, Parent(p)), Locate(r, p).value;
      LeadsConfined(t, r, place, Parent(p));
      assert l == d.value + [p[|p| - 1]];
      if d == Leads(t, Parent(p)) {
        assert Locate(t, p) == Some(l);
        if l in t {
          assert At(r, l) != At(t, l) && l != place;
        }
      }
    }
  }

  /** A run that goes by the name `dir` can touch nothing outside `place`. */
  ghost predicate Penned(t: Tree, dir: Path, place: Path) {
    && WellFormed(t) && IsDir(t, place) && Inside(t, dir, place)
    && forall q :: q <= dir && q != [] ==> MadeInside(t, q, place)
  }

  lemma PennedStays(t: Tree, r: Tree, dir: Path, place: Path)
    requires Confined(t, r, place) && Penned(t, dir, place)
    ensures Penned(r, dir, place)
  {
    InsideStays(t, r, place, dir);
    forall q | q <= dir && q != [] ensures MadeInside(r, q, place) {
      MadeInsideStays(t, r, place, q);
    }
  }

  lemma {:induction false} WayIsThere(t: Tree, p: Path, k: nat)
    requires WellFormed(t) && Follow(t, [], p, MAX_LINKS).Some? && k <= |p|
    ensures Follow(t, [], p[..k], MAX_LINKS).Some? && (k < |p| ==> Leads(t, p[..k]).Some?)
    ensures k > 0 ==> Locate(t, p[..k]).Some? && Locate(t, p[..k]).value in t
    decreases |p| - k
  {
    if k == |p| {
      assert p[..k] == p;
      if p != [] {
        NamedStep(t, p);
      }
    } else {
      WayIsThere(t, p, k + 1);
      NamedStep(t, p[..k + 1]);
      assert Parent(p[..k + 1]) == p[..k];
      if k > 0 {
        NamedStep(t, p[..k]);
      }
    }
  }

  lemma PennedAtFirst(t: Tree, dir: Path, place: Path)
    requires WellFormed(t) && Leads(t, dir) == Some(place)
    ensures Penned(t, dir, place)
  {
    forall q | q <= dir && q != [] ensures MadeInside(t, q, place) {
      WayIsThere(t, dir, |q|);
      assert dir[..|q|] == q;
    }
  }

  // ---- Names that cannot be lost -----------------------------------------------------------

  /** `t` without what is below `w`. */
  function Outside(t: Tree, w: Path): (r: Tree)
    ensures forall q :: q in r <==> q in t && !(w < q)
    ensures forall q :: q in r ==> r[q] == t[q]
  {
    map q | q in t && !(w < q) :: t[q]
  }

  /** `d` leads to `w` without passing through anything below `w`. */
  ghost predicate Straight(t: Tree, d: Path, w: Path) {
    Follow(Outside(t, w), [], d, MAX_LINKS) == Some(w)
  }

  lemma StraightLeads(t: Tree, d: Path, w: Path)
    requires Straight(t, d, w) && IsDir(t, w)
    ensures Leads(t, d) == Some(w)
  {
    FollowGrows(Outside(t, w), t, [], d, MAX_LINKS);
  }

  lemma StraightStays(t: Tree, r: Tree, d: Path, w: Path)
    requires Confined(t, r, w) && Straight(t, d, w)
    ensures Straight(r, d, w) && Leads(r, d) == Some(w)
  {
    var a, b := Outside(t, w), Outside(r, w);
    forall q | q in a ensures q in b && Alike(a[q], b[q]) {
      if q != w {
        assert !(w <= q);
        assert At(r, q) == At(t, q);
      }
    }
    FollowGrows(a, b, [], d, MAX_LINKS);
    StraightLeads(r, d, w);
  }

  lemma StraightSub(t: Tree, d: Path, w: Path, s: string)
    requires Straight(t, d, w) && IsDir(t, w) && IsDir(t, w + [s])
    ensures Straight(t, d + [s], w + [s])
  {
    var a, b := Outside(t, w), Outside(t, w + [s]);
    forall q | q in a ensures q in b && Alike(a[q], b[q]) {
      assert w + [s] < q ==> w < q;
    }
    FollowGrows(a, b, [], d, MAX_LINKS);
    assert w in b && w + [s] in b;
    FollowThen(b, [], d, MAX_LINKS, s);
  }
}
