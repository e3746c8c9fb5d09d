/** The daemon's private copy of the built-in workflows as a tree of nodes: what it
  * is to be, what one step of making it may change, and what that keeps
  * (`chocofactoryd/src/config_root.rs`, lines 192 to 330). `ConfigRoot` makes it.
  */
module BuiltinTree {
  import opened Wrappers
  import opened FileTree
  import opened Links
  import opened MakingDirs
  import opened NamedCalls

  const MODE_DIR: nat := 0x1ED        // 0755

  const MODE_TEMP: nat := 0x180       // 0600

  const MODE_READ: nat := 0x124       // 0444

  const MODE_RUN: nat := 0x16D        // 0555

  /** An embedded file: where it goes below the directory, its bytes, and the mode a project's
    * own copy of it is given. */
  datatype Builtin = Builtin(relative: Path, contents: Bytes, seedMode: bv12)

  function ModeOf(b: Builtin): nat { if b.seedMode & 0x49 != 0 then MODE_RUN else MODE_READ }

  function NodeOf(b: Builtin): Node { File(b.contents, ModeOf(b)) }

  const Subs := ["prompts", "scripts"]

  /** `name`, `prompts/name` or `scripts/name`, with a name no temporary file has. */
  predicate PlaceOk(p: Path) {
    && (|p| == 1 || (|p| == 2 && p[0] in Subs))
    && p[|p| - 1] != "" && p[|p| - 1][0] != '.'
    && (|p| == 1 ==> p[0] !in Subs)
  }

  /** What is embedded in a binary, the README counted in: distinct places, all well formed. */
  ghost predicate PlanOk(files: seq<Builtin>) {
    && (forall i :: 0 <= i < |files| ==> PlaceOk(files[i].relative))
    && (forall i, j :: 0 <= i < j < |files| ==> files[i].relative != files[j].relative)
  }

  function TempOf(p: Path): Path
    requires p != []
  {
    Parent(p) + ["." + p[|p| - 1] + ".choco-new"]
  }

  // ---- The canonical tree ------------------------------------------------------------

  /** What stands at `dir/relative` when all is done. */
  ghost function Wanted(files: seq<Builtin>, relative: Path): Option<Node> {
    if relative == [] || relative == ["prompts"] || relative == ["scripts"] then Some(Dir(MODE_DIR))
    else if exists i :: 0 <= i < |files| && files[i].relative == relative then
      var i :| 0 <= i < |files| && files[i].relative == relative;
      Some(NodeOf(files[i]))
    else None
  }

  ghost predicate Canonical(t: Tree, dir: Path, files: seq<Builtin>) {
    forall p :: dir <= p ==> At(t, p) == Wanted(files, p[|dir|..])
  }

  /** Nothing that is not in `dir` changed, but that missing directories above it were made. */
  ghost predicate OutsideKept(t0: Tree, t: Tree, dir: Path) {
    && (forall p :: !(dir <= p) && !(p <= dir) ==> At(t, p) == At(t0, p))
    && (forall p :: p <= dir ==> At(t, p) == At(t0, p) || MadeHere(t0, t, dir, p))
  }

  /** A directory made on the way to `dir`, or `dir` itself with another mode. */
  ghost predicate MadeHere(t0: Tree, t: Tree, dir: Path, p: Path) {
    IsDir(t, p) && (p !in t0 || (p == dir && IsDir(t0, p)))
  }

  /** What a crash may leave: every built-in's place holds what it held before, or the whole new file. */
  ghost predicate Safe(t0: Tree, t: Tree, dir: Path, files: seq<Builtin>) {
    && OutsideKept(t0, t, dir)
    && forall i :: 0 <= i < |files| ==> SafeAt(t0, t, dir + files[i].relative, NodeOf(files[i]))
  }

  /** The old node or the new; and no directory put where the temporary file goes. */
  ghost predicate SafeAt(t0: Tree, t: Tree, p: Path, node: Node) {
    && (At(t, p) == At(t0, p) || At(t, p) == Some(node))
    && (p != [] && IsDir(t, TempOf(p)) ==> IsDir(t0, TempOf(p)))
  }

  /** Since the run began, at `n`, the tree has always been safe. */
  ghost predicate SafeSince(trace: seq<Tree>, n: nat, t0: Tree, dir: Path, files: seq<Builtin>) {
    n <= |trace| && forall i :: n <= i < |trace| ==> WellFormed(trace[i]) && Safe(t0, trace[i], dir, files)
  }

  /** Since then nothing outside `dir` has changed. */
  ghost predicate OutsideSince(trace: seq<Tree>, n: nat, t0: Tree, dir: Path) {
    n <= |trace| && forall i :: n <= i < |trace| ==> WellFormed(trace[i]) && OutsideKept(t0, trace[i], dir)
  }

  /** The directories the files go into are there, and real. */
  ghost predicate Ready(t: Tree, dir: Path) {
    && (forall q :: q <= dir ==> IsDir(t, q))
    && IsDir(t, dir + ["prompts"]) && IsDir(t, dir + ["scripts"])
  }

  // ---- Small steps -----------------------------------------------------------------

  lemma SafeWhenOnlyAt(t0: Tree, t: Tree, r: Tree, dir: Path, files: seq<Builtin>, q: Path)
    requires Safe(t0, t, dir, files) && OnlyAt(t, r, q) && dir < q
    requires forall i :: 0 <= i < |files| ==> dir + files[i].relative != q
    ensures Safe(t0, r, dir, files)
  {
    forall p | p <= dir ensures At(r, p) == At(t, p) {
      assert |p| < |q|;
    }
    forall i | 0 <= i < |files| ensures SafeAt(t0, r, dir + files[i].relative, NodeOf(files[i])) {
      var p := dir + files[i].relative;
      assert SafeAt(t0, t, p, NodeOf(files[i]));
      assert At(r, p) == At(t, p);
      if p != [] && TempOf(p) != q {
        assert At(r, TempOf(p)) == At(t, TempOf(p));
      }
    }
  }

  // ---- Directories -------------------------------------------------------------------

  /** `r` is `t` with the directory `p` made, and perhaps its mode set. */
  ghost predicate Prepared(t: Tree, r: Tree, p: Path) {
    forall q :: At(r, q) == At(t, q) || (q <= p && q !in t && IsDir(r, q)) || (q == p && IsDir(t, p) && IsDir(r, p))
  }

  ghost predicate InPlace(t: Tree, p: Path) {
    (forall q :: q <= p ==> IsDir(t, q)) && At(t, p) == Some(Dir(MODE_DIR))
  }

  lemma PutTheSame(t: Tree, p: Path)
    requires p in t
    ensures t[p := t[p]] == t
  {
  }

  /** `s` is `t` with the way to `p` made, and `r` is `s` with the mode of its end set. */
  ghost predicate ModedFrom(t: Tree, s: Tree, r: Tree, p: Path) {
    var d := Destination(t, p);
    WellFormed(s) && GrownFor(t, s, p) && Leads(s, p) == Some(d) && r == s[d := Dir(MODE_DIR)]
  }

  ghost predicate MadeOrModed(t: Tree, r: Tree, p: Path) {
    GrownFor(t, r, p) || exists s :: ModedFrom(t, s, r, p)
  }

  lemma GrownIsPrepared(t: Tree, r: Tree, p: Path)
    requires Grown(t, r, p)
    ensures Prepared(t, r, p) && (IsDir(r, p) ==> Prepared(t, r[p := Dir(MODE_DIR)], p))
  {
    var s := r[p := Dir(MODE_DIR)];
    forall q
      ensures At(r, q) == At(t, q) || (q <= p && q !in t && IsDir(r, q))
      ensures IsDir(r, p) ==>
        At(s, q) == At(t, q) || (q <= p && q !in t && IsDir(s, q)) || (q == p && IsDir(t, p) && IsDir(s, p))
    {
      assert At(r, q) == At(t, q) || (q <= p && q !in t && IsDir(r, q));
    }
  }

  lemma MadeIsPrepared(t: Tree, r: Tree, p: Path)
    requires MadeOrModed(t, r, p)
    ensures Prepared(t, r, Destination(t, p))
  {
    var d := Destination(t, p);
    assert Grown(t, t, d);
    if GrownFor(t, r, p) {
      GrownIsPrepared(t, r, d);
    } else {
      var s :| ModedFrom(t, s, r, p);
      GrownIsPrepared(t, s, d);
    }
  }

  /** Under a name that is penned in, only what is inside is made or has its mode set. */
  lemma MadeIsConfined(t: Tree, r: Tree, p: Path, place: Path)
    requires WellFormed(t) && WellFormed(r) && IsDir(t, place) && MadeOrModed(t, r, p) && Inside(t, p, place)
    requires forall q :: q <= p && q != [] ==> MadeInside(t, q, place)
    ensures Confined(t, r, place)
  {
    if GrownFor(t, r, p) {
      GrownIsConfined(t, r, p, place);
    } else {
      var s :| ModedFrom(t, s, r, p);
      GrownIsConfined(t, s, p, place);
      InsideStays(t, s, place, p);
      ModeChanged(s, place, Destination(t, p), MODE_DIR);
      ConfinedTwice(t, s, r, place);
    }
  }

  /** `p` leads to a directory with the mode to be set. */
  ghost predicate HasMode(t: Tree, p: Path) {
    Leads(t, p).Some? && t[Leads(t, p).value] == Dir(MODE_DIR)
  }

  // ---- One file ------------------------------------------------------------------------

  /** Apart from `p` and its temporary file nothing changed, and `p` holds what it held or the new node. */
  ghost predicate Replaced(t: Tree, r: Tree, p: Path, node: Node)
    requires p != []
  {
    && (forall q :: q != p && q != TempOf(p) ==> At(r, q) == At(t, q))
    && (At(r, p) == At(t, p) || At(r, p) == Some(node))
    && (IsDir(r, TempOf(p)) ==> IsDir(t, TempOf(p)))
    && (TempOf(p) in r && r[TempOf(p)].Link? ==> At(t, TempOf(p)) == At(r, TempOf(p)))
  }

  lemma TempIsBeside(p: Path)
    requires p != []
    ensures TempOf(p) != p && TempOf(p) != [] && Parent(TempOf(p)) == Parent(p)
  {
    var a, b := TempOf(p)[|p| - 1], p[|p| - 1];
    assert |a| > |b|;
  }

  lemma TempIsHere(w: Path, path: Path)
    requires path != []
    ensures TempOf(path) != [] && Parent(TempOf(path)) == Parent(path) && Here(w, TempOf(path)) == TempOf(Here(w, path))
    ensures Here(w, TempOf(path)) != Here(w, path)
  {
    TempIsBeside(path);
    TempIsBeside(Here(w, path));
  }

  lemma WrittenIsReplaced(t: Tree, m: Tree, p: Path, node: Node)
    requires p != [] && OnlyAt(t, m, TempOf(p))
    ensures Replaced(t, m, p, node)
  {
    TempIsBeside(p);
  }

  lemma RenamedIsReplaced(t: Tree, m: Tree, r: Tree, p: Path, node: Node)
    requires p != [] && OnlyAt(t, m, TempOf(p)) && At(m, TempOf(p)) == Some(node)
    requires r == (m - {TempOf(p)})[p := node]
    ensures Replaced(t, r, p, node) && At(r, p) == Some(node)
  {
    TempIsBeside(p);
  }

  /** Since `n` the tree has differed from `t` by a replacement of `p` at most. */
  ghost predicate ReplacedSince(trace: seq<Tree>, n: nat, t: Tree, p: Path, node: Node)
    requires p != []
  {
    n <= |trace| && forall i :: n <= i < |trace| ==> Replaced(t, trace[i], p, node)
  }

  lemma ReplacedIsConfined(t: Tree, r: Tree, place: Path, w: Path, p: Path, node: Node)
    requires WellFormed(t) && WellFormed(r) && IsDir(t, place) && place <= w && w < p && Parent(p) == w
    requires !node.Link? && Replaced(t, r, p, node)
    ensures Confined(t, r, place)
  {
    TempIsBeside(p);
    assert Parent(TempOf(p)) < TempOf(p);
    assert place < p && place < TempOf(p);
    assert At(r, place) == At(t, place);
    forall q | q in r && r[q].Link? ensures At(t, q) == At(r, q) {
    }
  }

  // ---- Stray content -----------------------------------------------------------------

  /** `q` stands at or under a name of the directory `dir/sub` that is not to be kept. */
  predicate Stray(t: Tree, dir: Path, sub: Path, keep: set<Path>, q: Path) {
    && dir + sub < q
    && sub + [q[|dir + sub|]] !in keep
    && !(sub == [] && q[|dir|] in Subs && IsDir(t, dir + [q[|dir|]]))
  }

  ghost predicate NoStray(t: Tree, dir: Path, sub: Path, keep: set<Path>) {
    forall q :: q in t ==> !Stray(t, dir, sub, keep, q)
  }

  /** `r` is `t` without some of its strays. */
  ghost predicate Thinned(t: Tree, r: Tree, dir: Path, sub: Path, keep: set<Path>) {
    forall q :: At(r, q) == At(t, q) || (q !in r && Stray(t, dir, sub, keep, q))
  }

  /** `r` is `t` without the strays under the given names. */
  ghost predicate Swept(t: Tree, r: Tree, dir: Path, sub: Path, keep: set<Path>, names: seq<string>) {
    forall q :: At(r, q) ==
      if Stray(t, dir, sub, keep, q) && q[|dir + sub|] in names then None else At(t, q)
  }

  /** With `name` and all it holds gone, what was stray under it is gone, and no more. */
  lemma GoneIsSwept(t: Tree, r: Tree, dir: Path, sub: Path, keep: set<Path>, name: string)
    requires sub + [name] !in keep && !(sub == [] && name in Subs && IsDir(t, dir + [name]))
    requires Gone(t, r, dir + sub + [name])
    ensures Swept(t, r, dir, sub, keep, [name])
  {
    forall q ensures At(r, q) ==
      if Stray(t, dir, sub, keep, q) && q[|dir + sub|] in [name] then None else At(t, q)
    {
      UnderName(dir + sub, name, q);
      assert sub == [] ==> dir + sub == dir;
    }
  }

  /** `p` is gone, with all it held, and nothing else. */
  ghost predicate Gone(t: Tree, r: Tree, p: Path) {
    forall q :: At(r, q) == if p <= q then None else At(t, q)
  }

  lemma TreeGone(t: Tree, r: Tree, p: Path)
    requires r == Without(t, p)
    ensures Gone(t, r, p)
  {
  }

  lemma NothingUnder(t: Tree, p: Path)
    requires WellFormed(t) && p in t && !IsDir(t, p)
    ensures forall q :: p < q ==> q !in t
  {
    forall q | p < q ensures q !in t {
      if q in t {
        NothingBelow(t, p, q);
      }
    }
  }

  lemma LeafGone(t: Tree, r: Tree, p: Path)
    requires OnlyAt(t, r, p) && p !in r && forall q :: p < q ==> q !in t
    ensures Gone(t, r, p)
  {
    forall q ensures At(r, q) == if p <= q then None else At(t, q) {
      assert q != p ==> At(r, q) == At(t, q);
      assert p <= q <==> p == q || p < q;
    }
  }

  /** What goes of a name that is not to be kept is stray. */
  lemma PrunedIsThinned(t: Tree, r: Tree, dir: Path, sub: Path, keep: set<Path>, name: string)
    requires sub + [name] !in keep && !(sub == [] && name in Subs && IsDir(t, dir + [name]))
    requires Pruned(t, dir + sub + [name], r)
    ensures Thinned(t, r, dir, sub, keep)
  {
    forall q ensures At(r, q) == At(t, q) || (q !in r && Stray(t, dir, sub, keep, q)) {
      UnderName(dir + sub, name, q);
      assert sub == [] ==> dir + sub == dir;
    }
  }

  // ---- Sweeping ---------------------------------------------------------------------------

  lemma EntryIsSwept(trace0: seq<Tree>, t: Tree, trace: seq<Tree>, r: Tree, place: Path, sub: Path, keep: set<Path>, name: string)
    requires Extends(trace0, trace) && forall i :: |trace0| <= i < |trace| ==> Pruned(t, place + sub + [name], trace[i])
    requires sub + [name] !in keep && !(sub == [] && name in Subs && IsDir(t, place + [name]))
    ensures forall i :: |trace0| <= i < |trace| ==> Thinned(t, trace[i], place, sub, keep)
    ensures Pruned(t, place + sub + [name], r) ==> Thinned(t, r, place, sub, keep)
    ensures Gone(t, r, place + sub + [name]) ==> Swept(t, r, place, sub, keep, [name])
    ensures place + sub + [name] in t ==> !NoStray(t, place, sub, keep)
  {
    forall i | |trace0| <= i < |trace| ensures Thinned(t, trace[i], place, sub, keep) {
      PrunedIsThinned(t, trace[i], place, sub, keep, name);
    }
    if Pruned(t, place + sub + [name], r) {
      PrunedIsThinned(t, r, place, sub, keep, name);
    }
    if Gone(t, r, place + sub + [name]) {
      GoneIsSwept(t, r, place, sub, keep, name);
    }
    UnderName(place + sub, name, place + sub + [name]);
    assert sub == [] ==> place + sub == place;
  }

  lemma KeptIsSwept(t: Tree, place: Path, sub: Path, keep: set<Path>, name: string)
    requires sub + [name] in keep
    ensures Swept(t, t, place, sub, keep, [name])
  {
  }

  lemma OwnIsSwept(t: Tree, place: Path, keep: set<Path>, name: string)
    requires name in Subs && IsDir(t, place + [name])
    ensures Swept(t, t, place, [], keep, [name])
  {
    assert place + [] == place;
  }

  lemma StrayIsStable(t: Tree, r: Tree, dir: Path, sub: Path, keep: set<Path>, q: Path)
    requires forall s :: s in Subs ==> (IsDir(t, dir + [s]) <==> IsDir(r, dir + [s]))
    ensures Stray(t, dir, sub, keep, q) <==> Stray(r, dir, sub, keep, q)
  {
  }

  /** The subdirectories of ours stay directories under a sweep. */
  lemma SweptKeepsSubs(t: Tree, r: Tree, dir: Path, sub: Path, keep: set<Path>, names: seq<string>, s: string)
    requires Swept(t, r, dir, sub, keep, names) && s in Subs && (sub == [] || |sub| == 1)
    ensures IsDir(t, dir + [s]) ==> IsDir(r, dir + [s])
    ensures sub == [] || !IsDir(t, dir + [s]) ==> (IsDir(r, dir + [s]) ==> IsDir(t, dir + [s]))
  {
    var p := dir + [s];
    assert At(r, p) == if Stray(t, dir, sub, keep, p) && p[|dir + sub|] in names then None else At(t, p);
    assert sub == [] ==> dir + sub == dir && p[|dir|] == s;
  }

  lemma SweptOnce(t: Tree, r: Tree, s: Tree, dir: Path, sub: Path, keep: set<Path>, names: seq<string>, name: string)
    requires Swept(t, r, dir, sub, keep, names) && Swept(r, s, dir, sub, keep, [name])
    requires |sub| <= 1
    ensures Swept(t, s, dir, sub, keep, names + [name])
    ensures Thinned(t, s, dir, sub, keep)
  {
    forall x | x in Subs ensures IsDir(t, dir + [x]) <==> IsDir(r, dir + [x]) {
      SweptKeepsSubs(t, r, dir, sub, keep, names, x);
    }
    forall q ensures At(s, q) ==
      if Stray(t, dir, sub, keep, q) && q[|dir + sub|] in names + [name] then None else At(t, q)
    {
      StrayIsStable(t, r, dir, sub, keep, q);
    }
  }

  lemma ThinnedAfter(t: Tree, r: Tree, s: Tree, dir: Path, sub: Path, keep: set<Path>, names: seq<string>)
    requires Swept(t, r, dir, sub, keep, names) && |sub| <= 1
    requires s == r || Thinned(r, s, dir, sub, keep)
    ensures Thinned(t, s, dir, sub, keep)
  {
    forall x | x in Subs ensures IsDir(t, dir + [x]) <==> IsDir(r, dir + [x]) {
      SweptKeepsSubs(t, r, dir, sub, keep, names, x);
    }
    forall q ensures At(s, q) == At(t, q) || (q !in s && Stray(t, dir, sub, keep, q)) {
      StrayIsStable(t, r, dir, sub, keep, q);
      assert s == r || At(s, q) == At(r, q) || (q !in s && Stray(r, dir, sub, keep, q));
    }
  }

  ghost predicate ThinnedSince(trace: seq<Tree>, n: nat, t: Tree, dir: Path, sub: Path, keep: set<Path>) {
    n <= |trace| && forall i :: n <= i < |trace| ==> Thinned(t, trace[i], dir, sub, keep)
  }

  lemma NothingSwept(t: Tree, dir: Path, sub: Path, keep: set<Path>)
    ensures Swept(t, t, dir, sub, keep, [])
  {
  }

  /** How a sweep stands that goes straight to `place/sub`: the names in `done`
    * have been seen to, `t` being the tree before them, and nothing else has gone.
    */
  ghost predicate Sweeping(t: Tree, n: nat, trace: seq<Tree>, r: Tree, dir: Path, place: Path, sub: Path, keep: set<Path>,
                           names: seq<string>, i: nat)
    requires i <= |names|
  {
    && |sub| <= 1 && IsDir(t, place + sub) && Straight(r, dir + sub, place + sub) && IsDir(r, place + sub)
    && (forall name :: name in names ==> place + sub + [name] in t)
    && (forall k, l :: 0 <= k < l < |names| ==> names[k] != names[l])
    && Swept(t, r, place, sub, keep, names[..i]) && ThinnedSince(trace, n, t, place, sub, keep)
  }

  lemma NextIsThere(t: Tree, n: nat, trace: seq<Tree>, r: Tree, dir: Path, place: Path, sub: Path, keep: set<Path>,
                    names: seq<string>, i: nat)
    requires i < |names| && Sweeping(t, n, trace, r, dir, place, sub, keep, names, i)
    ensures place + sub + [names[i]] in r && Leads(r, dir + sub) == Some(place + sub)
  {
    StraightLeads(r, dir + sub, place + sub);
    var p := place + sub + [names[i]];
    assert names[i] in names && names[i] !in names[..i];
    assert At(r, p) == At(t, p);
  }

  lemma SweptFurther(t: Tree, n: nat, steps: seq<Tree>, r: Tree, trace: seq<Tree>, s: Tree,
                     dir: Path, place: Path, sub: Path, keep: set<Path>, names: seq<string>, i: nat)
    requires i < |names| && Sweeping(t, n, steps, r, dir, place, sub, keep, names, i) && Extends(steps, trace)
    requires Confined(r, s, place + sub) && Swept(r, s, place, sub, keep, [names[i]])
    requires forall k :: |steps| <= k < |trace| ==> Thinned(r, trace[k], place, sub, keep)
    ensures Sweeping(t, n, trace, s, dir, place, sub, keep, names, i + 1)
  {
    ThinnedOn(t, n, steps, r, trace, place, sub, keep, names[..i]);
    StraightStays(r, s, dir + sub, place + sub);
    SweptOnce(t, r, s, place, sub, keep, names[..i], names[i]);
    assert names[..i + 1] == names[..i] + [names[i]];
  }

  lemma ThinnedOn(t: Tree, n: nat, steps: seq<Tree>, r: Tree, trace: seq<Tree>, place: Path, sub: Path, keep: set<Path>, done: seq<string>)
    requires |sub| <= 1 && Swept(t, r, place, sub, keep, done) && ThinnedSince(steps, n, t, place, sub, keep)
    requires Extends(steps, trace) && forall k :: |steps| <= k < |trace| ==> Thinned(r, trace[k], place, sub, keep)
    ensures ThinnedSince(trace, n, t, place, sub, keep)
  {
    forall k | n <= k < |trace| ensures Thinned(t, trace[k], place, sub, keep) {
      if k >= |steps| {
        ThinnedAfter(t, r, trace[k], place, sub, keep, done);
      } else {
        assert trace[k] == steps[k];
      }
    }
  }

  lemma AllSwept(t: Tree, r: Tree, dir: Path, sub: Path, keep: set<Path>, names: seq<string>)
    requires WellFormed(t) && |sub| <= 1 && Swept(t, r, dir, sub, keep, names)
    requires forall name :: name in names <==> dir + sub + [name] in t
    ensures NoStray(r, dir, sub, keep)
  {
    forall x | x in Subs ensures IsDir(t, dir + [x]) <==> IsDir(r, dir + [x]) {
      SweptKeepsSubs(t, r, dir, sub, keep, names, x);
    }
    forall q | q in r ensures !Stray(r, dir, sub, keep, q) {
      StrayIsStable(t, r, dir, sub, keep, q);
      assert At(r, q) == if Stray(t, dir, sub, keep, q) && q[|dir + sub|] in names then None else At(t, q);
      if dir + sub < q && q in t {
        NameOf(t, dir + sub, q);
      }
    }
  }

  // ---- Every step is safe ---------------------------------------------------------------

  lemma PlacesApart(dir: Path, files: seq<Builtin>, i: nat)
    requires PlanOk(files) && i < |files|
    ensures var p := dir + files[i].relative;
      && p != [] && dir < p && p != dir && p != dir + ["prompts"] && p != dir + ["scripts"]
      && TempOf(p) != dir && dir <= TempOf(p)
      && TempOf(p) != dir + ["prompts"] && TempOf(p) != dir + ["scripts"]
      && forall j :: 0 <= j < |files| ==> TempOf(p) != dir + files[j].relative
  {
    var rel := files[i].relative;
    var p := dir + rel;
    assert PlaceOk(rel);
    assert dir == p[..|dir|] && p[|dir|..] == rel;
    assert forall s: string :: dir + [s] == p ==> rel == [s];
    TempName(dir, rel);
    var tmp := TempOf(p);
    var last := tmp[|tmp| - 1];
    assert (dir + ["prompts"])[|dir|] == "prompts" && (dir + ["scripts"])[|dir|] == "scripts";
    forall j | 0 <= j < |files| ensures tmp != dir + files[j].relative {
      assert PlaceOk(files[j].relative);
      var q := dir + files[j].relative;
      assert q[|q| - 1] == files[j].relative[|files[j].relative| - 1];
    }
  }

  lemma TempName(dir: Path, rel: Path)
    requires rel != []
    ensures var tmp := TempOf(dir + rel);
      |tmp| == |dir + rel| && dir <= tmp && tmp[|tmp| - 1] != "" && tmp[|tmp| - 1][0] == '.'
  {
    var p := dir + rel;
    assert Parent(p)[..|dir|] == dir;
    assert TempOf(p)[..|dir|] == dir;
  }

  lemma ReplacedIsSafe(t0: Tree, t: Tree, r: Tree, dir: Path, files: seq<Builtin>, i: nat)
    requires PlanOk(files) && i < |files| && Safe(t0, t, dir, files)
    requires dir + files[i].relative != [] && Replaced(t, r, dir + files[i].relative, NodeOf(files[i]))
    ensures Safe(t0, r, dir, files)
  {
    PlacesApart(dir, files, i);
    var p := PlaceOf(dir, files, i);
    forall q | q <= dir || !(dir <= q) ensures At(r, q) == At(t, q) {
      assert |TempOf(p)| == |p| > |dir|;
    }
    forall j | 0 <= j < |files| ensures SafeAt(t0, r, dir + files[j].relative, NodeOf(files[j])) {
      assert SafeAt(t0, t, PlaceOf(dir, files, j), NodeOf(files[j]));
      if j != i {
        ReplacedElsewhere(t, r, dir, files, i, j);
        SafeAtStays(t0, t, r, PlaceOf(dir, files, j), NodeOf(files[j]));
      }
    }
  }

  lemma SafeAtStays(t0: Tree, t: Tree, r: Tree, p: Path, node: Node)
    requires SafeAt(t0, t, p, node) && At(r, p) == At(t, p)
    requires p != [] ==> At(r, TempOf(p)) == At(t, TempOf(p)) || !IsDir(r, TempOf(p))
    ensures SafeAt(t0, r, p, node)
  {
  }

  lemma PreparedIsSafe(t0: Tree, t: Tree, r: Tree, dir: Path, files: seq<Builtin>, p: Path)
    requires PlanOk(files) && Safe(t0, t, dir, files) && Prepared(t, r, p)
    requires p == dir || p == dir + ["prompts"] || p == dir + ["scripts"]
    ensures Safe(t0, r, dir, files)
  {
    forall q | !(dir <= q) && !(q <= dir) ensures At(r, q) == At(t, q) {
    }
    forall q | q <= dir ensures At(r, q) == At(t0, q) || MadeHere(t0, r, dir, q) {
      assert At(t, q) == At(t0, q) || MadeHere(t0, t, dir, q);
      assert At(r, q) == At(t, q) || (q <= p && q !in t && IsDir(r, q)) || (q == p && IsDir(t, p) && IsDir(r, p));
    }
    forall j | 0 <= j < |files| ensures SafeAt(t0, r, dir + files[j].relative, NodeOf(files[j])) {
      PlacesApart(dir, files, j);
      var q := PlaceOf(dir, files, j);
      assert |TempOf(q)| == |q| >= |p|;
      assert SafeAt(t0, t, q, NodeOf(files[j]));
      SafeAtStays(t0, t, r, q, NodeOf(files[j]));
    }
  }

  function KeepOf(files: seq<Builtin>): (keep: set<Path>)
    ensures forall i :: 0 <= i < |files| ==> files[i].relative in keep
    ensures forall p :: p in keep ==> exists i :: 0 <= i < |files| && files[i].relative == p
  {
    set i | 0 <= i < |files| :: files[i].relative
  }

  lemma PlaceIsNoStray(t: Tree, dir: Path, sub: Path, files: seq<Builtin>, i: nat)
    requires PlanOk(files) && i < |files| && Ready(t, dir)
    requires sub == [] || sub == ["prompts"] || sub == ["scripts"]
    ensures !Stray(t, dir, sub, KeepOf(files), dir + files[i].relative)
  {
    var rel := files[i].relative;
    var q := dir + rel;
    assert PlaceOk(rel);
    if dir + sub < q {
      assert q[|dir + sub|] == rel[|sub|];
      assert sub != [] ==> (dir + sub)[|dir|] == q[|dir|];
      if |rel| == |sub| + 1 {
        assert sub + [rel[|sub|]] == rel;
      }
    }
  }

  lemma ThinnedIsSafe(t0: Tree, t: Tree, r: Tree, dir: Path, sub: Path, files: seq<Builtin>)
    requires PlanOk(files) && Safe(t0, t, dir, files) && Ready(t, dir)
    requires sub == [] || sub == ["prompts"] || sub == ["scripts"]
    requires Thinned(t, r, dir, sub, KeepOf(files))
    ensures Safe(t0, r, dir, files)
  {
    forall q | !(dir <= q) ensures At(r, q) == At(t, q) {
    }
    forall i | 0 <= i < |files| ensures At(r, dir + files[i].relative) == At(t, dir + files[i].relative) {
      PlaceIsNoStray(t, dir, sub, files, i);
    }
  }

  // ---- The whole run ------------------------------------------------------------------

  ghost predicate Quiet(trace: seq<Tree>, n: nat, t: Tree) {
    n <= |trace| && forall i :: n <= i < |trace| ==> trace[i] == t
  }

  /** The three directories stand, with their mode. */
  ghost predicate DirsDone(t: Tree, dir: Path) {
    && Ready(t, dir) && At(t, dir) == Some(Dir(MODE_DIR))
    && At(t, dir + ["prompts"]) == Some(Dir(MODE_DIR)) && At(t, dir + ["scripts"]) == Some(Dir(MODE_DIR))
  }

  ghost predicate FilesDone(t: Tree, dir: Path, files: seq<Builtin>, k: nat)
    requires k <= |files|
  {
    forall i :: 0 <= i < k ==> At(t, dir + files[i].relative) == Some(NodeOf(files[i]))
  }

  /** The directories swept, in order. */
  const SweepOrder: seq<Path> := [[], ["prompts"], ["scripts"]]

  ghost predicate Tidy(t: Tree, dir: Path, subs: seq<Path>, keep: set<Path>) {
    forall sub :: sub in subs ==> NoStray(t, dir, sub, keep)
  }

  ghost predicate NothingStray(t: Tree, dir: Path, files: seq<Builtin>) {
    Tidy(t, dir, SweepOrder, KeepOf(files))
  }

  lemma SafeSinceExtends(steps: seq<Tree>, trace: seq<Tree>, n: nat, t0: Tree, dir: Path, files: seq<Builtin>)
    requires SafeSince(steps, n, t0, dir, files) && Continues(steps, trace)
    requires forall i :: |steps| <= i < |trace| ==> Safe(t0, trace[i], dir, files)
    ensures SafeSince(trace, n, t0, dir, files)
  {
    forall i | n <= i < |trace| ensures WellFormed(trace[i]) && Safe(t0, trace[i], dir, files) {
      if i < |steps| {
        assert trace[i] == steps[i];
      }
    }
  }

  lemma ConfinedKeepsOutside(t0: Tree, t: Tree, r: Tree, place: Path)
    requires OutsideKept(t0, t, place) && Confined(t, r, place)
    ensures OutsideKept(t0, r, place)
  {
    forall p | p <= place ensures At(r, p) == At(t0, p) || MadeHere(t0, r, place, p) {
      assert At(t, p) == At(t0, p) || MadeHere(t0, t, place, p);
      if p == place {
        assert IsDir(r, p);
      } else {
        assert !(place <= p);
        assert At(r, p) == At(t, p);
      }
    }
  }

  // ---- The subdirectories -------------------------------------------------------------------

  lemma ClearedIsInside(t: Tree, dir: Path, s: string, place: Path, w: Path)
    requires WellFormed(t) && Aimed(t, dir, w) && place <= w
    requires Leads(t, dir).None? || w + [s] !in t || IsDir(t, w + [s])
    ensures Inside(t, dir + [s], place)
  {
    assert Parent(dir + [s]) == dir;
    NamedStep(t, dir + [s]);
  }

  /** Nothing but the directories themselves is different. */
  ghost predicate OnlyDirs(t: Tree, r: Tree, dir: Path) {
    forall q :: !(q <= dir) && q != dir + ["prompts"] && q != dir + ["scripts"] ==> At(r, q) == At(t, q)
  }

  lemma InPlaceStays(t: Tree, r: Tree, dir: Path, s: string)
    requires InPlace(t, dir) && (OnlyAt(t, r, dir + [s]) || Prepared(t, r, dir + [s]))
    ensures InPlace(r, dir) && OnlyDirsBut(t, r, dir, s)
  {
    forall q | q != dir + [s] ensures At(r, q) == At(t, q) {
      if Prepared(t, r, dir + [s]) && q <= dir + [s] {
        assert q == (dir + [s])[..|q|] == dir[..|q|];
        assert q <= dir && IsDir(t, q);
      }
    }
    forall q | q <= dir ensures IsDir(r, q) {
      assert IsDir(t, q) && |q| < |dir + [s]|;
      assert At(r, q) == At(t, q);
    }
  }

  ghost predicate OnlyDirsBut(t: Tree, r: Tree, dir: Path, s: string) {
    forall q :: q != dir + [s] ==> At(r, q) == At(t, q)
  }

  lemma SubsApart(dir: Path)
    ensures dir + ["prompts"] != dir + ["scripts"]
  {
    assert (dir + ["prompts"])[|dir|] != (dir + ["scripts"])[|dir|];
  }

  /** The subdirectories' names are free or real directories. */
  ghost predicate SubsFree(t: Tree, place: Path) {
    forall s :: s in Subs ==> place + [s] !in t || IsDir(t, place + [s])
  }

  // ---- The directory itself ---------------------------------------------------------------------

  /** The way to `dir` does not pass through anything in the place it leads to. */
  ghost predicate StraightWay(t: Tree, dir: Path) {
    Follow(Outside(t, Destination(t, dir)), [], dir, MAX_LINKS) == Follow(t, [], dir, MAX_LINKS)
  }

  lemma PreparedKeepsOutside(t0: Tree, r: Tree, place: Path)
    requires Prepared(t0, r, place)
    ensures OutsideKept(t0, r, place)
  {
    forall q | !(place <= q) && !(q <= place) ensures At(r, q) == At(t0, q) {
      assert At(r, q) == At(t0, q) || (q <= place && q !in t0 && IsDir(r, q)) || (q == place && IsDir(t0, place) && IsDir(r, place));
    }
    forall q | q <= place ensures At(r, q) == At(t0, q) || MadeHere(t0, r, place, q) {
      assert At(r, q) == At(t0, q) || (q <= place && q !in t0 && IsDir(r, q)) || (q == place && IsDir(t0, place) && IsDir(r, place));
    }
  }

  lemma StartIsSafe(t: Tree, dir: Path, files: seq<Builtin>)
    ensures Safe(t, t, dir, files)
  {
  }

  /** Straight before, straight when made. */
  lemma StraightWhenMade(t: Tree, r: Tree, dir: Path, place: Path)
    requires WellFormed(t) && WellFormed(r) && place == Destination(t, dir) && StraightWay(t, dir) && Passable(t, dir)
    requires Prepared(t, r, place) && Leads(r, dir) == Some(place)
    ensures Straight(r, dir, place)
  {
    var a, b := Outside(t, place), Outside(r, place);
    if Leads(t, dir).Some? {
      LeadsToDestination(t, dir);
      forall q | q in a ensures q in b && Alike(a[q], b[q]) {
        assert At(r, q) == At(t, q) || (q <= place && q !in t && IsDir(r, q)) || (q == place && IsDir(t, place) && IsDir(r, place));
      }
      FollowGrows(a, b, [], dir, MAX_LINKS);
    } else {
      assert dir != [];
      assert place !in t;
      forall q | q in r ensures q in b && Alike(r[q], b[q]) {
        assert At(r, q) == At(t, q) || (q <= place && q !in t && IsDir(r, q)) || (q == place && IsDir(t, place) && IsDir(r, place));
        if place < q {
          NothingBelow(t, place, q);
        }
      }
      FollowGrows(r, b, [], dir, MAX_LINKS);
    }
  }

  // ---- The files ------------------------------------------------------------------------

  function PlaceOf(dir: Path, files: seq<Builtin>, i: nat): Path
    requires i < |files|
  {
    dir + files[i].relative
  }

  /** A directory where the file goes, or where its temporary file goes when one is needed. */
  ghost predicate Obstructed(t: Tree, dir: Path, b: Builtin)
    requires b.relative != []
  {
    var p := dir + b.relative;
    IsDir(t, p) || (IsDir(t, TempOf(p)) && At(t, p) != Some(NodeOf(b)))
  }

  ghost predicate NoneObstructed(t: Tree, place: Path, files: seq<Builtin>, k: nat)
    requires PlanOk(files) && k <= |files|
  {
    forall i :: 0 <= i < k ==> !Obstructed(t, place, files[i])
  }

  /** The directory can be made, and no directory is in the way of a file in it. */
  ghost predicate Unobstructed(t: Tree, dir: Path, files: seq<Builtin>)
    requires PlanOk(files)
  {
    Passable(t, dir) && NoneObstructed(t, Destination(t, dir), files, |files|)
  }

  /** The places from the `k`-th on, and those of their temporary files, are as they were. */
  ghost predicate RestKept(t: Tree, r: Tree, dir: Path, files: seq<Builtin>, k: nat)
    requires PlanOk(files)
  {
    forall i :: k <= i < |files| ==>
      At(r, PlaceOf(dir, files, i)) == At(t, PlaceOf(dir, files, i))
      && At(r, TempOf(PlaceOf(dir, files, i))) == At(t, TempOf(PlaceOf(dir, files, i)))
  }

  lemma TempsApart(p: Path, q: Path)
    requires p != [] && q != [] && TempOf(p) == TempOf(q)
    ensures p == q
  {
    var a, b := p[|p| - 1], q[|q| - 1];
    assert TempOf(p)[|p| - 1] == "." + a + ".choco-new" && TempOf(q)[|q| - 1] == "." + b + ".choco-new";
    assert a == ("." + a + ".choco-new")[1..|a| + 1] && b == ("." + b + ".choco-new")[1..|b| + 1];
    assert Parent(p) == TempOf(p)[..|p| - 1] && Parent(q) == TempOf(q)[..|q| - 1];
    assert p == Parent(p) + [a] && q == Parent(q) + [b];
  }

  lemma FilesApart(dir: Path, files: seq<Builtin>, i: nat, j: nat)
    requires PlanOk(files) && i < |files| && j < |files| && i != j
    ensures var p, q := PlaceOf(dir, files, i), PlaceOf(dir, files, j);
      p != [] && q != [] && p != q && TempOf(p) != q && TempOf(q) != p && TempOf(p) != TempOf(q)
  {
    var p, q := PlaceOf(dir, files, i), PlaceOf(dir, files, j);
    PlacesApart(dir, files, i);
    PlacesApart(dir, files, j);
    assert p[|dir|..] == files[i].relative && q[|dir|..] == files[j].relative;
    if TempOf(p) == TempOf(q) {
      TempsApart(p, q);
    }
  }

  /** Putting one file in place undoes nothing done before, and touches nothing to be done. */
  lemma ReplacedElsewhere(t: Tree, r: Tree, dir: Path, files: seq<Builtin>, i: nat, j: nat)
    requires PlanOk(files) && i < |files| && j < |files| && i != j && PlaceOf(dir, files, i) != []
    requires Replaced(t, r, PlaceOf(dir, files, i), NodeOf(files[i]))
    ensures PlaceOf(dir, files, j) != []
    ensures At(r, PlaceOf(dir, files, j)) == At(t, PlaceOf(dir, files, j))
    ensures At(r, TempOf(PlaceOf(dir, files, j))) == At(t, TempOf(PlaceOf(dir, files, j)))
  {
    FilesApart(dir, files, i, j);
  }

  lemma ReplacedKeepsDirs(t: Tree, r: Tree, dir: Path, files: seq<Builtin>, i: nat)
    requires PlanOk(files) && i < |files| && PlaceOf(dir, files, i) != [] && DirsDone(t, dir)
    requires Replaced(t, r, PlaceOf(dir, files, i), NodeOf(files[i]))
    ensures DirsDone(r, dir)
  {
    PlacesApart(dir, files, i);
    var p := PlaceOf(dir, files, i);
    forall q | q <= dir || q == dir + ["prompts"] || q == dir + ["scripts"] ensures At(r, q) == At(t, q) {
      assert |TempOf(p)| == |p| > |dir|;
    }
    forall q | q <= dir ensures IsDir(r, q) {
      assert IsDir(t, q) && At(r, q) == At(t, q);
    }
  }

  lemma ReplacedKeepsFiles(t: Tree, r: Tree, dir: Path, files: seq<Builtin>, i: nat)
    requires PlanOk(files) && i < |files| && PlaceOf(dir, files, i) != [] && FilesDone(t, dir, files, i)
    requires Replaced(t, r, PlaceOf(dir, files, i), NodeOf(files[i]))
    ensures FilesDone(r, dir, files, i)
  {
    forall j | 0 <= j < i ensures At(r, dir + files[j].relative) == Some(NodeOf(files[j])) {
      ReplacedElsewhere(t, r, dir, files, i, j);
      assert PlaceOf(dir, files, j) == dir + files[j].relative;
    }
  }

  lemma ReplacedKeepsRest(t0: Tree, t: Tree, r: Tree, dir: Path, files: seq<Builtin>, i: nat)
    requires PlanOk(files) && i < |files| && PlaceOf(dir, files, i) != [] && RestKept(t0, t, dir, files, i)
    requires Replaced(t, r, PlaceOf(dir, files, i), NodeOf(files[i]))
    ensures RestKept(t0, r, dir, files, i + 1)
  {
    forall j | i + 1 <= j < |files|
      ensures At(r, PlaceOf(dir, files, j)) == At(t0, PlaceOf(dir, files, j))
      ensures At(r, TempOf(PlaceOf(dir, files, j))) == At(t0, TempOf(PlaceOf(dir, files, j)))
    {
      ReplacedElsewhere(t, r, dir, files, i, j);
    }
  }

  // ---- The sweeps -------------------------------------------------------------------------

  lemma ThinnedKeepsDone(t: Tree, r: Tree, dir: Path, sub: Path, files: seq<Builtin>)
    requires PlanOk(files) && DirsDone(t, dir) && FilesDone(t, dir, files, |files|)
    requires sub in SweepOrder && Thinned(t, r, dir, sub, KeepOf(files))
    ensures DirsDone(r, dir) && FilesDone(r, dir, files, |files|)
  {
    var keep := KeepOf(files);
    forall q | q <= dir ensures IsDir(r, q) && At(r, q) == At(t, q) {
      assert IsDir(t, q) && !Stray(t, dir, sub, keep, q);
    }
    forall s | s in Subs ensures At(r, dir + [s]) == At(t, dir + [s]) {
      assert (dir + [s])[|dir|] == s;
      assert !Stray(t, dir, sub, keep, dir + [s]);
    }
    assert "prompts" in Subs && "scripts" in Subs;
    forall i | 0 <= i < |files| ensures At(r, dir + files[i].relative) == At(t, dir + files[i].relative) {
      PlaceIsNoStray(t, dir, sub, files, i);
    }
  }

  /** A sweep of one directory leaves no stray behind in another. */
  lemma ThinnedKeepsNoStray(t: Tree, r: Tree, dir: Path, sub: Path, other: Path, files: seq<Builtin>)
    requires DirsDone(t, dir) && DirsDone(r, dir) && Thinned(t, r, dir, sub, KeepOf(files))
    requires NoStray(t, dir, other, KeepOf(files))
    ensures NoStray(r, dir, other, KeepOf(files))
  {
    var keep := KeepOf(files);
    forall q | q in r ensures !Stray(r, dir, other, keep, q) {
      assert At(r, q) == At(t, q) || (q !in r && Stray(t, dir, sub, keep, q));
      assert !Stray(t, dir, other, keep, q);
    }
  }

  // ---- Convergence ---------------------------------------------------------------------------

  lemma WantedFile(files: seq<Builtin>, i: nat)
    requires PlanOk(files) && i < |files|
    ensures Wanted(files, files[i].relative) == Some(NodeOf(files[i]))
  {
    var rel := files[i].relative;
    assert PlaceOk(rel);
    assert rel != [] && rel != ["prompts"] && rel != ["scripts"];
    assert 0 <= i < |files| && files[i].relative == rel;
    var j :| 0 <= j < |files| && files[j].relative == rel && Wanted(files, rel) == Some(NodeOf(files[j]));
    assert i == j;
  }

  /** In a clean tree a node below `dir` is named, to one or two names, in what is kept. */
  lemma KeptName(t: Tree, dir: Path, files: seq<Builtin>, p: Path) returns (rel: Path)
    requires NothingStray(t, dir, files) && dir < p && p in t
    requires p != dir + ["prompts"] && p != dir + ["scripts"]
    ensures rel in KeepOf(files) && rel <= p[|dir|..]
  {
    var keep := KeepOf(files);
    var name := p[|dir|];
    assert SweepOrder[0] == [] && SweepOrder[1] == ["prompts"] && SweepOrder[2] == ["scripts"];
    assert dir + [] == dir && [] + [name] == [name];
    assert p[..|dir| + 1] == dir + [name];
    if name in Subs {
      rel := KeptUnder(t, dir, [name], keep, p);
    } else {
      rel := KeptUnder(t, dir, [], keep, p);
    }
  }

  lemma KeptUnder(t: Tree, dir: Path, sub: Path, keep: set<Path>, p: Path) returns (rel: Path)
    requires NoStray(t, dir, sub, keep) && p in t && dir + sub < p
    requires sub == [] ==> p[|dir|] !in Subs
    ensures rel in keep && rel <= p[|dir|..]
  {
    rel := sub + [p[|dir + sub|]];
    assert !Stray(t, dir, sub, keep, p);
    assert sub == p[|dir|..][..|sub|] by {
      assert p[..|dir + sub|] == dir + sub;
      assert (dir + sub)[|dir|..] == sub;
    }
  }

  lemma OnlyWantedIsThere(t: Tree, dir: Path, files: seq<Builtin>, p: Path)
    requires WellFormed(t) && PlanOk(files) && FilesDone(t, dir, files, |files|)
    requires NothingStray(t, dir, files) && dir < p && p in t
    requires p != dir + ["prompts"] && p != dir + ["scripts"]
    ensures exists i :: 0 <= i < |files| && p[|dir|..] == files[i].relative
  {
    var rel := KeptName(t, dir, files, p);
    var i :| 0 <= i < |files| && files[i].relative == rel;
    assert At(t, dir + files[i].relative) == Some(NodeOf(files[i]));
    assert p == dir + p[|dir|..];
    if dir + rel != p {
      assert dir + rel < p;
      NothingBelow(t, dir + rel, p);
      assert false;
    }
  }

  lemma WantedElse(files: seq<Builtin>, rel: Path)
    requires rel != [] && rel != ["prompts"] && rel != ["scripts"]
    requires forall i :: 0 <= i < |files| ==> files[i].relative != rel
    ensures Wanted(files, rel) == None
  {
  }

  lemma CanonicalWhenDone(t: Tree, dir: Path, files: seq<Builtin>)
    requires WellFormed(t) && PlanOk(files) && DirsDone(t, dir) && FilesDone(t, dir, files, |files|)
    requires NothingStray(t, dir, files)
    ensures Canonical(t, dir, files)
  {
    forall p | dir <= p ensures At(t, p) == Wanted(files, p[|dir|..]) {
      StandsAsWanted(t, dir, files, p, p[|dir|..]);
    }
  }

  /** One file as it is to be found: to be read by all, written by none, and run by all if its
    * seed may be run by its owner, its group or others.
    */
  ghost predicate InstalledFile(t: Tree, p: Path, b: Builtin) {
    var runs := b.seedMode & 0x40 != 0 || b.seedMode & 0x8 != 0 || b.seedMode & 0x1 != 0;
    p in t && t[p] == File(b.contents, if runs then 0x16D else 0x124)
  }

  /** What is to be found in `place`, and nothing else: three directories and every file. */
  ghost predicate Installed(t: Tree, place: Path, files: seq<Builtin>) {
    && At(t, place) == At(t, place + ["prompts"]) == At(t, place + ["scripts"]) == Some(Dir(0x1ED))
    && (forall i :: 0 <= i < |files| ==> InstalledFile(t, place + files[i].relative, files[i]))
    && (forall p :: p in t && place < p ==>
          || p == place + ["prompts"] || p == place + ["scripts"]
          || exists i :: 0 <= i < |files| && p == place + files[i].relative)
  }

  lemma ModeBits(b: Builtin)
    ensures ModeOf(b) == if b.seedMode & 0x40 != 0 || b.seedMode & 0x8 != 0 || b.seedMode & 0x1 != 0 then 0x16D else 0x124
  {
    var m := b.seedMode;
    assert m & 0x49 == (m & 0x40) | (m & 0x8) | (m & 0x1);
  }

  lemma InstalledAt(t: Tree, place: Path, files: seq<Builtin>, rel: Path)
    requires PlanOk(files)
    requires Installed(t, place, files)
    ensures At(t, place + rel) == Wanted(files, rel)
  {
    var p := place + rel;
    assert rel == [] ==> p == place;
    if i :| 0 <= i < |files| && files[i].relative == rel {
      WantedFile(files, i);
      ModeBits(files[i]);
      assert InstalledFile(t, place + files[i].relative, files[i]);
    } else if rel != [] && rel != ["prompts"] && rel != ["scripts"] {
      WantedElse(files, rel);
      assert place < p && p[|place|..] == rel;
      assert forall q :: p == place + q ==> q == p[|place|..];
    }
  }

  /** The canonical tree, spelled out. */
  lemma CanonicalIsInstalled(t: Tree, place: Path, files: seq<Builtin>)
    requires PlanOk(files)
    ensures Canonical(t, place, files) <==> Installed(t, place, files)
  {
    if Canonical(t, place, files) {
      forall rel: Path ensures At(t, place + rel) == Wanted(files, rel) {
        assert place <= place + rel && (place + rel)[|place|..] == rel;
      }
      assert place + [] == place;
      forall i | 0 <= i < |files| ensures InstalledFile(t, place + files[i].relative, files[i]) {
        WantedFile(files, i);
        ModeBits(files[i]);
      }
      forall p | p in t && place < p && p != place + ["prompts"] && p != place + ["scripts"]
        ensures exists i :: 0 <= i < |files| && p == place + files[i].relative
      {
        var rel := p[|place|..];
        assert p == place + rel && rel != [];
        assert Wanted(files, rel) != None;
      }
    }
    if Installed(t, place, files) {
      forall p | place <= p ensures At(t, p) == Wanted(files, p[|place|..]) {
        assert p == place + p[|place|..];
        InstalledAt(t, place, files, p[|place|..]);
      }
    }
  }

  lemma StandsAsWanted(t: Tree, dir: Path, files: seq<Builtin>, p: Path, rel: Path)
    requires WellFormed(t) && PlanOk(files) && DirsDone(t, dir) && FilesDone(t, dir, files, |files|)
    requires NothingStray(t, dir, files) && dir <= p && rel == p[|dir|..]
    ensures At(t, p) == Wanted(files, rel)
  {
    assert p == dir + rel;
    assert (dir + ["prompts"])[|dir|..] == ["prompts"] && (dir + ["scripts"])[|dir|..] == ["scripts"];
    if rel == [] || rel == ["prompts"] || rel == ["scripts"] {
      assert rel == [] ==> p == dir;
    } else if i :| 0 <= i < |files| && files[i].relative == rel {
      WantedFile(files, i);
    } else {
      WantedElse(files, rel);
      if p in t {
        OnlyWantedIsThere(t, dir, files, p);
        assert false;
      }
    }
  }

  lemma DoneWhenCanonical(t: Tree, dir: Path, files: seq<Builtin>)
    requires PlanOk(files) && Canonical(t, dir, files) && RealAbove(t, dir)
    ensures DirsDone(t, dir) && FilesDone(t, dir, files, |files|) && NothingStray(t, dir, files)
  {
    forall rel: Path ensures At(t, dir + rel) == Wanted(files, rel) {
      assert (dir + rel)[|dir|..] == rel;
      assert dir <= dir + rel;
    }
    assert At(t, dir + []) == Wanted(files, []) && dir + [] == dir;
    assert At(t, dir + ["prompts"]) == Wanted(files, ["prompts"]) && At(t, dir + ["scripts"]) == Wanted(files, ["scripts"]);
    forall q | q <= dir ensures IsDir(t, q) {
      assert q == dir || q < dir;
    }
    forall i | 0 <= i < |files| ensures At(t, dir + files[i].relative) == Some(NodeOf(files[i])) {
      WantedFile(files, i);
    }
    forall sub, q | sub in SweepOrder && q in t ensures !Stray(t, dir, sub, KeepOf(files), q) {
      if dir + sub < q {
        NoStrayWhenWanted(t, dir, sub, files, q);
      }
    }
  }

  lemma NoStrayWhenWanted(t: Tree, dir: Path, sub: Path, files: seq<Builtin>, q: Path)
    requires PlanOk(files) && Canonical(t, dir, files) && Ready(t, dir)
    requires sub in SweepOrder && q in t && dir + sub < q
    ensures !Stray(t, dir, sub, KeepOf(files), q)
  {
    assert dir == (dir + sub)[..|dir|] == q[..|dir|];
    var rel := q[|dir|..];
    assert q == dir + rel && Wanted(files, rel).Some?;
    assert rel != [];
    if rel == ["prompts"] || rel == ["scripts"] {
      assert |dir + sub| < |q| == |dir| + 1;
      assert sub == [] && q[|dir|] == rel[0];
    } else {
      var i :| 0 <= i < |files| && files[i].relative == rel;
      PlaceIsNoStray(t, dir, sub, files, i);
    }
  }

  lemma SameObstructions(t: Tree, r: Tree, dir: Path, files: seq<Builtin>, i: nat)
    requires PlanOk(files) && i < |files| && OnlyDirs(t, r, dir)
    ensures Obstructed(t, dir, files[i]) <==> Obstructed(r, dir, files[i])
  {
    PlacesApart(dir, files, i);
    var p := PlaceOf(dir, files, i);
    assert |TempOf(p)| == |p| > |dir|;
    assert At(r, p) == At(t, p) && At(r, TempOf(p)) == At(t, TempOf(p));
  }

  /** What goes below `place` and comes to it never was below it, in a tree without links there. */
  lemma {:induction false} NeverEnters(t: Tree, place: Path, base: Path, rest: Path, links: nat)
    requires LinkFree(t, place) && !(place < base) && Follow(t, base, rest, links) == Some(place)
    ensures Follow(Outside(t, place), base, rest, links) == Some(place)
    decreases links, |rest|
  {
    if rest != [] {
      var next := base + [rest[0]];
      if place < next && t[next].Dir? {
        FollowStaysBelow(t, next, next, rest[1..], links);
        assert false;
      }
      match t[next]
      case Dir(_) => NeverEnters(t, place, next, rest[1..], links);
      case File(_, _) =>
      case Link(target) => NeverEnters(t, place, [], target + rest[1..], links - 1);
    }
  }

  lemma CanonicalIsLinkFree(t: Tree, place: Path, files: seq<Builtin>)
    requires Canonical(t, place, files)
    ensures LinkFree(t, place) && IsDir(t, place)
  {
    assert place[|place|..] == [];
    assert At(t, place) == Wanted(files, []);
    forall q | place <= q && q in t ensures !t[q].Link? {
      assert At(t, q) == Wanted(files, q[|place|..]);
    }
  }

  /** Where `dir` leads to the canonical tree it leads there straight. */
  lemma CanonicalIsStraight(t: Tree, dir: Path, place: Path, files: seq<Builtin>)
    requires Canonical(t, place, files) && Leads(t, dir) == Some(place)
    ensures Straight(t, dir, place)
  {
    CanonicalIsLinkFree(t, place, files);
    NeverEnters(t, place, [], dir, MAX_LINKS);
  }

  /** And if it still leads where it led, the way there was straight from the beginning. */
  lemma StraightFromTheStart(t0: Tree, t: Tree, dir: Path, place: Path)
    requires WellFormed(t0) && place == Destination(t0, dir) && Passable(t0, dir)
    requires OutsideKept(t0, t, place) && Straight(t, dir, place)
    ensures StraightWay(t0, dir)
  {
    var a, b := Outside(t, place), Outside(t0, place);
    if Leads(t0, dir).Some? {
      LeadsToDestination(t0, dir);
      InTreeIsReal(t0, place);
      forall q | q in a ensures q in b && Alike(a[q], b[q]) {
        if q <= place {
          assert q == place || q < place;
          assert IsDir(t0, q);
          assert At(t, q) == At(t0, q) || MadeHere(t0, t, place, q);
        } else {
          assert At(t, q) == At(t0, q);
        }
      }
      FollowGrows(a, b, [], dir, MAX_LINKS);
    } else if Follow(b, [], dir, MAX_LINKS).Some? {
      FollowGrows(b, t0, [], dir, MAX_LINKS);
    }
  }

  ghost predicate LeadsToCanonical(t: Tree, dir: Path, place: Path, files: seq<Builtin>) {
    Leads(t, dir) == Some(place) && Canonical(t, place, files)
  }

  /** The name leads to the built-ins, spelled out. */
  ghost predicate LeadsToInstalled(t: Tree, dir: Path, files: seq<Builtin>) {
    Leads(t, dir).Some? && Installed(t, Leads(t, dir).value, files)
  }

  /** How a run that succeeds ends: at the canonical tree, where the name led or was to lead, if
    * and only if the way was straight; and then at the built-ins, as they are spelled out.
    */
  ghost predicate EndsRight(t0: Tree, t: Tree, dir: Path, files: seq<Builtin>) {
    && Passable(t0, dir)
    && (LeadsToCanonical(t, dir, Destination(t0, dir), files) <==> StraightWay(t0, dir))
    && (StraightWay(t0, dir) ==> LeadsToInstalled(t, dir, files))
  }

  // ---- Links on the way ---------------------------------------------------------------------

  ghost predicate NoLinkOn(t: Tree, p: Path) {
    forall q :: q <= p && q in t ==> !t[q].Link?
  }

  /** Without links on the way a path leads where it says. */
  lemma {:induction false} PlainWay(t: Tree, p: Path)
    requires WellFormed(t) && NoLinkOn(t, p) && Passable(t, p)
    ensures Destination(t, p) == p && (Leads(t, p).Some? ==> Leads(t, p).value == p)
    decreases |p|
  {
    if p != [] {
      assert Parent(p) <= p && p == Parent(p) + [p[|p| - 1]];
      PassableAbove(t, p, |p| - 1);
      PlainWay(t, Parent(p));
      NamedStep(t, p);
    }
  }

  lemma SameWhenAllAgree(t: Tree, r: Tree)
    requires forall q :: At(t, q) == At(r, q)
    ensures t == r
  {
    forall q ensures q in t <==> q in r {
      assert At(t, q) == At(r, q);
    }
    forall q | q in t ensures t[q] == r[q] {
      assert At(t, q) == At(r, q);
    }
  }

  /** Where a canonical tree stands already, there is nothing a run could change. */
  lemma CanonicalIsLeftAlone(t0: Tree, t: Tree, place: Path, files: seq<Builtin>)
    requires WellFormed(t0) && Canonical(t0, place, files) && Canonical(t, place, files) && OutsideKept(t0, t, place)
    ensures t == t0
  {
    CanonicalIsLinkFree(t0, place, files);
    InTreeIsReal(t0, place);
    forall q ensures At(t0, q) == At(t, q) {
      if place <= q {
        assert At(t, q) == Wanted(files, q[|place|..]) && At(t0, q) == Wanted(files, q[|place|..]);
      } else if q <= place {
        assert q < place;
        assert IsDir(t0, q);
        assert At(t, q) == At(t0, q) || MadeHere(t0, t, place, q);
      } else {
        assert At(t, q) == At(t0, q);
      }
    }
    SameWhenAllAgree(t0, t);
  }

  /** Nothing can change at or below a link on the way and leave what is outside the name alone. */
  lemma LinkedMeansUntouched(t0: Tree, t: Tree, dir: Path, link: Path)
    requires WellFormed(t0) && WellFormed(t) && OutsideKept(t0, t, dir)
    requires link <= dir && link in t0 && t0[link].Link?
    ensures t == t0
  {
    assert At(t, link) == At(t0, link) || MadeHere(t0, t, dir, link);
    assert dir in t0 ==> dir == link by {
      if dir in t0 && dir != link {
        NothingBelow(t0, link, dir);
        assert false;
      }
    }
    assert At(t, link) == At(t0, link);
    InTreeIsReal(t0, link);
    forall q ensures At(t0, q) == At(t, q) {
      if link < q {
        if q in t0 {
          NothingBelow(t0, link, q);
        }
        if q in t {
          NothingBelow(t, link, q);
        }
      } else if q <= dir {
        assert q <= link by {
          assert q == dir[..|q|] && link == dir[..|link|];
        }
        if q != link {
          assert q < link && IsDir(t0, q);
        }
        assert At(t, q) == At(t0, q) || MadeHere(t0, t, dir, q);
      } else {
        assert dir <= q ==> link <= q;
        assert link <= q ==> link == q;
        assert At(t, q) == At(t0, q);
      }
    }
    SameWhenAllAgree(t0, t);
  }

  /** When nothing outside the path `dir` itself has changed after a run that
    * succeeded: exactly if there is no link at or above `dir`, or the canonical
    * tree was there to begin with.
    */
  lemma NothingElseChanged(t0: Tree, t: Tree, dir: Path, files: seq<Builtin>)
    requires WellFormed(t0) && WellFormed(t) && Passable(t0, dir)
    requires OutsideKept(t0, t, Destination(t0, dir)) && LeadsToCanonical(t, dir, Destination(t0, dir), files)
    ensures OutsideKept(t0, t, dir) <==>
      NoLinkOn(t0, dir) || LeadsToCanonical(t0, dir, Destination(t0, dir), files)
  {
    var place := Destination(t0, dir);
    if LeadsToCanonical(t0, dir, place, files) {
      CanonicalIsLeftAlone(t0, t, place, files);
    } else if NoLinkOn(t0, dir) {
      PlainWay(t0, dir);
    } else if OutsideKept(t0, t, dir) {
      var link :| link <= dir && link in t0 && t0[link].Link?;
      LinkedMeansUntouched(t0, t, dir, link);
    }
  }

  // ---- After a crash -----------------------------------------------------------------------

  /** A tree in which part of the way to `place`, missing before, is made. */
  lemma {:induction false} PartlyMade(t0: Tree, t: Tree, place: Path, p: Path)
    requires WellFormed(t0) && WellFormed(t) && Covers(t0, t) && place !in t0 && OutsideKept(t0, t, place)
    requires Passable(t0, p) && (Leads(t0, p).None? ==> Destination(t0, p) <= place)
    ensures Passable(t, p) && Destination(t, p) == Destination(t0, p)
    ensures Follow(t, [], p, MAX_LINKS) == None || Leads(t, p) == Some(Destination(t, p))
    decreases |p|
  {
    if Leads(t0, p).Some? {
      FollowGrows(t0, t, [], p, MAX_LINKS);
    } else {
      var up, d := Parent(p), Destination(t0, p);
      var e := Destination(t0, up);
      assert d == e + [p[|p| - 1]] && e < d;
      PartlyMade(t0, t, place, up);
      NamedStep(t, p);
      if d in t {
        assert At(t, d) == At(t0, d) || MadeHere(t0, t, place, d);
        assert IsDir(t, d);
        assert Hangs(t, d) && Parent(d) == e;
      }
    }
  }

  lemma OutsideIsWellFormed(t: Tree, w: Path)
    requires WellFormed(t)
    ensures WellFormed(Outside(t, w))
  {
    forall p ensures Hangs(Outside(t, w), p) {
      assert Hangs(t, p);
      assert p != [] && w < Parent(p) ==> w < p;
    }
  }

  lemma KeptIsCovered(t0: Tree, t: Tree, place: Path)
    requires WellFormed(t0) && OutsideKept(t0, t, place) && place !in t0
    ensures Covers(t0, t)
  {
    forall q | q in t0 ensures q in t && Alike(t0[q], t[q]) {
      if place < q {
        NothingBelow(t0, place, q);
      } else if q <= place {
        assert At(t, q) == At(t0, q) || MadeHere(t0, t, place, q);
      } else {
        assert place <= q ==> place == q;
        assert At(t, q) == At(t0, q);
      }
    }
  }

  /** What a crash leaves of the way that was to be made leads to the same place, and straight. */
  lemma WayAfterCrash(t0: Tree, t: Tree, dir: Path, place: Path)
    requires WellFormed(t0) && WellFormed(t) && place == Destination(t0, dir) && OutsideKept(t0, t, place)
    requires Passable(t0, dir) && StraightWay(t0, dir)
    ensures Passable(t, dir) && Destination(t, dir) == place && StraightWay(t, dir)
  {
    if Leads(t0, dir).Some? {
      LeadsToDestination(t0, dir);
      OldWayAfterCrash(t0, t, dir, place);
    } else {
      KeptIsCovered(t0, t, place);
      PartlyMade(t0, t, place, dir);
      var b := Outside(t, place);
      OutsideIsWellFormed(t, place);
      assert OutsideKept(t0, b, place) by {
        forall q | q <= place ensures At(b, q) == At(t0, q) || MadeHere(t0, b, place, q) {
          assert At(t, q) == At(t0, q) || MadeHere(t0, t, place, q);
        }
      }
      KeptIsCovered(t0, b, place);
      PartlyMade(t0, b, place, dir);
      if Follow(t, [], dir, MAX_LINKS).Some? {
        assert place in t && place in b;
      } else if Follow(b, [], dir, MAX_LINKS).Some? {
        FollowGrows(b, t, [], dir, MAX_LINKS);
      }
    }
  }

  lemma OldWayAfterCrash(t0: Tree, t: Tree, dir: Path, place: Path)
    requires WellFormed(t0) && Leads(t0, dir) == Some(place) && OutsideKept(t0, t, place) && Straight(t0, dir, place)
    ensures Straight(t, dir, place) && Leads(t, dir) == Some(place)
  {
    var a, b := Outside(t0, place), Outside(t, place);
    InTreeIsReal(t0, place);
    forall q | q in a ensures q in b && Alike(a[q], b[q]) {
      if q <= place {
        assert q == place || q < place;
        assert IsDir(t0, q);
        assert At(t, q) == At(t0, q) || MadeHere(t0, t, place, q);
      } else {
        assert place <= q ==> place == q;
        assert At(t, q) == At(t0, q);
      }
    }
    FollowGrows(a, b, [], dir, MAX_LINKS);
    assert At(t, place) == At(t0, place) || MadeHere(t0, t, place, place);
    StraightLeads(t, dir, place);
  }

  /** What a crash leaves behind stands in no one's way that was free before. */
  lemma CrashLeavesTheWayFree(t0: Tree, t: Tree, dir: Path, files: seq<Builtin>)
    requires PlanOk(files) && WellFormed(t0) && WellFormed(t) && StraightWay(t0, dir)
    requires Safe(t0, t, Destination(t0, dir), files) && Unobstructed(t0, dir, files)
    ensures Unobstructed(t, dir, files) && StraightWay(t, dir) && Destination(t, dir) == Destination(t0, dir)
  {
    var place := Destination(t0, dir);
    WayAfterCrash(t0, t, dir, place);
    forall i | 0 <= i < |files| ensures !Obstructed(t, place, files[i]) {
      assert SafeAt(t0, t, place + files[i].relative, NodeOf(files[i]));
      assert !Obstructed(t0, place, files[i]);
    }
  }

  lemma OutsideKeptTwice(t0: Tree, t: Tree, r: Tree, dir: Path)
    requires OutsideKept(t0, t, dir) && OutsideKept(t, r, dir)
    ensures OutsideKept(t0, r, dir)
  {
    forall p | p <= dir ensures At(r, p) == At(t0, p) || MadeHere(t0, r, dir, p) {
      assert At(t, p) == At(t0, p) || MadeHere(t0, t, dir, p);
      assert At(r, p) == At(t, p) || MadeHere(t, r, dir, p);
    }
  }

  // ---- Two linked trees -------------------------------------------------------------------------

  /** `a` is a link to the directory `b`, which holds one file. */
  const Linked: Tree := map[[] := Dir(MODE_DIR), ["a"] := Link(["b"]), ["b"] := Dir(MODE_DIR), ["b", "notes"] := File([], MODE_TEMP)]

  /** A path of one name. */
  lemma FollowOneName(t: Tree, base: Path, x: string, links: nat)
    requires IsDir(t, base + [x])
    ensures Follow(t, base, [x], links) == Some(base + [x])
  {
    assert [x][1..] == [];
  }

  lemma FollowOneLink(t: Tree, base: Path, x: string, target: string, links: nat)
    requires base + [x] in t && t[base + [x]] == Link([target]) && IsDir(t, [target]) && links > 0
    ensures Follow(t, base, [x], links) == Some([target])
  {
    assert [x][1..] == [] && [target] + [] == [target] && [] + [target] == [target];
    FollowOneName(t, [], target, links - 1);
  }

  lemma LinkedIsStraight()
    ensures WellFormed(Linked) && Leads(Linked, ["a"]) == Some(["b"]) && StraightWay(Linked, ["a"])
  {
    forall p ensures Hangs(Linked, p) {
      assert p in Linked && p != [] ==> Parent(p) == [] || Parent(p) == ["b"];
    }
    assert [] + ["a"] == ["a"];
    FollowOneLink(Linked, [], "a", "b", MAX_LINKS);
    assert ["b"][0] != ["a"][0];
    FollowOneLink(Outside(Linked, ["b"]), [], "a", "b", MAX_LINKS);
  }

  lemma LinkedIsUnobstructed(files: seq<Builtin>)
    requires PlanOk(files) && WellFormed(Linked) && Leads(Linked, ["a"]) == Some(["b"])
    ensures Destination(Linked, ["a"]) == ["b"] && Unobstructed(Linked, ["a"], files)
  {
    forall i | 0 <= i < |files| ensures !Obstructed(Linked, ["b"], files[i]) {
      var p := ["b"] + files[i].relative;
      assert PlaceOk(files[i].relative) && |p| > 1 && |TempOf(p)| > 1;
    }
  }

  lemma NotesAreGone(t: Tree, files: seq<Builtin>)
    requires PlanOk(files) && Canonical(t, ["b"], files) && forall i :: 0 <= i < |files| ==> files[i].relative != ["notes"]
    ensures ["b", "notes"] !in t && !(["a"] <= ["b", "notes"]) && !OutsideKept(Linked, t, ["a"])
  {
    var p := ["b", "notes"];
    assert ["b"] <= p && p[1..] == ["notes"];
    WantedElse(files, ["notes"]);
    assert At(t, p) == Wanted(files, ["notes"]);
    assert p[0] != ["a"][0];
    assert p in Linked;
  }

  /** `z/prompts` is a link back to `z`. */
  const SelfLinked: Tree := map[[] := Dir(MODE_DIR), ["z"] := Dir(MODE_DIR), ["z", "prompts"] := Link(["z"])]

  /** A way that is not straight: it goes through the place it leads to, and the
    * link is removed on the way.
    */
  lemma SelfLinkedIsNotStraight()
    ensures Leads(SelfLinked, ["z", "prompts"]) == Some(["z"]) && !StraightWay(SelfLinked, ["z", "prompts"])
  {
    var dir := ["z", "prompts"];
    BackAgain(SelfLinked, dir, MAX_LINKS);
    var b := Outside(SelfLinked, ["z"]);
    assert ["z"] < dir && dir !in b;
    StopsThere(b, dir, MAX_LINKS);
  }

  lemma BackAgain(t: Tree, dir: Path, links: nat)
    requires dir == ["z", "prompts"] && IsDir(t, ["z"]) && dir in t && t[dir] == Link(["z"]) && links > 0
    ensures Follow(t, [], dir, links) == Some(["z"])
  {
    assert [] + ["z"] == ["z"] && dir[1..] == ["prompts"] && ["z"] + ["prompts"] == dir;
    FollowOneLink(t, ["z"], "prompts", "z", links);
  }

  lemma StopsThere(t: Tree, dir: Path, links: nat)
    requires dir == ["z", "prompts"] && IsDir(t, ["z"]) && dir !in t
    ensures Follow(t, [], dir, links) == None
  {
    assert [] + ["z"] == ["z"] && dir[1..] == ["prompts"] && ["z"] + ["prompts"] == dir;
    assert Follow(t, ["z"], ["prompts"], links) == None;
  }
}
