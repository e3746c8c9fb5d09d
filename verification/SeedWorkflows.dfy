/** Seeding a project's own workflows, which are its to edit
  * (`chocofactoryd/src/config_root.rs`, lines 101 to 223).
  *
  * Any directory on the way may be a link.
  */
module SeedWorkflows {
  import opened Wrappers
  import opened FileTree
  import opened Links
  import opened MakingDirs

  /** An embedded file and the mode it is seeded with. */
  datatype Seed = Seed(relative: Path, contents: Bytes, mode: nat)

  datatype SeedReport = SeedReport(created: seq<Path>, existing: seq<Path>)

  /** Whatever is in `t` is in `r` as it was. */
  ghost predicate Kept(t: Tree, r: Tree) {
    forall q :: q in t ==> q in r && r[q] == t[q]
  }

  ghost predicate KeptSince(trace: seq<Tree>, n: nat, t: Tree) {
    n <= |trace| && forall i :: n <= i < |trace| ==> Kept(t, trace[i])
  }

  /** And what is new is no link. */
  ghost predicate Seeded(t: Tree, r: Tree) {
    Kept(t, r) && WellFormed(r) && forall q :: q in r && q !in t ==> !r[q].Link?
  }

  /** What `p` names, its directory being resolved. */
  function Named(t: Tree, p: Path): Option<Node> {
    match Locate(t, p)
    case None => None
    case Some(q) => At(t, q)
  }

  // ---- A tree that only grows ----------------------------------------------------------

  lemma LocateGrows(t: Tree, r: Tree, p: Path)
    requires Kept(t, r) && Locate(t, p).Some?
    ensures Locate(r, p) == Locate(t, p)
  {
    assert Covers(t, r);
    FollowGrows(t, r, [], Parent(p), MAX_LINKS);
  }

  lemma NamedGrows(t: Tree, r: Tree, p: Path)
    requires Kept(t, r) && Named(t, p).Some?
    ensures Named(r, p) == Named(t, p)
  {
    LocateGrows(t, r, p);
  }

  /** A path that leads to an old node led there from the beginning: what is new leads only to what is new. */
  lemma {:induction false} LedBefore(t: Tree, r: Tree, base: Path, rest: Path, links: nat)
    requires WellFormed(t) && Seeded(t, r) && base in t
    requires Follow(r, base, rest, links).Some? && Follow(r, base, rest, links).value in t
    ensures Follow(t, base, rest, links) == Follow(r, base, rest, links)
    decreases links, |rest|
  {
    if rest != [] {
      var next := base + [rest[0]];
      if next in t {
        match t[next]
        case Dir(_) => LedBefore(t, r, next, rest[1..], links);
        case File(_, _) =>
        case Link(target) => LedBefore(t, r, [], target + rest[1..], links - 1);
      } else {
        NewLeadsToNew(t, r, next, rest[1..], links);
      }
    }
  }

  lemma NewLeadsToNew(t: Tree, r: Tree, next: Path, rest: Path, links: nat)
    requires WellFormed(t) && Seeded(t, r) && next !in t && next in r
    ensures r[next].Dir? && Follow(r, next, rest, links).Some? ==> Follow(r, next, rest, links).value !in t
    ensures !r[next].Link?
  {
    if r[next].Dir? && Follow(r, next, rest, links).Some? {
      forall q | next <= q && q in r ensures !r[q].Link? {
        if q in t && next != q {
          NothingBelow(t, next, q);
        }
      }
      FollowStaysBelow(r, next, next, rest, links);
      var q := Follow(r, next, rest, links).value;
      if q in t && q != next {
        NothingBelow(t, next, q);
      }
    }
  }

  /** A name for an old node named it from the beginning. */
  lemma NamedBefore(t: Tree, r: Tree, p: Path)
    requires WellFormed(t) && Seeded(t, r) && Locate(r, p).Some? && Locate(r, p).value in t
    ensures Locate(t, p) == Locate(r, p) && Named(t, p) == Named(r, p)
  {
    var l := Locate(r, p).value;
    assert Hangs(t, l) && Parent(l) == Leads(r, Parent(p)).value;
    LedBefore(t, r, [], Parent(p), MAX_LINKS);
  }

  lemma SeededTwice(t: Tree, r: Tree, s: Tree)
    requires Seeded(t, r) && Seeded(r, s)
    ensures Seeded(t, s)
  {
  }

  // ---- The directories ------------------------------------------------------------------

  lemma GrownIsKept(t: Tree, r: Tree, p: Path)
    requires GrownFor(t, r, p)
    ensures Kept(t, r) && Covers(t, r) && (WellFormed(r) ==> Seeded(t, r))
  {
    var d := Destination(t, p);
    forall q | q in r && q !in t ensures !r[q].Link? {
      assert r == t || At(r, q) == At(t, q) || (q <= d && q !in t && IsDir(r, q));
    }
    forall q | q in t ensures q in r && r[q] == t[q] {
      assert r == t || At(r, q) == At(t, q) || (q <= d && q !in t && IsDir(r, q));
    }
  }

  /** One directory, and those above it; nothing that was there changes. */
  method SeedDir(fs: FileSystem, p: Path) returns (r: Result<(), IoError>)
    requires WellFormed(fs.tree)
    modifies fs
    ensures WellFormed(fs.tree) && Extends(old(fs.trace), fs.trace) && KeptSince(fs.trace, |old(fs.trace)|, old(fs.tree))
    ensures Seeded(old(fs.tree), fs.tree) && Covers(old(fs.tree), fs.tree) && GrownFor(old(fs.tree), fs.tree, p)
    ensures r.Ok? ==> Leads(fs.tree, p) == Some(Destination(old(fs.tree), p)) && Passable(old(fs.tree), p)
    ensures fs.sound && Passable(old(fs.tree), p) ==> r.Ok?
  {
    r := CreateDirAll(fs, p);
    GrownIsKept(old(fs.tree), fs.tree, p);
    forall i | |old(fs.trace)| <= i < |fs.trace| ensures Kept(old(fs.tree), fs.trace[i]) {
      GrownIsKept(old(fs.tree), fs.trace[i], p);
    }
  }

  /** A subdirectory that could be made still can, once what it goes into stands. */
  lemma StaysPassable(t: Tree, r: Tree, dir: Path, s: string, e: Path)
    requires WellFormed(t) && WellFormed(r) && Covers(t, r) && Passable(t, dir + [s])
    requires Destination(t, dir) == e && Leads(r, dir) == Some(e)
    requires e + [s] !in t ==> e + [s] !in r
    ensures Passable(r, dir + [s])
  {
    var p := dir + [s];
    assert Parent(p) == dir && p[|p| - 1] == s;
    if Leads(t, p).Some? {
      FollowGrows(t, r, [], p, MAX_LINKS);
    } else {
      assert Destination(t, p) == e + [s];
      StillFree(r, dir, p, e, s);
    }
  }

  lemma StillFree(r: Tree, dir: Path, p: Path, e: Path, s: string)
    requires WellFormed(r) && Leads(r, dir) == Some(e) && e + [s] !in r
    requires p != [] && Parent(p) == dir && p[|p| - 1] == s
    ensures Passable(r, p)
  {
    NamedStep(r, p);
    LeadsToDestination(r, dir);
    assert Destination(r, p) == e + [s];
  }

  lemma NotMadeBeside(t: Tree, r: Tree, p: Path, q: Path)
    requires GrownFor(t, r, p) && !(q <= Destination(t, p)) && q !in t
    ensures q !in r
  {
    assert r == t || At(r, q) == At(t, q) || (q <= Destination(t, p) && q !in t && IsDir(r, q));
  }

  // ---- One file ---------------------------------------------------------------------------

  /** `t`, and perhaps one more node, `at`. */
  ghost predicate OneMore(t: Tree, r: Tree, at: Path) {
    at !in t && (r == t || (at in r && r[at].File? && r == t[at := r[at]]))
  }

  lemma OneMoreIsSeeded(t: Tree, r: Tree, path: Path)
    requires WellFormed(t) && Locate(t, path).Some? && OneMore(t, r, Locate(t, path).value)
    ensures Seeded(t, r)
  {
    var at := Locate(t, path).value;
    WhereLocated(t, path);
    if r != t {
      PutKeepsForm(t, at, r[at]);
    }
  }

  /** Creates a file where nothing is, or leaves what is there: `Ok(true)` when
    * this call made it. Creation and the look for what is there are one step, so
    * the answer holds whoever else is seeding.
    */
  method SeedOne(fs: FileSystem, path: Path, source: Bytes, mode: nat) returns (r: Result<bool, IoError>)
    requires WellFormed(fs.tree)
    modifies fs
    ensures Extends(old(fs.trace), fs.trace) && KeptSince(fs.trace, |old(fs.trace)|, old(fs.tree))
    ensures Seeded(old(fs.tree), fs.tree)
    ensures r == Ok(true) ==> Named(old(fs.tree), path) == None && Named(fs.tree, path) == Some(File(source, mode))
    ensures r == Ok(false) ==> Named(old(fs.tree), path).Some? && fs.tree == old(fs.tree)
    ensures fs.sound && Locate(old(fs.tree), path).Some? ==> r == Ok(Named(old(fs.tree), path) == None)
  {
    ghost var t := fs.tree;
    var at := Locate(fs.tree, path);
    var made := fs.CreateNew(path, mode);
    match made
    case Err(e) =>
      r := if e == AlreadyExists then Ok(false) else Err(e);
    case Ok(_) =>
      ghost var created := fs.tree;
      r := Fill(fs, path, at.value, source, t);
      OneMoreIsSeeded(t, fs.tree, path);
      assert forall i :: |old(fs.trace)| + 1 <= i < |fs.trace| ==> OneMore(t, fs.trace[i], at.value);
  }

  /** The file just made at `at` is written, or, failing that, removed as far as possible. */
  method Fill(fs: FileSystem, path: Path, at: Path, source: Bytes, ghost t: Tree) returns (r: Result<bool, IoError>)
    requires Locate(t, path) == Some(at) && at !in t && at in fs.tree && fs.tree[at].File?
    requires fs.tree == t[at := fs.tree[at]]
    modifies fs
    ensures Extends(old(fs.trace), fs.trace)
    ensures forall i :: |old(fs.trace)| <= i < |fs.trace| ==> OneMore(t, fs.trace[i], at)
    ensures OneMore(t, fs.tree, at)
    ensures r == Ok(true) ==> Named(fs.tree, path) == Some(File(source, old(fs.tree)[at].mode))
    ensures r != Ok(false) && (fs.sound ==> r == Ok(true))
  {
    var wrote := fs.WriteAll(at, source);
    ghost var steps := fs.trace;
    forall i | |old(fs.trace)| <= i < |steps| ensures OneMore(t, steps[i], at) {
      var bs :| bs <= source && steps[i] == old(fs.tree)[at := File(bs, old(fs.tree)[at].mode)];
      assert steps[i] == t[at := File(bs, old(fs.tree)[at].mode)];
    }
    LocateGrows(t, fs.tree, path);
    if wrote.Err? {
      var removed := fs.RemoveFile(path);
      assert fs.tree == steps[|steps| - 1] || fs.tree == t;
      return Err(wrote.error);
    }
    r := Ok(true);
  }

  // ---- All of them ------------------------------------------------------------------------

  /** The side of the report `p` is on: a created file is new and whole; what is
    * existing was there, and is as it was, or was made by this very call under
    * another name.
    */
  ghost predicate Sided(t0: Tree, t: Tree, p: Path, file: Seed, report: SeedReport) {
    && (p in report.created <==> p !in report.existing)
    && (p in report.created ==> Named(t0, p) == None && Named(t, p) == Some(File(file.contents, file.mode)))
    && (p in report.existing ==> Found(t0, t, p))
  }

  ghost predicate Found(t0: Tree, t: Tree, p: Path) {
    && Named(t, p).Some?
    && (Named(t0, p) == Named(t, p) || Locate(t, p).value !in t0)
  }

  lemma FoundStays(t0: Tree, t: Tree, r: Tree, p: Path)
    requires Kept(t, r) && Found(t0, t, p)
    ensures Found(t0, r, p)
  {
    NamedGrows(t, r, p);
    LocateGrows(t, r, p);
  }

  /** The first `k` files are all in the report, once each, and nothing else is. */
  ghost predicate Accounted(t0: Tree, t: Tree, dir: Path, files: seq<Seed>, k: nat, report: SeedReport)
    requires k <= |files|
  {
    && |report.created| + |report.existing| == k
    && (forall i :: 0 <= i < k ==> Sided(t0, t, dir + files[i].relative, files[i], report))
    && (forall p :: p in report.created || p in report.existing ==> Among(dir, files, k, p))
  }

  ghost predicate Among(dir: Path, files: seq<Seed>, k: nat, p: Path)
    requires k <= |files|
  {
    exists i :: 0 <= i < k && p == dir + files[i].relative
  }

  ghost predicate Distinct(files: seq<Seed>) {
    forall i, j :: 0 <= i < j < |files| ==> files[i].relative != files[j].relative
  }

  lemma AccountedFurther(t0: Tree, t: Tree, r: Tree, dir: Path, files: seq<Seed>, k: nat,
                         before: SeedReport, after: SeedReport)
    requires Distinct(files) && k < |files| && Accounted(t0, t, dir, files, k, before) && Kept(t, r)
    requires var p := dir + files[k].relative;
      || (after == before.(created := before.created + [p])
          && Named(t0, p) == None && Named(r, p) == Some(File(files[k].contents, files[k].mode)))
      || (after == before.(existing := before.existing + [p]) && Found(t0, r, p))
    ensures Accounted(t0, r, dir, files, k + 1, after)
  {
    var p := dir + files[k].relative;
    forall i | 0 <= i < k ensures dir + files[i].relative != p {
      assert (dir + files[i].relative)[|dir|..] == files[i].relative && p[|dir|..] == files[k].relative;
    }
    assert !Among(dir, files, k, p);
    forall i | 0 <= i < k ensures Sided(t0, r, dir + files[i].relative, files[i], after) {
      var q := dir + files[i].relative;
      assert Sided(t0, t, q, files[i], before);
      if q in before.created {
        NamedGrows(t, r, q);
      } else {
        FoundStays(t0, t, r, q);
      }
    }
    forall q | q in after.created || q in after.existing ensures Among(dir, files, k + 1, q) {
      if q != p {
        assert Among(dir, files, k, q);
      }
    }
  }

  /** A file goes into the directory or one of its two. */
  predicate Placed(files: seq<Seed>) {
    forall i :: 0 <= i < |files| ==>
      var rel := files[i].relative;
      |rel| == 1 || (|rel| == 2 && (rel[0] == "prompts" || rel[0] == "scripts"))
  }

  ghost predicate DirsLead(t: Tree, dir: Path) {
    Leads(t, dir).Some? && Leads(t, dir + ["prompts"]).Some? && Leads(t, dir + ["scripts"]).Some?
  }

  /** The three directories are there, through links or not, or can be made. */
  ghost predicate DirsPassable(t: Tree, dir: Path) {
    Passable(t, dir + ["prompts"]) && Passable(t, dir + ["scripts"])
  }

  lemma DirsStillLead(t: Tree, r: Tree, dir: Path)
    requires Kept(t, r) && DirsLead(t, dir)
    ensures DirsLead(r, dir)
  {
    assert Covers(t, r);
    FollowGrows(t, r, [], dir, MAX_LINKS);
    FollowGrows(t, r, [], dir + ["prompts"], MAX_LINKS);
    FollowGrows(t, r, [], dir + ["scripts"], MAX_LINKS);
  }

  lemma PlaceIsFound(t: Tree, dir: Path, rel: Path)
    requires DirsLead(t, dir) && (|rel| == 1 || (|rel| == 2 && (rel[0] == "prompts" || rel[0] == "scripts")))
    ensures Locate(t, dir + rel).Some?
  {
    var p := dir + rel;
    if |rel| == 1 {
      assert Parent(p) == dir;
    } else {
      assert Parent(p) == dir + [rel[0]];
    }
  }

  /** Seeds every file into `dir`, which is made if need be. No node of the old
    * tree changes at any step, whatever fails; unless calls fail, nothing but
    * a directory that cannot be made keeps it from succeeding.
    */
  method SeedBuiltinWorkflows(fs: FileSystem, dir: Path, files: seq<Seed>) returns (r: Result<SeedReport, IoError>)
    requires Distinct(files) && Placed(files) && WellFormed(fs.tree)
    modifies fs
    ensures Extends(old(fs.trace), fs.trace) && KeptSince(fs.trace, |old(fs.trace)|, old(fs.tree))
    ensures Seeded(old(fs.tree), fs.tree)
    ensures r.Ok? ==> Accounted(old(fs.tree), fs.tree, dir, files, |files|, r.value) && DirsLead(fs.tree, dir)
    ensures fs.sound && DirsPassable(old(fs.tree), dir) ==> r.Ok?
    ensures r.Ok? ==> Passable(old(fs.tree), dir + ["prompts"])
  {
    var made := SeedDirs(fs, dir);
    if made.Err? {
      return Err(made.error);
    }
    ghost var t0, t1 := old(fs.tree), fs.tree;
    var report := SeedReport([], []);
    for k := 0 to |files|
      invariant Extends(old(fs.trace), fs.trace) && KeptSince(fs.trace, |old(fs.trace)|, t0)
      invariant Seeded(t0, fs.tree) && DirsLead(fs.tree, dir)
      invariant Accounted(t0, fs.tree, dir, files, k, report)
    {
      ghost var before := fs.tree;
      r := SeedNext(fs, dir, files, k, report, t0);
      if r.Err? {
        return;
      }
      DirsStillLead(before, fs.tree, dir);
      report := r.value;
    }
    r := Ok(report);
  }

  /** The directory and its two. */
  method SeedDirs(fs: FileSystem, dir: Path) returns (r: Result<(), IoError>)
    requires WellFormed(fs.tree)
    modifies fs
    ensures Extends(old(fs.trace), fs.trace) && KeptSince(fs.trace, |old(fs.trace)|, old(fs.tree))
    ensures Seeded(old(fs.tree), fs.tree)
    ensures r.Ok? ==> DirsLead(fs.tree, dir) && Passable(old(fs.tree), dir + ["prompts"])
    ensures fs.sound && DirsPassable(old(fs.tree), dir) ==> r.Ok?
  {
    ghost var t0, prompts, scripts := fs.tree, dir + ["prompts"], dir + ["scripts"];
    assert prompts[..|dir|] == dir;
    if Passable(t0, prompts) {
      PassableAbove(t0, prompts, |dir|);
    }
    r := SeedDir(fs, dir);
    if r.Err? {
      return;
    }
    ghost var t1, e := fs.tree, Destination(t0, dir);
    SubStaysPassable(t0, t1, dir, "prompts", e);
    SubStaysPassable(t0, t1, dir, "scripts", e);
    r := SeedSubs(fs, dir, e);
    if r.Ok? {
      PassableBefore(t0, t1, dir, "prompts", e);
    }
  }

  method SeedSubs(fs: FileSystem, dir: Path, ghost e: Path) returns (r: Result<(), IoError>)
    requires WellFormed(fs.tree) && Leads(fs.tree, dir) == Some(e)
    modifies fs
    ensures Extends(old(fs.trace), fs.trace) && KeptSince(fs.trace, |old(fs.trace)|, old(fs.tree))
    ensures Seeded(old(fs.tree), fs.tree)
    ensures r.Ok? ==> DirsLead(fs.tree, dir) && Passable(old(fs.tree), dir + ["prompts"])
    ensures fs.sound && DirsPassable(old(fs.tree), dir) ==> r.Ok?
  {
    ghost var t1 := fs.tree;
    r := SeedDir(fs, dir + ["prompts"]);
    if r.Err? {
      return;
    }
    ghost var t2 := fs.tree;
    FollowGrows(t1, t2, [], dir, MAX_LINKS);
    PromptsFirst(t1, t2, dir, e);
    r := SeedDir(fs, dir + ["scripts"]);
    if r.Ok? {
      FollowGrows(t2, fs.tree, [], dir, MAX_LINKS);
      FollowGrows(t2, fs.tree, [], dir + ["prompts"], MAX_LINKS);
    }
  }

  lemma SubStaysPassable(t: Tree, r: Tree, dir: Path, s: string, e: Path)
    requires WellFormed(t) && WellFormed(r) && Covers(t, r) && GrownFor(t, r, dir)
    requires Destination(t, dir) == e && Leads(r, dir) == Some(e)
    ensures Passable(t, dir + [s]) ==> Passable(r, dir + [s])
  {
    if Passable(t, dir + [s]) {
      if e + [s] !in t {
        NotMadeBeside(t, r, dir, e + [s]);
      }
      StaysPassable(t, r, dir, s, e);
    }
  }

  /** Making `prompts` takes nothing from `scripts`. */
  lemma PromptsFirst(t: Tree, r: Tree, dir: Path, e: Path)
    requires WellFormed(t) && WellFormed(r) && Covers(t, r) && Leads(t, dir) == Some(e) && Leads(r, dir) == Some(e)
    requires GrownFor(t, r, dir + ["prompts"])
    ensures Passable(t, dir + ["scripts"]) ==> Passable(r, dir + ["scripts"])
  {
    var p := dir + ["prompts"];
    assert Parent(p) == dir && p[|p| - 1] == "prompts";
    LeadsToDestination(t, dir);
    if Passable(t, dir + ["scripts"]) {
      if e + ["scripts"] !in t && r != t {
        NamedStep(t, p);
        if Follow(t, [], p, MAX_LINKS).Some? {
          NothingMissing(t, r, p);
        }
        ScriptsAreBeside(t, r, p, e);
      }
      StaysPassable(t, r, dir, "scripts", e);
    }
  }

  lemma ScriptsAreBeside(t: Tree, r: Tree, p: Path, e: Path)
    requires GrownFor(t, r, p) && Destination(t, p) == e + ["prompts"] && e + ["scripts"] !in t
    ensures e + ["scripts"] !in r
  {
    assert (e + ["scripts"])[|e|] != (e + ["prompts"])[|e|];
    NotMadeBeside(t, r, p, e + ["scripts"]);
  }

  lemma PassableBefore(t: Tree, r: Tree, dir: Path, s: string, e: Path)
    requires WellFormed(t) && WellFormed(r) && GrownFor(t, r, dir) && Passable(t, dir)
    requires Destination(t, dir) == e && Leads(r, dir) == Some(e) && Passable(r, dir + [s])
    ensures Passable(t, dir + [s])
  {
    var p := dir + [s];
    assert Parent(p) == dir && p[|p| - 1] == s;
    if r != t && Leads(t, dir).Some? {
      NothingMissing(t, r, dir);
    }
    if Leads(t, dir).None? {
      NamedStep(t, p);
      if dir != [] {
        NothingBelowMissing(t, e, e + [s]);
      }
    }
  }

  lemma NothingBelowMissing(t: Tree, p: Path, q: Path)
    requires WellFormed(t) && p !in t && p < q
    ensures q !in t
  {
    if q in t {
      NothingBelow(t, p, q);
    }
  }

  method SeedNext(fs: FileSystem, dir: Path, files: seq<Seed>, k: nat, report: SeedReport, ghost t0: Tree)
    returns (r: Result<SeedReport, IoError>)
    requires Distinct(files) && Placed(files) && k < |files| && WellFormed(t0) && Seeded(t0, fs.tree) && DirsLead(fs.tree, dir)
    requires Accounted(t0, fs.tree, dir, files, k, report)
    modifies fs
    ensures Extends(old(fs.trace), fs.trace) && KeptSince(fs.trace, |old(fs.trace)|, t0)
    ensures Seeded(t0, fs.tree) && Kept(old(fs.tree), fs.tree)
    ensures r.Ok? ==> Accounted(t0, fs.tree, dir, files, k + 1, r.value)
    ensures fs.sound ==> r.Ok?
  {
    var path := dir + files[k].relative;
    PlaceIsFound(fs.tree, dir, files[k].relative);
    var seeded := SeedOne(fs, path, files[k].contents, files[k].mode);
    SeededTwice(t0, old(fs.tree), fs.tree);
    if seeded.Err? {
      return Err(seeded.error);
    }
    if Named(t0, path).Some? {
      NamedGrows(t0, old(fs.tree), path);
    }
    if !seeded.value && Locate(fs.tree, path).value in t0 {
      NamedBefore(t0, fs.tree, path);
    }
    var after := if seeded.value then report.(created := report.created + [path])
                 else report.(existing := report.existing + [path]);
    AccountedFurther(t0, old(fs.tree), fs.tree, dir, files, k, report, after);
    r := Ok(after);
  }
}
