/** Making the daemon's private copy of the built-in workflows
  * (`chocofactoryd/src/config_root.rs`, lines 192 to 330), in whatever place the
  * given name leads to.
  *
  * A run goes by the name `dir`. What holds of every run is that nothing outside
  * the place `dir` leads to is touched (`Goes`, `Underway`); what holds of a run
  * whose way there is straight is all the rest (`StraightRun`).
  */
module ConfigRoot {
  import opened Wrappers
  import opened FileTree
  import opened Links
  import opened MakingDirs
  import opened NamedCalls
  import opened BuiltinTree

  // ---- Directories -------------------------------------------------------------------

  method SetDirMode(fs: FileSystem, p: Path) returns (r: Result<(), IoError>)
    requires WellFormed(fs.tree)
    modifies fs
    ensures WellFormed(fs.tree) && MadeOrModed(old(fs.tree), fs.tree, p)
    ensures Continues(old(fs.trace), fs.trace)
    ensures forall i :: |old(fs.trace)| <= i < |fs.trace| ==> MadeOrModed(old(fs.tree), fs.trace[i], p)
    ensures r.Ok? ==> HasMode(fs.tree, p) && Leads(fs.tree, p) == Some(Destination(old(fs.tree), p))
    ensures HasMode(old(fs.tree), p) ==>
              fs.tree == old(fs.tree) && forall i :: |old(fs.trace)| <= i < |fs.trace| ==> fs.trace[i] == old(fs.tree)
    ensures fs.sound ==> (r.Ok? <==> Passable(old(fs.tree), p))
    ensures r.Ok? ==> Passable(old(fs.tree), p)
  {
    ghost var t := fs.tree;
    r := CreateDirAll(fs, p);
    ghost var made, steps := fs.tree, fs.trace;
    if HasMode(t, p) {
      forall i | |old(fs.trace)| <= i < |steps| ensures steps[i] == t {
        NothingMissing(t, steps[i], p);
      }
      NothingMissing(t, made, p);
    }
    if r.Err? {
      return;
    }
    r := SetRealDirMode(fs, p);
    assert fs.tree != made ==> ModedFrom(t, made, fs.tree, p);
  }

  method SetRealDirMode(fs: FileSystem, p: Path) returns (r: Result<(), IoError>)
    requires WellFormed(fs.tree) && Leads(fs.tree, p).Some?
    modifies fs
    ensures WellFormed(fs.tree) && fs.trace == old(fs.trace) + [fs.tree]
    ensures fs.tree == old(fs.tree) || fs.tree == old(fs.tree)[Leads(old(fs.tree), p).value := Dir(MODE_DIR)]
    ensures r.Ok? ==> HasMode(fs.tree, p) && Leads(fs.tree, p) == Leads(old(fs.tree), p)
    ensures HasMode(old(fs.tree), p) ==> fs.tree == old(fs.tree)
    ensures fs.sound ==> r.Ok?
  {
    ghost var d := Leads(fs.tree, p).value;
    ModeChanged(fs.tree, d, d, MODE_DIR);
    PutTheSame(fs.tree, d);
    r := fs.SetPermissions(p, MODE_DIR);
    AimGrows(old(fs.tree), fs.tree, p);
  }

  /** A name that must be a directory: anything else there is removed. */
  method ClearNonDir(fs: FileSystem, path: Path, ghost w: Path) returns (r: Result<(), IoError>)
    requires path != [] && WellFormed(fs.tree) && Aimed(fs.tree, Parent(path), w)
    modifies fs
    ensures WellFormed(fs.tree) && OnlyAt(old(fs.tree), fs.tree, Here(w, path)) && Aimed(fs.tree, Parent(path), w)
    ensures Here(w, path) in fs.tree ==> fs.tree == old(fs.tree)
    ensures fs.trace == old(fs.trace) || fs.trace == old(fs.trace) + [fs.tree]
    ensures r.Ok? ==> Leads(fs.tree, Parent(path)).None? || Here(w, path) !in fs.tree || IsDir(fs.tree, Here(w, path))
    ensures IsDir(old(fs.tree), Here(w, path)) ==> fs.tree == old(fs.tree)
    ensures Leads(old(fs.tree), Parent(path)).Some? && IsDir(old(fs.tree), Here(w, path)) ==> fs.trace == old(fs.trace)
    ensures fs.sound && Leads(old(fs.tree), Parent(path)).Some? ==> r.Ok?
  {
    var meta := MetadataNamed(fs, path, w);
    match meta
    case Ok(n) =>
      if n.Dir? {
        return Ok(());
      }
      r := RemoveNamed(fs, path, w);
    case Err(e) =>
      r := if e == NotFound then Ok(()) else Err(e);
  }

  // ---- One file ------------------------------------------------------------------------

  /** Removes a leftover temporary file or link; there may be none. */
  method ClearTemp(fs: FileSystem, tmp: Path, ghost w: Path) returns (r: Result<(), IoError>)
    requires tmp != [] && WellFormed(fs.tree) && IsDir(fs.tree, w) && Aimed(fs.tree, Parent(tmp), w)
    modifies fs
    ensures fs.trace == old(fs.trace) + [fs.tree]
    ensures OnlyAt(old(fs.tree), fs.tree, Here(w, tmp)) && WellFormed(fs.tree) && Aimed(fs.tree, Parent(tmp), w)
    ensures r.Ok? ==> Leads(fs.tree, Parent(tmp)).None? || Here(w, tmp) !in fs.tree
    ensures Leads(old(fs.tree), Parent(tmp)).None? || r.Err? ==> fs.tree == old(fs.tree)
    ensures At(fs.tree, Here(w, tmp)) == At(old(fs.tree), Here(w, tmp)) || Here(w, tmp) !in fs.tree
    ensures Leads(old(fs.tree), Parent(tmp)).Some? && IsDir(old(fs.tree), Here(w, tmp)) ==> r.Err?
    ensures fs.sound && Straight(old(fs.tree), Parent(tmp), w) && !IsDir(old(fs.tree), Here(w, tmp)) ==>
      r.Ok? && Leads(fs.tree, Parent(tmp)).Some?
  {
    if Straight(fs.tree, Parent(tmp), w) {
      StraightLeads(fs.tree, Parent(tmp), w);
    }
    r := RemoveNamed(fs, tmp, w);
    ChangedBelow(old(fs.tree), fs.tree, w, Here(w, tmp));
    if Straight(old(fs.tree), Parent(tmp), w) {
      StraightStays(old(fs.tree), fs.tree, Parent(tmp), w);
    }
    if r == Err(NotFound) {
      r := Ok(());
    }
  }

  /** Where a temporary file goes there is what was there before, or nothing; or a file that only
    * its owner can read and write; or the whole file with the mode it is to have.
    */
  ghost predicate IsPrivate(t: Tree, r: Tree, q: Path, contents: Bytes, mode: nat) {
    At(r, q) == At(t, q) || q !in r || At(r, q) == Some(File(contents, mode)) || Begun(r, q, contents, 0x180)
  }

  ghost predicate PrivateSince(trace: seq<Tree>, n: nat, t: Tree, q: Path, contents: Bytes, mode: nat) {
    n <= |trace| && forall i :: n <= i < |trace| ==> IsPrivate(t, trace[i], q, contents, mode)
  }

  /** A new temporary file, with its bytes and its mode. */
  method FillTemp(fs: FileSystem, tmp: Path, contents: Bytes, mode: nat, ghost w: Path) returns (r: Result<(), IoError>)
    requires tmp != [] && WellFormed(fs.tree) && Aimed(fs.tree, Parent(tmp), w)
    modifies fs
    ensures Continues(old(fs.trace), fs.trace) && OnlyAtSince(fs.trace, |old(fs.trace)|, old(fs.tree), Here(w, tmp))
    ensures PrivateSince(fs.trace, |old(fs.trace)|, old(fs.tree), Here(w, tmp), contents, mode)
    ensures OnlyAt(old(fs.tree), fs.tree, Here(w, tmp)) && WellFormed(fs.tree)
    ensures r.Ok? ==> Leads(fs.tree, Parent(tmp)) == Some(w) && At(fs.tree, Here(w, tmp)) == Some(File(contents, mode))
    ensures r.Ok? ==> Leads(old(fs.tree), Parent(tmp)).Some?
    ensures fs.sound && Leads(old(fs.tree), Parent(tmp)).Some? && Here(w, tmp) !in old(fs.tree) ==> r.Ok?
  {
    r := CreateNamed(fs, tmp, MODE_TEMP, w);
    if r.Err? {
      return;
    }
    r := WriteNamed(fs, tmp, contents);
    if r.Err? {
      return;
    }
    r := SetModeNamed(fs, tmp, mode, w);
  }

  /** Makes the temporary file, writes it and sets its mode: what a failure
    * leaves is for the next start. A leftover one is removed, never opened. */
  method WriteTemp(fs: FileSystem, tmp: Path, contents: Bytes, mode: nat, ghost w: Path) returns (r: Result<(), IoError>)
    requires tmp != [] && WellFormed(fs.tree) && IsDir(fs.tree, w) && Aimed(fs.tree, Parent(tmp), w)
    modifies fs
    ensures Continues(old(fs.trace), fs.trace) && OnlyAtSince(fs.trace, |old(fs.trace)|, old(fs.tree), Here(w, tmp))
    ensures PrivateSince(fs.trace, |old(fs.trace)|, old(fs.tree), Here(w, tmp), contents, mode)
    ensures OnlyAt(old(fs.tree), fs.tree, Here(w, tmp)) && WellFormed(fs.tree)
    ensures r.Ok? ==> Leads(fs.tree, Parent(tmp)) == Some(w) && At(fs.tree, Here(w, tmp)) == Some(File(contents, mode))
    ensures fs.sound && Straight(old(fs.tree), Parent(tmp), w) && !IsDir(old(fs.tree), Here(w, tmp)) ==> r.Ok?
    ensures IsDir(old(fs.tree), Here(w, tmp)) ==> r.Err?
  {
    ghost var t, q := fs.tree, Here(w, tmp);
    r := ClearTemp(fs, tmp, w);
    if r.Ok? {
      ghost var cleared, steps := fs.tree, fs.trace;
      r := FillTemp(fs, tmp, contents, mode, w);
      forall i | |steps| <= i < |fs.trace| ensures IsPrivate(t, fs.trace[i], q, contents, mode) {
        assert IsPrivate(cleared, fs.trace[i], q, contents, mode);
      }
    }
  }

  /** The file is there with these bytes and this mode, as far as the calls tell. */
  method HasAlready(fs: FileSystem, path: Path, contents: Bytes, mode: nat, ghost w: Path) returns (same: bool)
    requires path != [] && WellFormed(fs.tree) && Aimed(fs.tree, Parent(path), w)
    ensures same ==> At(fs.tree, Here(w, path)) == Some(File(contents, mode))
    ensures fs.sound && Leads(fs.tree, Parent(path)).Some? && At(fs.tree, Here(w, path)) == Some(File(contents, mode)) ==> same
  {
    same := false;
    var meta := MetadataNamed(fs, path, w);
    if meta.Ok? && meta.value.File? && meta.value.mode == mode {
      var bytes := ReadNamed(fs, path, w);
      same := bytes.Ok? && bytes.value == contents;
    }
  }

  method WriteIfDifferent(fs: FileSystem, path: Path, contents: Bytes, mode: nat, ghost w: Path)
    returns (r: Result<(), IoError>)
    requires path != [] && WellFormed(fs.tree) && IsDir(fs.tree, w) && Aimed(fs.tree, Parent(path), w)
    modifies fs
    ensures Continues(old(fs.trace), fs.trace)
    ensures ReplacedSince(fs.trace, |old(fs.trace)|, old(fs.tree), Here(w, path), File(contents, mode))
    ensures Replaced(old(fs.tree), fs.tree, Here(w, path), File(contents, mode)) && WellFormed(fs.tree)
    ensures r.Ok? ==> At(fs.tree, Here(w, path)) == Some(File(contents, mode))
    ensures fs.sound && Leads(old(fs.tree), Parent(path)).Some? && At(old(fs.tree), Here(w, path)) == Some(File(contents, mode)) ==>
              r.Ok? && fs.tree == old(fs.tree) && fs.trace == old(fs.trace)
    ensures fs.sound && Straight(old(fs.tree), Parent(path), w)
      && !IsDir(old(fs.tree), Here(w, path)) && !IsDir(old(fs.tree), TempOf(Here(w, path)))
      ==> r.Ok?
    ensures IsDir(old(fs.tree), Here(w, path)) ==> r.Err?
    ensures IsDir(old(fs.tree), TempOf(Here(w, path))) && At(old(fs.tree), Here(w, path)) != Some(File(contents, mode)) ==> r.Err?
  {
    var same := HasAlready(fs, path, contents, mode, w);
    if same {
      return Ok(());
    }
    r := Replace(fs, path, contents, mode, w);
  }

  /** The new file, written beside the old one and put in its place at once. */
  method Replace(fs: FileSystem, path: Path, contents: Bytes, mode: nat, ghost w: Path) returns (r: Result<(), IoError>)
    requires path != [] && WellFormed(fs.tree) && IsDir(fs.tree, w) && Aimed(fs.tree, Parent(path), w)
    modifies fs
    ensures Continues(old(fs.trace), fs.trace) && WellFormed(fs.tree)
    ensures ReplacedSince(fs.trace, |old(fs.trace)|, old(fs.tree), Here(w, path), File(contents, mode))
    ensures Replaced(old(fs.tree), fs.tree, Here(w, path), File(contents, mode))
    ensures r.Ok? ==> At(fs.tree, Here(w, path)) == Some(File(contents, mode))
    ensures fs.sound && Straight(old(fs.tree), Parent(path), w)
      && !IsDir(old(fs.tree), Here(w, path)) && !IsDir(old(fs.tree), TempOf(Here(w, path)))
      ==> r.Ok?
    ensures IsDir(old(fs.tree), Here(w, path)) || IsDir(old(fs.tree), TempOf(Here(w, path))) ==> r.Err?
  {
    ghost var t, p, steps := fs.tree, Here(w, path), fs.trace;
    var tmp := TempOf(path);
    TempIsHere(w, path);
    r := WriteTemp(fs, tmp, contents, mode, w);
    ghost var written := fs.tree;
    WrittenIsReplaced(t, written, p, File(contents, mode));
    forall i | |steps| <= i < |fs.trace| ensures Replaced(t, fs.trace[i], p, File(contents, mode)) {
      WrittenIsReplaced(t, fs.trace[i], p, File(contents, mode));
    }
    if r.Err? {
      return;
    }
    r := RenameNamed(fs, tmp, path, w);
    if r.Ok? {
      RenamedIsReplaced(t, written, fs.tree, p, File(contents, mode));
    }
  }

  // ---- Sweeping ---------------------------------------------------------------------------

  /** Removes a node, with all it holds if it is a directory. */
  method RemoveEntry(fs: FileSystem, path: Path, isDir: bool, ghost w: Path) returns (r: Result<(), IoError>)
    requires path != [] && WellFormed(fs.tree) && Leads(fs.tree, Parent(path)) == Some(w)
    requires Here(w, path) in fs.tree && isDir == IsDir(fs.tree, Here(w, path))
    modifies fs
    ensures Continues(old(fs.trace), fs.trace) && WellFormed(fs.tree)
    ensures forall i :: |old(fs.trace)| <= i < |fs.trace| ==> Pruned(old(fs.tree), Here(w, path), fs.trace[i])
    ensures Pruned(old(fs.tree), Here(w, path), fs.tree)
    ensures r.Ok? ==> Gone(old(fs.tree), fs.tree, Here(w, path))
    ensures fs.sound ==> r.Ok?
  {
    ghost var t, p := fs.tree, Here(w, path);
    if isDir {
      r := RemoveDirNamed(fs, path, w);
      if r.Ok? {
        TreeGone(t, fs.tree, p);
      }
    } else {
      NothingUnder(t, p);
      r := RemoveNamed(fs, path, w);
      if r.Ok? {
        LeafGone(t, fs.tree, p);
      }
    }
  }

  lemma PrunedGoes(trace0: seq<Tree>, t: Tree, trace: seq<Tree>, r: Tree, place: Path, w: Path, p: Path, d: Path)
    requires WellFormed(t) && WellFormed(r) && IsDir(t, place) && place <= w && w < p && Aimed(t, d, w)
    requires Continues(trace0, trace) && Pruned(t, p, r)
    requires forall i :: |trace0| <= i < |trace| ==> Pruned(t, p, trace[i])
    ensures Goes(trace0, t, trace, r, place) && Aimed(r, d, w)
  {
    assert place < p;
    PrunedBelow(t, r, place, p);
    forall i | |trace0| <= i < |trace| ensures Confined(t, trace[i], place) {
      PrunedBelow(t, trace[i], place, p);
    }
    AimAfterRemoval(t, r, d, w);
  }

  /** One listed name of `dir/sub`: kept, or removed with all it holds. The
    * directory leads to `w`, inside `place`; where it is `place/sub` the strays
    * under the name are what goes.
    */
  method SweepName(fs: FileSystem, dir: Path, sub: Path, keep: set<Path>, name: string, ghost place: Path, ghost w: Path)
    returns (r: Result<(), IoError>)
    requires WellFormed(fs.tree) && IsDir(fs.tree, place) && place <= w && Aimed(fs.tree, dir + sub, w)
    modifies fs
    ensures Goes(old(fs.trace), old(fs.tree), fs.trace, fs.tree, place) && Aimed(fs.tree, dir + sub, w)
    ensures IsDir(old(fs.tree), w) ==> Confined(old(fs.tree), fs.tree, w)
    ensures w == place + sub && w + [name] in old(fs.tree) ==>
      && Thinned(old(fs.tree), fs.tree, place, sub, keep)
      && forall i :: |old(fs.trace)| <= i < |fs.trace| ==> Thinned(old(fs.tree), fs.trace[i], place, sub, keep)
    ensures r.Ok? && w == place + sub && w + [name] in old(fs.tree) ==>
      Swept(old(fs.tree), fs.tree, place, sub, keep, [name])
    ensures w == place + sub && w + [name] in old(fs.tree) && NoStray(old(fs.tree), place, sub, keep) ==>
      fs.tree == old(fs.tree) && fs.trace == old(fs.trace)
    ensures fs.sound && w + [name] in old(fs.tree) && Leads(old(fs.tree), dir + sub).Some? ==> r.Ok?
  {
    ghost var t := fs.tree;
    var path := dir + sub + [name];
    assert Parent(path) == dir + sub && Here(w, path) == w + [name];
    assert sub == [] ==> place + sub == place;
    GoesNowhere(fs.trace, t, place);
    if sub + [name] in keep {
      KeptIsSwept(t, place, sub, keep, name);
      return Ok(());
    }
    var meta := MetadataNamed(fs, path, w);
    if meta.Err? {
      return Err(meta.error);
    }
    if meta.value.Dir? && sub == [] && name in Subs {
      if w == place + sub {
        OwnIsSwept(t, place, keep, name);
      }
      return Ok(());
    }
    r := RemoveEntry(fs, path, meta.value.Dir?, w);
    PrunedGoes(old(fs.trace), t, fs.trace, fs.tree, place, w, w + [name], dir + sub);
    PrunedBelow(t, fs.tree, w, w + [name]);
    if w == place + sub {
      EntryIsSwept(old(fs.trace), t, fs.trace, fs.tree, place, sub, keep, name);
    }
  }

  /** One of the names listed. */
  method SweepNext(fs: FileSystem, dir: Path, sub: Path, keep: set<Path>, names: seq<string>, i: nat,
                   ghost place: Path, ghost w: Path, ghost straight: bool, ghost t: Tree, ghost n: nat)
    returns (r: Result<(), IoError>)
    requires i < |names| && WellFormed(fs.tree) && IsDir(fs.tree, place) && place <= w && Aimed(fs.tree, dir + sub, w)
    requires straight ==> w == place + sub && Sweeping(t, n, fs.trace, fs.tree, dir, place, sub, keep, names, i)
    modifies fs
    ensures Goes(old(fs.trace), old(fs.tree), fs.trace, fs.tree, place) && Aimed(fs.tree, dir + sub, w)
    ensures straight ==> ThinnedSince(fs.trace, n, t, place, sub, keep) && Thinned(t, fs.tree, place, sub, keep)
    ensures straight && r.Ok? ==> Sweeping(t, n, fs.trace, fs.tree, dir, place, sub, keep, names, i + 1)
    ensures straight && NoStray(old(fs.tree), place, sub, keep) ==> fs.tree == old(fs.tree) && fs.trace == old(fs.trace)
    ensures straight && fs.sound ==> r.Ok?
  {
    ghost var before, steps := fs.tree, fs.trace;
    if straight {
      NextIsThere(t, n, steps, before, dir, place, sub, keep, names, i);
    }
    r := SweepName(fs, dir, sub, keep, names[i], place, w);
    if straight {
      ThinnedOn(t, n, steps, before, fs.trace, place, sub, keep, names[..i]);
      ThinnedAfter(t, before, fs.tree, place, sub, keep, names[..i]);
      if r.Ok? {
        SweptFurther(t, n, steps, before, fs.trace, fs.tree, dir, place, sub, keep, names, i);
      }
    }
  }

  /** Removes from `dir/sub` whatever is not to be kept. */
  method Sweep(fs: FileSystem, dir: Path, sub: Path, keep: set<Path>, ghost place: Path, ghost straight: bool)
    returns (r: Result<(), IoError>)
    requires WellFormed(fs.tree) && IsDir(fs.tree, place) && Inside(fs.tree, dir + sub, place)
    requires straight ==> |sub| <= 1 && Straight(fs.tree, dir + sub, place + sub) && IsDir(fs.tree, place + sub)
    modifies fs
    ensures Goes(old(fs.trace), old(fs.tree), fs.trace, fs.tree, place)
    ensures straight ==> ThinnedSince(fs.trace, |old(fs.trace)|, old(fs.tree), place, sub, keep)
    ensures straight ==> Thinned(old(fs.tree), fs.tree, place, sub, keep)
    ensures straight && r.Ok? ==> NoStray(fs.tree, place, sub, keep)
    ensures straight && NoStray(old(fs.tree), place, sub, keep) ==> fs.tree == old(fs.tree) && fs.trace == old(fs.trace)
    ensures straight && fs.sound ==> r.Ok?
  {
    ghost var t, n := fs.tree, |fs.trace|;
    ghost var w := if Leads(t, dir + sub).Some? then Leads(t, dir + sub).value else place;
    if straight {
      StraightLeads(t, dir + sub, place + sub);
      NothingSwept(t, place, sub, keep);
    }
    GoesNowhere(fs.trace, t, place);
    var listed := ListNamed(fs, dir + sub, w);
    if listed.Err? {
      return Err(listed.error);
    }
    var names := listed.value;
    assert names[..0] == [];
    for i := 0 to |names|
      invariant Goes(old(fs.trace), t, fs.trace, fs.tree, place) && Aimed(fs.tree, dir + sub, w)
      invariant straight ==>
        Sweeping(t, n, fs.trace, fs.tree, dir, place, sub, keep, names, i) && Thinned(t, fs.tree, place, sub, keep)
      invariant straight && NoStray(t, place, sub, keep) ==> fs.tree == t && fs.trace == old(fs.trace)
    {
      ghost var before, steps := fs.tree, fs.trace;
      r := SweepNext(fs, dir, sub, keep, names, i, place, w, straight, t, n);
      GoesOn(old(fs.trace), t, steps, before, fs.trace, fs.tree, place);
      if r.Err? {
        return;
      }
    }
    if straight {
      assert names[..|names|] == names;
      AllSwept(t, fs.tree, place, sub, keep, names);
    }
    r := Ok(());
  }

  // ---- The whole run ------------------------------------------------------------------

  lemma OutsideSinceExtends(steps: seq<Tree>, t: Tree, trace: seq<Tree>, r: Tree, n: nat, t0: Tree, place: Path)
    requires OutsideSince(steps, n, t0, place) && OutsideKept(t0, t, place) && Goes(steps, t, trace, r, place)
    ensures OutsideSince(trace, n, t0, place) && OutsideKept(t0, r, place)
  {
    ConfinedKeepsOutside(t0, t, r, place);
    forall i | n <= i < |trace| ensures WellFormed(trace[i]) && OutsideKept(t0, trace[i], place) {
      if i < |steps| {
        assert trace[i] == steps[i];
      } else {
        ConfinedKeepsOutside(t0, t, trace[i], place);
      }
    }
  }

  /** A run: it began at `t0`, when the trace was `n` long, and goes by the name
    * `dir`, which leads to `place`; straight there, if `straight`.
    */
  datatype Run = Run(n: nat, t0: Tree, dir: Path, place: Path, files: seq<Builtin>, straight: bool)

  /** A run in progress: nothing outside its place has changed, or can; and if it
    * goes straight there it has been safe all along.
    */
  ghost predicate Underway(fs: FileSystem, run: Run)
    reads fs
  {
    && PlanOk(run.files) && Penned(fs.tree, run.dir, run.place)
    && OutsideKept(run.t0, fs.tree, run.place) && OutsideSince(fs.trace, run.n, run.t0, run.place)
    && (run.straight ==> StraightRun(fs.trace, fs.tree, run))
  }

  ghost predicate StraightRun(trace: seq<Tree>, t: Tree, run: Run) {
    && Straight(t, run.dir, run.place)
    && Safe(run.t0, t, run.place, run.files) && SafeSince(trace, run.n, run.t0, run.place, run.files)
  }

  lemma StraightRunGoesOn(run: Run, steps: seq<Tree>, t: Tree, trace: seq<Tree>, r: Tree)
    requires StraightRun(steps, t, run) && Goes(steps, t, trace, r, run.place)
    requires Safe(run.t0, r, run.place, run.files)
    requires forall i :: |steps| <= i < |trace| ==> Safe(run.t0, trace[i], run.place, run.files)
    ensures StraightRun(trace, r, run)
  {
    StraightStays(t, r, run.dir, run.place);
    SafeSinceExtends(steps, trace, run.n, run.t0, run.place, run.files);
  }

  /** What goes on inside the place keeps a run that is not straight in its bounds. */
  lemma RunGoesOn(run: Run, steps: seq<Tree>, t: Tree, trace: seq<Tree>, r: Tree)
    requires Penned(t, run.dir, run.place) && Goes(steps, t, trace, r, run.place)
    requires OutsideKept(run.t0, t, run.place) && OutsideSince(steps, run.n, run.t0, run.place)
    ensures Penned(r, run.dir, run.place)
    ensures OutsideKept(run.t0, r, run.place) && OutsideSince(trace, run.n, run.t0, run.place)
  {
    PennedStays(t, r, run.dir, run.place);
    OutsideSinceExtends(steps, t, trace, r, run.n, run.t0, run.place);
  }

  /** Both subdirectories lead inside, if anywhere. */
  ghost predicate SubsInside(t: Tree, run: Run) {
    forall s :: s in Subs ==> Inside(t, run.dir + [s], run.place)
  }

  lemma SubsStayInside(run: Run, t: Tree, r: Tree)
    requires Confined(t, r, run.place) && SubsInside(t, run)
    ensures SubsInside(r, run)
  {
    forall s | s in Subs ensures Inside(r, run.dir + [s], run.place) {
      InsideStays(t, r, run.place, run.dir + [s]);
    }
  }

  /** The directory itself stands at its place, with its mode. */
  ghost predicate TopDone(t: Tree, run: Run) {
    At(t, run.place) == Some(Dir(MODE_DIR))
  }

  lemma TopIsInPlace(t: Tree, run: Run)
    requires WellFormed(t) && TopDone(t, run)
    ensures InPlace(t, run.place)
  {
    InTreeIsReal(t, run.place);
    forall q | q <= run.place ensures IsDir(t, q) {
      assert q == run.place || q < run.place;
    }
  }

  // ---- The subdirectories -------------------------------------------------------------------

  /** Whatever else has the name of a subdirectory gives way. */
  method ClearSub(fs: FileSystem, dir: Path, s: string, ghost run: Run) returns (r: Result<(), IoError>)
    requires Underway(fs, run) && run.dir == dir && s in Subs
    modifies fs
    ensures Underway(fs, run) && Goes(old(fs.trace), old(fs.tree), fs.trace, fs.tree, run.place)
    ensures r.Ok? ==> Inside(fs.tree, dir + [s], run.place)
    ensures run.straight ==> OnlyAt(old(fs.tree), fs.tree, run.place + [s])
    ensures run.straight && r.Ok? ==> run.place + [s] !in fs.tree || IsDir(fs.tree, run.place + [s])
    ensures run.straight && IsDir(old(fs.tree), run.place + [s]) ==> fs.tree == old(fs.tree) && fs.trace == old(fs.trace)
    ensures run.straight && fs.sound ==> r.Ok?
  {
    ghost var before, steps := fs.tree, fs.trace;
    ghost var w := if Leads(before, dir).Some? then Leads(before, dir).value else run.place;
    var path := dir + [s];
    assert Parent(path) == dir && Here(w, path) == w + [s];
    if run.straight {
      StraightLeads(before, dir, run.place);
    }
    r := ClearNonDir(fs, path, w);
    ChangedBelow(before, fs.tree, run.place, w + [s]);
    RunGoesOn(run, steps, before, fs.trace, fs.tree);
    if r.Ok? {
      ClearedIsInside(fs.tree, dir, s, run.place, w);
    }
    if run.straight {
      ClearedIsSafe(run, steps, before, fs.trace, fs.tree, s);
    }
  }

  lemma ClearedIsSafe(run: Run, steps: seq<Tree>, t: Tree, trace: seq<Tree>, r: Tree, s: string)
    requires PlanOk(run.files) && StraightRun(steps, t, run) && Goes(steps, t, trace, r, run.place)
    requires s in Subs && OnlyAt(t, r, run.place + [s]) && (trace == steps || trace == steps + [r])
    ensures StraightRun(trace, r, run)
  {
    forall i | 0 <= i < |run.files| ensures run.place + run.files[i].relative != run.place + [s] {
      PlacesApart(run.place, run.files, i);
    }
    SafeWhenOnlyAt(run.t0, t, r, run.place, run.files, run.place + [s]);
    StraightRunGoesOn(run, steps, t, trace, r);
  }

  method MakeSub(fs: FileSystem, dir: Path, s: string, ghost run: Run) returns (r: Result<(), IoError>)
    requires Underway(fs, run) && run.dir == dir && s in Subs && Inside(fs.tree, dir + [s], run.place)
    requires run.straight ==> run.place + [s] !in fs.tree || IsDir(fs.tree, run.place + [s])
    modifies fs
    ensures Underway(fs, run) && Goes(old(fs.trace), old(fs.tree), fs.trace, fs.tree, run.place)
    ensures run.straight ==> Prepared(old(fs.tree), fs.tree, run.place + [s])
    ensures run.straight && r.Ok? ==> At(fs.tree, run.place + [s]) == Some(Dir(MODE_DIR))
    ensures run.straight && At(old(fs.tree), run.place + [s]) == Some(Dir(MODE_DIR)) ==>
              fs.tree == old(fs.tree) && Quiet(fs.trace, |old(fs.trace)|, old(fs.tree))
    ensures run.straight && fs.sound ==> r.Ok?
  {
    ghost var before, steps := fs.tree, fs.trace;
    if run.straight {
      SubWay(before, run, s);
    }
    r := SetDirMode(fs, dir + [s]);
    MadeGoes(run, steps, before, fs.trace, fs.tree, s);
    RunGoesOn(run, steps, before, fs.trace, fs.tree);
    if run.straight {
      MadeIsSafe(run, steps, before, fs.trace, fs.tree, s);
    }
  }

  /** Straight at its place the name of a subdirectory is free, or leads to it. */
  lemma SubWay(t: Tree, run: Run, s: string)
    requires Penned(t, run.dir, run.place) && Straight(t, run.dir, run.place)
    requires run.place + [s] !in t || IsDir(t, run.place + [s])
    ensures Destination(t, run.dir + [s]) == run.place + [s] && Passable(t, run.dir + [s])
    ensures At(t, run.place + [s]) == Some(Dir(MODE_DIR)) ==> HasMode(t, run.dir + [s])
  {
    StraightLeads(t, run.dir, run.place);
    var p := run.dir + [s];
    assert Parent(p) == run.dir && p[|p| - 1] == s;
    NamedStep(t, p);
    LeadsToDestination(t, run.dir);
  }

  lemma MadeGoes(run: Run, steps: seq<Tree>, t: Tree, trace: seq<Tree>, r: Tree, s: string)
    requires Penned(t, run.dir, run.place) && Inside(t, run.dir + [s], run.place) && Continues(steps, trace) && WellFormed(r)
    requires MadeOrModed(t, r, run.dir + [s])
    requires forall i :: |steps| <= i < |trace| ==> MadeOrModed(t, trace[i], run.dir + [s])
    ensures Goes(steps, t, trace, r, run.place)
  {
    var p := run.dir + [s];
    forall q | q <= p && q != [] ensures MadeInside(t, q, run.place) {
      if |q| <= |run.dir| {
        assert q == p[..|q|] == run.dir[..|q|];
      } else {
        assert q == p && Parent(q) == run.dir;
      }
    }
    MadeIsConfined(t, r, p, run.place);
    forall i | |steps| <= i < |trace| ensures Confined(t, trace[i], run.place) {
      MadeIsConfined(t, trace[i], p, run.place);
    }
  }

  lemma MadeIsSafe(run: Run, steps: seq<Tree>, t: Tree, trace: seq<Tree>, r: Tree, s: string)
    requires PlanOk(run.files) && StraightRun(steps, t, run) && Goes(steps, t, trace, r, run.place) && s in Subs
    requires Destination(t, run.dir + [s]) == run.place + [s] && MadeOrModed(t, r, run.dir + [s])
    requires forall i :: |steps| <= i < |trace| ==> MadeOrModed(t, trace[i], run.dir + [s])
    ensures StraightRun(trace, r, run) && Prepared(t, r, run.place + [s])
  {
    var p := run.place + [s];
    MadeIsPrepared(t, r, run.dir + [s]);
    PreparedIsSafe(run.t0, t, r, run.place, run.files, p);
    forall i | |steps| <= i < |trace| ensures Safe(run.t0, trace[i], run.place, run.files) {
      MadeIsPrepared(t, trace[i], run.dir + [s]);
      PreparedIsSafe(run.t0, t, trace[i], run.place, run.files, p);
    }
    StraightRunGoesOn(run, steps, t, trace, r);
  }

  lemma OneSubDone(t: Tree, r: Tree, run: Run, s: string)
    requires WellFormed(t) && TopDone(t, run)
    requires OnlyAt(t, r, run.place + [s]) || Prepared(t, r, run.place + [s])
    ensures TopDone(r, run) && OnlyDirsBut(t, r, run.place, s)
  {
    TopIsInPlace(t, run);
    InPlaceStays(t, r, run.place, s);
    assert |run.place + [s]| > |run.place|;
  }

  method ClearSubs(fs: FileSystem, dir: Path, ghost run: Run) returns (r: Result<(), IoError>)
    requires Underway(fs, run) && run.dir == dir && (run.straight ==> TopDone(fs.tree, run))
    modifies fs
    ensures Underway(fs, run) && Goes(old(fs.trace), old(fs.tree), fs.trace, fs.tree, run.place)
    ensures r.Ok? ==> SubsInside(fs.tree, run)
    ensures run.straight ==> OnlyDirs(old(fs.tree), fs.tree, run.place) && TopDone(fs.tree, run)
    ensures run.straight && r.Ok? ==> SubsFree(fs.tree, run.place)
    ensures run.straight && (forall s :: s in Subs ==> IsDir(old(fs.tree), run.place + [s])) ==>
              fs.tree == old(fs.tree) && fs.trace == old(fs.trace)
    ensures run.straight && fs.sound ==> r.Ok?
  {
    assert "prompts" in Subs && "scripts" in Subs;
    ghost var before, steps := fs.tree, fs.trace;
    r := ClearSub(fs, dir, "prompts", run);
    ghost var first, steps1 := fs.tree, fs.trace;
    if run.straight {
      OneSubDone(before, first, run, "prompts");
    }
    if r.Err? {
      return;
    }
    r := ClearSub(fs, dir, "scripts", run);
    GoesOn(steps, before, steps1, first, fs.trace, fs.tree, run.place);
    InsideStays(first, fs.tree, run.place, dir + ["prompts"]);
    if run.straight {
      OneSubDone(first, fs.tree, run, "scripts");
      SubsApart(run.place);
      assert At(fs.tree, run.place + ["prompts"]) == At(first, run.place + ["prompts"]);
    }
  }

  method MakeSubs(fs: FileSystem, dir: Path, ghost run: Run) returns (r: Result<(), IoError>)
    requires Underway(fs, run) && run.dir == dir && SubsInside(fs.tree, run)
    requires run.straight ==> TopDone(fs.tree, run) && SubsFree(fs.tree, run.place)
    modifies fs
    ensures Underway(fs, run) && Goes(old(fs.trace), old(fs.tree), fs.trace, fs.tree, run.place)
    ensures run.straight ==> OnlyDirs(old(fs.tree), fs.tree, run.place)
    ensures run.straight && r.Ok? ==> DirsDone(fs.tree, run.place)
    ensures run.straight && DirsDone(old(fs.tree), run.place) ==>
              fs.tree == old(fs.tree) && Quiet(fs.trace, |old(fs.trace)|, old(fs.tree))
    ensures run.straight && fs.sound ==> r.Ok?
  {
    assert "prompts" in Subs && "scripts" in Subs;
    ghost var before, steps := fs.tree, fs.trace;
    r := MakeSub(fs, dir, "prompts", run);
    ghost var first, steps1 := fs.tree, fs.trace;
    SubsStayInside(run, before, first);
    if run.straight {
      FirstSubDone(before, first, run);
    }
    if r.Ok? {
      r := MakeLastSub(fs, dir, run);
      GoesOn(steps, before, steps1, first, fs.trace, fs.tree, run.place);
      if run.straight {
        OnlyDirsTwice(before, first, fs.tree, run.place);
        QuietTwice(steps, steps1, fs.trace, before);
      }
    }
  }

  lemma OnlyDirsTwice(t: Tree, r: Tree, s: Tree, place: Path)
    requires OnlyDirs(t, r, place) && OnlyDirs(r, s, place)
    ensures OnlyDirs(t, s, place)
  {
  }

  lemma QuietTwice(steps: seq<Tree>, steps1: seq<Tree>, trace: seq<Tree>, t: Tree)
    requires Extends(steps, steps1) && Extends(steps1, trace)
    ensures Quiet(steps1, |steps|, t) && Quiet(trace, |steps1|, t) ==> Quiet(trace, |steps|, t)
  {
    if Quiet(steps1, |steps|, t) && Quiet(trace, |steps1|, t) {
      forall i | |steps| <= i < |trace| ensures trace[i] == t {
        if i < |steps1| {
          assert trace[i] == steps1[i];
        }
      }
    }
  }

  method MakeLastSub(fs: FileSystem, dir: Path, ghost run: Run) returns (r: Result<(), IoError>)
    requires Underway(fs, run) && run.dir == dir && SubsInside(fs.tree, run)
    requires run.straight ==> TopDone(fs.tree, run) && SubsFree(fs.tree, run.place)
    requires run.straight ==> At(fs.tree, run.place + ["prompts"]) == Some(Dir(MODE_DIR))
    modifies fs
    ensures Underway(fs, run) && Goes(old(fs.trace), old(fs.tree), fs.trace, fs.tree, run.place)
    ensures run.straight ==> OnlyDirs(old(fs.tree), fs.tree, run.place)
    ensures run.straight && r.Ok? ==> DirsDone(fs.tree, run.place)
    ensures run.straight && At(old(fs.tree), run.place + ["scripts"]) == Some(Dir(MODE_DIR)) ==>
              fs.tree == old(fs.tree) && Quiet(fs.trace, |old(fs.trace)|, old(fs.tree))
    ensures run.straight && fs.sound ==> r.Ok?
  {
    assert "scripts" in Subs;
    ghost var before := fs.tree;
    r := MakeSub(fs, dir, "scripts", run);
    if run.straight {
      BothSubsDone(before, fs.tree, run);
    }
  }

  lemma FirstSubDone(t: Tree, r: Tree, run: Run)
    requires WellFormed(t) && TopDone(t, run) && Prepared(t, r, run.place + ["prompts"])
    ensures TopDone(r, run) && OnlyDirs(t, r, run.place)
    ensures At(r, run.place + ["scripts"]) == At(t, run.place + ["scripts"])
    ensures SubsFree(t, run.place) ==> SubsFree(r, run.place)
  {
    assert Prepared(t, r, run.place + ["prompts"]) && run.place + ["prompts"] <= run.place + ["prompts"];
    OneSubDone(t, r, run, "prompts");
    SubsApart(run.place);
  }

  lemma BothSubsDone(t: Tree, r: Tree, run: Run)
    requires WellFormed(t) && WellFormed(r) && TopDone(t, run) && Prepared(t, r, run.place + ["scripts"])
    ensures OnlyDirs(t, r, run.place) && TopDone(r, run)
    ensures At(t, run.place + ["prompts"]) == Some(Dir(MODE_DIR)) && At(r, run.place + ["scripts"]) == Some(Dir(MODE_DIR)) ==>
      DirsDone(r, run.place)
  {
    OneSubDone(t, r, run, "scripts");
    SubsApart(run.place);
    TopIsInPlace(r, run);
    assert At(r, run.place + ["prompts"]) == At(t, run.place + ["prompts"]);
  }

  method PrepareSubs(fs: FileSystem, dir: Path, ghost run: Run) returns (r: Result<(), IoError>)
    requires Underway(fs, run) && run.dir == dir && (run.straight ==> TopDone(fs.tree, run))
    modifies fs
    ensures Underway(fs, run) && Goes(old(fs.trace), old(fs.tree), fs.trace, fs.tree, run.place)
    ensures r.Ok? ==> SubsInside(fs.tree, run)
    ensures run.straight ==> OnlyDirs(old(fs.tree), fs.tree, run.place)
    ensures run.straight && r.Ok? ==> DirsDone(fs.tree, run.place)
    ensures run.straight && DirsDone(old(fs.tree), run.place) ==>
              fs.tree == old(fs.tree) && Quiet(fs.trace, |old(fs.trace)|, old(fs.tree))
    ensures run.straight && fs.sound ==> r.Ok?
  {
    ghost var before, steps := fs.tree, fs.trace;
    r := ClearSubs(fs, dir, run);
    ghost var cleared, steps1 := fs.tree, fs.trace;
    if r.Ok? {
      r := MakeSubs(fs, dir, run);
      GoesOn(steps, before, steps1, cleared, fs.trace, fs.tree, run.place);
      SubsStayInside(run, cleared, fs.tree);
    }
  }

  // ---- The directory itself ---------------------------------------------------------------------

  /** A run about to begin. */
  ghost predicate AtFirst(trace: seq<Tree>, t: Tree, run: Run) {
    && PlanOk(run.files) && WellFormed(t) && run.t0 == t && run.n == |trace|
    && run.place == Destination(t, run.dir) && run.straight == StraightWay(t, run.dir)
  }

  method PrepareTop(fs: FileSystem, dir: Path, ghost run: Run) returns (r: Result<(), IoError>)
    requires AtFirst(fs.trace, fs.tree, run) && run.dir == dir
    modifies fs
    ensures Extends(old(fs.trace), fs.trace) && OutsideSince(fs.trace, run.n, run.t0, run.place)
    ensures WellFormed(fs.tree) && OutsideKept(run.t0, fs.tree, run.place)
    ensures run.straight ==> SafeSince(fs.trace, run.n, run.t0, run.place, run.files)
    ensures r.Ok? ==> Underway(fs, run) && TopDone(fs.tree, run) && OnlyDirs(old(fs.tree), fs.tree, run.place)
    ensures r.Ok? ==> Passable(old(fs.tree), dir)
    ensures HasMode(old(fs.tree), dir) ==>
              fs.tree == old(fs.tree) && Quiet(fs.trace, |old(fs.trace)|, old(fs.tree))
    ensures fs.sound ==> (r.Ok? <==> Passable(old(fs.tree), dir))
  {
    ghost var t := fs.tree;
    r := SetDirMode(fs, dir);
    forall i | run.n <= i < |fs.trace|
      ensures WellFormed(fs.trace[i]) && OutsideKept(t, fs.trace[i], run.place)
      ensures Safe(t, fs.trace[i], run.place, run.files)
    {
      FirstStepIsSafe(t, fs.trace[i], run);
    }
    FirstStepIsSafe(t, fs.tree, run);
    if r.Ok? {
      PennedAtFirst(fs.tree, dir, run.place);
      if run.straight {
        StraightWhenMade(t, fs.tree, dir, run.place);
      }
    }
  }

  lemma FirstStepIsSafe(t: Tree, r: Tree, run: Run)
    requires PlanOk(run.files) && run.place == Destination(t, run.dir) && MadeOrModed(t, r, run.dir)
    ensures Prepared(t, r, run.place) && OutsideKept(t, r, run.place) && OnlyDirs(t, r, run.place)
    ensures Safe(t, r, run.place, run.files)
  {
    MadeIsPrepared(t, r, run.dir);
    PreparedKeepsOutside(t, r, run.place);
    StartIsSafe(t, run.place, run.files);
    PreparedIsSafe(t, t, r, run.place, run.files, run.place);
    forall q | !(q <= run.place) ensures At(r, q) == At(t, q) {
      assert At(r, q) == At(t, q) || (q <= run.place && q !in t && IsDir(r, q))
        || (q == run.place && IsDir(t, run.place) && IsDir(r, run.place));
    }
  }

  // ---- The files ------------------------------------------------------------------------

  /** Where the run stands that goes straight, with the first `k` files in place;
    * `t1` is the tree before them. */
  ghost predicate FilesBegun(t1: Tree, t: Tree, run: Run, k: nat)
    requires PlanOk(run.files) && k <= |run.files|
  {
    && DirsDone(t, run.place) && FilesDone(t, run.place, run.files, k) && RestKept(t1, t, run.place, run.files, k)
  }

  lemma BaseLeadsInside(t: Tree, run: Run, sub: Path)
    requires Penned(t, run.dir, run.place) && SubsInside(t, run) && sub in SweepOrder
    ensures Inside(t, run.dir + sub, run.place)
    ensures Straight(t, run.dir, run.place) && DirsDone(t, run.place) ==>
      Straight(t, run.dir + sub, run.place + sub) && IsDir(t, run.place + sub)
  {
    if sub == [] {
      assert run.dir + sub == run.dir && run.place + sub == run.place;
    } else {
      assert sub == [sub[0]] && sub[0] in Subs;
      if Straight(t, run.dir, run.place) && DirsDone(t, run.place) {
        StraightSub(t, run.dir, run.place, sub[0]);
      }
    }
  }

  /** Where a name penned in at `place` leads, and where it does if it goes straight to `base`. */
  lemma WhereItLands(t: Tree, d: Path, place: Path, base: Path) returns (w: Path)
    requires IsDir(t, place) && Inside(t, d, place)
    ensures IsDir(t, w) && place <= w && Aimed(t, d, w)
    ensures Straight(t, d, base) && IsDir(t, base) ==> w == base && Leads(t, d) == Some(w)
  {
    w := if Leads(t, d).Some? then Leads(t, d).value else place;
    if Straight(t, d, base) && IsDir(t, base) {
      StraightLeads(t, d, base);
    }
  }

  /** A path in two directories. */
  lemma SamePathIn(dir: Path, place: Path, rel: Path)
    requires rel != []
    ensures dir + rel != [] && Parent(dir + rel) == dir + rel[..|rel| - 1]
    ensures Here(place + rel[..|rel| - 1], dir + rel) == place + rel
  {
    assert rel == rel[..|rel| - 1] + [rel[|rel| - 1]];
  }

  /** Where the directory of a file leads. */
  lemma FileLandsInside(t: Tree, run: Run, i: nat) returns (w: Path)
    requires PlanOk(run.files) && i < |run.files| && Penned(t, run.dir, run.place) && SubsInside(t, run)
    ensures var path := run.dir + run.files[i].relative;
      && path != [] && IsDir(t, w) && run.place <= w && Aimed(t, Parent(path), w)
      && (Straight(t, run.dir, run.place) && DirsDone(t, run.place) ==>
            Straight(t, Parent(path), w) && Leads(t, Parent(path)) == Some(w) && Here(w, path) == PlaceOf(run.place, run.files, i))
  {
    var rel := run.files[i].relative;
    SubOfPlace(rel);
    SamePathIn(run.dir, run.place, rel);
    var sub := rel[..|rel| - 1];
    BaseLeadsInside(t, run, sub);
    w := WhereItLands(t, run.dir + sub, run.place, run.place + sub);
  }

  lemma SubOfPlace(rel: Path)
    requires PlaceOk(rel)
    ensures rel[..|rel| - 1] in SweepOrder
  {
    assert SweepOrder[0] == [] && SweepOrder[1] == ["prompts"] && SweepOrder[2] == ["scripts"];
    if |rel| == 2 {
      assert rel[..1] == [rel[0]];
    }
  }

  method WriteOne(fs: FileSystem, dir: Path, files: seq<Builtin>, i: nat, ghost run: Run, ghost t1: Tree)
    returns (r: Result<(), IoError>)
    requires Underway(fs, run) && run.dir == dir && run.files == files && i < |files| && SubsInside(fs.tree, run)
    requires run.straight ==> FilesBegun(t1, fs.tree, run, i)
    modifies fs
    ensures Underway(fs, run) && Goes(old(fs.trace), old(fs.tree), fs.trace, fs.tree, run.place) && SubsInside(fs.tree, run)
    ensures run.straight && r.Ok? ==> FilesBegun(t1, fs.tree, run, i + 1)
    ensures run.straight && fs.sound && At(t1, run.place + files[i].relative) == Some(NodeOf(files[i])) ==>
              r.Ok? && fs.tree == old(fs.tree) && fs.trace == old(fs.trace)
    ensures run.straight && r.Ok? ==> !Obstructed(t1, run.place, files[i])
    ensures run.straight && fs.sound && !Obstructed(t1, run.place, files[i]) ==> r.Ok?
  {
    ghost var before, steps := fs.tree, fs.trace;
    ghost var w := FileLandsInside(before, run, i);
    var path := dir + files[i].relative;
    r := WriteIfDifferent(fs, path, files[i].contents, ModeOf(files[i]), w);
    ReplacedGoes(steps, before, fs.trace, fs.tree, run.place, w, Here(w, path), NodeOf(files[i]));
    RunGoesOn(run, steps, before, fs.trace, fs.tree);
    SubsStayInside(run, before, fs.tree);
    if run.straight {
      ReplacedIsStraight(run, steps, before, fs.trace, fs.tree, i);
      FileIsDone(t1, before, fs.tree, run, i);
    }
  }

  lemma ReplacedGoes(steps: seq<Tree>, t: Tree, trace: seq<Tree>, r: Tree, place: Path, w: Path, p: Path, node: Node)
    requires WellFormed(t) && WellFormed(r) && IsDir(t, place) && place <= w && w < p && Parent(p) == w && !node.Link?
    requires Continues(steps, trace) && Replaced(t, r, p, node) && ReplacedSince(trace, |steps|, t, p, node)
    ensures Goes(steps, t, trace, r, place)
  {
    ReplacedIsConfined(t, r, place, w, p, node);
    forall i | |steps| <= i < |trace| ensures Confined(t, trace[i], place) {
      ReplacedIsConfined(t, trace[i], place, w, p, node);
    }
  }

  lemma ReplacedIsStraight(run: Run, steps: seq<Tree>, t: Tree, trace: seq<Tree>, r: Tree, i: nat)
    requires PlanOk(run.files) && i < |run.files| && StraightRun(steps, t, run) && Goes(steps, t, trace, r, run.place)
    requires var p := PlaceOf(run.place, run.files, i);
      p != [] && Replaced(t, r, p, NodeOf(run.files[i])) && ReplacedSince(trace, |steps|, t, p, NodeOf(run.files[i]))
    ensures StraightRun(trace, r, run)
  {
    ReplacedIsSafe(run.t0, t, r, run.place, run.files, i);
    forall k | |steps| <= k < |trace| ensures Safe(run.t0, trace[k], run.place, run.files) {
      ReplacedIsSafe(run.t0, t, trace[k], run.place, run.files, i);
    }
    StraightRunGoesOn(run, steps, t, trace, r);
  }

  lemma FileIsDone(t1: Tree, t: Tree, r: Tree, run: Run, i: nat)
    requires PlanOk(run.files) && i < |run.files| && FilesBegun(t1, t, run, i)
    requires PlaceOf(run.place, run.files, i) != []
    requires Replaced(t, r, PlaceOf(run.place, run.files, i), NodeOf(run.files[i]))
    ensures At(r, PlaceOf(run.place, run.files, i)) == Some(NodeOf(run.files[i])) ==> FilesBegun(t1, r, run, i + 1)
    ensures At(t, PlaceOf(run.place, run.files, i)) == At(t1, PlaceOf(run.place, run.files, i))
    ensures At(t, TempOf(PlaceOf(run.place, run.files, i))) == At(t1, TempOf(PlaceOf(run.place, run.files, i)))
  {
    ReplacedKeepsDirs(t, r, run.place, run.files, i);
    ReplacedKeepsFiles(t, r, run.place, run.files, i);
    ReplacedKeepsRest(t1, t, r, run.place, run.files, i);
  }

  method WriteFiles(fs: FileSystem, dir: Path, files: seq<Builtin>, ghost run: Run) returns (r: Result<(), IoError>)
    requires Underway(fs, run) && run.dir == dir && run.files == files && SubsInside(fs.tree, run)
    requires run.straight ==> DirsDone(fs.tree, run.place)
    modifies fs
    ensures Underway(fs, run) && Goes(old(fs.trace), old(fs.tree), fs.trace, fs.tree, run.place) && SubsInside(fs.tree, run)
    ensures run.straight && r.Ok? ==> FilesBegun(old(fs.tree), fs.tree, run, |files|)
    ensures run.straight && fs.sound && FilesDone(old(fs.tree), run.place, files, |files|) ==>
              r.Ok? && fs.tree == old(fs.tree) && fs.trace == old(fs.trace)
    ensures run.straight && fs.sound ==> (r.Ok? <==> NoneObstructed(old(fs.tree), run.place, files, |files|))
  {
    ghost var t1, steps := fs.tree, fs.trace;
    GoesNowhere(steps, t1, run.place);
    for i := 0 to |files|
      invariant Underway(fs, run) && Goes(steps, t1, fs.trace, fs.tree, run.place) && SubsInside(fs.tree, run)
      invariant run.straight ==> FilesBegun(t1, fs.tree, run, i) && NoneObstructed(t1, run.place, files, i)
      invariant run.straight && fs.sound && FilesDone(t1, run.place, files, |files|) ==> fs.tree == t1 && fs.trace == steps
    {
      ghost var before, steps1 := fs.tree, fs.trace;
      r := WriteOne(fs, dir, files, i, run, t1);
      GoesOn(steps, t1, steps1, before, fs.trace, fs.tree, run.place);
      if r.Err? {
        return;
      }
    }
    r := Ok(());
  }

  // ---- The sweeps -------------------------------------------------------------------------

  /** Where the run stands that goes straight, with some directories swept. */
  ghost predicate SweptSoFar(t: Tree, run: Run, done: seq<Path>)
    requires PlanOk(run.files)
  {
    && DirsDone(t, run.place) && FilesDone(t, run.place, run.files, |run.files|)
    && Tidy(t, run.place, done, KeepOf(run.files))
  }

  lemma SweptIsStraight(run: Run, steps: seq<Tree>, t: Tree, trace: seq<Tree>, r: Tree, sub: Path)
    requires PlanOk(run.files) && StraightRun(steps, t, run) && Goes(steps, t, trace, r, run.place)
    requires sub in SweepOrder && DirsDone(t, run.place)
    requires ThinnedSince(trace, |steps|, t, run.place, sub, KeepOf(run.files))
    requires Thinned(t, r, run.place, sub, KeepOf(run.files))
    ensures StraightRun(trace, r, run)
  {
    ThinnedIsSafe(run.t0, t, r, run.place, sub, run.files);
    forall k | |steps| <= k < |trace| ensures Safe(run.t0, trace[k], run.place, run.files) {
      ThinnedIsSafe(run.t0, t, trace[k], run.place, sub, run.files);
    }
    StraightRunGoesOn(run, steps, t, trace, r);
  }

  lemma SweptIsTidier(run: Run, t: Tree, r: Tree, sub: Path, done: seq<Path>)
    requires PlanOk(run.files) && SweptSoFar(t, run, done) && sub in SweepOrder
    requires Thinned(t, r, run.place, sub, KeepOf(run.files)) && NoStray(r, run.place, sub, KeepOf(run.files))
    ensures SweptSoFar(r, run, done + [sub])
  {
    ThinnedKeepsDone(t, r, run.place, sub, run.files);
    forall other | other in done ensures NoStray(r, run.place, other, KeepOf(run.files)) {
      ThinnedKeepsNoStray(t, r, run.place, sub, other, run.files);
    }
  }

  method SweepOne(fs: FileSystem, dir: Path, sub: Path, keep: set<Path>, ghost run: Run, ghost done: seq<Path>)
    returns (r: Result<(), IoError>)
    requires Underway(fs, run) && run.dir == dir && SubsInside(fs.tree, run) && sub in SweepOrder && keep == KeepOf(run.files)
    requires run.straight ==> SweptSoFar(fs.tree, run, done)
    modifies fs
    ensures Underway(fs, run) && Goes(old(fs.trace), old(fs.tree), fs.trace, fs.tree, run.place) && SubsInside(fs.tree, run)
    ensures run.straight && r.Ok? ==> SweptSoFar(fs.tree, run, done + [sub])
    ensures run.straight && NoStray(old(fs.tree), run.place, sub, keep) ==> fs.tree == old(fs.tree) && fs.trace == old(fs.trace)
    ensures run.straight && fs.sound ==> r.Ok?
  {
    ghost var before, steps := fs.tree, fs.trace;
    BaseLeadsInside(before, run, sub);
    r := Sweep(fs, dir, sub, keep, run.place, run.straight);
    RunGoesOn(run, steps, before, fs.trace, fs.tree);
    SubsStayInside(run, before, fs.tree);
    if run.straight {
      SweptIsStraight(run, steps, before, fs.trace, fs.tree, sub);
      if r.Ok? {
        SweptIsTidier(run, before, fs.tree, sub, done);
      }
    }
  }

  method SweepAll(fs: FileSystem, dir: Path, subs: seq<Path>, keep: set<Path>, ghost run: Run) returns (r: Result<(), IoError>)
    requires Underway(fs, run) && run.dir == dir && SubsInside(fs.tree, run) && keep == KeepOf(run.files)
    requires forall sub :: sub in subs ==> sub in SweepOrder
    requires run.straight ==> SweptSoFar(fs.tree, run, [])
    modifies fs
    ensures Underway(fs, run) && Goes(old(fs.trace), old(fs.tree), fs.trace, fs.tree, run.place)
    ensures run.straight && r.Ok? ==> SweptSoFar(fs.tree, run, subs)
    ensures run.straight && NothingStray(old(fs.tree), run.place, run.files) ==>
      fs.tree == old(fs.tree) && fs.trace == old(fs.trace)
    ensures run.straight && fs.sound ==> r.Ok?
  {
    ghost var t, steps := fs.tree, fs.trace;
    GoesNowhere(steps, t, run.place);
    assert subs[..0] == [];
    for k := 0 to |subs|
      invariant Underway(fs, run) && Goes(steps, t, fs.trace, fs.tree, run.place) && SubsInside(fs.tree, run)
      invariant run.straight ==> SweptSoFar(fs.tree, run, subs[..k])
      invariant run.straight && NothingStray(t, run.place, run.files) ==> fs.tree == t && fs.trace == steps
    {
      ghost var before, steps1 := fs.tree, fs.trace;
      assert subs[k] in subs;
      r := SweepOne(fs, dir, subs[k], keep, run, subs[..k]);
      GoesOn(steps, t, steps1, before, fs.trace, fs.tree, run.place);
      if r.Err? {
        return;
      }
      assert subs[..k + 1] == subs[..k] + [subs[k]];
    }
    assert subs[..|subs|] == subs;
    r := Ok(());
  }

  // ---- Convergence ---------------------------------------------------------------------------

  /** The files, then the sweeps. */
  method FillDir(fs: FileSystem, dir: Path, files: seq<Builtin>, ghost run: Run) returns (r: Result<(), IoError>)
    requires Underway(fs, run) && run.dir == dir && run.files == files && SubsInside(fs.tree, run)
    requires run.straight ==> DirsDone(fs.tree, run.place)
    modifies fs
    ensures Underway(fs, run) && Goes(old(fs.trace), old(fs.tree), fs.trace, fs.tree, run.place)
    ensures run.straight && r.Ok? ==> Canonical(fs.tree, run.place, files)
    ensures run.straight && fs.sound ==>
      (r.Ok? <==> NoneObstructed(old(fs.tree), run.place, files, |files|))
    ensures run.straight && fs.sound && FilesDone(old(fs.tree), run.place, files, |files|)
      && NothingStray(old(fs.tree), run.place, files)
      ==> fs.tree == old(fs.tree) && fs.trace == old(fs.trace)
  {
    ghost var t, steps := fs.tree, fs.trace;
    r := WriteFiles(fs, dir, files, run);
    if r.Err? {
      return;
    }
    ghost var written, steps1 := fs.tree, fs.trace;
    r := SweepAll(fs, dir, SweepOrder, KeepOf(files), run);
    GoesOn(steps, t, steps1, written, fs.trace, fs.tree, run.place);
    if r.Ok? && run.straight {
      CanonicalWhenDone(fs.tree, run.place, files);
    }
  }

  /** Makes the built-ins stand where `dir` leads, exactly: `files` are the
    * embedded ones and, last, the README. `dir` may be a link, or lie below one.
    *
    * Whatever happens, at no moment is anything outside that place different. If
    * the way there is straight, every place for a file has held its old node or
    * the whole new file at every moment, and the run succeeds, unless a call
    * fails for reasons of its own, exactly when no directory is in the way. When
    * it has succeeded, `dir` leads to the canonical tree exactly if the way was
    * straight. On a canonical tree nothing is written.
    */
  method MaterializeBuiltins(fs: FileSystem, dir: Path, files: seq<Builtin>) returns (r: Result<(), IoError>)
    requires PlanOk(files) && WellFormed(fs.tree)
    modifies fs
    ensures Extends(old(fs.trace), fs.trace) && WellFormed(fs.tree)
    ensures OutsideSince(fs.trace, |old(fs.trace)|, old(fs.tree), Destination(old(fs.tree), dir))
    ensures OutsideKept(old(fs.tree), fs.tree, Destination(old(fs.tree), dir))
    ensures StraightWay(old(fs.tree), dir) ==>
      SafeSince(fs.trace, |old(fs.trace)|, old(fs.tree), Destination(old(fs.tree), dir), files)
    ensures r.Ok? ==> EndsRight(old(fs.tree), fs.tree, dir, files)
    ensures fs.sound && StraightWay(old(fs.tree), dir) ==> (r.Ok? <==> Unobstructed(old(fs.tree), dir, files))
    ensures fs.sound && LeadsToCanonical(old(fs.tree), dir, Destination(old(fs.tree), dir), files) ==>
              r.Ok? && fs.tree == old(fs.tree) && Quiet(fs.trace, |old(fs.trace)|, old(fs.tree))
  {
    ghost var t0 := fs.tree;
    ghost var run := Run(|fs.trace|, t0, dir, Destination(t0, dir), files, StraightWay(t0, dir));
    if LeadsToCanonical(t0, dir, run.place, files) {
      CanonicalAtFirst(t0, run);
    }
    r := PrepareTop(fs, dir, run);
    if r.Ok? {
      r := FillTop(fs, dir, files, run);
    }
  }

  /** All that goes into the directory, once it stands. */
  method FillTop(fs: FileSystem, dir: Path, files: seq<Builtin>, ghost run: Run) returns (r: Result<(), IoError>)
    requires Underway(fs, run) && run.dir == dir && run.files == files && OnlyDirs(run.t0, fs.tree, run.place)
    requires run.straight ==> TopDone(fs.tree, run)
    requires WellFormed(run.t0) && run.place == Destination(run.t0, dir) && Passable(run.t0, dir)
    requires run.straight == StraightWay(run.t0, dir)
    modifies fs
    ensures Underway(fs, run) && Extends(old(fs.trace), fs.trace) && WellFormed(fs.tree)
    ensures r.Ok? ==> EndsRight(run.t0, fs.tree, dir, files)
    ensures run.straight && fs.sound ==> (r.Ok? <==> NoneObstructed(run.t0, run.place, files, |files|))
    ensures run.straight && fs.sound && DoneAlready(old(fs.tree), run) ==>
      fs.tree == old(fs.tree) && Quiet(fs.trace, |old(fs.trace)|, old(fs.tree))
  {
    ghost var topped := fs.tree;
    r := PrepareSubs(fs, dir, run);
    if r.Err? {
      return;
    }
    ghost var prepared := fs.tree;
    if run.straight {
      ObstructedAsBefore(run.t0, topped, prepared, run);
    }
    r := FillDir(fs, dir, files, run);
    if r.Ok? {
      EndsCanonical(run.t0, fs.tree, run);
    }
  }

  ghost predicate DoneAlready(t: Tree, run: Run)
    requires PlanOk(run.files)
  {
    DirsDone(t, run.place) && FilesDone(t, run.place, run.files, |run.files|) && NothingStray(t, run.place, run.files)
  }

  lemma CanonicalAtFirst(t: Tree, run: Run)
    requires PlanOk(run.files) && WellFormed(t) && run.place == Destination(t, run.dir)
    requires LeadsToCanonical(t, run.dir, run.place, run.files)
    ensures StraightWay(t, run.dir) && HasMode(t, run.dir) && Unobstructed(t, run.dir, run.files)
    ensures DoneAlready(t, run)
  {
    InTreeIsReal(t, run.place);
    DoneWhenCanonical(t, run.place, run.files);
    CanonicalIsStraight(t, run.dir, run.place, run.files);
  }

  lemma ObstructedAsBefore(t0: Tree, t1: Tree, t2: Tree, run: Run)
    requires PlanOk(run.files) && OnlyDirs(t0, t1, run.place) && OnlyDirs(t1, t2, run.place)
    ensures NoneObstructed(t0, run.place, run.files, |run.files|) <==> NoneObstructed(t2, run.place, run.files, |run.files|)
  {
    forall i | 0 <= i < |run.files|
      ensures Obstructed(t0, run.place, run.files[i]) <==> Obstructed(t2, run.place, run.files[i])
    {
      SameObstructions(t0, t1, run.place, run.files, i);
      SameObstructions(t1, t2, run.place, run.files, i);
    }
  }

  lemma EndsCanonical(t0: Tree, t: Tree, run: Run)
    requires WellFormed(t0) && run.place == Destination(t0, run.dir) && Passable(t0, run.dir)
    requires run.straight == StraightWay(t0, run.dir) && OutsideKept(t0, t, run.place) && IsDir(t, run.place)
    requires run.straight ==> Straight(t, run.dir, run.place) && Canonical(t, run.place, run.files)
    requires PlanOk(run.files)
    ensures EndsRight(t0, t, run.dir, run.files)
  {
    if run.straight {
      StraightLeads(t, run.dir, run.place);
      CanonicalIsInstalled(t, run.place, run.files);
    } else if LeadsToCanonical(t, run.dir, run.place, run.files) {
      CanonicalIsStraight(t, run.dir, run.place, run.files);
      StraightFromTheStart(t0, t, run.dir, run.place);
    }
  }

  // ---- After a crash -----------------------------------------------------------------------

  /** A start after a crash at any moment of a run that nothing stood in the way of:
    * the canonical tree all the same.
    */
  method Restart(crashed: Tree, dir: Path, files: seq<Builtin>, ghost trace: seq<Tree>, ghost n: nat, ghost t0: Tree)
    returns (fs: FileSystem)
    requires PlanOk(files) && WellFormed(t0) && StraightWay(t0, dir) && Unobstructed(t0, dir, files)
    requires SafeSince(trace, n, t0, Destination(t0, dir), files) && exists i :: n <= i < |trace| && trace[i] == crashed
    ensures LeadsToCanonical(fs.tree, dir, Destination(t0, dir), files)
    ensures OutsideKept(t0, fs.tree, Destination(t0, dir))
  {
    CrashLeavesTheWayFree(t0, crashed, dir, files);
    fs := new FileSystem(crashed, true);
    var done := MaterializeBuiltins(fs, dir, files);
    OutsideKeptTwice(t0, crashed, fs.tree, Destination(t0, dir));
  }

  // ---- Two linked trees -------------------------------------------------------------------------

  /** The daemon, given the name `a` of the link, deletes the file in `b`: outside
    * `a`, though not outside the place it leads to.
    */
  method LinkedDirIsSweptElsewhere(files: seq<Builtin>) returns (fs: FileSystem)
    requires PlanOk(files) && forall i :: 0 <= i < |files| ==> files[i].relative != ["notes"]
    ensures LeadsToCanonical(fs.tree, ["a"], ["b"], files)
    ensures ["b", "notes"] in Linked && !(["a"] <= ["b", "notes"]) && ["b", "notes"] !in fs.tree
    ensures !OutsideKept(Linked, fs.tree, ["a"])
  {
    LinkedIsStraight();
    LinkedIsUnobstructed(files);
    fs := new FileSystem(Linked, true);
    var done := MaterializeBuiltins(fs, ["a"], files);
    NotesAreGone(fs.tree, files);
  }
}
