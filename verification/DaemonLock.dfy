/** The daemon's lock file: `acquire`, `publish` and release
  * (`chocofactoryd/src/daemon_lock.rs`, lines 55 to 97), and `read_lock`
  * (`chocofactory-core/src/daemon_lock.rs`, lines 43 to 87), in any interleaving.
  *
  * A system call is one step; a file is read as it is at one moment. What a
  * failing call or a kill leaves is what `Exit` leaves.
  */
module DaemonLock {
  import opened Wrappers

  type Bytes = seq<bv8>

  datatype LockInfo = LockInfo(pid: nat, port: nat, version: string, commit: Option<string>, startedAt: int, exe: string)

  /** How a document is written, and read. */
  datatype Format = Format(encode: LockInfo -> Bytes, parse: Bytes -> Option<LockInfo>)

  /** A document reads back, and no first part of one reads as anything. */
  ghost predicate Lawful(f: Format) {
    && (forall i :: f.parse(f.encode(i)) == Some(i) && f.encode(i) != [])
    && (forall i, b :: b < f.encode(i) ==> f.parse(b) == None)
  }

  datatype Answer = NotRunning(last: Option<LockInfo>) | Running(info: LockInfo) | Unreadable

  /** How far a process is: acquiring and publishing, then reading. One that gives up
    * acquiring goes on to read.
    */
  datatype Stage =
    | Opening | Trying | Holding | Writing(info: LockInfo, k: nat) | Published(info: LockInfo)
    | Looking | Opened | Sharing | Parsed(last: Option<LockInfo>) | Waiting | Answered(answer: Answer)
    | Gone

  datatype World = World(file: Option<Bytes>, holder: Option<nat>, sharers: set<nat>,
                         procs: map<nat, Stage>, begun: set<LockInfo>)

  datatype Step =
    | Arrive(p: nat, asReader: bool) | Open(p: nat) | TryExclusive(p: nat) | GiveUp(p: nat)
    | Cut(p: nat, info: LockInfo) | Write(p: nat, n: nat) | Look(p: nat) | TryShared(p: nat)
    | Parse(p: nat) | Unlock(p: nat) | Reread(p: nat) | Timeout(p: nat) | Exit(p: nat)

  predicate At(w: World, p: nat, s: Stage) {
    p in w.procs && w.procs[p] == s
  }

  predicate Holds(s: Stage) { s.Holding? || s.Writing? || s.Published? }

  predicate Shares(s: Stage) { s.Sharing? || s.Parsed? }

  predicate Free(w: World) { w.holder.None? && w.sharers == {} }

  /** Whether the process may take the step. A lock that is not to be had does not wait:
    * it is refused, and the acquirer tries again or gives up.
    */
  predicate Enabled(f: Format, w: World, s: Step) {
    match s
    case Arrive(p, _) => p !in w.procs
    case Open(p) => At(w, p, Opening)
    case TryExclusive(p) => At(w, p, Trying)
    case GiveUp(p) => At(w, p, Trying) && !Free(w)
    case Cut(p, info) => p in w.procs && (w.procs[p].Holding? || w.procs[p].Published?)
    case Write(p, n) => p in w.procs && w.procs[p].Writing? && w.procs[p].k + n <= |f.encode(w.procs[p].info)|
    case Look(p) => At(w, p, Looking)
    case TryShared(p) => At(w, p, Opened)
    case Parse(p) => At(w, p, Sharing)
    case Unlock(p) => p in w.procs && w.procs[p].Parsed?
    case Reread(p) => At(w, p, Waiting)
    case Timeout(p) => At(w, p, Waiting)
    case Exit(p) => p in w.procs
  }

  function Move(w: World, p: nat, s: Stage): World { w.(procs := w.procs[p := s]) }

  /** The content, read at this moment. */
  function Read(f: Format, w: World): Option<LockInfo> {
    match w.file
    case None => None
    case Some(b) => f.parse(b)
  }

  function Apply(f: Format, w: World, s: Step): World
    requires Enabled(f, w, s)
  {
    match s
    case Arrive(p, asReader) => Move(w, p, if asReader then Looking else Opening)
    case Open(p) => Move(w.(file := if w.file.None? then Some([]) else w.file), p, Trying)
    case TryExclusive(p) => if Free(w) then Move(w.(holder := Some(p)), p, Holding) else w
    case GiveUp(p) => Move(w, p, Looking)
    case Cut(p, info) => Move(w.(file := Some([]), begun := w.begun + {info}), p, Writing(info, 0))
    case Write(p, n) =>
      var info, k := w.procs[p].info, w.procs[p].k + n;
      Move(w.(file := Some(f.encode(info)[..k])), p, if k == |f.encode(info)| then Published(info) else Writing(info, k))
    case Look(p) => Move(w, p, if w.file.None? then Answered(NotRunning(None)) else Opened)
    case TryShared(p) => if w.holder.None? then Move(w.(sharers := w.sharers + {p}), p, Sharing) else Move(w, p, Waiting)
    case Parse(p) => Move(w, p, Parsed(Read(f, w)))
    case Unlock(p) => Move(w.(sharers := w.sharers - {p}), p, Answered(NotRunning(w.procs[p].last)))
    case Reread(p) =>
      (match Read(f, w)
       case None => w
       case Some(info) => Move(w, p, Answered(Running(info))))
    case Timeout(p) => Move(w, p, Answered(Unreadable))
    case Exit(p) =>
      Move(w.(holder := if w.holder == Some(p) then None else w.holder, sharers := w.sharers - {p}), p, Gone)
  }

  // ---- What every step keeps ---------------------------------------------------------------

  /** The lock and the stages agree. */
  ghost predicate LockInv(w: World) {
    && (forall p :: p in w.procs && Holds(w.procs[p]) ==> w.holder == Some(p))
    && (w.holder.Some? ==> w.holder.value in w.procs && Holds(w.procs[w.holder.value]) && w.sharers == {} && w.file.Some?)
    && (forall p :: p in w.sharers <==> p in w.procs && Shares(w.procs[p]))
  }

  /** Some first part of a document that a daemon began to write. */
  ghost predicate Begun(f: Format, w: World, b: Bytes) {
    b == [] || exists i :: i in w.begun && b <= f.encode(i)
  }

  /** The file holds what was written to it last, and all of it once published. */
  ghost predicate FileInv(f: Format, w: World) {
    && (w.file.Some? ==> Begun(f, w, w.file.value))
    && (forall p :: p in w.procs && w.procs[p].Writing? ==>
          w.procs[p].k < |f.encode(w.procs[p].info)| && w.procs[p].info in w.begun
          && w.file == Some(f.encode(w.procs[p].info)[..w.procs[p].k]))
    && (forall p :: p in w.procs && w.procs[p].Published? ==>
          w.procs[p].info in w.begun && w.file == Some(f.encode(w.procs[p].info)))
    && (forall p :: p in w.procs && (w.procs[p].Trying? || w.procs[p].Opened?) ==> w.file.Some?)
  }

  /** What readers have got was published. */
  ghost predicate ReadInv(w: World) {
    forall p :: p in w.procs ==>
      match w.procs[p]
      case Parsed(Some(i)) => i in w.begun
      case Answered(NotRunning(Some(i))) => i in w.begun
      case Answered(Running(i)) => i in w.begun
      case _ => true
  }

  ghost predicate Inv(f: Format, w: World) {
    LockInv(w) && FileInv(f, w) && ReadInv(w)
  }

  /** A read gives a whole document, or nothing: never a mixture, never a part. */
  lemma NeverTorn(f: Format, w: World)
    requires Lawful(f) && FileInv(f, w) && Read(f, w).Some?
    ensures var i := Read(f, w).value;
      i in w.begun && w.file == Some(f.encode(i))
  {
    var b := w.file.value;
    var any: LockInfo :| true;
    assert [] < f.encode(any);
    assert b != [];
    var i :| i in w.begun && b <= f.encode(i);
    assert b == f.encode(i);
  }

  /** A step of one process that neither takes nor gives back a lock. */
  lemma MoveKeepsLock(w: World, r: World, p: nat)
    requires LockInv(w) && r.holder == w.holder && r.sharers == w.sharers && (w.file.Some? ==> r.file.Some?)
    requires p in r.procs && r.procs == w.procs[p := r.procs[p]]
    requires Holds(r.procs[p]) <==> p in w.procs && Holds(w.procs[p])
    requires Shares(r.procs[p]) <==> p in w.procs && Shares(w.procs[p])
    ensures LockInv(r)
  {
  }

  lemma TakingKeepsLock(f: Format, w: World, s: Step)
    requires LockInv(w) && FileInv(f, w) && Enabled(f, w, s) && (s.TryExclusive? || s.TryShared?)
    ensures LockInv(Apply(f, w, s))
  {
  }

  lemma GivingBackKeepsLock(f: Format, w: World, s: Step)
    requires LockInv(w) && Enabled(f, w, s) && (s.Unlock? || s.Exit?)
    ensures LockInv(Apply(f, w, s))
  {
  }

  lemma StepKeepsLock(f: Format, w: World, s: Step)
    requires Inv(f, w) && Enabled(f, w, s)
    ensures LockInv(Apply(f, w, s))
  {
    if s.TryExclusive? || s.TryShared? {
      TakingKeepsLock(f, w, s);
    } else if s.Unlock? || s.Exit? {
      GivingBackKeepsLock(f, w, s);
    } else if Apply(f, w, s) != w {
      MoveKeepsLock(w, Apply(f, w, s), s.p);
    }
  }

  lemma CutKeepsFile(f: Format, w: World, p: nat, info: LockInfo)
    requires Lawful(f) && Inv(f, w) && Enabled(f, w, Cut(p, info))
    ensures FileInv(f, Apply(f, w, Cut(p, info)))
  {
    assert f.encode(info) != [] && f.encode(info)[..0] == [];
  }

  lemma WriteKeepsFile(f: Format, w: World, p: nat, n: nat)
    requires Inv(f, w) && Enabled(f, w, Write(p, n))
    ensures FileInv(f, Apply(f, w, Write(p, n)))
  {
    var info, k := w.procs[p].info, w.procs[p].k + n;
    var b := f.encode(info);
    assert b[..k] <= b && b[..|b|] == b;
    var r := Apply(f, w, Write(p, n));
    assert info in r.begun;
  }

  /** A step that leaves the file alone, and publishes nothing. */
  lemma QuietKeepsFile(f: Format, w: World, r: World, p: nat)
    requires FileInv(f, w) && r.file == w.file && r.begun == w.begun
    requires p in r.procs && r.procs == w.procs[p := r.procs[p]] && !r.procs[p].Writing? && !r.procs[p].Published?
    requires r.procs[p].Trying? || r.procs[p].Opened? ==> r.file.Some?
    ensures FileInv(f, r)
  {
  }

  lemma OpenKeepsFile(f: Format, w: World, p: nat)
    requires Inv(f, w) && Enabled(f, w, Open(p))
    ensures FileInv(f, Apply(f, w, Open(p)))
  {
  }

  lemma StepKeepsFile(f: Format, w: World, s: Step)
    requires Lawful(f) && Inv(f, w) && Enabled(f, w, s)
    ensures FileInv(f, Apply(f, w, s))
  {
    match s
    case Cut(p, info) => CutKeepsFile(f, w, p, info);
    case Write(p, n) => WriteKeepsFile(f, w, p, n);
    case Open(p) => OpenKeepsFile(f, w, p);
    case _ =>
      var r := Apply(f, w, s);
      if r != w {
        QuietKeepsFile(f, w, r, s.p);
      }
  }

  lemma StepKeepsReads(f: Format, w: World, s: Step)
    requires Lawful(f) && Inv(f, w) && Enabled(f, w, s)
    ensures ReadInv(Apply(f, w, s))
  {
    if Read(f, w).Some? {
      NeverTorn(f, w);
    }
  }

  // ---- Every run ------------------------------------------------------------------------------

  /** The file may hold what an earlier daemon left; nobody is there yet. */
  ghost predicate Init(f: Format, w: World) {
    w.holder.None? && w.sharers == {} && w.procs == map[] && (w.file.Some? ==> Begun(f, w, w.file.value))
  }

  predicate Legal(f: Format, w: World, steps: seq<Step>)
    decreases |steps|, 0
  {
    steps == [] || (var before := steps[..|steps| - 1];
      Legal(f, w, before) && Enabled(f, After(f, w, before), steps[|steps| - 1]))
  }

  function After(f: Format, w: World, steps: seq<Step>): World
    requires Legal(f, w, steps)
    decreases |steps|, 1
  {
    if steps == [] then w else Apply(f, After(f, w, steps[..|steps| - 1]), steps[|steps| - 1])
  }

  lemma {:induction false} EveryRunKeepsInv(f: Format, w: World, steps: seq<Step>)
    requires Lawful(f) && Init(f, w) && Legal(f, w, steps)
    ensures Inv(f, After(f, w, steps))
  {
    if steps != [] {
      var before, last := steps[..|steps| - 1], steps[|steps| - 1];
      EveryRunKeepsInv(f, w, before);
      StepKeepsLock(f, After(f, w, before), last);
      StepKeepsFile(f, After(f, w, before), last);
      StepKeepsReads(f, After(f, w, before), last);
    }
  }

  /** At no moment of any run do two daemons hold the lock, or one while a reader shares it. */
  lemma OneDaemon(f: Format, w: World, steps: seq<Step>, p: nat, q: nat)
    requires Lawful(f) && Init(f, w) && Legal(f, w, steps)
    requires p in After(f, w, steps).procs && q in After(f, w, steps).procs && Holds(After(f, w, steps).procs[p])
    ensures Holds(After(f, w, steps).procs[q]) ==> p == q
    ensures !Shares(After(f, w, steps).procs[q])
  {
    EveryRunKeepsInv(f, w, steps);
  }

  function Actor(s: Step): nat { s.p }

  /** Only the process that holds the lock changes what is in the file, and only by
    * publishing: an acquirer that is refused, or dies, changes no byte.
    */
  lemma OnlyTheHolderWrites(f: Format, w: World, steps: seq<Step>, s: Step)
    requires Lawful(f) && Init(f, w) && Legal(f, w, steps) && Enabled(f, After(f, w, steps), s)
    ensures var now, next := After(f, w, steps), Apply(f, After(f, w, steps), s);
      && (now.file.Some? && next.file != now.file ==> now.holder == Some(Actor(s)) && (s.Cut? || s.Write?))
      && (now.file.None? ==> next.file.None? || (next.file == Some([]) && s.Open?))
  {
    EveryRunKeepsInv(f, w, steps);
  }

  /** What can be true of a process in the course of its call. */
  datatype Moment = AskedWhileHeld(p: nat) | AskedWhileFree(p: nat) | SawWhole(p: nat, info: LockInfo)

  predicate Is(f: Format, w: World, m: Moment) {
    match m
    case AskedWhileHeld(p) => At(w, p, Opened) && w.holder.Some?
    case AskedWhileFree(p) => ((At(w, p, Looking) && w.file.None?) || At(w, p, Opened)) && w.holder.None?
    case SawWhole(p, info) => (At(w, p, Sharing) || At(w, p, Waiting)) && w.file == Some(f.encode(info))
  }

  predicate Ever(f: Format, w: World, steps: seq<Step>, m: Moment)
    requires Legal(f, w, steps)
  {
    Is(f, After(f, w, steps), m) || (steps != [] && Ever(f, w, steps[..|steps| - 1], m))
  }

  lemma {:induction false} EverIsSomeMoment(f: Format, w: World, steps: seq<Step>, m: Moment) returns (k: nat)
    requires Legal(f, w, steps) && Ever(f, w, steps, m)
    ensures k <= |steps| && Legal(f, w, steps[..k]) && Is(f, After(f, w, steps[..k]), m)
  {
    if Is(f, After(f, w, steps), m) {
      k := |steps|;
      assert steps[..k] == steps;
    } else {
      k := EverIsSomeMoment(f, w, steps[..|steps| - 1], m);
      assert steps[..|steps| - 1][..k] == steps[..k];
    }
  }

  ghost predicate LastSeen(f: Format, w: World, steps: seq<Step>, p: nat, last: Option<LockInfo>)
    requires Legal(f, w, steps)
  {
    last.Some? ==> Ever(f, w, steps, SawWhole(p, last.value))
  }

  /** How a reader came to be where it is. */
  ghost predicate Founded(f: Format, w: World, steps: seq<Step>, p: nat, s: Stage)
    requires Legal(f, w, steps)
  {
    match s
    case Waiting => Ever(f, w, steps, AskedWhileHeld(p))
    case Answered(Unreadable) => Ever(f, w, steps, AskedWhileHeld(p))
    case Answered(Running(i)) => Ever(f, w, steps, AskedWhileHeld(p)) && Ever(f, w, steps, SawWhole(p, i))
    case Sharing => Ever(f, w, steps, AskedWhileFree(p))
    case Parsed(last) => Ever(f, w, steps, AskedWhileFree(p)) && LastSeen(f, w, steps, p, last)
    case Answered(NotRunning(last)) => Ever(f, w, steps, AskedWhileFree(p)) && LastSeen(f, w, steps, p, last)
    case _ => true
  }

  lemma FoundedStays(f: Format, w: World, steps: seq<Step>, p: nat, s: Stage)
    requires steps != [] && Legal(f, w, steps) && Founded(f, w, steps[..|steps| - 1], p, s)
    ensures Founded(f, w, steps, p, s)
  {
  }

  lemma StepFounds(f: Format, w: World, steps: seq<Step>, p: nat)
    requires Lawful(f) && steps != [] && Legal(f, w, steps) && Inv(f, After(f, w, steps[..|steps| - 1]))
    requires p in After(f, w, steps).procs
    requires var now := After(f, w, steps[..|steps| - 1]);
      p in now.procs ==> Founded(f, w, steps[..|steps| - 1], p, now.procs[p])
    ensures Founded(f, w, steps, p, After(f, w, steps).procs[p])
  {
    var before, s := steps[..|steps| - 1], steps[|steps| - 1];
    var now, next := After(f, w, before), After(f, w, steps);
    if p in now.procs && next.procs[p] == now.procs[p] {
      FoundedStays(f, w, steps, p, next.procs[p]);
    } else {
      assert Actor(s) == p;
      if Read(f, now).Some? {
        NeverTorn(f, now);
      }
      StageFounded(f, w, steps, p);
    }
  }

  /** The step that moved `p` is the ground for where it is. */
  lemma StageFounded(f: Format, w: World, steps: seq<Step>, p: nat)
    requires steps != [] && Legal(f, w, steps) && Actor(steps[|steps| - 1]) == p
    requires var now := After(f, w, steps[..|steps| - 1]);
      && (Read(f, now).Some? ==> now.file == Some(f.encode(Read(f, now).value)))
      && (p in now.procs ==> Founded(f, w, steps[..|steps| - 1], p, now.procs[p]))
      && LockInv(now) && FileInv(f, now)
    requires p in After(f, w, steps).procs
    ensures Founded(f, w, steps, p, After(f, w, steps).procs[p])
  {
    match steps[|steps| - 1]
    case Look(_) => AskFounds(f, w, steps, p);
    case TryShared(_) => AskFounds(f, w, steps, p);
    case Parse(_) => ReadFounds(f, w, steps, p);
    case Reread(_) => ReadFounds(f, w, steps, p);
    case _ =>
  }

  lemma AskFounds(f: Format, w: World, steps: seq<Step>, p: nat)
    requires steps != [] && Legal(f, w, steps) && (steps[|steps| - 1] == Look(p) || steps[|steps| - 1] == TryShared(p))
    requires LockInv(After(f, w, steps[..|steps| - 1]))
    requires p in After(f, w, steps).procs
    ensures Founded(f, w, steps, p, After(f, w, steps).procs[p])
  {
    var before := steps[..|steps| - 1];
    var now := After(f, w, before);
    assert Is(f, now, AskedWhileFree(p)) ==> Ever(f, w, before, AskedWhileFree(p));
    assert Is(f, now, AskedWhileHeld(p)) ==> Ever(f, w, before, AskedWhileHeld(p));
  }

  lemma ReadFounds(f: Format, w: World, steps: seq<Step>, p: nat)
    requires steps != [] && Legal(f, w, steps) && (steps[|steps| - 1] == Parse(p) || steps[|steps| - 1] == Reread(p))
    requires var now := After(f, w, steps[..|steps| - 1]);
      && (Read(f, now).Some? ==> now.file == Some(f.encode(Read(f, now).value)))
      && (p in now.procs ==> Founded(f, w, steps[..|steps| - 1], p, now.procs[p]))
    requires p in After(f, w, steps).procs
    ensures Founded(f, w, steps, p, After(f, w, steps).procs[p])
  {
    var before := steps[..|steps| - 1];
    var now := After(f, w, before);
    if Read(f, now).Some? {
      assert Is(f, now, SawWhole(p, Read(f, now).value)) && Ever(f, w, before, SawWhole(p, Read(f, now).value));
    }
  }

  lemma {:induction false} ReadersAreFounded(f: Format, w: World, steps: seq<Step>, p: nat)
    requires Lawful(f) && Init(f, w) && Legal(f, w, steps) && p in After(f, w, steps).procs
    ensures Founded(f, w, steps, p, After(f, w, steps).procs[p])
  {
    if steps != [] {
      var before := steps[..|steps| - 1];
      EveryRunKeepsInv(f, w, before);
      if p in After(f, w, before).procs {
        ReadersAreFounded(f, w, before, p);
      }
      StepFounds(f, w, steps, p);
    }
  }

  /** `read_lock` answers what was so at some moment of its call: `Running` only if the
    * lock was held then, `NotRunning` only if it was not; and an info it gives stood whole
    * in the file at a moment of the call.
    */
  lemma AnswersWereTrue(f: Format, w: World, steps: seq<Step>, p: nat, answer: Answer)
    requires Lawful(f) && Init(f, w) && Legal(f, w, steps) && At(After(f, w, steps), p, Answered(answer))
    ensures Ever(f, w, steps, if answer.NotRunning? then AskedWhileFree(p) else AskedWhileHeld(p))
    ensures answer.Running? ==> Ever(f, w, steps, SawWhole(p, answer.info))
    ensures answer.NotRunning? && answer.last.Some? ==> Ever(f, w, steps, SawWhole(p, answer.last.value))
  {
    ReadersAreFounded(f, w, steps, p);
  }

  /** While a daemon has published, every read gives its info; while it is publishing, none does. */
  lemma WhatAReadGives(f: Format, w: World, steps: seq<Step>, p: nat)
    requires Lawful(f) && Init(f, w) && Legal(f, w, steps) && p in After(f, w, steps).procs
    ensures After(f, w, steps).procs[p].Published? ==> Read(f, After(f, w, steps)) == Some(After(f, w, steps).procs[p].info)
    ensures After(f, w, steps).procs[p].Writing? ==> Read(f, After(f, w, steps)) == None
  {
    EveryRunKeepsInv(f, w, steps);
    var now := After(f, w, steps);
    if now.procs[p].Writing? {
      var b := f.encode(now.procs[p].info);
      assert b[..now.procs[p].k] < b;
    }
  }

  /** An acquirer gets the lock, when it tries, exactly if no process holds or shares it, and else
    * can give up and read who does; a reader gets to share it exactly if none holds it, and waits
    * if one does.
    */
  lemma WhoGetsTheLock(f: Format, w: World, steps: seq<Step>, p: nat)
    requires Lawful(f) && Init(f, w) && Legal(f, w, steps)
    ensures var now := After(f, w, steps);
      && (At(now, p, Trying) ==>
            (At(Apply(f, now, TryExclusive(p)), p, Holding) <==>
             forall q :: q in now.procs ==> !Holds(now.procs[q]) && !Shares(now.procs[q])))
      && (At(now, p, Trying) && (exists q :: q in now.procs && (Holds(now.procs[q]) || Shares(now.procs[q]))) ==>
            Enabled(f, now, GiveUp(p)) && At(Apply(f, now, GiveUp(p)), p, Looking))
      && (At(now, p, Opened) ==>
            At(Apply(f, now, TryShared(p)), p,
               if exists q :: q in now.procs && Holds(now.procs[q]) then Waiting else Sharing))
  {
    EveryRunKeepsInv(f, w, steps);
    var now := After(f, w, steps);
    if At(now, p, Trying) && Free(now) {
      assert now.sharers == {};
    }
    if At(now, p, Trying) && now.holder.None? && now.sharers != {} {
      var q :| q in now.sharers;
      assert Shares(now.procs[q]);
    }
  }

  /** What was parsed under the lock is kept, whatever others do. */
  lemma {:induction false} ParsedIsKept(f: Format, w: World, steps: seq<Step>, p: nat, last: Option<LockInfo>, others: seq<Step>)
    requires Legal(f, w, steps) && At(After(f, w, steps), p, Parsed(last)) && Legal(f, w, steps + others)
    requires forall k :: 0 <= k < |others| ==> Actor(others[k]) != p
    ensures At(After(f, w, steps + others), p, Parsed(last))
    decreases |others|
  {
    if others == [] {
      assert steps + others == steps;
    } else {
      var before := others[..|others| - 1];
      assert (steps + others)[..|steps + others| - 1] == steps + before;
      ParsedIsKept(f, w, steps, p, last, before);
    }
  }

  /** What a reader that shares the lock is told is what it read under it, whatever others do
    * before it gives the lock back: of the last daemon, where the file is whole.
    */
  lemma ReaderIsToldOfTheLast(f: Format, w: World, steps: seq<Step>, p: nat, others: seq<Step>, some: seq<Step>)
    requires Legal(f, w, steps) && At(After(f, w, steps), p, Sharing)
    requires (forall k :: 0 <= k < |others| ==> Actor(others[k]) != p)
    requires some == steps + [Parse(p)] + others && Legal(f, w, some)
    ensures Legal(f, w, some + [Unlock(p)])
    ensures At(After(f, w, some + [Unlock(p)]), p, Answered(NotRunning(Read(f, After(f, w, steps)))))
  {
    var parsed, told := steps + [Parse(p)], some + [Unlock(p)];
    assert parsed[..|parsed| - 1] == steps && told[..|told| - 1] == some;
    ParsedIsKept(f, w, parsed, p, Read(f, After(f, w, steps)), others);
  }

  /** And what that is: the info of a whole document, and nothing of an empty file or a part of one. */
  lemma WhatTheFileSays(f: Format, w: World, info: LockInfo)
    requires Lawful(f) && w.file.Some?
    ensures w.file == Some(f.encode(info)) ==> Read(f, w) == Some(info)
    ensures w.file.value < f.encode(info) ==> Read(f, w) == None
  {
  }

  /** Without a file no daemon is named; and a reader that waits while a daemon has published is
    * told of that daemon, or, its time being over, that the file is unreadable.
    */
  lemma WhatReadersAreTold(f: Format, w: World, steps: seq<Step>, p: nat, q: nat)
    requires Lawful(f) && Init(f, w) && Legal(f, w, steps) && p in After(f, w, steps).procs
    ensures var now := After(f, w, steps);
      && (At(now, p, Looking) && now.file.None? ==> At(Apply(f, now, Look(p)), p, Answered(NotRunning(None))))
      && (At(now, p, Waiting) && q in now.procs && now.procs[q].Published? ==>
            At(Apply(f, now, Reread(p)), p, Answered(Running(now.procs[q].info))))
      && (At(now, p, Waiting) ==> At(Apply(f, now, Timeout(p)), p, Answered(Unreadable)))
  {
    if q in After(f, w, steps).procs {
      WhatAReadGives(f, w, steps, q);
    }
    AnswersByStep(f, After(f, w, steps), p);
  }

  lemma AnswersByStep(f: Format, w: World, p: nat)
    ensures At(w, p, Looking) && w.file.None? ==> At(Apply(f, w, Look(p)), p, Answered(NotRunning(None)))
    ensures At(w, p, Waiting) && Read(f, w).Some? ==>
      At(Apply(f, w, Reread(p)), p, Answered(Running(Read(f, w).value)))
    ensures At(w, p, Waiting) ==> At(Apply(f, w, Timeout(p)), p, Answered(Unreadable))
  {
  }

  /** Between acquiring and publishing the info is still the previous daemon's: a run in
    * which a reader is told of `last` while process 1 holds the lock and has published nothing.
    */
  lemma TheLastDaemonMayStillBeNamed(f: Format, last: LockInfo) returns (w: World, steps: seq<Step>)
    requires Lawful(f)
    ensures Init(f, w) && Legal(f, w, steps)
    ensures At(After(f, w, steps), 1, Holding) && At(After(f, w, steps), 2, Answered(Running(last)))
  {
    w := World(Some(f.encode(last)), None, {}, map[], {last});
    steps := [];
    var now := w;
    now, steps := Extend(f, w, steps, now, Arrive(1, false));
    now, steps := Extend(f, w, steps, now, Open(1));
    now, steps := Extend(f, w, steps, now, TryExclusive(1));
    now, steps := Extend(f, w, steps, now, Arrive(2, true));
    now, steps := Extend(f, w, steps, now, Look(2));
    now, steps := Extend(f, w, steps, now, TryShared(2));
    now, steps := Extend(f, w, steps, now, Reread(2));
  }

  lemma Extend(f: Format, w: World, steps: seq<Step>, now: World, s: Step) returns (next: World, more: seq<Step>)
    requires Legal(f, w, steps) && After(f, w, steps) == now && Enabled(f, now, s)
    ensures next == Apply(f, now, s) && Legal(f, w, more) && After(f, w, more) == next && more == steps + [s]
  {
    more := steps + [s];
    assert more[..|more| - 1] == steps;
    next := Apply(f, now, s);
  }

  // ---- A file read in pieces --------------------------------------------------------------------

  /** What successive reads get, of at most so many bytes each, from a file that
    * has these contents when they are made.
    */
  function Pieces(contents: seq<Bytes>, sizes: seq<nat>): Bytes
    requires |contents| == |sizes|
  {
    if contents == [] then []
    else
      var last := |contents| - 1;
      NextPiece(Pieces(contents[..last], sizes[..last]), contents[last], sizes[last])
  }

  function NextPiece(got: Bytes, c: Bytes, n: nat): Bytes {
    if |got| + n <= |c| then got + c[|got|..|got| + n]
    else if |got| <= |c| then got + c[|got|..]
    else got
  }

  /** No content cuts back an earlier one. */
  ghost predicate Growing(contents: seq<Bytes>) {
    forall i, j :: 0 <= i <= j < |contents| ==> contents[i] <= contents[j]
  }

  /** Where the file only grew, the pieces are a first part of it as it is at the
    * last read, and all of it if that read came to the end.
    */
  lemma {:induction false} PiecesOfAGrowingFile(contents: seq<Bytes>, sizes: seq<nat>)
    requires |contents| == |sizes| > 0 && Growing(contents)
    ensures var c := contents[|contents| - 1]; Pieces(contents, sizes) <= c
  {
    var last := |contents| - 1;
    if last > 0 {
      PiecesOfAGrowingFile(contents[..last], sizes[..last]);
      assert contents[last - 1] <= contents[last];
    }
  }

  /** A moment of a run: how many of its steps are done. */
  ghost predicate Moments(f: Format, w: World, steps: seq<Step>, at: seq<nat>)
    requires Legal(f, w, steps)
  {
    && (forall i :: 0 <= i < |at| ==> at[i] <= |steps|)
    && (forall i, j :: 0 <= i <= j < |at| ==> at[i] <= at[j])
  }

  lemma {:induction false} LegalSoFar(f: Format, w: World, steps: seq<Step>, k: nat)
    requires Legal(f, w, steps) && k <= |steps|
    ensures Legal(f, w, steps[..k])
    decreases |steps| - k
  {
    if k == |steps| {
      assert steps[..k] == steps;
    } else {
      LegalSoFar(f, w, steps, k + 1);
      assert steps[..k + 1][..k] == steps[..k];
    }
  }

  ghost function ContentAt(f: Format, w: World, steps: seq<Step>, k: nat): Bytes
    requires Legal(f, w, steps) && k <= |steps|
  {
    LegalSoFar(f, w, steps, k);
    var file := After(f, w, steps[..k]).file;
    if file.Some? then file.value else []
  }

  /** Nobody begins to publish between the two moments. */
  ghost predicate NoCut(steps: seq<Step>, a: nat, b: nat)
    requires a <= b <= |steps|
  {
    forall i :: a <= i < b ==> !steps[i].Cut?
  }

  /** Only the beginning of a publication cuts the file back. */
  lemma OnlyACutCutsBack(f: Format, w: World, s: Step)
    requires Inv(f, w) && Enabled(f, w, s) && !s.Cut? && w.file.Some?
    ensures var next := Apply(f, w, s); next.file.Some? && w.file.value <= next.file.value
  {
    if s.Write? {
      var info, k := w.procs[s.p].info, w.procs[s.p].k;
      assert f.encode(info)[..k + s.n][..k] == f.encode(info)[..k];
    }
  }

  lemma {:induction false} ContentGrows(f: Format, w: World, steps: seq<Step>, a: nat, b: nat)
    requires Lawful(f) && Init(f, w) && Legal(f, w, steps) && a <= b <= |steps| && NoCut(steps, a, b)
    ensures ContentAt(f, w, steps, a) <= ContentAt(f, w, steps, b)
    decreases b - a
  {
    if a < b {
      ContentGrows(f, w, steps, a, b - 1);
      LegalSoFar(f, w, steps, b - 1);
      LegalSoFar(f, w, steps, b);
      assert steps[..b][..b - 1] == steps[..b - 1];
      EveryRunKeepsInv(f, w, steps[..b - 1]);
      var now := After(f, w, steps[..b - 1]);
      if now.file.Some? {
        OnlyACutCutsBack(f, now, steps[b - 1]);
      }
    }
  }

  ghost function ContentsAt(f: Format, w: World, steps: seq<Step>, at: seq<nat>): (contents: seq<Bytes>)
    requires Legal(f, w, steps) && Moments(f, w, steps, at)
    ensures |contents| == |at| && forall i :: 0 <= i < |at| ==> contents[i] == ContentAt(f, w, steps, at[i])
  {
    seq(|at|, i requires 0 <= i < |at| => ContentAt(f, w, steps, at[i]))
  }

  /** The reads came to the end of the file. */
  ghost predicate ToTheEnd(contents: seq<Bytes>, sizes: seq<nat>)
    requires |contents| == |sizes| > 0
  {
    |Pieces(contents, sizes)| >= |contents[|contents| - 1]|
  }

  /** A file read in pieces, while nobody begins to publish, is read as at one
    * moment: the last of them.
    */
  lemma PiecesAreOneRead(f: Format, w: World, steps: seq<Step>, at: seq<nat>, sizes: seq<nat>)
    requires Lawful(f) && Init(f, w) && Legal(f, w, steps) && at != [] && Moments(f, w, steps, at) && |sizes| == |at|
    requires NoCut(steps, at[0], at[|at| - 1])
    requires ToTheEnd(ContentsAt(f, w, steps, at), sizes)
    ensures Pieces(ContentsAt(f, w, steps, at), sizes) == ContentAt(f, w, steps, at[|at| - 1])
  {
    var contents := ContentsAt(f, w, steps, at);
    forall i, j | 0 <= i <= j < |at| ensures contents[i] <= contents[j] {
      ContentGrows(f, w, steps, at[i], at[j]);
    }
    PiecesOfAGrowingFile(contents, sizes);
  }

  /** That is so of a reader that shares the lock all the while. */
  lemma NobodyPublishesToASharer(f: Format, w: World, steps: seq<Step>, p: nat, a: nat, b: nat)
    requires Lawful(f) && Init(f, w) && Legal(f, w, steps) && a <= b <= |steps|
    requires forall k :: a <= k < b ==> SharesAt(f, w, steps, p, k)
    ensures NoCut(steps, a, b)
  {
    forall i | a <= i < b ensures !steps[i].Cut? {
      LegalSoFar(f, w, steps, i);
      LegalSoFar(f, w, steps, i + 1);
      assert steps[..i + 1][..i] == steps[..i];
      EveryRunKeepsInv(f, w, steps[..i]);
      assert SharesAt(f, w, steps, p, i);
    }
  }

  ghost predicate SharesAt(f: Format, w: World, steps: seq<Step>, p: nat, k: nat)
    requires Legal(f, w, steps)
  {
    k <= |steps| && (LegalSoFar(f, w, steps, k); p in After(f, w, steps[..k]).procs && Shares(After(f, w, steps[..k]).procs[p]))
  }

  /** A reader that reads without the lock is not so safe: where documents can be
    * mixed, one that is half of each can be read, though nobody ever wrote it.
    */
  lemma PiecesCanMix(f: Format, a: LockInfo, b: LockInfo, c: LockInfo, k: nat) returns (w: World, steps: seq<Step>)
    requires Lawful(f) && c != a && c != b
    requires k <= |f.encode(a)| && k <= |f.encode(b)| && f.encode(a)[..k] + f.encode(b)[k..] == f.encode(c)
    ensures Init(f, w) && Legal(f, w, steps) && Moments(f, w, steps, [3, 5])
    ensures var contents := ContentsAt(f, w, steps, [3, 5]);
      && ToTheEnd(contents, [k, |f.encode(b)|]) && Pieces(contents, [k, |f.encode(b)|]) == f.encode(c)
    ensures c !in After(f, w, steps).begun
  {
    w := World(Some(f.encode(a)), None, {}, map[], {a});
    steps := [];
    var now := w;
    assert f.encode(a) <= f.encode(a);
    now, steps := Extend(f, w, steps, now, Arrive(1, false));
    now, steps := Extend(f, w, steps, now, Open(1));
    now, steps := Extend(f, w, steps, now, TryExclusive(1));
    var before := steps;
    assert now.file == Some(f.encode(a));
    now, steps := Extend(f, w, steps, now, Cut(1, b));
    now, steps := Extend(f, w, steps, now, Write(1, |f.encode(b)|));
    assert f.encode(b)[..|f.encode(b)|] == f.encode(b);
    assert steps[..3] == before && steps[..5] == steps;
    assert ContentAt(f, w, steps, 3) == f.encode(a) && ContentAt(f, w, steps, 5) == f.encode(b);
    TwoPieces(ContentsAt(f, w, steps, [3, 5]), f.encode(a), f.encode(b), k);
  }

  lemma TwoPieces(contents: seq<Bytes>, a: Bytes, b: Bytes, k: nat)
    requires contents == [a, b] && k <= |a| && k <= |b|
    ensures Pieces(contents, [k, |b|]) == a[..k] + b[k..]
  {
    assert contents[..1] == [a] && [k, |b|][..1] == [k] && [a][..0] == [] && [k][..0] == [];
    assert Pieces([], []) == [];
    assert Pieces([a], [k]) == NextPiece([], a, k) == a[..k];
  }
}
