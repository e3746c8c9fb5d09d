/** The operating-system world around one turn, and the proof that the rule of
  * `ProcTable` owns exactly what the turn started.
  *
  * A process carries a serial number that is never reused, and `birth` keeps
  * for every process ever forked the serial of the process that forked it. So
  * "the turn started it" is not a label: it is a chain of forks leading back to
  * the agent, whatever later happens to parent links, sessions and pids.
  *
  * The daemon reads the table one process at a time while the world moves on:
  * `Scan` is a scan in progress and `ScanRead` one read of it.
  */
module ProcWorld {
  import opened Wrappers
  import opened ProcTable

  datatype Proc = Proc(
    ppid: int, sid: int, uid: nat, start: nat, zombie: bool,
    marker: bool,      // its environment holds the turn's marker
    readable: bool,    // the kernel lets the daemon read its environment
    serial: nat)

  /** A scan in progress: what was read so far, and every pid or session id
    * that was in use at some moment since the scan began. */
  datatype Scan = Scan(table: seq<ProcEntry>, withMarker: bool, touched: set<int>)

  datatype World = World(
    procs: map<int, Proc>,
    clock: nat,
    birth: map<nat, nat>,
    nextSerial: nat,
    used: map<Identity, nat>,      // every (pid, start) ever given out, and to whom
    agentPid: int, agentSerial: nat, agentReaped: bool,
    daemonPid: int, daemonSerial: nat, daemonSid: int, uid: nat,
    recorded: set<Identity>,
    scan: Option<Scan>)

  // ---- Descent -------------------------------------------------------------

  /** `s` was forked, directly or through others, by `a`. */
  predicate Descends(birth: map<nat, nat>, s: nat, a: nat)
    decreases s
  {
    && s in birth
    && birth[s] < s
    && (birth[s] == a || Descends(birth, birth[s], a))
  }

  lemma {:induction false} DescendsIsLater(birth: map<nat, nat>, s: nat, a: nat)
    requires Descends(birth, s, a)
    ensures a < s
    decreases s
  {
    if birth[s] != a {
      DescendsIsLater(birth, birth[s], a);
    }
  }

  lemma {:induction false} DescendsThrough(birth: map<nat, nat>, s: nat, m: nat, a: nat)
    requires Descends(birth, s, m) && Descends(birth, m, a)
    ensures Descends(birth, s, a)
    decreases s
  {
    if birth[s] != m {
      DescendsThrough(birth, birth[s], m, a);
    }
  }

  /** A later fork adds to the record and changes no descent already there. */
  lemma {:induction false} DescentIsSettled(birth: map<nat, nat>, newborn: nat, parent: nat, s: nat, a: nat)
    requires newborn !in birth && s != newborn
    requires forall x :: x in birth ==> birth[x] < x < newborn
    ensures Descends(birth[newborn := parent], s, a) <==> Descends(birth, s, a)
    decreases s
  {
    if s in birth {
      DescentIsSettled(birth, newborn, parent, birth[s], a);
    }
  }

  /** The agent or something it started. */
  predicate KinOf(birth: map<nat, nat>, agent: nat, s: nat) {
    s == agent || Descends(birth, s, agent)
  }

  // ---- Steps ---------------------------------------------------------------

  datatype Step =
    | Tick
    | Fork(parent: int, child: int)
    | Exec(pid: int, keepsEnv: bool, nowReadable: bool)
    | SetSid(pid: int)
    | SetUid(pid: int, newUid: nat)
    | Exit(pid: int, heir: int)
    | Reap(pid: int)
    | ScanBegin(asksMarker: bool)
    | ScanRead(pid: int, pgid: int, comm: string)
    | ScanEnd
    | Record

  predicate Alive(w: World, pid: int) {
    pid in w.procs && !w.procs[pid].zombie
  }

  predicate SessionInUse(w: World, sid: int) {
    exists p :: p in w.procs && w.procs[p].sid == sid
  }

  /** The kernel's rules, and the assumptions the ownership rule is stated under. */
  predicate Enabled(w: World, step: Step) {
    match step
    case Tick => true
    case Fork(parent, child) =>
      && Alive(w, parent)
      && child > 1 && child !in w.procs
      && !SessionInUse(w, child)                       // a live session id is not given out as a pid
      && (child, w.clock) !in w.used                   // nor the same pid twice in one start tick
      && (w.scan.Some? ==> child !in w.scan.value.touched)  // nor one that was in use earlier in a running scan
    case Exec(pid, _, _) => Alive(w, pid) && pid != w.daemonPid
    case SetSid(pid) => Alive(w, pid) && pid != w.daemonPid && !SessionInUse(w, pid)
    case SetUid(pid, _) => Alive(w, pid) && pid != w.daemonPid
    case Exit(pid, heir) =>
      && Alive(w, pid) && pid > 1 && pid != w.daemonPid
      && (heir == 1 || (heir != pid && Alive(w, heir) &&
                        Descends(w.birth, w.procs[pid].serial, w.procs[heir].serial)))
    case Reap(pid) =>
      && pid in w.procs && w.procs[pid].zombie
      && (w.procs[pid].serial == w.agentSerial ==> w.scan.None?)  // the agent is not reaped while a scan runs
    case ScanBegin(_) => true
    case ScanRead(pid, _, _) => w.scan.Some? && pid in w.procs
    case ScanEnd => w.scan.Some?
    case Record => w.scan.Some? && !w.agentReaped
  }

  function InUse(w: World): set<int> {
    w.procs.Keys + (set p | p in w.procs :: w.procs[p].sid)
  }

  function ReadMarker(p: Proc, withMarker: bool): MarkerStatus {
    if !withMarker then NotChecked
    else if p.zombie then Absent
    else if !p.readable then Unreadable
    else if p.marker then Present
    else Absent
  }

  function ReadEntry(pid: int, p: Proc, pgid: int, comm: string, withMarker: bool): ProcEntry {
    ProcEntry(pid, p.ppid, pgid, p.sid, p.uid, p.start, p.zombie, comm, ReadMarker(p, withMarker))
  }

  function Input(w: World): OwnershipInput {
    OwnershipInput(if w.agentReaped then None else Some(w.agentPid), w.recorded, w.daemonPid, w.daemonSid, w.uid)
  }

  ghost function Apply(w: World, step: Step): World
    requires Enabled(w, step)
  {
    match step
    case Tick => w.(clock := w.clock + 1)
    case Fork(parent, child) =>
      var p := w.procs[parent];
      w.(procs := w.procs[child := p.(ppid := parent, start := w.clock, serial := w.nextSerial)],
         birth := w.birth[w.nextSerial := p.serial],
         nextSerial := w.nextSerial + 1,
         used := w.used[(child, w.clock) := w.nextSerial],
         scan := if w.scan.None? then None
                 else Some(w.scan.value.(touched := w.scan.value.touched + {child})))
    case Exec(pid, keepsEnv, nowReadable) =>
      var p := w.procs[pid];
      w.(procs := w.procs[pid := p.(marker := p.marker && keepsEnv, readable := nowReadable)])
    case SetSid(pid) => w.(procs := w.procs[pid := w.procs[pid].(sid := pid)])
    case SetUid(pid, newUid) => w.(procs := w.procs[pid := w.procs[pid].(uid := newUid)])
    case Exit(pid, heir) =>
      w.(procs := map q | q in w.procs ::
                    if q == pid then w.procs[q].(zombie := true)
                    else if w.procs[q].ppid == pid then w.procs[q].(ppid := heir)
                    else w.procs[q])
    case Reap(pid) =>
      w.(procs := w.procs - {pid},
         agentReaped := w.agentReaped || w.procs[pid].serial == w.agentSerial)
    case ScanBegin(asksMarker) => w.(scan := Some(Scan([], asksMarker, InUse(w))))
    case ScanRead(pid, pgid, comm) =>
      var s := w.scan.value;
      w.(scan := Some(s.(table := s.table + [ReadEntry(pid, w.procs[pid], pgid, comm, s.withMarker)])))
    case ScanEnd => w.(scan := None)
    case Record =>
      var t := w.scan.value.table;
      w.(recorded := w.recorded +
                     (set e | e in t && Descendant(t, w.agentPid, e.pid) :: (e.pid, e.start)))
  }

  // ---- What every step keeps -----------------------------------------------

  predicate Registered(used: map<Identity, nat>, pid: int, start: nat, serial: nat) {
    (pid, start) in used && used[(pid, start)] == serial
  }

  /** Serials and identities name one process each. */
  ghost predicate IdentityInv(w: World) {
    && (forall s :: s in w.birth ==> w.birth[s] < s < w.nextSerial)
    && (forall id :: id in w.used ==> w.used[id] < w.nextSerial)
    && (forall p :: p in w.procs ==>
          w.procs[p].start <= w.clock && Registered(w.used, p, w.procs[p].start, w.procs[p].serial))
  }

  /** A parent link names a live process that forked this one, directly or not, and is no younger. */
  ghost predicate LinkInv(w: World) {
    forall p :: p in w.procs && w.procs[p].ppid > 1 ==> LinkOk(w.procs, w.birth, p, w.procs[p].ppid)
  }

  predicate LinkOk(procs: map<int, Proc>, birth: map<nat, nat>, p: int, parent: int)
    requires p in procs
  {
    && p > 1
    && parent in procs && !procs[parent].zombie
    && Descends(birth, procs[p].serial, procs[parent].serial)
    && procs[parent].start <= procs[p].start
  }

  /** A process whose pid names a session leads it; serials follow start times. */
  predicate Orderly(procs: map<int, Proc>, p: int, q: int) {
    p in procs && q in procs ==>
      && (procs[q].sid == p ==> procs[p].sid == p)
      && (procs[p].serial < procs[q].serial ==> procs[p].start <= procs[q].start)
  }

  /** Outside the daemon's session a session is all the turn's or none of it. */
  predicate Mates(w: World, p: int, q: int) {
    && Orderly(w.procs, p, q)
    && (p in w.procs && q in w.procs && w.procs[p].sid == w.procs[q].sid != w.daemonSid ==>
          (KinOf(w.birth, w.agentSerial, w.procs[p].serial) <==> KinOf(w.birth, w.agentSerial, w.procs[q].serial)))
  }

  ghost predicate SessionInv(w: World) {
    forall p, q :: Mates(w, p, q)
  }

  ghost predicate RoleInv(w: World) {
    && w.agentPid > 1 && w.daemonPid > 1 && w.daemonSerial < w.agentSerial < w.nextSerial
    && Alive(w, w.daemonPid)
    && w.procs[w.daemonPid].sid == w.daemonSid
    && w.procs[w.daemonPid].serial == w.daemonSerial
    && (!w.agentReaped ==> w.agentPid in w.procs)
    && (forall p :: p in w.procs ==>
          (w.procs[p].serial == w.agentSerial <==> p == w.agentPid && !w.agentReaped))
  }

  ghost predicate MarkerInv(w: World) {
    forall p :: p in w.procs && w.procs[p].marker ==> KinOf(w.birth, w.agentSerial, w.procs[p].serial)
  }

  ghost predicate RecordInv(w: World) {
    forall id :: id in w.recorded ==> id in w.used && Descends(w.birth, w.used[id], w.agentSerial)
  }

  /** What one entry says, related to the processes now in the world. */
  ghost predicate EntryInv(w: World, touched: set<int>, e: ProcEntry) {
    && (e.pid, e.start) in w.used
    && e.pid in touched && e.sid in touched && (e.ppid > 1 ==> e.pid > 1 && e.ppid in touched)
    && (e.marker == Present ==> KinOf(w.birth, w.agentSerial, Who(w.used, e)))
    && (Who(w.used, e) == w.agentSerial ==> e.pid == w.agentPid && !w.agentReaped)
    && (e.pid in w.procs ==> w.procs[e.pid].serial == Who(w.used, e))
    && (e.ppid > 1 && e.ppid in w.procs ==> Descends(w.birth, Who(w.used, e), w.procs[e.ppid].serial))
    && (e.sid in w.procs ==> w.procs[e.sid].sid == e.sid)
    && (forall p :: p in w.procs && w.procs[p].sid == e.sid != w.daemonSid ==>
          (KinOf(w.birth, w.agentSerial, w.procs[p].serial) <==> KinOf(w.birth, w.agentSerial, Who(w.used, e))))
  }

  /** Which process an entry was read from. */
  function Who(used: map<Identity, nat>, e: ProcEntry): nat
    requires (e.pid, e.start) in used
  {
    used[(e.pid, e.start)]
  }

  /** What two entries of one scan say together, though read at different moments. */
  ghost predicate PairInv(w: World, e: ProcEntry, f: ProcEntry)
    requires (e.pid, e.start) in w.used && (f.pid, f.start) in w.used
  {
    && (e.pid == f.pid ==> Who(w.used, e) == Who(w.used, f))
    && (e.ppid == f.pid > 1 ==> Descends(w.birth, Who(w.used, e), Who(w.used, f)))
    && (e.sid == f.sid != w.daemonSid ==> (KinOf(w.birth, w.agentSerial, Who(w.used, e)) <==> KinOf(w.birth, w.agentSerial, Who(w.used, f))))
  }

  ghost predicate ScanInv(w: World) {
    w.scan.Some? ==>
      var s := w.scan.value;
      && (forall p :: p in w.procs ==> p in s.touched && w.procs[p].sid in s.touched)
      && (forall e :: e in s.table ==> EntryInv(w, s.touched, e))
      && (forall e, f :: e in s.table && f in s.table ==> PairInv(w, e, f))
  }

  ghost predicate WorldInv(w: World) {
    IdentityInv(w) && LinkInv(w) && RoleInv(w) && MarkerInv(w) && RecordInv(w)
  }

  ghost predicate Inv(w: World) {
    WorldInv(w) && SessionInv(w) && ScanInv(w)
  }

  /** A fork settles nothing anew about older processes; the child descends as its parent does. */
  lemma ForkDescent(w: World, step: Step)
    requires WorldInv(w) && step.Fork? && Enabled(w, step)
    ensures var w', parent := Apply(w, step), w.procs[step.parent].serial;
      && (forall s: nat, a: nat :: s < w.nextSerial ==> (Descends(w'.birth, s, a) <==> Descends(w.birth, s, a)))
      && (forall s: nat :: s < w.nextSerial ==> (KinOf(w'.birth, w'.agentSerial, s) <==> KinOf(w.birth, w.agentSerial, s)))
      && Descends(w'.birth, w.nextSerial, parent)
      && (forall a: nat :: Descends(w'.birth, w.nextSerial, a) <==> a == parent || Descends(w.birth, parent, a))
      && (KinOf(w'.birth, w'.agentSerial, w.nextSerial) <==> KinOf(w.birth, w.agentSerial, parent))
  {
    var w', parent := Apply(w, step), w.procs[step.parent].serial;
    forall s: nat, a: nat | s < w.nextSerial
      ensures Descends(w'.birth, s, a) <==> Descends(w.birth, s, a)
    {
      DescentIsSettled(w.birth, w.nextSerial, parent, s, a);
    }
  }

  lemma ForkKeepsIdentity(w: World, step: Step)
    requires WorldInv(w) && step.Fork? && Enabled(w, step)
    ensures IdentityInv(Apply(w, step))
  {
  }

  lemma ForkKeepsLinks(w: World, step: Step)
    requires WorldInv(w) && step.Fork? && Enabled(w, step)
    ensures LinkInv(Apply(w, step))
  {
    ForkDescent(w, step);
    var w' := Apply(w, step);
    forall p | p in w'.procs && w'.procs[p].ppid > 1 ensures LinkOk(w'.procs, w'.birth, p, w'.procs[p].ppid) {
      if p != step.child {
        assert LinkOk(w.procs, w.birth, p, w.procs[p].ppid);
      }
    }
  }

  lemma ForkKeepsRoles(w: World, step: Step)
    requires WorldInv(w) && step.Fork? && Enabled(w, step)
    ensures RoleInv(Apply(w, step))
  {
  }

  lemma ForkKeepsMarkersAndRecords(w: World, step: Step)
    requires WorldInv(w) && step.Fork? && Enabled(w, step)
    ensures MarkerInv(Apply(w, step)) && RecordInv(Apply(w, step))
  {
    ForkDescent(w, step);
  }

  lemma ForkKeepsWorld(w: World, step: Step)
    requires WorldInv(w) && step.Fork? && Enabled(w, step)
    ensures WorldInv(Apply(w, step))
  {
    ForkKeepsIdentity(w, step);
    ForkKeepsLinks(w, step);
    ForkKeepsRoles(w, step);
    ForkKeepsMarkersAndRecords(w, step);
  }

  lemma ForkKeepsSessions(w: World, step: Step)
    requires WorldInv(w) && SessionInv(w) && step.Fork? && Enabled(w, step)
    ensures SessionInv(Apply(w, step))
  {
    ForkDescent(w, step);
    forall p, q ensures Mates(Apply(w, step), p, q) {
      assert Mates(w, p, q) && Mates(w, step.parent, q) && Mates(w, p, step.parent);
    }
  }

  lemma ForkKeepsScan(w: World, step: Step)
    requires Inv(w) && step.Fork? && Enabled(w, step)
    ensures ScanInv(Apply(w, step))
  {
    ForkDescent(w, step);
    var w' := Apply(w, step);
    if w.scan.Some? {
      forall e | e in w.scan.value.table ensures EntryInv(w', w'.scan.value.touched, e) && Who(w'.used, e) == Who(w.used, e) {
        assert EntryInv(w, w.scan.value.touched, e);
      }
      forall e, f | e in w.scan.value.table && f in w.scan.value.table ensures PairInv(w', e, f) {
        assert PairInv(w, e, f);
      }
    }
  }

  /** Steps that fork nothing leave every descent and every identity as it was. */
  predicate SameHistory(w: World, w': World) {
    && w'.birth == w.birth && w'.used == w.used && w'.nextSerial == w.nextSerial
    && w'.agentPid == w.agentPid && w'.agentSerial == w.agentSerial && w'.daemonSid == w.daemonSid
    && w'.daemonPid == w.daemonPid && w'.daemonSerial == w.daemonSerial && w'.recorded == w.recorded
    && w'.scan == w.scan && w.clock <= w'.clock
  }

  /** No process was added; each kept its serial and start, and its session unless it made one of its own. */
  ghost predicate SameOrFewer(w: World, w': World) {
    forall p :: p in w'.procs ==>
      && p in w.procs && w'.procs[p].serial == w.procs[p].serial && w'.procs[p].start == w.procs[p].start
      && (w'.procs[p].sid == w.procs[p].sid || (w'.procs[p].sid == p && !SessionInUse(w, p)))
  }

  /** Then no session is mixed and a running scan stays valid. */
  lemma CarriesOver(w: World, w': World)
    requires Inv(w) && SameHistory(w, w') && SameOrFewer(w, w')
    requires w.scan.Some? ==> w'.agentReaped == w.agentReaped
    requires forall p, q | p in w'.procs && q in w'.procs ::
                w'.procs[p].sid != w.procs[p].sid && w'.procs[q].sid != w.procs[q].sid ==> p == q
    ensures SessionInv(w') && ScanInv(w')
  {
    forall p, q ensures Mates(w', p, q) {
      assert Mates(w, p, q);
    }
    if w.scan.Some? {
      forall e | e in w.scan.value.table ensures EntryInv(w', w.scan.value.touched, e) {
        assert EntryInv(w, w.scan.value.touched, e);
      }
      forall e, f | e in w.scan.value.table && f in w.scan.value.table ensures PairInv(w', e, f) {
        assert PairInv(w, e, f);
      }
    }
  }

  lemma TickKeepsInv(w: World, step: Step)
    requires Inv(w) && step.Tick?
    ensures Inv(Apply(w, step))
  {
    CarriesOver(w, Apply(w, step));
  }

  lemma ExecKeepsInv(w: World, step: Step)
    requires Inv(w) && step.Exec? && Enabled(w, step)
    ensures Inv(Apply(w, step))
  {
    assert WorldInv(Apply(w, step));
    CarriesOver(w, Apply(w, step));
  }

  lemma SetUidKeepsInv(w: World, step: Step)
    requires Inv(w) && step.SetUid? && Enabled(w, step)
    ensures Inv(Apply(w, step))
  {
    assert WorldInv(Apply(w, step));
    CarriesOver(w, Apply(w, step));
  }

  /** A new session holds its creator alone. */
  lemma SetSidKeepsInv(w: World, step: Step)
    requires Inv(w) && step.SetSid? && Enabled(w, step)
    ensures Inv(Apply(w, step))
  {
    assert WorldInv(Apply(w, step));
    CarriesOver(w, Apply(w, step));
  }

  /** What is reaped has no children left. */
  lemma ReapKeepsInv(w: World, step: Step)
    requires Inv(w) && step.Reap? && Enabled(w, step)
    ensures Inv(Apply(w, step))
  {
    assert WorldInv(Apply(w, step));
    CarriesOver(w, Apply(w, step));
  }

  lemma LinksGoUp(w: World, pid: int)
    requires LinkInv(w) && pid in w.procs
    ensures w.procs[pid].ppid != pid || pid <= 1
  {
    if w.procs[pid].ppid == pid > 1 {
      assert LinkOk(w.procs, w.birth, pid, pid);
      DescendsIsLater(w.birth, w.procs[pid].serial, w.procs[pid].serial);
    }
  }

  /** Every child of an exiting process passes to a live process it also descends from, or to init. */
  lemma HeirIsAForebear(w: World, step: Step, q: int)
    requires LinkInv(w) && SessionInv(w) && step.Exit? && Enabled(w, step) && step.heir > 1
    requires q in w.procs && w.procs[q].ppid == step.pid
    ensures LinkOk(w.procs, w.birth, q, step.heir)
  {
    assert LinkOk(w.procs, w.birth, q, step.pid);
    DescendsThrough(w.birth, w.procs[q].serial, w.procs[step.pid].serial, w.procs[step.heir].serial);
    DescendsIsLater(w.birth, w.procs[q].serial, w.procs[step.heir].serial);
    assert Mates(w, step.heir, q);
  }

  lemma ExitKeepsLinks(w: World, step: Step)
    requires LinkInv(w) && SessionInv(w) && step.Exit? && Enabled(w, step)
    ensures LinkInv(Apply(w, step))
  {
    var w' := Apply(w, step);
    forall q | q in w'.procs && w'.procs[q].ppid > 1 ensures LinkOk(w'.procs, w'.birth, q, w'.procs[q].ppid) {
      if w.procs[q].ppid == step.pid && q != step.pid {
        HeirIsAForebear(w, step, q);
      } else {
        LinksGoUp(w, step.pid);
        assert LinkOk(w.procs, w.birth, q, w.procs[q].ppid);
      }
    }
  }

  lemma ExitKeepsRest(w: World, step: Step)
    requires WorldInv(w) && step.Exit? && Enabled(w, step)
    ensures var w' := Apply(w, step); IdentityInv(w') && RoleInv(w') && MarkerInv(w') && RecordInv(w')
  {
  }

  /** An exit takes no process away and moves none to another session. */
  lemma ExitMovesNoOne(w: World, step: Step)
    requires step.Exit? && Enabled(w, step)
    ensures var w' := Apply(w, step);
      && SameHistory(w, w') && SameOrFewer(w, w') && w'.agentReaped == w.agentReaped
      && forall p :: p in w'.procs ==> p in w.procs && w'.procs[p].sid == w.procs[p].sid
  {
  }

  lemma ExitCarriesOver(w: World, step: Step)
    requires Inv(w) && step.Exit? && Enabled(w, step)
    ensures SessionInv(Apply(w, step)) && ScanInv(Apply(w, step))
  {
    ExitMovesNoOne(w, step);
    CarriesOver(w, Apply(w, step));
  }

  lemma ExitKeepsInv(w: World, step: Step)
    requires Inv(w) && step.Exit? && Enabled(w, step)
    ensures Inv(Apply(w, step))
  {
    ExitKeepsLinks(w, step);
    ExitKeepsRest(w, step);
    ExitCarriesOver(w, step);
  }

  lemma ScanReadKeepsInv(w: World, step: Step)
    requires Inv(w) && step.ScanRead? && Enabled(w, step)
    ensures Inv(Apply(w, step))
  {
    var w' := Apply(w, step);
    var s := w.scan.value;
    var e := ReadEntry(step.pid, w.procs[step.pid], step.pgid, step.comm, s.withMarker);
    forall p, q ensures Mates(w', p, q) {
      assert Mates(w, p, q);
    }
    forall p | p in w.procs && w.procs[p].sid == e.sid != w.daemonSid
      ensures KinOf(w.birth, w.agentSerial, w.procs[p].serial) <==> KinOf(w.birth, w.agentSerial, Who(w.used, e))
    {
      assert Mates(w, p, step.pid);
    }
    assert Mates(w, e.sid, step.pid);
    assert EntryInv(w', s.touched, e);
    forall f | f in s.table ensures EntryInv(w', s.touched, f) && PairInv(w', e, f) && PairInv(w', f, e) {
      assert EntryInv(w, s.touched, f);
    }
    forall f, g | f in s.table && g in s.table ensures PairInv(w', f, g) {
      assert PairInv(w, f, g);
    }
  }

  lemma ScanBeginKeepsInv(w: World, step: Step)
    requires Inv(w) && step.ScanBegin?
    ensures Inv(Apply(w, step))
  {
    assert forall p, q :: Mates(w, p, q) ==> Mates(Apply(w, step), p, q);
  }

  lemma ScanEndKeepsInv(w: World, step: Step)
    requires Inv(w) && step.ScanEnd? && Enabled(w, step)
    ensures Inv(Apply(w, step))
  {
    assert forall p, q :: Mates(w, p, q) ==> Mates(Apply(w, step), p, q);
  }

  /** Following parent links down from the agent inside one scan meets only what the agent started. */
  lemma {:induction false} ChainIsDescent(w: World, path: seq<int>, e: ProcEntry)
    requires Inv(w) && w.scan.Some? && !w.agentReaped
    requires var t := w.scan.value.table; Chain(t, ByPid(t), path) && e in t
    requires |path| > 1 && path[0] == w.agentPid && path[|path| - 1] == e.pid
    ensures (e.pid, e.start) in w.used && Descends(w.birth, Who(w.used, e), w.agentSerial)
    ensures e.pid > 1
    decreases |path|
  {
    var t := w.scan.value.table;
    var up := path[|path| - 2];
    assert LinkedPid(t, ByPid(t), up, path[|path| - 1]);
    var link :| Linked(t, ByPid(t), up, link) && link.pid == e.pid;
    assert EntryInv(w, w.scan.value.touched, link) && PairInv(w, link, e);
    if |path| > 2 {
      assert LinkedPid(t, ByPid(t), path[|path| - 3], up);
      var parent :| Linked(t, ByPid(t), path[|path| - 3], parent) && parent.pid == up;
      ChainIsDescent(w, path[..|path| - 1], parent);
      assert PairInv(w, link, parent);
      DescendsThrough(w.birth, Who(w.used, link), Who(w.used, parent), w.agentSerial);
    }
  }

  lemma DescendantIsDescent(w: World, e: ProcEntry)
    requires Inv(w) && w.scan.Some? && !w.agentReaped && e in w.scan.value.table
    requires Descendant(w.scan.value.table, w.agentPid, e.pid)
    ensures (e.pid, e.start) in w.used && Descends(w.birth, Who(w.used, e), w.agentSerial)
  {
    var t := w.scan.value.table;
    var path :| ChainTo(t, ByPid(t), w.agentPid, e.pid, path);
    ChainIsDescent(w, path, e);
  }

  lemma RecordKeepsInv(w: World, step: Step)
    requires Inv(w) && step.Record? && Enabled(w, step)
    ensures Inv(Apply(w, step))
  {
    var w', t := Apply(w, step), w.scan.value.table;
    forall e | e in t && Descendant(t, w.agentPid, e.pid)
      ensures (e.pid, e.start) in w.used && Descends(w.birth, w.used[(e.pid, e.start)], w.agentSerial)
    {
      DescendantIsDescent(w, e);
    }
    assert RecordInv(w');
    assert forall p, q :: Mates(w, p, q) ==> Mates(w', p, q);
    forall e | e in t ensures EntryInv(w', w.scan.value.touched, e) {
      assert EntryInv(w, w.scan.value.touched, e);
    }
    forall e, f | e in t && f in t ensures PairInv(w', e, f) {
      assert PairInv(w, e, f);
    }
  }

  lemma StepKeepsInv(w: World, step: Step)
    requires Inv(w) && Enabled(w, step)
    ensures Inv(Apply(w, step))
  {
    match step
    case Tick => TickKeepsInv(w, step);
    case Exec(_, _, _) => ExecKeepsInv(w, step);
    case SetUid(_, _) => SetUidKeepsInv(w, step);
    case SetSid(_) => SetSidKeepsInv(w, step);
    case Exit(_, _) => ExitKeepsInv(w, step);
    case Reap(_) => ReapKeepsInv(w, step);
    case Fork(_, _) => ForkKeepsWorld(w, step); ForkKeepsSessions(w, step); ForkKeepsScan(w, step);
    case ScanBegin(_) => ScanBeginKeepsInv(w, step);
    case ScanRead(_, _, _) => ScanReadKeepsInv(w, step);
    case ScanEnd => ScanEndKeepsInv(w, step);
    case Record => RecordKeepsInv(w, step);
  }

  // ---- Runs ------------------------------------------------------------------

  /** The moment the agent was spawned: it alone is of the turn, it alone
    * carries the marker, and it shares the daemon's session. */
  ghost predicate Init(w: World) {
    && IdentityInv(w) && LinkInv(w) && RoleInv(w)
    && (forall p, q :: Orderly(w.procs, p, q))
    && !w.agentReaped && w.procs[w.agentPid].sid == w.daemonSid
    && (forall p :: p in w.procs && KinOf(w.birth, w.agentSerial, w.procs[p].serial) ==> p == w.agentPid)
    && (forall p :: p in w.procs ==> (w.procs[p].marker <==> p == w.agentPid))
    && w.recorded == {} && w.scan.None?
  }

  ghost predicate Legal(w: World, steps: seq<Step>)
    decreases |steps|
  {
    steps == [] || (Enabled(w, steps[0]) && Legal(Apply(w, steps[0]), steps[1..]))
  }

  ghost function After(w: World, steps: seq<Step>): World
    requires Legal(w, steps)
    decreases |steps|
  {
    if steps == [] then w else After(Apply(w, steps[0]), steps[1..])
  }

  lemma {:induction false} RunKeepsInv(w: World, steps: seq<Step>)
    requires Inv(w) && Legal(w, steps)
    ensures Inv(After(w, steps))
    decreases |steps|
  {
    if steps != [] {
      StepKeepsInv(w, steps[0]);
      RunKeepsInv(Apply(w, steps[0]), steps[1..]);
    }
  }

  lemma EveryRunKeepsInv(w: World, steps: seq<Step>)
    requires Init(w) && Legal(w, steps)
    ensures Inv(After(w, steps))
  {
    forall p, q ensures Mates(w, p, q) {
      assert Orderly(w.procs, p, q);
    }
    RunKeepsInv(w, steps);
  }

  // ---- Soundness ---------------------------------------------------------------

  /** Entry `e` was read from something the agent started. */
  predicate Started(w: World, e: ProcEntry) {
    (e.pid, e.start) in w.used && Descends(w.birth, w.used[(e.pid, e.start)], w.agentSerial)
  }

  lemma SeedIsStarted(w: World, pid: int)
    requires Inv(w) && w.scan.Some?
    requires var t := w.scan.value.table; IsSeed(t, ByPid(t), Input(w), pid)
    ensures Started(w, ByPid(w.scan.value.table)[pid])
  {
    var t := w.scan.value.table;
    var e := ByPid(t)[pid];
    if !w.agentReaped && Descendant(t, w.agentPid, pid) {
      DescendantIsDescent(w, e);
    } else {
      var f :| f in t && f.pid == pid && Evidence(f, Input(w));
      assert PairInv(w, e, f) && EntryInv(w, w.scan.value.touched, f) && EntryInv(w, w.scan.value.touched, e);
    }
  }

  lemma OwnedEntryIsStarted(w: World, e: ProcEntry)
    requires Inv(w) && w.scan.Some? && e in w.scan.value.table
    requires Owns(w.scan.value.table, Input(w), e)
    ensures Started(w, e)
  {
    var t := w.scan.value.table;
    var index := ByPid(t);
    assert EntryInv(w, w.scan.value.touched, e);
    if IsSeed(t, index, Input(w), e.pid) {
      SeedIsStarted(w, e.pid);
      assert PairInv(w, e, index[e.pid]);
    } else {
      var pid :| IsSeed(t, index, Input(w), pid) && index[pid].sid == e.sid;
      SeedIsStarted(w, pid);
      assert PairInv(w, e, index[pid]);
    }
  }

  lemma OwnedIsStarted(w: World, owned: seq<int>, pid: int) returns (e: ProcEntry)
    requires Inv(w) && w.scan.Some?
    requires IsOwnedList(w.scan.value.table, Input(w), owned) && pid in owned
    ensures e in w.scan.value.table && e.pid == pid && !NeverOwned(e, Input(w)) && Started(w, e)
    ensures pid in w.procs ==> w.procs[pid].serial == w.used[(e.pid, e.start)]
  {
    var t := w.scan.value.table;
    ListedIsOwned(t, Input(w), owned, pid);
    e :| e in t && Owns(t, Input(w), e) && e.pid == pid;
    OwnedEntryIsStarted(w, e);
    assert EntryInv(w, w.scan.value.touched, e);
  }

  /** In every run, whatever the daemon read and whenever it read it, a pid the
    * rule returns was read from a live process the agent started, is none of
    * the pids never owned, and still names that process if it names any. */
  lemma OwnershipIsSound(w0: World, steps: seq<Step>, owned: seq<int>, pid: int)
    requires Init(w0) && Legal(w0, steps)
    requires var w := After(w0, steps);
      w.scan.Some? && IsOwnedList(w.scan.value.table, Input(w), owned) && pid in owned
    ensures var w := After(w0, steps);
      && (exists e :: e in w.scan.value.table && e.pid == pid && !e.zombie && e.uid == w.uid && Started(w, e))
      && pid > 1 && pid != w.daemonPid && (pid == w.agentPid ==> w.agentReaped)
      && (pid in w.procs ==> Descends(w.birth, w.procs[pid].serial, w.agentSerial))
  {
    EveryRunKeepsInv(w0, steps);
    var e := OwnedIsStarted(After(w0, steps), owned, pid);
  }

  // ---- Completeness ------------------------------------------------------------

  /** No process of the turn drops the marker or becomes unreadable. */
  predicate KeepsMarker(w: World, step: Step) {
    step.Exec? && step.pid in w.procs && KinOf(w.birth, w.agentSerial, w.procs[step.pid].serial) ==>
      step.keepsEnv && step.nowReadable
  }

  ghost predicate Faithful(w: World, steps: seq<Step>)
    requires Legal(w, steps)
    decreases |steps|
  {
    steps == [] || (KeepsMarker(w, steps[0]) && Faithful(Apply(w, steps[0]), steps[1..]))
  }

  ghost predicate MarkedInv(w: World) {
    && (forall p :: p in w.procs && KinOf(w.birth, w.agentSerial, w.procs[p].serial) ==>
          p > 1 && w.procs[p].marker && w.procs[p].readable)
    && (w.scan.Some? && w.scan.value.withMarker ==>
          forall e :: e in w.scan.value.table && Started(w, e) ==> e.pid > 1 && (e.zombie || e.marker == Present))
  }

  lemma ForkKeepsMarked(w: World, step: Step)
    requires Inv(w) && MarkedInv(w) && step.Fork? && Enabled(w, step)
    ensures MarkedInv(Apply(w, step))
  {
    ForkDescent(w, step);
    if w.scan.Some? {
      forall e | e in w.scan.value.table ensures Started(Apply(w, step), e) <==> Started(w, e) {
        assert EntryInv(w, w.scan.value.touched, e);
      }
    }
  }

  lemma OtherStepKeepsMarked(w: World, step: Step)
    requires IdentityInv(w) && MarkedInv(w) && !step.Fork? && Enabled(w, step) && KeepsMarker(w, step)
    ensures MarkedInv(Apply(w, step))
  {
  }

  lemma StepKeepsMarked(w: World, step: Step)
    requires Inv(w) && MarkedInv(w) && Enabled(w, step) && KeepsMarker(w, step)
    ensures MarkedInv(Apply(w, step))
  {
    if step.Fork? {
      ForkKeepsMarked(w, step);
    } else {
      OtherStepKeepsMarked(w, step);
    }
  }

  lemma {:induction false} RunKeepsMarked(w: World, steps: seq<Step>)
    requires Inv(w) && MarkedInv(w) && Legal(w, steps) && Faithful(w, steps)
    ensures MarkedInv(After(w, steps))
    decreases |steps|
  {
    if steps != [] {
      StepKeepsInv(w, steps[0]);
      StepKeepsMarked(w, steps[0]);
      RunKeepsMarked(Apply(w, steps[0]), steps[1..]);
    }
  }

  lemma MarkedIsOwned(w: World, owned: seq<int>, e: ProcEntry)
    requires Inv(w) && MarkedInv(w)
    requires w.scan.Some? && w.scan.value.withMarker && UniquePids(w.scan.value.table)
    requires IsOwnedList(w.scan.value.table, Input(w), owned)
    requires e in w.scan.value.table && !e.zombie && e.uid == w.uid && Started(w, e)
    ensures e.pid in owned
  {
    var t := w.scan.value.table;
    assert EntryInv(w, w.scan.value.touched, e);
    DescendsIsLater(w.birth, Who(w.used, e), w.agentSerial);
    IndexIsExact(t, e);
    assert Evidence(e, Input(w)) && !NeverOwned(e, Input(w));
    assert Proven(t, Input(w), e.pid);
    assert Owns(t, Input(w), e);
    ListedIsOwned(t, Input(w), owned, e.pid);
  }

  /** In every run in which the turn keeps its environment, a scan with the
    * marker that saw a live same-uid process of the turn returns its pid:
    * reparented or not, in its own session or not, agent reaped or not. */
  lemma OwnershipIsComplete(w0: World, steps: seq<Step>, owned: seq<int>, e: ProcEntry)
    requires Init(w0) && w0.procs[w0.agentPid].readable && Legal(w0, steps) && Faithful(w0, steps)
    requires var w := After(w0, steps);
      && w.scan.Some? && w.scan.value.withMarker && UniquePids(w.scan.value.table)
      && IsOwnedList(w.scan.value.table, Input(w), owned)
      && e in w.scan.value.table && !e.zombie && e.uid == w.uid && Started(w, e)
    ensures e.pid in owned
  {
    EveryRunKeepsInv(w0, steps);
    assert Inv(w0) by { EveryRunKeepsInv(w0, []); }
    RunKeepsMarked(w0, steps);
    MarkedIsOwned(After(w0, steps), owned, e);
  }

  /** So a scan that saw every live process of the daemon's uid returns, of the
    * processes still alive, exactly the ones the agent started. */
  lemma OwnershipIsExact(w0: World, steps: seq<Step>, owned: seq<int>, pid: int)
    requires Init(w0) && w0.procs[w0.agentPid].readable && Legal(w0, steps) && Faithful(w0, steps)
    requires var w := After(w0, steps);
      && w.scan.Some? && w.scan.value.withMarker && UniquePids(w.scan.value.table)
      && IsOwnedList(w.scan.value.table, Input(w), owned)
      && Alive(w, pid) && w.procs[pid].uid == w.uid
      && exists e :: e in w.scan.value.table && e.pid == pid && !e.zombie && e.uid == w.uid
    ensures var w := After(w0, steps);
      pid in owned <==> Descends(w.birth, w.procs[pid].serial, w.agentSerial)
  {
    var w := After(w0, steps);
    EveryRunKeepsInv(w0, steps);
    var e :| e in w.scan.value.table && e.pid == pid && !e.zombie && e.uid == w.uid;
    assert EntryInv(w, w.scan.value.touched, e);
    if pid in owned {
      OwnershipIsSound(w0, steps, owned, pid);
    } else if Started(w, e) {
      OwnershipIsComplete(w0, steps, owned, e);
    }
  }

  // ---- Session mates ---------------------------------------------------------------

  /** Nothing of the turn has a pid or a session that the rule sets apart for init and
    * the kernel; and a marker is read off live processes only.
    */
  ghost predicate TurnInv(w: World) {
    && (forall p :: p in w.procs && KinOf(w.birth, w.agentSerial, w.procs[p].serial) ==>
          p > 1 && (w.procs[p].sid == w.daemonSid || w.procs[p].sid > 1))
    && (w.scan.Some? ==> forall e :: e in w.scan.value.table ==>
          && (Started(w, e) ==> e.pid > 1 && (e.sid == w.daemonSid || e.sid > 1))
          && (e.marker == Present ==> !e.zombie))
  }

  lemma ForkKeepsTurn(w: World, step: Step)
    requires Inv(w) && TurnInv(w) && step.Fork? && Enabled(w, step)
    ensures TurnInv(Apply(w, step))
  {
    ForkDescent(w, step);
    if w.scan.Some? {
      forall e | e in w.scan.value.table ensures Started(Apply(w, step), e) <==> Started(w, e) {
        assert EntryInv(w, w.scan.value.touched, e);
      }
    }
  }

  lemma OtherStepKeepsTurn(w: World, step: Step)
    requires IdentityInv(w) && TurnInv(w) && !step.Fork? && Enabled(w, step)
    ensures TurnInv(Apply(w, step))
  {
  }

  lemma {:induction false} RunKeepsTurn(w: World, steps: seq<Step>)
    requires Inv(w) && TurnInv(w) && Legal(w, steps)
    ensures TurnInv(After(w, steps))
    decreases |steps|
  {
    if steps != [] {
      StepKeepsInv(w, steps[0]);
      if steps[0].Fork? {
        ForkKeepsTurn(w, steps[0]);
      } else {
        OtherStepKeepsTurn(w, steps[0]);
      }
      RunKeepsTurn(Apply(w, steps[0]), steps[1..]);
    }
  }

  /** The agent is not listed in this session. */
  predicate AgentIsElsewhere(w: World, sid: int) {
    w.scan.Some? && forall a :: a in w.scan.value.table && a.pid == w.agentPid ==> w.agentReaped || a.sid != sid
  }

  /** A live process of the turn may be owned. */
  lemma StartedMayBeOwned(w: World, e: ProcEntry)
    requires Inv(w) && TurnInv(w) && w.scan.Some? && e in w.scan.value.table
    requires !e.zombie && e.uid == w.uid && Started(w, e)
    ensures e.pid > 1 && e.pid != w.daemonPid && Input(w).agent != Some(e.pid)
  {
    assert EntryInv(w, w.scan.value.touched, e);
    DescendsIsLater(w.birth, Who(w.used, e), w.agentSerial);
  }

  lemma MarkedIsStarted(w: World, s: ProcEntry)
    requires Inv(w) && w.scan.Some? && s in w.scan.value.table
    requires s.marker == Present && AgentIsElsewhere(w, s.sid)
    ensures Started(w, s)
  {
    assert EntryInv(w, w.scan.value.touched, s);
  }

  /** In every run a live same-uid process of the turn whose environment cannot be read is
    * returned all the same, if it is in a session with one that carries the marker and that
    * session is neither the daemon's nor, while the agent is listed, the agent's.
    */
  lemma UnreadableMateIsOwned(w0: World, steps: seq<Step>, owned: seq<int>, s: ProcEntry, e: ProcEntry)
    requires Init(w0) && Legal(w0, steps)
    requires var w := After(w0, steps);
      && w.scan.Some? && UniquePids(w.scan.value.table) && IsOwnedList(w.scan.value.table, Input(w), owned)
      && s in w.scan.value.table && s.marker == Present && s.uid == w.uid
      && e in w.scan.value.table && e.marker == Unreadable && !e.zombie && e.uid == w.uid && Started(w, e)
      && e.sid == s.sid != w.daemonSid && AgentIsElsewhere(w, e.sid)
    ensures e.pid in owned
  {
    var w := After(w0, steps);
    EveryRunKeepsInv(w0, steps);
    assert Inv(w0) by { EveryRunKeepsInv(w0, []); }
    RunKeepsTurn(w0, steps);
    MarkedIsStarted(w, s);
    StartedMayBeOwned(w, s);
    StartedMayBeOwned(w, e);
    SessionMatesAreOwned(w.scan.value.table, Input(w), owned, s, e);
  }

  // ---- A record outlives the agent ----------------------------------------------

  /** A daemon (pid 10) and the agent (pid 20) it has just spawned. */
  const Example := World(
    map[10 := Proc(1, 10, 0, 0, false, false, true, 0), 20 := Proc(10, 10, 0, 0, false, true, true, 1)],
    0, map[1 := 0], 2, map[(10, 0) := 0, (20, 0) := 1], 20, 1, false, 10, 0, 10, 0, {}, None)

  lemma ExampleIsInitial()
    ensures Init(Example)
  {
    assert Descends(Example.birth, 1, 0);
  }

  ghost predicate Follows(w: World, step: Step, next: World) {
    Enabled(w, step) && Apply(w, step) == next
  }

  /** A run told world by world. */
  lemma {:induction false} RunFollows(worlds: seq<World>, steps: seq<Step>)
    requires |worlds| == |steps| + 1
    requires forall k :: 0 <= k < |steps| ==> Follows(worlds[k], steps[k], worlds[k + 1])
    ensures Legal(worlds[0], steps) && After(worlds[0], steps) == worlds[|steps|]
    decreases |steps|
  {
    if steps != [] {
      assert Follows(worlds[0], steps[0], worlds[1]);
      forall k | 0 <= k < |steps[1..]| ensures Follows(worlds[1..][k], steps[1..][k], worlds[1..][k + 1]) {
        assert Follows(worlds[k + 1], steps[k + 1], worlds[k + 2]);
      }
      RunFollows(worlds[1..], steps[1..]);
    }
  }

  /** The child is recorded in a first scan; the agent exits and is reaped; a second scan sees the orphan. */
  const Outlived := [
    Fork(20, 30), ScanBegin(false), ScanRead(30, 30, "sh"), Record, ScanEnd,
    Exit(20, 1), Reap(20), ScanBegin(false), ScanRead(30, 30, "sh")]

  const FirstRead := ProcEntry(30, 20, 30, 10, 0, 0, false, "sh", NotChecked)
  const OrphanRead := ProcEntry(30, 1, 30, 10, 0, 0, false, "sh", NotChecked)

  /** The example once the agent has a child, 30. */
  function WithChild(scan: Option<Scan>): World {
    Example.(
      procs := Example.procs[30 := Proc(20, 10, 0, 0, false, true, true, 2)],
      birth := map[1 := 0, 2 := 1], nextSerial := 3, used := Example.used[(30, 0) := 2],
      scan := scan)
  }

  function Recorded(): World {
    WithChild(None).(recorded := {(30, 0)})
  }

  /** And once the agent is gone. */
  function Orphaned(scan: Option<Scan>): World {
    Recorded().(
      procs := map[10 := Example.procs[10], 30 := Proc(1, 10, 0, 0, false, true, true, 2)],
      agentReaped := true, scan := scan)
  }

  lemma FirstReadIsDescendant()
    ensures Descendant([FirstRead], 20, 30)
  {
    var t := [FirstRead];
    assert t[0] == FirstRead;
    IndexIsExact(t, FirstRead);
    assert Linked(t, ByPid(t), 20, FirstRead);
    assert LinkedPid(t, ByPid(t), 20, 30);
    assert ChainTo(t, ByPid(t), 20, 30, [20, 30]);
  }

  lemma AgentForks()
    ensures Follows(Example, Fork(20, 30), WithChild(None))
  {
    assert Apply(Example, Fork(20, 30)).birth == map[1 := 0, 2 := 1];
  }

  lemma ChildIsRead(used: set<int>)
    ensures Follows(WithChild(Some(Scan([], false, used))), ScanRead(30, 30, "sh"),
                    WithChild(Some(Scan([FirstRead], false, used))))
  {
    assert [] + [FirstRead] == [FirstRead];
  }

  lemma ChildIsRecorded(scan: Scan)
    requires scan.table == [FirstRead]
    ensures Follows(WithChild(Some(scan)), Record, Recorded().(scan := Some(scan)))
  {
    FirstReadIsDescendant();
    assert [FirstRead][0] == FirstRead;
  }

  lemma AgentGoes() returns (w: World)
    ensures Follows(Recorded(), Exit(20, 1), w) && Follows(w, Reap(20), Orphaned(None))
  {
    w := Apply(Recorded(), Exit(20, 1));
    assert Apply(w, Reap(20)).procs == Orphaned(None).procs;
  }

  lemma OrphanIsRead(used: set<int>)
    ensures Follows(Orphaned(Some(Scan([], false, used))), ScanRead(30, 30, "sh"),
                    Orphaned(Some(Scan([OrphanRead], false, used))))
  {
    assert [] + [OrphanRead] == [OrphanRead];
  }

  lemma ScanComesAndGoes(w: World)
    ensures Follows(w, ScanBegin(false), w.(scan := Some(Scan([], false, InUse(w)))))
    ensures w.scan.Some? ==> Follows(w, ScanEnd, w.(scan := None))
  {
  }

  /** Nine worlds after a first, each by the next step. */
  lemma NineSteps(w: World, steps: seq<Step>, a: World, b: World, c: World, d: World, e: World, f: World, g: World, h: World, i: World)
    requires |steps| == 9
    requires Follows(w, steps[0], a) && Follows(a, steps[1], b) && Follows(b, steps[2], c)
    requires Follows(c, steps[3], d) && Follows(d, steps[4], e) && Follows(e, steps[5], f)
    requires Follows(f, steps[6], g) && Follows(g, steps[7], h) && Follows(h, steps[8], i)
    ensures Legal(w, steps) && After(w, steps) == i
  {
    RunFollows([w, a, b, c, d, e, f, g, h, i], steps);
  }

  lemma FirstScan() returns (b: World, c: World, d: World)
    ensures Follows(Example, Outlived[0], WithChild(None)) && Follows(WithChild(None), Outlived[1], b)
    ensures Follows(b, Outlived[2], c) && Follows(c, Outlived[3], d) && Follows(d, Outlived[4], Recorded())
  {
    var used := InUse(WithChild(None));
    var read := Scan([FirstRead], false, used);
    b, c, d := WithChild(Some(Scan([], false, used))), WithChild(Some(read)), Recorded().(scan := Some(read));
    AgentForks();
    ScanComesAndGoes(WithChild(None));
    ChildIsRead(used);
    ChildIsRecorded(read);
    ScanComesAndGoes(d);
  }

  lemma LastScan() returns (f: World, h: World, used: set<int>)
    ensures Follows(Recorded(), Outlived[5], f) && Follows(f, Outlived[6], Orphaned(None))
    ensures Follows(Orphaned(None), Outlived[7], h)
    ensures Follows(h, Outlived[8], Orphaned(Some(Scan([OrphanRead], false, used))))
  {
    f := AgentGoes();
    used := InUse(Orphaned(None));
    h := Orphaned(Some(Scan([], false, used)));
    ScanComesAndGoes(Orphaned(None));
    OrphanIsRead(used);
  }

  lemma OutlivedRun() returns (used: set<int>)
    ensures Legal(Example, Outlived)
    ensures After(Example, Outlived) == Orphaned(Some(Scan([OrphanRead], false, used)))
  {
    var b, c, d := FirstScan();
    var f, h;
    f, h, used := LastScan();
    NineSteps(Example, Outlived, WithChild(None), b, c, d, Recorded(), f, Orphaned(None), h,
              Orphaned(Some(Scan([OrphanRead], false, used))));
  }

  lemma OrphanIsOwned(owned: seq<int>)
    requires IsOwnedList([OrphanRead], OwnershipInput(None, {(30, 0)}, 10, 10, 0), owned)
    ensures 30 in owned
  {
    var t, input := [OrphanRead], OwnershipInput(None, {(30, 0)}, 10, 10, 0);
    assert t[0] == OrphanRead;
    IndexIsExact(t, OrphanRead);
    assert Owns(t, input, OrphanRead);
    ListedIsOwned(t, input, owned, 30);
  }

  /** Rule (b) at work: in a legal run in which the agent was reaped after its
    * child was recorded, the child, an orphan in the daemon's own session read
    * without its marker, is still returned.
    */
  lemma RecordOutlivesTheAgent(owned: seq<int>)
    requires IsOwnedList([OrphanRead], OwnershipInput(None, {(30, 0)}, 10, 10, 0), owned)
    ensures Init(Example) && Legal(Example, Outlived)
    ensures var w := After(Example, Outlived);
      && w.agentReaped && w.recorded == {(30, 0)}
      && w.scan.Some? && w.scan.value.table == [OrphanRead]
      && Input(w) == OwnershipInput(None, {(30, 0)}, 10, 10, 0)
      && 30 in owned && 30 in w.procs && Descends(w.birth, w.procs[30].serial, w.agentSerial)
  {
    ExampleIsInitial();
    var used := OutlivedRun();
    OrphanIsOwned(owned);
  }

  // ---- Why a scan must not see a pid change hands ------------------------------

  /** The kernel's rules alone, without the assumption that no pid in use earlier
    * in a running scan is given out again. */
  predicate EnabledLoosely(w: World, step: Step) {
    if step.Fork? && w.scan.Some? then Enabled(w.(scan := Some(w.scan.value.(touched := {}))), step)
    else Enabled(w, step)
  }

  ghost predicate LegalLoosely(w: World, steps: seq<Step>)
    decreases |steps|
  {
    steps == [] || (EnabledLoosely(w, steps[0]) && LegalLoosely(ApplyLoosely(w, steps[0]), steps[1..]))
  }

  ghost function ApplyLoosely(w: World, step: Step): World
    requires EnabledLoosely(w, step)
  {
    if step.Fork? && w.scan.Some? then
      Apply(w.(scan := Some(w.scan.value.(touched := {}))), step)
    else Apply(w, step)
  }

  ghost function AfterLoosely(w: World, steps: seq<Step>): World
    requires LegalLoosely(w, steps)
    decreases |steps|
  {
    if steps == [] then w else AfterLoosely(ApplyLoosely(w, steps[0]), steps[1..])
  }

  lemma {:induction false} RunsJoin(w: World, a: seq<Step>, b: seq<Step>)
    requires LegalLoosely(w, a) && LegalLoosely(AfterLoosely(w, a), b)
    ensures LegalLoosely(w, a + b) && AfterLoosely(w, a + b) == AfterLoosely(AfterLoosely(w, a), b)
    decreases |a|
  {
    if a == [] {
      assert a + b == b;
    } else {
      assert (a + b)[1..] == a[1..] + b;
      RunsJoin(ApplyLoosely(w, a[0]), a[1..], b);
    }
  }

  /** The pid changes hands in the middle of a scan: 30 is read while it is the
    * agent's child, dies, is given to a child of the daemon, and that child's
    * own child 40 is read after it. */
  const ReadOnce := [Fork(20, 30), ScanBegin(false), ScanRead(30, 30, "sh")]
  const Dies := [Exit(30, 1), Reap(30), Tick]
  const Reused := [Fork(10, 30), Fork(30, 40), ScanRead(40, 40, "other")]

  const LastRead := ProcEntry(40, 30, 40, 10, 0, 1, false, "other", NotChecked)

  lemma {:induction false} ThreeSteps(w: World, a: Step, b: Step, c: Step, w1: World, w2: World)
    requires EnabledLoosely(w, a) && w1 == ApplyLoosely(w, a)
    requires EnabledLoosely(w1, b) && w2 == ApplyLoosely(w1, b)
    requires EnabledLoosely(w2, c)
    ensures LegalLoosely(w, [a, b, c]) && AfterLoosely(w, [a, b, c]) == ApplyLoosely(w2, c)
  {
    assert [a, b, c][1..] == [b, c] && [b, c][1..] == [c] && [c][1..] == [];
    assert LegalLoosely(w2, [c]) && AfterLoosely(w2, [c]) == ApplyLoosely(w2, c);
    assert LegalLoosely(w1, [b, c]) && AfterLoosely(w1, [b, c]) == AfterLoosely(w2, [c]);
  }

  lemma ReadOnceRun() returns (w: World)
    ensures LegalLoosely(Example, ReadOnce) && w == AfterLoosely(Example, ReadOnce)
    ensures w == Example.(
      procs := Example.procs[30 := Proc(20, 10, 0, 0, false, true, true, 2)],
      birth := map[1 := 0, 2 := 1], nextSerial := 3, used := Example.used[(30, 0) := 2],
      scan := w.scan)
    ensures w.scan.Some? && w.scan.value.table == [FirstRead] && !w.scan.value.withMarker
  {
    var w1 := ApplyLoosely(Example, ReadOnce[0]);
    var w2 := ApplyLoosely(w1, ReadOnce[1]);
    w := ApplyLoosely(w2, ReadOnce[2]);
    ThreeSteps(Example, ReadOnce[0], ReadOnce[1], ReadOnce[2], w1, w2);
  }

  lemma DiesRun(w0: World) returns (w: World)
    requires w0 == WithChild(w0.scan) && w0.scan.Some?
    ensures LegalLoosely(w0, Dies) && w == AfterLoosely(w0, Dies)
    ensures w == w0.(procs := Example.procs, clock := 1)
  {
    var w1 := ApplyLoosely(w0, Dies[0]);
    var w2 := ApplyLoosely(w1, Dies[1]);
    w := ApplyLoosely(w2, Dies[2]);
    assert w2.procs == Example.procs;
    ThreeSteps(w0, Dies[0], Dies[1], Dies[2], w1, w2);
  }

  /** The daemon's new child takes pid 30. */
  lemma TakeOver(w0: World)
    requires w0.scan.Some? && w0 == WithChild(w0.scan).(procs := Example.procs, clock := 1)
    ensures EnabledLoosely(w0, Reused[0])
    ensures var w1 := ApplyLoosely(w0, Reused[0]);
      && w1.procs == Example.procs[30 := Proc(10, 10, 0, 1, false, false, true, 3)]
      && w1 == w0.(procs := w1.procs, birth := map[1 := 0, 2 := 1, 3 := 0], nextSerial := 4,
                   used := w0.used[(30, 1) := 3], scan := w1.scan)
      && w1.scan == Some(w0.scan.value.(touched := {30}))
  {
    var w1 := ApplyLoosely(w0, Reused[0]);
    assert {} + {30} == {30};
    assert w1.birth == map[1 := 0, 2 := 1, 3 := 0];
  }

  /** And has a child of its own, 40. */
  lemma StrangersChild(w1: World) returns (w2: World)
    requires w1.scan.Some? && w1.procs == Example.procs[30 := Proc(10, 10, 0, 1, false, false, true, 3)]
    requires w1.clock == 1 && w1.nextSerial == 4 && w1.birth == map[1 := 0, 2 := 1, 3 := 0]
    requires w1.used == Example.used[(30, 0) := 2][(30, 1) := 3]
    ensures EnabledLoosely(w1, Fork(30, 40)) && w2 == ApplyLoosely(w1, Fork(30, 40))
    ensures w2 == w1.(procs := w2.procs, birth := w2.birth, nextSerial := 5, used := w2.used, scan := w2.scan)
    ensures 40 in w2.procs && w2.procs[40] == Proc(30, 10, 0, 1, false, false, true, 4)
    ensures w2.birth == map[1 := 0, 2 := 1, 3 := 0, 4 := 3]
    ensures w2.scan.Some? && w2.scan.value.table == w1.scan.value.table && w2.scan.value.withMarker == w1.scan.value.withMarker
  {
    w2 := ApplyLoosely(w1, Fork(30, 40));
  }

  lemma ReusedRun(w0: World) returns (w: World)
    requires w0.scan.Some? && w0 == WithChild(w0.scan).(procs := Example.procs, clock := 1)
    requires w0.scan.value.table == [FirstRead] && !w0.scan.value.withMarker
    ensures LegalLoosely(w0, Reused) && w == AfterLoosely(w0, Reused)
    ensures w.scan.Some? && w.scan.value.table == [FirstRead, LastRead]
    ensures 40 in w.procs && w.procs[40].serial == 4 && w.birth == map[1 := 0, 2 := 1, 3 := 0, 4 := 3]
    ensures w.agentSerial == 1 && Input(w) == Input(Example)
  {
    TakeOver(w0);
    var w1 := ApplyLoosely(w0, Reused[0]);
    var w2 := StrangersChild(w1);
    w := ApplyLoosely(w2, Reused[2]);
    ThreeSteps(w0, Reused[0], Reused[1], Reused[2], w1, w2);
  }

  /** Without that assumption the rule is not sound: the start-time check does
    * not catch a parent pid that was reused before the child began, and a
    * process the agent never started is returned. */
  lemma HandoverAdoptsAStranger(owned: seq<int>)
    requires IsOwnedList([FirstRead, LastRead], Input(Example), owned)
    ensures var steps := ReadOnce + Dies + Reused;
      && Init(Example) && LegalLoosely(Example, steps)
      && var w := AfterLoosely(Example, steps);
      && w.scan.Some? && w.scan.value.table == [FirstRead, LastRead] && Input(w) == Input(Example)
      && 40 in owned && 40 in w.procs && !Descends(w.birth, w.procs[40].serial, w.agentSerial)
  {
    ExampleIsInitial();
    var w1 := ReadOnceRun();
    var w2 := DiesRun(w1);
    var w := ReusedRun(w2);
    RunsJoin(Example, ReadOnce, Dies);
    RunsJoin(Example, ReadOnce + Dies, Reused);
    StrangerIsOwned(owned);
    assert !Descends(w.birth, 3, 1);
  }

  lemma StrangerIsOwned(owned: seq<int>)
    requires IsOwnedList([FirstRead, LastRead], Input(Example), owned)
    ensures 40 in owned
  {
    var t := [FirstRead, LastRead];
    var index := ByPid(t);
    assert t[0] == FirstRead && t[1] == LastRead;
    IndexIsExact(t, FirstRead);
    IndexIsExact(t, LastRead);
    assert Linked(t, index, 20, FirstRead) && Linked(t, index, 30, LastRead);
    assert LinkedPid(t, index, 20, 30) && LinkedPid(t, index, 30, 40);
    assert ChainTo(t, index, 20, 40, [20, 30, 40]);
    assert Descendant(t, 20, 40);
    assert Owns(t, Input(Example), LastRead);
    ListedIsOwned(t, Input(Example), owned, 40);
  }
}
