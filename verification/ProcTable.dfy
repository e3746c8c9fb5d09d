/** The process table and the rule for which processes a turn started
  * (`chocofactoryd/src/proc_table.rs`).
  *
  * `Descendants` and `OwnedPids` are the loops of the source; each is proved
  * against a declarative reading of the rule, and the laws of the rule are
  * lemmas about that reading.
  */
module ProcTable {
  import opened Wrappers

  datatype MarkerStatus = Present | Absent | Unreadable | NotChecked

  datatype ProcEntry = ProcEntry(
    pid: int, ppid: int, pgid: int, sid: int, uid: nat, start: nat,
    zombie: bool, comm: string, marker: MarkerStatus)

  type Identity = (int, nat)

  datatype OwnershipInput = OwnershipInput(
    agent: Option<int>, recorded: set<Identity>, daemonPid: int, daemonSid: int, uid: nat)

  predicate NeverOwned(e: ProcEntry, input: OwnershipInput) {
    || e.pid <= 1
    || e.pid == input.daemonPid
    || e.zombie
    || e.uid != input.uid
    || Some(e.pid) == input.agent
  }

  predicate UniquePids(table: seq<ProcEntry>) {
    forall i, j :: 0 <= i < j < |table| ==> table[i].pid != table[j].pid
  }

  /** The pid index: a later entry for the same pid replaces an earlier one. */
  function ByPid(table: seq<ProcEntry>): (m: map<int, ProcEntry>)
    ensures forall e :: e in table ==> e.pid in m
    ensures forall pid :: pid in m ==> m[pid] in table && m[pid].pid == pid
  {
    if table == [] then map[]
    else
      var last := table[|table| - 1];
      ByPid(table[..|table| - 1])[last.pid := last]
  }

  // ---- Rule (a): descendants of the agent --------------------------------

  /** `e` names `parent` as its parent, and did not start before it. `index` is the pid index. */
  predicate Linked(table: seq<ProcEntry>, index: map<int, ProcEntry>, parent: int, e: ProcEntry) {
    && e in table
    && e.ppid == parent
    && (parent in index ==> index[parent].start <= e.start)
  }

  ghost predicate LinkedPid(table: seq<ProcEntry>, index: map<int, ProcEntry>, parent: int, pid: int) {
    exists e :: Linked(table, index, parent, e) && e.pid == pid
  }

  ghost predicate Chain(table: seq<ProcEntry>, index: map<int, ProcEntry>, path: seq<int>) {
    && path != []
    && forall i :: 0 <= i < |path| - 1 ==> LinkedPid(table, index, path[i], path[i + 1])
  }

  ghost predicate ChainTo(table: seq<ProcEntry>, index: map<int, ProcEntry>, agent: int, pid: int, path: seq<int>) {
    Chain(table, index, path) && path[0] == agent && path[|path| - 1] == pid
  }

  /** Some chain of parent links leads from the agent down to `pid`. */
  ghost predicate DescendantIn(table: seq<ProcEntry>, index: map<int, ProcEntry>, agent: int, pid: int) {
    pid != agent && exists path :: ChainTo(table, index, agent, pid, path)
  }

  ghost predicate Descendant(table: seq<ProcEntry>, agent: int, pid: int) {
    DescendantIn(table, ByPid(table), agent, pid)
  }

  ghost predicate NoDup(s: seq<int>) {
    forall i, j :: 0 <= i < j < |s| ==> s[i] != s[j]
  }

  function Kids(children: map<int, seq<ProcEntry>>, parent: int): seq<ProcEntry> {
    if parent in children then children[parent] else []
  }

  ghost predicate ChildIndex(table: seq<ProcEntry>, children: map<int, seq<ProcEntry>>) {
    forall p, e :: e in Kids(children, p) <==> e in table && e.ppid == p
  }

  lemma IndexOneMore(table: seq<ProcEntry>, children: map<int, seq<ProcEntry>>, e: ProcEntry)
    requires ChildIndex(table, children)
    ensures ChildIndex(table + [e], children[e.ppid := Kids(children, e.ppid) + [e]])
  {
    var after := children[e.ppid := Kids(children, e.ppid) + [e]];
    forall p, x ensures x in Kids(after, p) <==> x in table + [e] && x.ppid == p {
      assert x in Kids(children, p) <==> x in table && x.ppid == p;
      assert x in table + [e] <==> x in table || x == e;
      if p == e.ppid {
        assert Kids(after, p) == Kids(children, p) + [e];
      } else {
        assert Kids(after, p) == Kids(children, p);
      }
    }
  }

  method IndexChildren(table: seq<ProcEntry>) returns (children: map<int, seq<ProcEntry>>)
    ensures ChildIndex(table, children)
  {
    children := map[];
    for i := 0 to |table|
      invariant ChildIndex(table[..i], children)
    {
      var e := table[i];
      IndexOneMore(table[..i], children, e);
      assert table[..i + 1] == table[..i] + [e];
      children := children[e.ppid := Kids(children, e.ppid) + [e]];
    }
    assert table[..|table|] == table;
  }

  lemma ChainSnoc(table: seq<ProcEntry>, index: map<int, ProcEntry>, agent: int, parent: int, pid: int)
    requires parent == agent || DescendantIn(table, index, agent, parent)
    requires LinkedPid(table, index, parent, pid)
    requires pid != agent
    ensures DescendantIn(table, index, agent, pid)
  {
    var path: seq<int> :=
      if parent == agent then [agent] else (var p :| ChainTo(table, index, agent, parent, p); p);
    assert ChainTo(table, index, agent, pid, path + [pid]);
  }

  /** A set holding the agent and closed under links holds every descendant. */
  lemma ClosedHoldsDescendants(table: seq<ProcEntry>, index: map<int, ProcEntry>, agent: int, seen: set<int>, path: seq<int>)
    requires agent in seen
    requires forall p, pid :: p in seen && LinkedPid(table, index, p, pid) ==> pid in seen
    requires Chain(table, index, path) && path[0] == agent
    ensures path[|path| - 1] in seen
    decreases |path|
  {
    if |path| > 1 {
      var shorter := path[..|path| - 1];
      ClosedHoldsDescendants(table, index, agent, seen, shorter);
      assert LinkedPid(table, index, path[|path| - 2], path[|path| - 1]);
    }
  }

  function PidsOf(table: seq<ProcEntry>): set<int> { set e | e in table :: e.pid }

  ghost predicate Expanded(table: seq<ProcEntry>, index: map<int, ProcEntry>, seen: set<int>, parent: int) {
    forall e :: Linked(table, index, parent, e) ==> e.pid in seen
  }

  /** Everything the loop has found so far. */
  ghost predicate Found(table: seq<ProcEntry>, index: map<int, ProcEntry>, agent: int, found: seq<int>, seen: set<int>, queue: seq<int>) {
    && NoDup(found)
    && (forall p :: p in seen <==> p == agent || p in found)
    && seen <= PidsOf(table) + {agent}
    && (forall p :: p in queue ==> p in seen)
    && (forall p :: p in found ==> DescendantIn(table, index, agent, p))
  }

  lemma FoundOne(table: seq<ProcEntry>, index: map<int, ProcEntry>, agent: int, found: seq<int>, seen: set<int>, queue: seq<int>,
                 parent: int, child: ProcEntry)
    requires Found(table, index, agent, found, seen, queue)
    requires parent in seen && child.pid !in seen
    requires Linked(table, index, parent, child)
    ensures Found(table, index, agent, found + [child.pid], seen + {child.pid}, queue + [child.pid])
    ensures forall p :: p in seen && Expanded(table, index, seen, p) ==> Expanded(table, index, seen + {child.pid}, p)
  {
    assert LinkedPid(table, index, parent, child.pid);
    ChainSnoc(table, index, agent, parent, child.pid);
  }

  /** Every popped pid other than `pending` has had its children visited. */
  ghost predicate AllExpanded(table: seq<ProcEntry>, index: map<int, ProcEntry>, seen: set<int>, queue: seq<int>,
                              pending: Option<int>) {
    forall p :: p in seen && p !in queue && Some(p) != pending ==> Expanded(table, index, seen, p)
  }

  /** The body of the worklist loop: visits the children of one popped pid. */
  method VisitChildren(table: seq<ProcEntry>, index: map<int, ProcEntry>, agent: int, parent: int, kids: seq<ProcEntry>,
                       found0: seq<int>, seen0: set<int>, queue0: seq<int>)
    returns (found: seq<int>, seen: set<int>, queue: seq<int>)
    requires forall e :: e in kids <==> e in table && e.ppid == parent
    requires parent in seen0 && Found(table, index, agent, found0, seen0, queue0)
    requires AllExpanded(table, index, seen0, queue0, Some(parent))
    ensures Found(table, index, agent, found, seen, queue)
    ensures AllExpanded(table, index, seen, queue, None)
    ensures seen0 <= seen && (seen == seen0 ==> queue == queue0)
  {
    found, seen, queue := found0, seen0, queue0;
    for k := 0 to |kids|
      invariant Found(table, index, agent, found, seen, queue)
      invariant AllExpanded(table, index, seen, queue, Some(parent))
      invariant forall i :: 0 <= i < k && Linked(table, index, parent, kids[i]) ==> kids[i].pid in seen
      invariant seen0 <= seen && (seen == seen0 ==> queue == queue0)
    {
      var child := kids[k];
      if parent in index && child.start < index[parent].start {
        continue;
      }
      if child.pid !in seen {
        FoundOne(table, index, agent, found, seen, queue, parent, child);
        seen := seen + {child.pid};
        found := found + [child.pid];
        queue := queue + [child.pid];
      }
    }
    assert Expanded(table, index, seen, parent);
  }

  method Worklist(table: seq<ProcEntry>, index: map<int, ProcEntry>, children: map<int, seq<ProcEntry>>, agent: int)
    returns (found: seq<int>)
    requires ChildIndex(table, children)
    ensures NoDup(found)
    ensures forall pid :: pid in found <==> DescendantIn(table, index, agent, pid)
  {
    ghost var all := PidsOf(table) + {agent};
    found := [];
    var seen := {agent};
    var queue := [agent];
    while queue != []
      invariant Found(table, index, agent, found, seen, queue)
      invariant AllExpanded(table, index, seen, queue, None)
      invariant seen <= all
      decreases all - seen, |queue|
    {
      var parent := queue[|queue| - 1];
      var kids := Kids(children, parent);
      found, seen, queue := VisitChildren(table, index, agent, parent, kids, found, seen, queue[..|queue| - 1]);
    }
    forall pid | DescendantIn(table, index, agent, pid) ensures pid in found {
      var path :| ChainTo(table, index, agent, pid, path);
      ClosedHoldsDescendants(table, index, agent, seen, path);
    }
  }

  method Descendants(table: seq<ProcEntry>, agent: int) returns (found: seq<int>)
    ensures NoDup(found)
    ensures forall pid :: pid in found <==> Descendant(table, agent, pid)
  {
    var children := IndexChildren(table);
    found := Worklist(table, ByPid(table), children, agent);
  }

  // ---- The ownership rule -------------------------------------------------

  /** Rules (a), (b) and (c), short of the "never owned" guard. */
  ghost predicate Proven(table: seq<ProcEntry>, input: OwnershipInput, pid: int) {
    || (input.agent.Some? && Descendant(table, input.agent.value, pid))
    || (exists e :: e in table && e.pid == pid && Evidence(e, input))
  }

  /** Rules (b) and (c) read off one entry. */
  predicate Evidence(e: ProcEntry, input: OwnershipInput) {
    (e.pid, e.start) in input.recorded || e.marker == Present
  }

  ghost predicate IsSeed(table: seq<ProcEntry>, index: map<int, ProcEntry>, input: OwnershipInput, pid: int) {
    pid in index && !NeverOwned(index[pid], input) && Proven(table, input, pid)
  }

  /** Sessions the closure never applies to. */
  predicate ExcludedSession(index: map<int, ProcEntry>, input: OwnershipInput, sid: int) {
    || sid == 0 || sid == 1 || sid == input.daemonSid
    || (input.agent.Some? && input.agent.value in index && index[input.agent.value].sid == sid)
  }

  ghost predicate SeedSession(table: seq<ProcEntry>, index: map<int, ProcEntry>, input: OwnershipInput, sid: int) {
    && !ExcludedSession(index, input, sid)
    && exists pid :: IsSeed(table, index, input, pid) && index[pid].sid == sid
  }

  /** The whole rule for one entry. */
  ghost predicate Owns(table: seq<ProcEntry>, input: OwnershipInput, e: ProcEntry) {
    var index := ByPid(table);
    && !NeverOwned(e, input)
    && (IsSeed(table, index, input, e.pid) || SeedSession(table, index, input, e.sid))
  }

  /** The pids of the owned entries of `rest`, in table order. */
  ghost function OwnedOf(table: seq<ProcEntry>, input: OwnershipInput, rest: seq<ProcEntry>): (pids: seq<int>)
    ensures forall p :: p in pids <==> exists e :: e in rest && Owns(table, input, e) && e.pid == p
  {
    if rest == [] then []
    else
      var last := rest[|rest| - 1];
      OwnedOf(table, input, rest[..|rest| - 1]) + (if Owns(table, input, last) then [last.pid] else [])
  }

  predicate Ascending(s: seq<int>) {
    forall i, j :: 0 <= i < j < |s| ==> s[i] <= s[j]
  }

  ghost predicate IsOwnedList(table: seq<ProcEntry>, input: OwnershipInput, owned: seq<int>) {
    Ascending(owned) && multiset(owned) == multiset(OwnedOf(table, input, table))
  }

  function Insert(x: int, s: seq<int>): (r: seq<int>)
    requires Ascending(s)
    ensures Ascending(r) && multiset(r) == multiset(s) + multiset{x}
    ensures r != [] && (r[0] == x || (s != [] && r[0] == s[0]))
  {
    if s == [] then [x]
    else if x <= s[0] then [x] + s
    else
      assert s == [s[0]] + s[1..];
      [s[0]] + Insert(x, s[1..])
  }

  function Sorted(s: seq<int>): (r: seq<int>)
    ensures Ascending(r) && multiset(r) == multiset(s)
  {
    if s == [] then []
    else
      assert s == [s[0]] + s[1..];
      Insert(s[0], Sorted(s[1..]))
  }

  method CollectSeeds(table: seq<ProcEntry>, index: map<int, ProcEntry>, input: OwnershipInput)
    returns (seeds: set<int>)
    ensures forall p :: p in seeds <==> IsSeed(table, index, input, p)
  {
    seeds := {};
    if input.agent.Some? {
      var found := Descendants(table, input.agent.value);
      seeds := set p | p in found;
    }
    ghost var below := seeds;
    for i := 0 to |table|
      invariant forall p :: p in seeds <==>
                            p in below || exists j :: 0 <= j < i && table[j].pid == p && Evidence(table[j], input)
    {
      if Evidence(table[i], input) {
        seeds := seeds + {table[i].pid};
      }
    }
    assert forall p :: p in seeds <==> Proven(table, input, p);
    seeds := set p | p in seeds && p in index && !NeverOwned(index[p], input);
  }

  method OwnedPids(table: seq<ProcEntry>, input: OwnershipInput) returns (owned: seq<int>)
    ensures IsOwnedList(table, input, owned)
    ensures UniquePids(table) ==> ListsOurs(table, input, owned)
  {
    var index := ByPid(table);
    var seeds := CollectSeeds(table, index, input);
    var sessions := set p | p in seeds && !ExcludedSession(index, input, index[p].sid) :: index[p].sid;
    assert forall s :: s in sessions <==> SeedSession(table, index, input, s);
    owned := [];
    for i := 0 to |table|
      invariant owned == OwnedOf(table, input, table[..i])
    {
      var e := table[i];
      assert table[..i + 1][..i] == table[..i];
      assert (e.pid in seeds || e.sid in sessions) && !NeverOwned(e, input) <==> Owns(table, input, e);
      if !NeverOwned(e, input) && (e.pid in seeds || e.sid in sessions) {
        owned := owned + [e.pid];
      }
    }
    assert table[..|table|] == table;
    owned := Sorted(owned);
    if UniquePids(table) {
      OwnedByTheTable(table, input, owned);
    }
  }

  // ---- Laws of the rule ----------------------------------------------------

  lemma IndexIsExact(table: seq<ProcEntry>, e: ProcEntry)
    requires UniquePids(table) && e in table
    ensures ByPid(table)[e.pid] == e
  {
  }

  lemma {:induction false} OwnedOfStrict(table: seq<ProcEntry>, input: OwnershipInput, rest: seq<ProcEntry>)
    requires UniquePids(rest)
    ensures NoDup(OwnedOf(table, input, rest))
  {
    if rest != [] {
      var init, last := rest[..|rest| - 1], rest[|rest| - 1];
      OwnedOfStrict(table, input, init);
      assert forall e :: e in init ==> e.pid != last.pid;
      assert last.pid !in OwnedOf(table, input, init);
    }
  }

  /** Equal multisets repeat the same elements. */
  lemma {:induction false} NoDupByCount(s: seq<int>)
    ensures NoDup(s) <==> forall x :: multiset(s)[x] <= 1
  {
    if s != [] {
      var init, last := s[..|s| - 1], s[|s| - 1];
      assert s == init + [last];
      NoDupByCount(init);
      if NoDup(s) {
        assert NoDup(init) && last !in init;
      } else if NoDup(init) {
        var i, j :| 0 <= i < j < |s| && s[i] == s[j];
        assert last in init;
        assert multiset(s)[last] >= 2;
      } else {
        var x :| multiset(init)[x] > 1;
        assert multiset(s)[x] > 1;
      }
    }
  }

  /** One ascending sequence without repeats per set of members. */
  lemma {:induction false} StrictIsUnique(a: seq<int>, b: seq<int>)
    requires Ascending(a) && NoDup(a) && Ascending(b) && NoDup(b)
    requires forall x :: x in a <==> x in b
    ensures a == b
  {
    var x := if a != [] then a[0] else if b != [] then b[0] else 0;
    assert x in a <==> x in b;
    if a != [] && b != [] {
      assert b[0] in b && b[0] in a;
      forall x ensures x in a[1..] <==> x in b[1..] {
        assert x in a[1..] <==> x in a && x != a[0];
        assert x in b[1..] <==> x in b && x != b[0];
      }
      StrictIsUnique(a[1..], b[1..]);
      assert a == [a[0]] + a[1..] && b == [b[0]] + b[1..];
    }
  }

  lemma ListedIsOwned(table: seq<ProcEntry>, input: OwnershipInput, owned: seq<int>, pid: int)
    requires IsOwnedList(table, input, owned)
    ensures pid in owned <==> exists e :: e in table && Owns(table, input, e) && e.pid == pid
  {
    var all := OwnedOf(table, input, table);
    assert pid in owned <==> pid in multiset(owned);
    assert pid in all <==> pid in multiset(all);
  }

  /** The result is fixed by which entries the rule owns. */
  lemma SameRuleSameList(t1: seq<ProcEntry>, in1: OwnershipInput, l1: seq<int>,
                         t2: seq<ProcEntry>, in2: OwnershipInput, l2: seq<int>)
    requires UniquePids(t1) && IsOwnedList(t1, in1, l1)
    requires UniquePids(t2) && IsOwnedList(t2, in2, l2)
    requires forall e :: (e in t1 && Owns(t1, in1, e)) <==> (e in t2 && Owns(t2, in2, e))
    ensures l1 == l2
  {
    OwnedOfStrict(t1, in1, t1);
    OwnedOfStrict(t2, in2, t2);
    NoDupByCount(l1);
    NoDupByCount(l2);
    NoDupByCount(OwnedOf(t1, in1, t1));
    NoDupByCount(OwnedOf(t2, in2, t2));
    var o1, o2 := OwnedOf(t1, in1, t1), OwnedOf(t2, in2, t2);
    forall x ensures x in l1 <==> x in l2 {
      assert x in l1 <==> x in multiset(l1);
      assert x in o1 <==> x in multiset(o1);
      assert x in l2 <==> x in multiset(l2);
      assert x in o2 <==> x in multiset(o2);
    }
    StrictIsUnique(l1, l2);
  }

  /** A longer memory of recorded identities never disowns a process. */
  lemma RuleIsMonotone(table: seq<ProcEntry>, input: OwnershipInput, more: set<Identity>, e: ProcEntry)
    requires Owns(table, input, e)
    ensures Owns(table, input.(recorded := input.recorded + more), e)
  {
    var index, bigger := ByPid(table), input.(recorded := input.recorded + more);
    forall pid | IsSeed(table, index, input, pid) ensures IsSeed(table, index, bigger, pid) {
    }
  }

  ghost function OwnedIdentities(table: seq<ProcEntry>, input: OwnershipInput): set<Identity> {
    set e | e in table && Owns(table, input, e) :: (e.pid, e.start)
  }

  /** Recording everything the rule returned, and asking again, returns the same processes. */
  lemma RuleIsClosed(table: seq<ProcEntry>, input: OwnershipInput, first: seq<int>, second: seq<int>)
    requires UniquePids(table)
    requires IsOwnedList(table, input, first)
    requires IsOwnedList(table, input.(recorded := input.recorded + OwnedIdentities(table, input)), second)
    ensures first == second
  {
    var index := ByPid(table);
    var again := input.(recorded := input.recorded + OwnedIdentities(table, input));
    forall pid | IsSeed(table, index, again, pid) ensures Owns(table, input, index[pid]) {
      var e := index[pid];
      assert UniquePids(table) && e in table;
      if !Proven(table, input, pid) {
        var w :| w in table && w.pid == pid && Evidence(w, again);
        assert w == e;
        assert !Evidence(w, input);
        assert (w.pid, w.start) in OwnedIdentities(table, input);
      }
    }
    forall sid | SeedSession(table, index, again, sid) ensures SeedSession(table, index, input, sid) {
      var pid :| IsSeed(table, index, again, pid) && index[pid].sid == sid;
      assert Owns(table, input, index[pid]);
    }
    forall e | e in table ensures Owns(table, again, e) <==> Owns(table, input, e) {
      IndexIsExact(table, e);
      if Owns(table, input, e) {
        RuleIsMonotone(table, input, OwnedIdentities(table, input), e);
      }
    }
    SameRuleSameList(table, input, first, table, again, second);
  }

  lemma {:induction false} PidsByCount(t: seq<ProcEntry>, e: ProcEntry)
    requires UniquePids(t)
    ensures multiset(t)[e] <= 1
  {
    if t != [] {
      assert t == t[..|t| - 1] + [t[|t| - 1]];
      PidsByCount(t[..|t| - 1], e);
    }
  }

  lemma UniqueUnderPermutation(t1: seq<ProcEntry>, t2: seq<ProcEntry>)
    requires UniquePids(t1) && multiset(t1) == multiset(t2)
    ensures UniquePids(t2)
    ensures forall e :: e in t1 <==> e in t2
  {
    forall e ensures e in t1 <==> e in t2 {
      assert e in t1 <==> e in multiset(t1);
      assert e in t2 <==> e in multiset(t2);
    }
    forall i, j | 0 <= i < j < |t2| ensures t2[i].pid != t2[j].pid {
      if t2[i] == t2[j] {
        assert t2 == t2[..j] + t2[j..];
        assert t2[i] in t2[..j] && t2[j] in t2[j..];
        assert multiset(t2)[t2[i]] >= 2;
        PidsByCount(t1, t2[i]);
      } else {
        assert t2[i] in t1 && t2[j] in t1;
      }
    }
  }

  lemma PermutedIndex(t1: seq<ProcEntry>, t2: seq<ProcEntry>)
    requires UniquePids(t1) && UniquePids(t2)
    requires forall e :: e in t1 <==> e in t2
    ensures ByPid(t1) == ByPid(t2)
  {
    var m1, m2 := ByPid(t1), ByPid(t2);
    assert forall e :: e in t1 ==> e.pid in m1 && e.pid in m2;
    assert m1.Keys == m2.Keys;
    forall p | p in m1 ensures m1[p] == m2[p] {
      IndexIsExact(t2, m1[p]);
    }
  }

  lemma PermutedDescendant(t1: seq<ProcEntry>, t2: seq<ProcEntry>, index: map<int, ProcEntry>, agent: int, pid: int)
    requires forall e :: e in t1 <==> e in t2
    requires DescendantIn(t1, index, agent, pid)
    ensures DescendantIn(t2, index, agent, pid)
  {
    var path :| ChainTo(t1, index, agent, pid, path);
    forall i | 0 <= i < |path| - 1 ensures LinkedPid(t2, index, path[i], path[i + 1]) {
      assert LinkedPid(t1, index, path[i], path[i + 1]);
      var e :| Linked(t1, index, path[i], e) && e.pid == path[i + 1];
      assert Linked(t2, index, path[i], e);
    }
    assert ChainTo(t2, index, agent, pid, path);
  }

  /** The order in which the table was read does not matter. */
  lemma OrderDoesNotMatter(t1: seq<ProcEntry>, t2: seq<ProcEntry>, input: OwnershipInput, l1: seq<int>, l2: seq<int>)
    requires UniquePids(t1) && multiset(t1) == multiset(t2)
    requires IsOwnedList(t1, input, l1) && IsOwnedList(t2, input, l2)
    ensures l1 == l2
  {
    UniqueUnderPermutation(t1, t2);
    PermutedIndex(t1, t2);
    var index := ByPid(t1);
    forall pid ensures Proven(t1, input, pid) <==> Proven(t2, input, pid) {
      if input.agent.Some? && Descendant(t1, input.agent.value, pid) {
        PermutedDescendant(t1, t2, index, input.agent.value, pid);
      }
      if input.agent.Some? && Descendant(t2, input.agent.value, pid) {
        PermutedDescendant(t2, t1, index, input.agent.value, pid);
      }
    }
    assert forall pid :: IsSeed(t1, index, input, pid) <==> IsSeed(t2, index, input, pid);
    SameRuleSameList(t1, input, l1, t2, input, l2);
  }

  // ---- The rule in the words of the table -----------------------------------------

  /** Alive, of the daemon's user, and neither init, the daemon nor the agent. */
  predicate MayBeOwned(e: ProcEntry, input: OwnershipInput) {
    e.pid > 1 && e.pid != input.daemonPid && !e.zombie && e.uid == input.uid && input.agent != Some(e.pid)
  }

  /** `line` leads down from a child of the agent: each entry names the one before it as
    * its parent and started at its start or later, and so does the first of the agent.
    */
  ghost predicate Lineage(table: seq<ProcEntry>, agent: int, line: seq<ProcEntry>) {
    && line != [] && (forall i :: 0 <= i < |line| ==> line[i] in table)
    && line[0].ppid == agent && (forall a :: a in table && a.pid == agent ==> a.start <= line[0].start)
    && forall i :: 0 < i < |line| ==> line[i].ppid == line[i - 1].pid && line[i - 1].start <= line[i].start
  }

  ghost predicate DescendsInTable(table: seq<ProcEntry>, agent: int, e: ProcEntry) {
    exists line :: Lineage(table, agent, line) && line[|line| - 1] == e
  }

  /** The marker in its environment, an identity recorded before, or a line down from the agent. */
  ghost predicate ShownToBeOurs(table: seq<ProcEntry>, input: OwnershipInput, e: ProcEntry) {
    || e.marker == Present || (e.pid, e.start) in input.recorded
    || (input.agent.Some? && DescendsInTable(table, input.agent.value, e))
  }

  /** Not the session of the kernel, of init, of the daemon, or of the agent while it is listed. */
  predicate SessionOfItsOwn(table: seq<ProcEntry>, input: OwnershipInput, sid: int) {
    && sid != 0 && sid != 1 && sid != input.daemonSid
    && forall a :: a in table && input.agent == Some(a.pid) ==> a.sid != sid
  }

  /** Some process shown to be the turn's is in the same session. */
  ghost predicate SharesASession(table: seq<ProcEntry>, input: OwnershipInput, e: ProcEntry) {
    && SessionOfItsOwn(table, input, e.sid)
    && exists s :: s in table && s.sid == e.sid && MayBeOwned(s, input) && ShownToBeOurs(table, input, s)
  }

  ghost predicate OursByTheTable(table: seq<ProcEntry>, input: OwnershipInput, e: ProcEntry) {
    MayBeOwned(e, input) && (ShownToBeOurs(table, input, e) || SharesASession(table, input, e))
  }

  lemma LinkedToListed(table: seq<ProcEntry>, parent: ProcEntry, e: ProcEntry)
    requires UniquePids(table) && parent in table && e in table
    ensures Linked(table, ByPid(table), parent.pid, e) <==> e.ppid == parent.pid && parent.start <= e.start
  {
    IndexIsExact(table, parent);
  }

  lemma LinkedToAgent(table: seq<ProcEntry>, agent: int, e: ProcEntry)
    requires UniquePids(table) && e in table
    ensures Linked(table, ByPid(table), agent, e) <==> Lineage(table, agent, [e])
  {
    assert [e][0] == e;
    forall a | a in table && a.pid == agent ensures ByPid(table)[agent] == a {
      IndexIsExact(table, a);
    }
  }

  lemma LineageGrows(table: seq<ProcEntry>, agent: int, line: seq<ProcEntry>, e: ProcEntry)
    requires line != [] && e in table
    ensures Lineage(table, agent, line + [e]) <==>
      Lineage(table, agent, line) && e.ppid == line[|line| - 1].pid && line[|line| - 1].start <= e.start
  {
    var longer := line + [e];
    assert longer[|line|] == e && forall i :: 0 <= i < |line| ==> longer[i] == line[i];
  }

  lemma PathGrows(table: seq<ProcEntry>, index: map<int, ProcEntry>, agent: int, parent: int, e: ProcEntry, path: seq<int>)
    requires ChainTo(table, index, agent, parent, path) && Linked(table, index, parent, e)
    ensures ChainTo(table, index, agent, e.pid, path + [e.pid])
  {
    assert LinkedPid(table, index, parent, e.pid);
  }

  lemma {:induction false} LineageIsAChain(table: seq<ProcEntry>, agent: int, line: seq<ProcEntry>) returns (path: seq<int>)
    requires UniquePids(table) && Lineage(table, agent, line)
    ensures ChainTo(table, ByPid(table), agent, line[|line| - 1].pid, path)
    decreases |line|
  {
    var before, last := line[..|line| - 1], line[|line| - 1];
    assert line == before + [last];
    if before == [] {
      LinkedToAgent(table, agent, last);
      PathGrows(table, ByPid(table), agent, agent, last, [agent]);
      path := [agent] + [last.pid];
    } else {
      LineageGrows(table, agent, before, last);
      path := LineageIsAChain(table, agent, before);
      LinkedToListed(table, before[|before| - 1], last);
      PathGrows(table, ByPid(table), agent, before[|before| - 1].pid, last, path);
      path := path + [last.pid];
    }
  }

  lemma ChainShrinks(table: seq<ProcEntry>, index: map<int, ProcEntry>, path: seq<int>) returns (e: ProcEntry)
    requires |path| > 1 && Chain(table, index, path)
    ensures Chain(table, index, path[..|path| - 1])
    ensures Linked(table, index, path[|path| - 2], e) && e.pid == path[|path| - 1]
  {
    assert LinkedPid(table, index, path[|path| - 2], path[|path| - 1]);
    e :| Linked(table, index, path[|path| - 2], e) && e.pid == path[|path| - 1];
  }

  lemma {:induction false} ChainIsALineage(table: seq<ProcEntry>, agent: int, path: seq<int>) returns (line: seq<ProcEntry>)
    requires UniquePids(table) && |path| > 1 && Chain(table, ByPid(table), path) && path[0] == agent
    ensures Lineage(table, agent, line) && line[|line| - 1].pid == path[|path| - 1]
    decreases |path|
  {
    var e := ChainShrinks(table, ByPid(table), path);
    if |path| == 2 {
      LinkedToAgent(table, agent, e);
      line := [e];
    } else {
      line := ChainIsALineage(table, agent, path[..|path| - 1]);
      LinkedToListed(table, line[|line| - 1], e);
      LineageGrows(table, agent, line, e);
      line := line + [e];
    }
  }

  lemma DescendantsByLineage(table: seq<ProcEntry>, agent: int, e: ProcEntry)
    requires UniquePids(table) && e in table && e.pid != agent
    ensures Descendant(table, agent, e.pid) <==> DescendsInTable(table, agent, e)
  {
    if Descendant(table, agent, e.pid) {
      var path :| ChainTo(table, ByPid(table), agent, e.pid, path);
      var line := ChainIsALineage(table, agent, path);
      IndexIsExact(table, e);
      IndexIsExact(table, line[|line| - 1]);
    }
    if DescendsInTable(table, agent, e) {
      var line :| Lineage(table, agent, line) && line[|line| - 1] == e;
      var path := LineageIsAChain(table, agent, line);
    }
  }

  lemma SeedsByTheTable(table: seq<ProcEntry>, input: OwnershipInput, e: ProcEntry)
    requires UniquePids(table) && e in table
    ensures IsSeed(table, ByPid(table), input, e.pid) <==> MayBeOwned(e, input) && ShownToBeOurs(table, input, e)
  {
    IndexIsExact(table, e);
    if input.agent.Some? && e.pid != input.agent.value {
      DescendantsByLineage(table, input.agent.value, e);
    }
    if exists f :: f in table && f.pid == e.pid && Evidence(f, input) {
      var f :| f in table && f.pid == e.pid && Evidence(f, input);
      IndexIsExact(table, f);
    }
  }

  lemma SessionsByTheTable(table: seq<ProcEntry>, input: OwnershipInput, e: ProcEntry)
    requires UniquePids(table)
    ensures SeedSession(table, ByPid(table), input, e.sid) <==> SharesASession(table, input, e)
  {
    var index := ByPid(table);
    assert ExcludedSession(index, input, e.sid) <==> !SessionOfItsOwn(table, input, e.sid) by {
      forall a | a in table ensures index[a.pid] == a {
        IndexIsExact(table, a);
      }
    }
    forall pid | IsSeed(table, index, input, pid) && index[pid].sid == e.sid
      ensures MayBeOwned(index[pid], input) && ShownToBeOurs(table, input, index[pid])
    {
      SeedsByTheTable(table, input, index[pid]);
    }
    forall s | s in table && s.sid == e.sid && MayBeOwned(s, input) && ShownToBeOurs(table, input, s)
      ensures IsSeed(table, index, input, s.pid) && index[s.pid] == s
    {
      SeedsByTheTable(table, input, s);
      IndexIsExact(table, s);
    }
  }

  lemma OwnsByTheTable(table: seq<ProcEntry>, input: OwnershipInput, e: ProcEntry)
    requires UniquePids(table) && e in table
    ensures Owns(table, input, e) <==> OursByTheTable(table, input, e)
  {
    SeedsByTheTable(table, input, e);
    SessionsByTheTable(table, input, e);
  }

  /** The whole answer, read off the entries: ascending, each pid once, and no others. */
  ghost predicate ListsOurs(table: seq<ProcEntry>, input: OwnershipInput, owned: seq<int>) {
    && (forall i, j :: 0 <= i < j < |owned| ==> owned[i] < owned[j])
    && forall pid :: pid in owned <==> exists e :: e in table && e.pid == pid && OursByTheTable(table, input, e)
  }

  lemma OwnedByTheTable(table: seq<ProcEntry>, input: OwnershipInput, owned: seq<int>)
    requires UniquePids(table) && IsOwnedList(table, input, owned)
    ensures ListsOurs(table, input, owned)
  {
    OwnedOfStrict(table, input, table);
    NoDupByCount(OwnedOf(table, input, table));
    NoDupByCount(owned);
    forall e | e in table ensures Owns(table, input, e) <==> OursByTheTable(table, input, e) {
      OwnsByTheTable(table, input, e);
    }
    forall pid ensures pid in owned <==> exists e :: e in table && e.pid == pid && OursByTheTable(table, input, e) {
      ListedIsOwned(table, input, owned, pid);
    }
  }

  /** What shares a session with a process shown to be the turn's is returned with it,
    * marker or not, whoever its parent is, and whether the agent is listed or not.
    */
  lemma SessionMatesAreOwned(table: seq<ProcEntry>, input: OwnershipInput, owned: seq<int>, s: ProcEntry, e: ProcEntry)
    requires UniquePids(table) && IsOwnedList(table, input, owned)
    requires s in table && e in table && e.sid == s.sid
    requires s.pid > 1 && s.pid != input.daemonPid && !s.zombie && s.uid == input.uid && input.agent != Some(s.pid)
    requires e.pid > 1 && e.pid != input.daemonPid && !e.zombie && e.uid == input.uid && input.agent != Some(e.pid)
    requires s.marker == Present || (s.pid, s.start) in input.recorded
          || (input.agent.Some? && DescendsInTable(table, input.agent.value, s))
    requires e.sid != 0 && e.sid != 1 && e.sid != input.daemonSid
    requires forall a :: a in table && input.agent == Some(a.pid) ==> a.sid != e.sid
    ensures s.pid in owned && e.pid in owned
  {
    assert ShownToBeOurs(table, input, s) && SharesASession(table, input, e);
    OwnedByTheTable(table, input, owned);
  }
}
