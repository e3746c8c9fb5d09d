/** Watching a task by polling it (`choco/src/watch.rs`). */
module Watch {
  import opened Wrappers

  /** A `stage_entered` event; a time is a number, or missing. */
  datatype TrailEntry = TrailEntry(id: string, stage: string, outcome: Option<string>, at: Option<int>)

  datatype Snapshot = Snapshot(status: string, stuckReason: Option<string>, stage: Option<string>,
                               stageKind: Option<string>, trail: seq<TrailEntry>)

  datatype Change =
    | Stage(from: Option<string>, to: string, outcome: Option<string>, at: Option<int>)
    | Status(was: string, now: string, reason: Option<string>)
    | Reason(status: string, reason: Option<string>)

  // ---- What changed between two polls ----------------------------------------------------

  function Ids(trail: seq<TrailEntry>): set<string> {
    set e | e in trail :: e.id
  }

  /** The hop that entry `i` records. */
  function HopAt(trail: seq<TrailEntry>, i: nat): Change
    requires i < |trail|
  {
    Stage(if i == 0 then None else Some(trail[i - 1].stage), trail[i].stage, trail[i].outcome, trail[i].at)
  }

  /** The hops of the first `k` entries that are not among those seen. */
  function NewHops(seen: set<string>, trail: seq<TrailEntry>, k: nat): seq<Change>
    requires k <= |trail|
  {
    if k == 0 then []
    else NewHops(seen, trail, k - 1) + if trail[k - 1].id in seen then [] else [HopAt(trail, k - 1)]
  }

  predicate LeadsTo(hops: seq<Change>, stage: string) {
    exists i :: 0 <= i < |hops| && hops[i].Stage? && hops[i].to == stage
  }

  /** The stage moved, and no new entry says so. */
  predicate Unexplained(prev: Snapshot, next: Snapshot, hops: seq<Change>) {
    prev.stage != next.stage && next.stage.Some? && !LeadsTo(hops, next.stage.value)
  }

  function StageChanges(prev: Snapshot, next: Snapshot): seq<Change> {
    var hops := NewHops(Ids(prev.trail), next.trail, |next.trail|);
    if Unexplained(prev, next, hops) then hops + [Stage(prev.stage, next.stage.value, None, None)] else hops
  }

  function StatusChanges(prev: Snapshot, next: Snapshot): seq<Change> {
    if prev.status != next.status then [Status(prev.status, next.status, next.stuckReason)]
    else if prev.stuckReason != next.stuckReason then [Reason(next.status, next.stuckReason)]
    else []
  }

  function ChangesOf(prev: Snapshot, next: Snapshot): seq<Change> {
    StageChanges(prev, next) + StatusChanges(prev, next)
  }

  /** A move is always told: by the hop that led there or, where no new entry says so, by itself. */
  lemma MovesAreTold(prev: Snapshot, next: Snapshot)
    requires prev.stage != next.stage && next.stage.Some?
    ensures exists c :: c in ChangesOf(prev, next) && c.Stage? && c.to == next.stage.value
  {
    var hops, to := NewHops(Ids(prev.trail), next.trail, |next.trail|), next.stage.value;
    if LeadsTo(hops, to) {
      var i :| 0 <= i < |hops| && hops[i].Stage? && hops[i].to == to;
      assert hops[i] in hops;
      assert hops[i] in ChangesOf(prev, next);
    } else {
      assert Stage(prev.stage, to, None, None) in StageChanges(prev, next);
      assert Stage(prev.stage, to, None, None) in ChangesOf(prev, next);
    }
  }

  method Changes(prev: Snapshot, next: Snapshot) returns (out: seq<Change>)
    ensures out == ChangesOf(prev, next)
  {
    var seen := set e | e in prev.trail :: e.id;
    out := [];
    for i := 0 to |next.trail|
      invariant out == NewHops(Ids(prev.trail), next.trail, i)
    {
      var entry := next.trail[i];
      if entry.id in seen {
        continue;
      }
      var from := if i > 0 then Some(next.trail[i - 1].stage) else None;
      out := out + [Stage(from, entry.stage, entry.outcome, entry.at)];
    }
    if prev.stage != next.stage && next.stage.Some? {
      var to := next.stage.value;
      if forall c :: c in out ==> !(c.Stage? && c.to == to) {
        out := out + [Stage(prev.stage, to, None, None)];
      } else {
        assert LeadsTo(out, to);
      }
    }
    if prev.status != next.status {
      out := out + [Status(prev.status, next.status, next.stuckReason)];
    } else if prev.stuckReason != next.stuckReason {
      out := out + [Reason(next.status, next.stuckReason)];
    }
  }

  // ---- How often it is polled does not matter ------------------------------------------------

  ghost predicate DistinctIds(trail: seq<TrailEntry>) {
    forall i, j :: 0 <= i < j < |trail| ==> trail[i].id != trail[j].id
  }

  /** As the engine records: entering a stage appends its entry, so the last one is the current stage. */
  ghost predicate Recorded(s: Snapshot) {
    DistinctIds(s.trail)
    && s.stage == if s.trail == [] then None else Some(s.trail[|s.trail| - 1].stage)
  }

  /** `next` is a later look at the same task. */
  ghost predicate Follows(prev: Snapshot, next: Snapshot) {
    Recorded(prev) && Recorded(next) && prev.trail <= next.trail
  }

  /** The hops of entries `i` up to `k`. */
  function Hops(trail: seq<TrailEntry>, i: nat, k: nat): (hops: seq<Change>)
    requires i <= k <= |trail|
    ensures |hops| == k - i
    decreases k
  {
    if i == k then [] else Hops(trail, i, k - 1) + [HopAt(trail, k - 1)]
  }

  lemma {:induction false} HopsFrom(trail: seq<TrailEntry>, i: nat, k: nat, j: nat)
    requires i <= j < k <= |trail|
    ensures Hops(trail, i, k)[j - i] == HopAt(trail, j)
    decreases k
  {
    if j < k - 1 {
      HopsFrom(trail, i, k - 1, j);
    }
  }

  lemma {:induction false} HopsOfPrefix(a: seq<TrailEntry>, b: seq<TrailEntry>, i: nat, k: nat)
    requires a <= b && i <= k <= |a|
    ensures Hops(a, i, k) == Hops(b, i, k)
    decreases k
  {
    if i < k {
      HopsOfPrefix(a, b, i, k - 1);
      assert HopAt(a, k - 1) == HopAt(b, k - 1);
    }
  }

  lemma {:induction false} HopsJoin(trail: seq<TrailEntry>, i: nat, j: nat, k: nat)
    requires i <= j <= k <= |trail|
    ensures Hops(trail, i, j) + Hops(trail, j, k) == Hops(trail, i, k)
    decreases k
  {
    if j < k {
      HopsJoin(trail, i, j, k - 1);
    }
  }

  lemma SeenUpTo(prev: seq<TrailEntry>, trail: seq<TrailEntry>, i: nat)
    requires prev <= trail && DistinctIds(trail) && i < |trail|
    ensures trail[i].id in Ids(prev) <==> i < |prev|
  {
    if i < |prev| {
      assert prev[i] == trail[i] && prev[i] in prev;
    } else {
      forall e | e in prev ensures e.id != trail[i].id {
        var j :| 0 <= j < |prev| && prev[j] == e;
        assert trail[j] == e;
      }
    }
  }

  lemma OneMoreHop(seen: set<string>, trail: seq<TrailEntry>, k: nat, n: nat)
    requires 0 < k <= |trail| && (trail[k - 1].id in seen <==> k <= n)
    requires NewHops(seen, trail, k - 1) == if k - 1 <= n then [] else Hops(trail, n, k - 1)
    ensures NewHops(seen, trail, k) == if k <= n then [] else Hops(trail, n, k)
  {
  }

  lemma {:induction false} NewHopsFrom(seen: set<string>, trail: seq<TrailEntry>, n: nat, k: nat)
    requires k <= |trail| && forall i :: 0 <= i < |trail| ==> (trail[i].id in seen <==> i < n)
    ensures NewHops(seen, trail, k) == if k <= n then [] else Hops(trail, n, k)
  {
    if k > 0 {
      NewHopsFrom(seen, trail, n, k - 1);
      OneMoreHop(seen, trail, k, n);
    }
  }

  lemma NewHopsAreTheRest(prev: seq<TrailEntry>, trail: seq<TrailEntry>)
    requires prev <= trail && DistinctIds(trail)
    ensures NewHops(Ids(prev), trail, |trail|) == Hops(trail, |prev|, |trail|)
  {
    forall i | 0 <= i < |trail| ensures trail[i].id in Ids(prev) <==> i < |prev| {
      SeenUpTo(prev, trail, i);
    }
    NewHopsFrom(Ids(prev), trail, |prev|, |trail|);
  }

  /** Between two looks at a task the stage changes are the hops of the entries in
    * between, and the unexplained move is never reported.
    */
  lemma StageChangesAreNewHops(prev: Snapshot, next: Snapshot)
    requires Follows(prev, next)
    ensures StageChanges(prev, next) == Hops(next.trail, |prev.trail|, |next.trail|)
  {
    var i, k := |prev.trail|, |next.trail|;
    NewHopsAreTheRest(prev.trail, next.trail);
    var hops := NewHops(Ids(prev.trail), next.trail, k);
    if i < k {
      HopsFrom(next.trail, i, k, k - 1);
      assert hops[k - 1 - i].to == next.stage.value;
      assert LeadsTo(hops, next.stage.value);
    } else {
      assert prev.trail == next.trail;
    }
  }

  /** The stage changes of poll after poll, put together. */
  function StageLog(seen: seq<Snapshot>): seq<Change>
    requires seen != []
  {
    if |seen| == 1 then []
    else StageLog(seen[..|seen| - 1]) + StageChanges(seen[|seen| - 2], seen[|seen| - 1])
  }

  ghost predicate Chain(seen: seq<Snapshot>) {
    forall i :: 0 < i < |seen| ==> Follows(seen[i - 1], seen[i])
  }

  lemma ChainBefore(seen: seq<Snapshot>)
    requires |seen| > 1 && Chain(seen)
    ensures Chain(seen[..|seen| - 1]) && Follows(seen[|seen| - 2], seen[|seen| - 1])
  {
    var before := seen[..|seen| - 1];
    forall i | 0 < i < |before| ensures Follows(before[i - 1], before[i]) {
      assert Follows(seen[i - 1], seen[i]);
    }
  }

  lemma {:induction false} ChainGrows(seen: seq<Snapshot>)
    requires seen != [] && Chain(seen) && Recorded(seen[0])
    ensures Follows(seen[0], seen[|seen| - 1])
  {
    if |seen| > 1 {
      ChainBefore(seen);
      ChainGrows(seen[..|seen| - 1]);
    }
  }

  lemma OneMoreLook(first: Snapshot, mid: Snapshot, last: Snapshot)
    requires Follows(first, mid) && Follows(mid, last)
    ensures |first.trail| <= |last.trail|
    ensures Hops(mid.trail, |first.trail|, |mid.trail|) + StageChanges(mid, last)
         == Hops(last.trail, |first.trail|, |last.trail|)
  {
    var a, b, c := first.trail, mid.trail, last.trail;
    StageChangesAreNewHops(mid, last);
    HopsOfPrefix(b, c, |a|, |b|);
    HopsJoin(c, |a|, |b|, |c|);
  }

  lemma LogStep(seen: seq<Snapshot>, before: seq<Snapshot>, first: Snapshot, mid: Snapshot, last: Snapshot)
    requires |seen| > 1 && before == seen[..|seen| - 1] && mid == seen[|seen| - 2] && last == seen[|seen| - 1]
    requires Follows(first, mid) && Follows(mid, last)
    requires StageLog(before) == Hops(mid.trail, |first.trail|, |mid.trail|)
    ensures |first.trail| <= |last.trail| && StageLog(seen) == Hops(last.trail, |first.trail|, |last.trail|)
  {
    OneMoreLook(first, mid, last);
  }

  lemma {:induction false} LogIsTheHops(seen: seq<Snapshot>)
    requires seen != [] && Chain(seen) && Recorded(seen[0])
    ensures |seen[0].trail| <= |seen[|seen| - 1].trail|
    ensures StageLog(seen) == Hops(seen[|seen| - 1].trail, |seen[0].trail|, |seen[|seen| - 1].trail|)
  {
    if |seen| > 1 {
      var before := seen[..|seen| - 1];
      ChainBefore(seen);
      ChainGrows(before);
      LogIsTheHops(before);
      LogStep(seen, before, seen[0], seen[|seen| - 2], seen[|seen| - 1]);
    }
  }

  /** However the looks are spaced, what is reported in all is each entry after the first
    * look's, once, in order: the same as one look at the end reports.
    */
  lemma PollingOftenTellsNoMore(seen: seq<Snapshot>)
    requires seen != [] && Chain(seen) && Recorded(seen[0])
    ensures var first, last := seen[0], seen[|seen| - 1];
      && |first.trail| <= |last.trail|
      && StageLog(seen) == Hops(last.trail, |first.trail|, |last.trail|) == StageChanges(first, last)
  {
    LogIsTheHops(seen);
    ChainGrows(seen);
    StageChangesAreNewHops(seen[0], seen[|seen| - 1]);
  }

  // ---- Targets -----------------------------------------------------------------------------

  datatype Until = UntilStatus(status: string) | Attention | UntilStage(name: string)

  const OPEN := "open"
  const PAUSED := "paused"
  const STUCK := "stuck"
  const CLOSED := "closed"
  const CANCELLED := "cancelled"
  const HUMAN_GATE := "human_gate"

  predicate Entered(first: Snapshot, now: Snapshot, name: string) {
    exists i :: 0 <= i < |now.trail| && now.trail[i].stage == name && now.trail[i].id !in Ids(first.trail)
  }

  predicate Reached(target: Until, first: Snapshot, now: Snapshot) {
    match target
    case UntilStatus(s) => now.status == s
    case Attention => now.status == PAUSED || (now.status == OPEN && now.stageKind == Some(HUMAN_GATE))
    case UntilStage(name) => now.stage == Some(name) || Entered(first, now, name)
  }

  datatype WatchEnd = Arrived | GaveUpStuck | GaveUpCancelled | TimedOut | GaveUpClosed | GaveUpPaused

  /** Whether the task's state ends a watch. */
  function Outcome(target: Option<Until>, now: Snapshot): Option<WatchEnd> {
    if target.Some? && target.value.UntilStatus? && now.status == target.value.status then Some(Arrived)
    else if now.status == CLOSED then Some(if target.None? then Arrived else GaveUpClosed)
    else if now.status == CANCELLED then Some(GaveUpCancelled)
    else if now.status == PAUSED && target.Some? then Some(GaveUpPaused)
    else if now.status == STUCK && target.Some? then Some(GaveUpStuck)
    else None
  }

  function Check(target: Option<Until>, first: Snapshot, now: Snapshot): Option<WatchEnd> {
    if target.Some? && Reached(target.value, first, now) then Some(Arrived) else Outcome(target, now)
  }

  /** What a watch is for: a task that is closed, or in the status named; that needs a person,
    * being paused or open at a gate for one; or that is at the stage named, or has entered it
    * since the first look.
    */
  predicate Holds(target: Option<Until>, first: Snapshot, now: Snapshot) {
    match target
    case None => now.status == "closed"
    case Some(UntilStatus(s)) => now.status == s
    case Some(Attention) => now.status == "paused" || (now.status == "open" && now.stageKind == Some("human_gate"))
    case Some(UntilStage(name)) =>
      || now.stage == Some(name)
      || exists e :: e in now.trail && e.stage == name && forall f :: f in first.trail ==> f.id != e.id
  }

  lemma EnteredSince(first: Snapshot, now: Snapshot, name: string)
    ensures Entered(first, now, name) <==>
      exists e :: e in now.trail && e.stage == name && forall f :: f in first.trail ==> f.id != e.id
  {
    if Entered(first, now, name) {
      var i :| 0 <= i < |now.trail| && now.trail[i].stage == name && now.trail[i].id !in Ids(first.trail);
      assert now.trail[i] in now.trail;
    }
  }

  lemma HoldsWhenReached(target: Until, first: Snapshot, now: Snapshot)
    ensures Reached(target, first, now) <==> Holds(Some(target), first, now)
  {
    if target.UntilStage? {
      EnteredSince(first, now, target.name);
    }
  }

  lemma StatusesDiffer()
    ensures "closed" != "cancelled" && "closed" != "stuck" && "closed" != "paused"
    ensures "cancelled" != "stuck" && "cancelled" != "paused" && "stuck" != "paused"
  {
    assert |"closed"| == 6 && |"cancelled"| == 9 && |"stuck"| == 5 && |"paused"| == 6;
    assert "closed"[0] == 'c' && "paused"[0] == 'p';
  }

  /** How a look ends a watch, if it does: well exactly when what it is for holds; else given up,
    * and why. A task that is stuck or paused is given up only by a watch with a target.
    */
  predicate EndsAs(target: Option<Until>, first: Snapshot, now: Snapshot, end: Option<WatchEnd>) {
    && (end == Some(Arrived) <==> Holds(target, first, now))
    && (end == Some(GaveUpClosed) <==> !Holds(target, first, now) && target.Some? && now.status == "closed")
    && (end == Some(GaveUpCancelled) <==> !Holds(target, first, now) && now.status == "cancelled")
    && (end == Some(GaveUpStuck) <==> !Holds(target, first, now) && target.Some? && now.status == "stuck")
    && (end == Some(GaveUpPaused) <==> !Holds(target, first, now) && target.Some? && now.status == "paused")
    && end != Some(TimedOut)
  }

  lemma TargetComesFirst(target: Option<Until>, first: Snapshot, now: Snapshot)
    ensures EndsAs(target, first, now, Check(target, first, now))
  {
    StatusesDiffer();
    if target.Some? {
      HoldsWhenReached(target.value, first, now);
    }
  }

  /** A stage passed through between two looks is not missed. */
  lemma NoStageIsMissed(first: Snapshot, between: Snapshot, now: Snapshot, name: string)
    requires Follows(first, between) && Follows(between, now)
    requires Holds(Some(UntilStage(name)), first, between)
    ensures Holds(Some(UntilStage(name)), first, first) || Holds(Some(UntilStage(name)), first, now)
  {
    var b := between.trail;
    EnteredSince(first, between, name);
    if Entered(first, between, name) {
      var i :| 0 <= i < |b| && b[i].stage == name && b[i].id !in Ids(first.trail);
      assert now.trail[i] == b[i];
      EnteredSince(first, now, name);
    } else {
      assert between.stage == Some(name) && b != [];
      SeenUpTo(first.trail, b, |b| - 1);
      assert b[|b| - 1].id in Ids(first.trail);
      assert first.trail == b;
    }
  }
}
