/** The watch itself (`choco/src/watch.rs`, lines 413 to 526): sleep, poll, look.
  *
  * A run is driven by a script of polls: how late each sleep wakes up, how long
  * the answer takes, and what it is. Time is counted from the start of the watch.
  */
module WatchLoop {
  import opened Wrappers
  import opened Watch

  /** `Garbled` is an answer that is no task; `Unreachable` a connection that failed. */
  datatype Answer = Seen(snap: Snapshot) | Garbled | Unreachable | Failed

  datatype Poll = Poll(overslept: nat, took: nat, answer: Answer)

  /** `Unfinished`: the script is at its end and the watch still goes on. */
  datatype End = Ended(how: WatchEnd) | Lost | Error | Unfinished

  datatype Sleep = Sleep(start: nat, length: nat)

  const MAX_STRIKES: nat := 3

  function Snaps(polls: seq<Poll>): seq<Snapshot> {
    if polls == [] then []
    else
      var before, last := Snaps(polls[..|polls| - 1]), polls[|polls| - 1].answer;
      if last.Seen? then before + [last.snap] else before
  }

  /** How many polls, up to the last, have failed to connect in a row. */
  function Strikes(polls: seq<Poll>): nat {
    if polls == [] || !polls[|polls| - 1].answer.Unreachable? then 0 else Strikes(polls[..|polls| - 1]) + 1
  }

  function Log(seen: seq<Snapshot>): seq<Change> {
    if |seen| <= 1 then [] else Log(seen[..|seen| - 1]) + ChangesOf(seen[|seen| - 2], seen[|seen| - 1])
  }

  /** How a look ends the watch, if it does. */
  type Checker = Snapshot -> Option<WatchEnd>

  ghost predicate NoTimeouts(check: Checker) {
    forall s :: check(s) != Some(TimedOut)
  }

  /** Nothing seen among the first `k` looks ends the watch. */
  ghost predicate Undecided(check: Checker, seen: seq<Snapshot>, k: nat)
    requires k <= |seen|
  {
    forall i :: 0 <= i < k ==> check(seen[i]) == None
  }

  /** No three failures to connect in a row among the first `n` polls, and no other failure. */
  ghost predicate InTouch(script: seq<Poll>, n: nat)
    requires n <= |script|
  {
    && (forall k :: 0 <= k <= n ==> Strikes(script[..k]) < MAX_STRIKES)
    && (forall k :: 0 <= k < n ==> script[k].answer.Seen? || script[k].answer.Unreachable?)
  }

  /** The first `n` polls of the script were answered, and this was seen and printed. */
  ghost predicate Followed(first: Snapshot, script: seq<Poll>, n: nat, seen: seq<Snapshot>, out: seq<Change>) {
    n <= |script| && seen == [first] + Snaps(script[..n]) && out == Log(seen)
  }

  /** Why a watch that saw this ended as it did. */
  ghost predicate Explained(check: Checker, script: seq<Poll>, n: nat, seen: seq<Snapshot>, end: End)
    requires n <= |script| && seen != []
  {
    match end
    case Ended(TimedOut) => InTouch(script, n) && Undecided(check, seen, |seen|)
    case Ended(how) =>
      && Undecided(check, seen, |seen| - 1) && check(seen[|seen| - 1]) == Some(how)
      && InTouch(script, n) && (n > 0 ==> script[n - 1].answer.Seen?)
    case Lost =>
      && n > 0 && InTouch(script, n - 1) && Undecided(check, seen, |seen|)
      && Strikes(script[..n]) == MAX_STRIKES
    case Error =>
      && n > 0 && InTouch(script, n - 1) && Undecided(check, seen, |seen|)
      && (script[n - 1].answer.Garbled? || script[n - 1].answer.Failed?)
    case Unfinished => n == |script| && InTouch(script, n) && Undecided(check, seen, |seen|)
  }

  // ---- One answer -------------------------------------------------------------------------

  lemma SnapsNext(script: seq<Poll>, n: nat)
    requires n < |script|
    ensures Snaps(script[..n + 1]) == Snaps(script[..n]) + if script[n].answer.Seen? then [script[n].answer.snap] else []
    ensures Strikes(script[..n + 1]) == if script[n].answer.Unreachable? then Strikes(script[..n]) + 1 else 0
  {
    var next := script[..n + 1];
    assert next[..|next| - 1] == script[..n];
  }

  /** Where a watch stands that goes on. */
  ghost predicate Onward(check: Checker, first: Snapshot, script: seq<Poll>, n: nat, seen: seq<Snapshot>,
                         out: seq<Change>, strikes: nat)
  {
    && Followed(first, script, n, seen, out) && InTouch(script, n) && Undecided(check, seen, |seen|)
    && strikes == Strikes(script[..n])
  }

  /** One more look: what changed is printed, then the watch may end. */
  method Look(check: Checker, first: Snapshot, script: seq<Poll>, n: nat, seen: seq<Snapshot>, out: seq<Change>, snap: Snapshot)
    returns (end: Option<End>, looks: seq<Snapshot>, printed: seq<Change>)
    requires n < |script| && Onward(check, first, script, n, seen, out, Strikes(script[..n])) && script[n].answer == Seen(snap)
    requires NoTimeouts(check)
    ensures Followed(first, script, n + 1, looks, printed)
    ensures end.None? ==> Onward(check, first, script, n + 1, looks, printed, 0)
    ensures end.Some? ==> Explained(check, script, n + 1, looks, end.value) && end.value.Ended? && end.value.how != TimedOut
  {
    SnapsNext(script, n);
    StaysInTouch(script, n);
    var diff := Changes(seen[|seen| - 1], snap);
    looks, printed := seen + [snap], out + diff;
    FollowedNext(first, script, n, seen, out, snap, diff);
    var ended := check(snap);
    end := if ended.Some? then Some(Ended(ended.value)) else None;
  }

  lemma FollowedNext(first: Snapshot, script: seq<Poll>, n: nat, seen: seq<Snapshot>, out: seq<Change>,
                     snap: Snapshot, diff: seq<Change>)
    requires n < |script| && Followed(first, script, n, seen, out) && script[n].answer == Seen(snap)
    requires diff == ChangesOf(seen[|seen| - 1], snap)
    ensures Followed(first, script, n + 1, seen + [snap], out + diff)
  {
    SnapsNext(script, n);
    LogNext(seen, snap);
  }

  lemma LogNext(seen: seq<Snapshot>, snap: Snapshot)
    requires seen != []
    ensures Log(seen + [snap]) == Log(seen) + ChangesOf(seen[|seen| - 1], snap)
  {
    var more := seen + [snap];
    assert more[..|more| - 1] == seen && more[|more| - 2] == seen[|seen| - 1];
  }

  lemma StaysInTouch(script: seq<Poll>, n: nat)
    requires n < |script| && InTouch(script, n) && Strikes(script[..n + 1]) < MAX_STRIKES
    requires script[n].answer.Seen? || script[n].answer.Unreachable?
    ensures InTouch(script, n + 1)
  {
  }

  /** One more answered poll. */
  method Take(check: Checker, first: Snapshot, script: seq<Poll>, n: nat, seen: seq<Snapshot>, out: seq<Change>, strikes: nat)
    returns (end: Option<End>, looks: seq<Snapshot>, printed: seq<Change>, count: nat)
    requires n < |script| && Onward(check, first, script, n, seen, out, strikes) && NoTimeouts(check)
    ensures Followed(first, script, n + 1, looks, printed)
    ensures end.None? ==> Onward(check, first, script, n + 1, looks, printed, count)
    ensures end.Some? ==> Explained(check, script, n + 1, looks, end.value) && end.value != Unfinished
    ensures end != Some(Ended(TimedOut))
  {
    SnapsNext(script, n);
    looks, printed, count := seen, out, strikes;
    match script[n].answer
    case Seen(snap) =>
      count := 0;
      end, looks, printed := Look(check, first, script, n, seen, out, snap);
    case Unreachable =>
      count := strikes + 1;
      if count >= MAX_STRIKES {
        end := Some(Lost);
      } else {
        StaysInTouch(script, n);
        end := None;
      }
    case _ =>
      end := Some(Error);
  }

  // ---- The clock --------------------------------------------------------------------------

  /** The answer comes at once, or before the deadline. */
  predicate InTime(poll: Poll, clock: nat, deadline: Option<nat>) {
    deadline.None? || poll.took == 0 || clock + poll.took <= deadline.value
  }

  /** How long to sleep: the interval, or what is left of the time. */
  function Nap(clock: nat, interval: nat, deadline: Option<nat>): (length: nat)
    requires deadline.Some? ==> clock < deadline.value
    ensures length <= interval && (deadline.Some? ==> clock + length <= deadline.value)
    ensures length < interval ==> deadline.Some? && clock + length == deadline.value
  {
    if deadline.Some? && deadline.value - clock < interval then deadline.value - clock else interval
  }

  /** When the `n`-th poll begins, if time is left by then, and when its loop does. */
  function Wakes(script: seq<Poll>, n: nat, start: nat, interval: nat, deadline: Option<nat>): nat
    requires n < |script|
    decreases n, 1
  {
    var clock := Clock(script, n, start, interval, deadline);
    if deadline.Some? && clock >= deadline.value then clock
    else clock + Nap(clock, interval, deadline) + script[n].overslept
  }

  function Clock(script: seq<Poll>, n: nat, start: nat, interval: nat, deadline: Option<nat>): nat
    requires n <= |script|
    decreases n, 0
  {
    if n == 0 then start else Wakes(script, n - 1, start, interval, deadline) + script[n - 1].took
  }

  /** Time was left before the `k`-th poll, and it was answered in time. */
  ghost predicate Answered(script: seq<Poll>, k: nat, start: nat, interval: nat, deadline: Option<nat>)
    requires k < |script|
  {
    && (deadline.Some? ==> Clock(script, k, start, interval, deadline) < deadline.value)
    && InTime(script[k], Wakes(script, k, start, interval, deadline), deadline)
  }

  /** So it was with each of the first `n`. */
  ghost predicate OnTime(script: seq<Poll>, n: nat, start: nat, interval: nat, deadline: Option<nat>)
    requires n <= |script|
  {
    forall k :: 0 <= k < n ==> Answered(script, k, start, interval, deadline)
  }

  /** After `n` polls no time is left, or the next is not answered in time. */
  ghost predicate RanOut(script: seq<Poll>, n: nat, start: nat, interval: nat, deadline: Option<nat>)
    requires n <= |script|
  {
    && deadline.Some?
    && (Clock(script, n, start, interval, deadline) >= deadline.value
        || (n < |script| && !InTime(script[n], Wakes(script, n, start, interval, deadline), deadline)))
  }

  /** Each sleep is as long as the interval at most, and none is set to end after the deadline. */
  ghost predicate SleepsInBounds(sleeps: seq<Sleep>, interval: nat, deadline: Option<nat>) {
    forall i :: 0 <= i < |sleeps| ==>
      sleeps[i].length <= interval && (deadline.Some? ==> sleeps[i].start + sleeps[i].length <= deadline.value)
  }

  /** All sleeps but the last were an interval long. */
  ghost predicate Paced(clock: nat, sleeps: nat, interval: nat, deadline: Option<nat>) {
    sleeps * interval <= clock || (deadline.Some? && clock >= deadline.value && (sleeps - 1) * interval < deadline.value)
  }

  lemma PacedOn(clock: nat, sleeps: nat, interval: nat, deadline: Option<nat>, later: nat)
    requires Paced(clock, sleeps, interval, deadline) && (deadline.Some? ==> clock < deadline.value)
    requires later >= clock + Nap(clock, interval, deadline)
    ensures Paced(later, sleeps + 1, interval, deadline)
    ensures deadline.Some? ==> sleeps * interval < deadline.value
  {
    assert (sleeps + 1) * interval == sleeps * interval + interval;
  }

  /** Time and sleeps so far. */
  ghost predicate Timed(clock: nat, n: nat, sleeps: seq<Sleep>, interval: nat, deadline: Option<nat>) {
    && SleepsInBounds(sleeps, interval, deadline) && |sleeps| == n && Paced(clock, n, interval, deadline)
    && InLimit(sleeps, interval, deadline)
  }

  /** No more sleeps than the timeout has room for. */
  ghost predicate InLimit(sleeps: seq<Sleep>, interval: nat, deadline: Option<nat>) {
    sleeps != [] && deadline.Some? ==> (|sleeps| - 1) * interval < deadline.value
  }

  /** Sleeps, and waits for the answer as long as the deadline allows. */
  method Await(poll: Poll, clock: nat, n: nat, sleeps: seq<Sleep>, interval: nat, deadline: Option<nat>)
    returns (answered: bool, later: nat, slept: seq<Sleep>)
    requires Timed(clock, n, sleeps, interval, deadline) && (deadline.Some? ==> clock < deadline.value)
    ensures Timed(later, n + 1, slept, interval, deadline)
    ensures var woken := clock + Nap(clock, interval, deadline) + poll.overslept;
      && (answered <==> deadline.None? || poll.took == 0 || woken + poll.took <= deadline.value)
      && (answered ==> later == woken + poll.took)
    ensures !answered ==> deadline.Some? && later >= deadline.value
  {
    var nap := Nap(clock, interval, deadline);
    slept := sleeps + [Sleep(clock, nap)];
    later := clock + nap + poll.overslept;
    PacedOn(clock, n, interval, deadline, later);
    answered := InTime(poll, later, deadline);
    ghost var woken := later;
    if answered {
      later := later + poll.took;
    } else {
      later := if later >= deadline.value then later else deadline.value;
    }
    PacedLater(woken, n + 1, interval, deadline, later);
  }

  /** The times of a run: when it is, what it slept, and that each poll was in time. */
  ghost predicate Punctual(script: seq<Poll>, n: nat, start: nat, interval: nat, deadline: Option<nat>,
                           clock: nat, sleeps: seq<Sleep>)
  {
    && n <= |script| && Timed(clock, n, sleeps, interval, deadline)
    && clock == Clock(script, n, start, interval, deadline) && OnTime(script, n, start, interval, deadline)
  }

  /** The times of a run that is over. */
  ghost predicate Closed(script: seq<Poll>, n: nat, start: nat, interval: nat, deadline: Option<nat>,
                         clock: nat, sleeps: seq<Sleep>, end: End)
  {
    && n <= |script| && OnTime(script, n, start, interval, deadline)
    && (end == Ended(TimedOut) ==> RanOut(script, n, start, interval, deadline) && clock >= deadline.value)
    && SleepsInBounds(sleeps, interval, deadline) && InLimit(sleeps, interval, deadline) && n <= |sleeps|
  }

  /** Sleeps and polls: the next answer, or the end of the time. */
  method PollNext(script: seq<Poll>, n: nat, start: nat, interval: nat, deadline: Option<nat>, clock: nat, sleeps: seq<Sleep>)
    returns (answered: bool, later: nat, slept: seq<Sleep>)
    requires n < |script| && Punctual(script, n, start, interval, deadline, clock, sleeps)
    ensures answered ==> Punctual(script, n + 1, start, interval, deadline, later, slept)
    ensures !answered ==> Closed(script, n, start, interval, deadline, later, slept, Ended(TimedOut))
  {
    if deadline.Some? && clock >= deadline.value {
      return false, clock, sleeps;
    }
    answered, later, slept := Await(script[n], clock, n, sleeps, interval, deadline);
    if answered {
      OnTimeNext(script, n, start, interval, deadline, clock, later);
    } else {
      OutOfTime(script, n, start, interval, deadline, clock);
      assert Timed(later, n + 1, slept, interval, deadline);
    }
  }

  lemma OnTimeNext(script: seq<Poll>, n: nat, start: nat, interval: nat, deadline: Option<nat>, clock: nat, later: nat)
    requires n < |script| && OnTime(script, n, start, interval, deadline)
    requires clock == Clock(script, n, start, interval, deadline) && (deadline.Some? ==> clock < deadline.value)
    requires var woken := clock + Nap(clock, interval, deadline) + script[n].overslept;
      InTime(script[n], woken, deadline) && later == woken + script[n].took
    ensures OnTime(script, n + 1, start, interval, deadline) && later == Clock(script, n + 1, start, interval, deadline)
  {
    var woken := Wakes(script, n, start, interval, deadline);
    assert woken == clock + Nap(clock, interval, deadline) + script[n].overslept;
    assert Answered(script, n, start, interval, deadline);
  }

  lemma OutOfTime(script: seq<Poll>, n: nat, start: nat, interval: nat, deadline: Option<nat>, clock: nat)
    requires n < |script| && deadline.Some? && clock < deadline.value
    requires clock == Clock(script, n, start, interval, deadline)
    requires !InTime(script[n], clock + Nap(clock, interval, deadline) + script[n].overslept, deadline)
    ensures RanOut(script, n, start, interval, deadline)
  {
  }

  /** Watches from the first look on. */
  method WatchOn(check: Checker, first: Snapshot, script: seq<Poll>, interval: nat, deadline: Option<nat>, start: nat)
    returns (end: End, n: nat, seen: seq<Snapshot>, out: seq<Change>, sleeps: seq<Sleep>, clock: nat)
    requires NoTimeouts(check)
    ensures Followed(first, script, n, seen, out) && Explained(check, script, n, seen, end)
    ensures Closed(script, n, start, interval, deadline, clock, sleeps, end)
  {
    n, seen, out, sleeps, clock := 0, [first], [], [], start;
    assert script[..0] == [];
    var ended := check(first);
    if ended.Some? {
      end := Ended(ended.value);
      return;
    }
    var strikes := 0;
    while n < |script|
      invariant n <= |script| && Onward(check, first, script, n, seen, out, strikes)
      invariant Punctual(script, n, start, interval, deadline, clock, sleeps)
    {
      var answered;
      answered, clock, sleeps := PollNext(script, n, start, interval, deadline, clock, sleeps);
      if !answered {
        end := Ended(TimedOut);
        return;
      }
      var over;
      over, seen, out, strikes := Take(check, first, script, n, seen, out, strikes);
      n := n + 1;
      if over.Some? {
        end := over.value;
        return;
      }
    }
    end := Unfinished;
  }

  lemma PacedLater(clock: nat, sleeps: nat, interval: nat, deadline: Option<nat>, later: nat)
    requires Paced(clock, sleeps, interval, deadline) && clock <= later
    ensures Paced(later, sleeps, interval, deadline)
  {
  }

  function CheckerFor(target: Option<Until>, first: Snapshot): Checker {
    snap => Check(target, first, snap)
  }

  lemma NoCheckerTimesOut(target: Option<Until>, first: Snapshot)
    ensures NoTimeouts(CheckerFor(target, first))
  {
    forall s ensures CheckerFor(target, first)(s) != Some(TimedOut) {
      TargetComesFirst(target, first, s);
    }
  }

  /** How a watch ends follows from what it saw: no look but the last would have ended it, and
    * the last did if it would. It goes on, runs out of time or fails only when none would.
    */
  ghost predicate EndsAsPromised(target: Option<Until>, seen: seq<Snapshot>, end: End)
    requires seen != []
  {
    && (forall i :: 0 <= i < |seen| - 1 ==> EndsAs(target, seen[0], seen[i], None))
    && EndsAs(target, seen[0], seen[|seen| - 1], if end.Ended? && end.how != TimedOut then Some(end.how) else None)
  }

  lemma ExplainedIsPromised(target: Option<Until>, script: seq<Poll>, n: nat, seen: seq<Snapshot>, end: End)
    requires n <= |script| && seen != [] && Explained(CheckerFor(target, seen[0]), script, n, seen, end)
    ensures EndsAsPromised(target, seen, end)
  {
    var check := CheckerFor(target, seen[0]);
    forall i | 0 <= i < |seen| ensures EndsAs(target, seen[0], seen[i], check(seen[i])) {
      TargetComesFirst(target, seen[0], seen[i]);
    }
    assert forall i :: 0 <= i < |seen| - 1 ==> check(seen[i]) == None;
    assert check(seen[|seen| - 1]) == if end.Ended? && end.how != TimedOut then Some(end.how) else None;
  }

  /** A watch, its first poll included: that one is not retried. */
  method WatchTask(first: Poll, script: seq<Poll>, target: Option<Until>, interval: nat, timeout: Option<nat>)
    returns (end: End, n: nat, seen: seq<Snapshot>, out: seq<Change>, sleeps: seq<Sleep>, clock: nat)
    ensures timeout.Some? && first.took > timeout.value <==> seen == [] && end == Ended(TimedOut)
    ensures InTime(first, 0, timeout) && !first.answer.Seen? ==> end == Error && seen == []
    ensures seen != [] ==> EndsAsPromised(target, seen, end)
    ensures InTime(first, 0, timeout) && first.answer.Seen? ==>
      var snap := first.answer.snap;
      && Followed(snap, script, n, seen, out) && Explained(CheckerFor(target, snap), script, n, seen, end)
      && Closed(script, n, first.took, interval, timeout, clock, sleeps, end)
    ensures SleepsInBounds(sleeps, interval, timeout) && InLimit(sleeps, interval, timeout) && n <= |sleeps|
    ensures timeout.Some? && interval > 0 ==>
      n <= timeout.value / interval + 1 && (|script| > timeout.value / interval + 1 ==> end != Unfinished)
  {
    n, seen, out, sleeps, clock := 0, [], [], [], first.took;
    if !InTime(first, 0, timeout) {
      clock := timeout.value;
      end := Ended(TimedOut);
    } else if !first.answer.Seen? {
      end := Error;
    } else {
      var snap := first.answer.snap;
      NoCheckerTimesOut(target, snap);
      end, n, seen, out, sleeps, clock := WatchOn(CheckerFor(target, snap), snap, script, interval, timeout, first.took);
      ExplainedIsPromised(target, script, n, seen, end);
      if timeout.Some? && interval > 0 {
        WatchesEnd(CheckerFor(target, snap), script, n, seen, end, first.took, interval, timeout.value, clock, sleeps);
      }
    }
  }

  // ---- What the ends mean --------------------------------------------------------------------

  /** A watch does not give up on a task, or time out, when the target was there to be seen. */
  lemma NothingSeenIsIgnored(target: Option<Until>, seen: seq<Snapshot>, end: End, i: nat)
    requires i < |seen| && EndsAsPromised(target, seen, end) && Holds(target, seen[0], seen[i])
    ensures end == Ended(Arrived) && i == |seen| - 1
  {
  }

  /** A watch for attention ends well at the first look at a task that is paused, or open at a
    * gate for a person, and at no other.
    */
  lemma AttentionIsNotMissed(seen: seq<Snapshot>, end: End, i: nat)
    requires i < |seen| && EndsAsPromised(Some(Attention), seen, end)
    ensures seen[i].status == "paused" || (seen[i].status == "open" && seen[i].stageKind == Some("human_gate"))
        <==> end == Ended(Arrived) && i == |seen| - 1
  {
  }

  /** Contact counts as lost at the third failure to connect in a row, and only then. */
  lemma LostIsThreeInARow(check: Checker, script: seq<Poll>, n: nat, seen: seq<Snapshot>, end: End, k: nat)
    requires n <= |script| && seen != [] && Explained(check, script, n, seen, end)
    requires k + 3 <= n
    ensures (script[k].answer.Unreachable? && script[k + 1].answer.Unreachable? && script[k + 2].answer.Unreachable?)
        <==> end == Lost && k + 3 == n
  {
    StrikesOfThree(script, k);
    if end == Lost && k + 3 == n {
      SnapsNext(script, k);
      SnapsNext(script, k + 1);
      SnapsNext(script, k + 2);
    } else if end == Lost || end == Error {
      assert k + 3 < n ==> Strikes(script[..k + 3]) < MAX_STRIKES;
    } else {
      assert Strikes(script[..k + 3]) < MAX_STRIKES;
    }
  }

  lemma StrikesOfThree(script: seq<Poll>, k: nat)
    requires k + 3 <= |script|
    ensures script[k].answer.Unreachable? && script[k + 1].answer.Unreachable? && script[k + 2].answer.Unreachable?
        ==> Strikes(script[..k + 3]) >= 3
  {
    SnapsNext(script, k);
    SnapsNext(script, k + 1);
    SnapsNext(script, k + 2);
  }

  lemma PrintedAreHops(first: Snapshot, script: seq<Poll>, n: nat, seen: seq<Snapshot>, out: seq<Change>)
    requires Followed(first, script, n, seen, out) && Chain(seen) && Recorded(first)
    ensures var last := seen[|seen| - 1];
      |first.trail| <= |last.trail| && StagesOf(out) == Hops(last.trail, |first.trail|, |last.trail|)
  {
    PollingOftenTellsNoMore(seen);
    StagesOfLog(seen);
  }

  /** What is told of entry `i`: the stage before it, the stage entered, its outcome and its time. */
  predicate TellsOf(trail: seq<TrailEntry>, i: nat, c: Change)
    requires i < |trail|
  {
    && c.Stage? && c.from == (if i == 0 then None else Some(trail[i - 1].stage)) && c.to == trail[i].stage
    && c.outcome == trail[i].outcome && c.at == trail[i].at
  }

  /** Entries from `begun` on, each told once, in order. */
  predicate TellsTheTrail(trail: seq<TrailEntry>, begun: nat, told: seq<Change>) {
    && begun + |told| == |trail|
    && forall j :: 0 <= j < |told| ==> TellsOf(trail, begun + j, told[j])
  }

  lemma HopsTell(trail: seq<TrailEntry>, begun: nat)
    requires begun <= |trail|
    ensures TellsTheTrail(trail, begun, Hops(trail, begun, |trail|))
  {
    forall j | 0 <= j < |trail| - begun ensures TellsOf(trail, begun + j, Hops(trail, begun, |trail|)[j]) {
      HopsFrom(trail, begun, |trail|, begun + j);
    }
  }

  /** The stage changes printed over a watch of a task whose trail is append-only are
    * the entries of its trail since the first look, each once, in order.
    */
  lemma PrintedStagesAreTheTrail(first: Snapshot, script: seq<Poll>, n: nat, seen: seq<Snapshot>, out: seq<Change>)
    requires Followed(first, script, n, seen, out) && Chain(seen) && Recorded(first)
    ensures TellsTheTrail(seen[|seen| - 1].trail, |first.trail|, StagesOf(out))
  {
    PrintedAreHops(first, script, n, seen, out);
    HopsTell(seen[|seen| - 1].trail, |first.trail|);
  }

  function StagesOf(out: seq<Change>): seq<Change> {
    if out == [] then []
    else StagesOf(out[..|out| - 1]) + if out[|out| - 1].Stage? then [out[|out| - 1]] else []
  }

  lemma {:induction false} StagesOfJoin(a: seq<Change>, b: seq<Change>)
    ensures StagesOf(a + b) == StagesOf(a) + StagesOf(b)
    decreases |b|
  {
    if b == [] {
      assert a + b == a;
    } else {
      var c := b[..|b| - 1];
      assert (a + b)[..|a + b| - 1] == a + c;
      StagesOfJoin(a, c);
    }
  }

  lemma {:induction false} StagesOfStages(hops: seq<Change>)
    requires forall i :: 0 <= i < |hops| ==> hops[i].Stage?
    ensures StagesOf(hops) == hops
  {
    if hops != [] {
      StagesOfStages(hops[..|hops| - 1]);
    }
  }

  lemma StagesOfChanges(prev: Snapshot, next: Snapshot)
    ensures StagesOf(ChangesOf(prev, next)) == StageChanges(prev, next)
  {
    var stages, statuses := StageChanges(prev, next), StatusChanges(prev, next);
    AllAreStages(prev, next);
    StagesOfStages(stages);
    StagesOfJoin(stages, statuses);
    assert |statuses| <= 1 && StagesOf(statuses) == [];
  }

  lemma {:induction false} HopsAreStages(seen: set<string>, trail: seq<TrailEntry>, k: nat)
    requires k <= |trail|
    ensures forall i :: 0 <= i < |NewHops(seen, trail, k)| ==> NewHops(seen, trail, k)[i].Stage?
  {
    if k > 0 {
      HopsAreStages(seen, trail, k - 1);
    }
  }

  lemma AllAreStages(prev: Snapshot, next: Snapshot)
    ensures forall i :: 0 <= i < |StageChanges(prev, next)| ==> StageChanges(prev, next)[i].Stage?
  {
    HopsAreStages(Ids(prev.trail), next.trail, |next.trail|);
  }

  lemma {:induction false} StagesOfLog(seen: seq<Snapshot>)
    requires seen != []
    ensures StagesOf(Log(seen)) == StageLog(seen)
  {
    if |seen| > 1 {
      var before := seen[..|seen| - 1];
      StagesOfLog(before);
      StagesOfJoin(Log(before), ChangesOf(seen[|seen| - 2], seen[|seen| - 1]));
      StagesOfChanges(seen[|seen| - 2], seen[|seen| - 1]);
    }
  }

  /** With a timeout and an interval a watch ends, within so many polls. */
  lemma WatchesEnd(check: Checker, script: seq<Poll>, n: nat, seen: seq<Snapshot>, end: End,
                   start: nat, interval: nat, timeout: nat, clock: nat, sleeps: seq<Sleep>)
    requires n <= |script| && seen != [] && Explained(check, script, n, seen, end)
    requires Closed(script, n, start, interval, Some(timeout), clock, sleeps, end)
    requires interval > 0
    ensures n <= timeout / interval + 1
    ensures |script| > timeout / interval + 1 ==> end != Unfinished
  {
    if n > 0 {
      var m, q := |sleeps| - 1, timeout / interval;
      assert timeout < (q + 1) * interval;
      if m > q {
        Multiply(q + 1, m, interval);
        assert false;
      }
    }
  }

  lemma Multiply(a: nat, b: nat, c: nat)
    requires a <= b
    ensures a * c <= b * c
  {
    assert b * c == a * c + (b - a) * c;
  }
}
