/** Reading the process table's raw forms: the line of `/proc/<pid>/stat`, and the
  * list of pids (`chocofactoryd/src/proc_table.rs`, lines 211 to 260).
  */
module ProcStat {
  import opened Wrappers
  import opened Decimal
  import opened Text

  // ---- Signed numbers ---------------------------------------------------------------------

  const I32_LIMIT := 0x8000_0000

  /** A 32-bit number as it is read: digits after one `-` or `+`, or none. */
  function ParseI32(s: string): Option<int> {
    var negative := s != "" && s[0] == '-';
    var d := if negative then s[1..] else UnsignedDigits(s);
    if d == "" || !AllDigits(d) then None
    else
      var n: int := ValueOf(d);
      var v := if negative then -n else n;
      if -I32_LIMIT <= v < I32_LIMIT then Some(v) else None
  }

  function PrintedInt(v: int): string {
    if v < 0 then "-" + Printed(-v) else Printed(v)
  }

  /** A number printed is read back if it fits 32 bits, and refused if not. */
  lemma PrintedIntReadsBack(v: int)
    ensures ParseI32(PrintedInt(v)) == if -0x8000_0000 <= v <= 0x7FFF_FFFF then Some(v) else None
  {
    var s := PrintedInt(v);
    if v < 0 {
      PrintedReadsBack(-v);
      assert s[1..] == Printed(-v);
    } else {
      PrintedReadsBack(v);
      assert IsDigit(s[0]);
    }
  }

  // ---- The stat line ------------------------------------------------------------------------

  datatype Stat = Stat(state: char, ppid: int, pgrp: int, session: int, start: nat, comm: string)

  /** Where the first `c` is. */
  function Find(s: string, c: char): (i: nat)
    ensures i <= |s| && (i < |s| ==> s[i] == c)
  {
    if s == "" || s[0] == c then 0 else 1 + Find(s[1..], c)
  }

  /** Just after the last `c`, or 0 without one. */
  function AfterLast(s: string, c: char): (i: nat)
    ensures i <= |s| && (i > 0 ==> s[i - 1] == c)
  {
    if s == "" then 0 else if s[|s| - 1] == c then |s| else AfterLast(s[..|s| - 1], c)
  }

  /** Fields 3 on: state, ppid, pgrp, session, and, the twentieth, the start time. */
  function StatOf(fields: seq<string>, comm: string): Option<Stat> {
    if |fields| < 20 || fields[0] == "" then None
    else
      match (ParseI32(fields[1]), ParseI32(fields[2]), ParseI32(fields[3]), ParseU64(fields[19]))
      case (Some(ppid), Some(pgrp), Some(session), Some(start)) =>
        Some(Stat(fields[0][0], ppid, pgrp, session, start, comm))
      case _ => None
  }

  datatype Split = Split(comm: string, rest: string)

  /** The command name, between the first `(` and the last `)`, and what follows it. */
  function SplitStat(stat: string): Option<Split> {
    var open, close := Find(stat, '('), AfterLast(stat, ')');
    if open == |stat| || close == 0 || close - 1 < open + 1 then None
    else Some(Split(stat[open + 1..close - 1], stat[close..]))
  }

  function ParseLinuxStat(stat: string): Option<Stat> {
    match SplitStat(stat)
    case None => None
    case Some(split) => StatOf(Words(IsBlank, split.rest), split.comm)
  }

  // ---- As the kernel writes it --------------------------------------------------------------------

  function Written(pid: string, comm: string, fields: seq<string>): string {
    pid + "(" + comm + ")" + (" " + Joined(fields))
  }

  ghost predicate Plain(s: string, c: char) {
    forall i :: 0 <= i < |s| ==> s[i] != c
  }

  lemma {:induction false} FindsFirst(before: string, c: char, after: string)
    requires Plain(before, c)
    ensures Find(before + [c] + after, c) == |before|
  {
    if before != "" {
      assert (before + [c] + after)[1..] == before[1..] + [c] + after;
      FindsFirst(before[1..], c, after);
    }
  }

  lemma {:induction false} FindsLast(before: string, c: char, after: string)
    requires Plain(after, c)
    ensures AfterLast(before + [c] + after, c) == |before| + 1
    decreases |after|
  {
    var s := before + [c] + after;
    if after != "" {
      assert s[..|s| - 1] == before + [c] + after[..|after| - 1];
      FindsLast(before, c, after[..|after| - 1]);
    }
  }

  lemma {:induction false} JoinedIsPlain(words: seq<string>, c: char)
    requires c != ' ' && forall i :: 0 <= i < |words| ==> Plain(words[i], c)
    ensures Plain(Joined(words), c)
  {
    if |words| > 1 {
      JoinedIsPlain(words[1..], c);
    }
  }

  ghost predicate FieldsOk(fields: seq<string>) {
    |fields| >= 20 && forall i :: 0 <= i < |fields| ==> IsWord(IsBlank, fields[i]) && Plain(fields[i], ')')
  }

  lemma Parentheses(pid: string, comm: string, rest: string, stat: string)
    requires Plain(pid, '(') && Plain(rest, ')') && stat == pid + "(" + comm + ")" + rest
    ensures Find(stat, '(') == |pid| && AfterLast(stat, ')') == |pid| + 2 + |comm|
  {
    assert stat == pid + ['('] + (comm + ")" + rest);
    FindsFirst(pid, '(', comm + ")" + rest);
    assert stat == (pid + "(" + comm) + [')'] + rest;
    FindsLast(pid + "(" + comm, ')', rest);
  }

  lemma FieldsComeBack(fields: seq<string>)
    requires FieldsOk(fields)
    ensures Words(IsBlank, " " + Joined(fields)) == fields && Plain(" " + Joined(fields), ')')
  {
    JoinedIsPlain(fields, ')');
    WordsOfJoined(IsBlank, fields);
    BlankBefore(IsBlank, Joined(fields));
  }

  /** Whatever is in the command name, blanks and parentheses too, it comes back whole, and
    * the fields after it are read as they stand.
    */
  lemma AnyCommandName(pid: string, comm: string, fields: seq<string>)
    requires Plain(pid, '(') && FieldsOk(fields)
    ensures ParseLinuxStat(Written(pid, comm, fields)) == StatOf(fields, comm)
  {
    FieldsComeBack(fields);
    StatSplits(pid, comm, " " + Joined(fields), Written(pid, comm, fields));
  }

  lemma StatSplits(pid: string, comm: string, rest: string, stat: string)
    requires Plain(pid, '(') && Plain(rest, ')') && stat == pid + "(" + comm + ")" + rest
    ensures SplitStat(stat) == Some(Split(comm, rest))
  {
    Parentheses(pid, comm, rest, stat);
    Slices(pid, comm, rest, stat);
  }

  lemma Slices(pid: string, comm: string, rest: string, stat: string)
    requires stat == pid + "(" + comm + ")" + rest
    ensures var open, close := |pid|, |pid| + 2 + |comm|;
      close <= |stat| && stat[close..] == rest && stat[open + 1..close - 1] == comm
  {
  }

  /** What the kernel says of a process is what is read. */
  lemma StatReadsBack(pid: nat, stat: Stat, fields: seq<string>)
    requires FieldsOk(fields) && fields[0] == [stat.state] && fields[19] == Printed(stat.start) && stat.start <= 0xFFFF_FFFF_FFFF_FFFF
    requires -0x8000_0000 <= stat.ppid <= 0x7FFF_FFFF && fields[1] == PrintedInt(stat.ppid)
    requires -0x8000_0000 <= stat.pgrp <= 0x7FFF_FFFF && fields[2] == PrintedInt(stat.pgrp)
    requires -0x8000_0000 <= stat.session <= 0x7FFF_FFFF && fields[3] == PrintedInt(stat.session)
    ensures ParseLinuxStat(Written(Printed(pid) + " ", stat.comm, fields)) == Some(stat)
  {
    var p := Printed(pid) + " ";
    forall i | 0 <= i < |p| ensures p[i] != '(' {
      assert i < |Printed(pid)| ==> IsDigit(Printed(pid)[i]);
    }
    AnyCommandName(p, stat.comm, fields);
    PrintedIntReadsBack(stat.ppid);
    PrintedIntReadsBack(stat.pgrp);
    PrintedIntReadsBack(stat.session);
    PrintedReadsBack(stat.start);
    assert UnsignedDigits(fields[19]) == fields[19] by {
      assert IsDigit(fields[19][0]);
    }
  }

  // ---- The pid list ---------------------------------------------------------------------------------

  datatype ListError = OsError(code: int) | NeverFit

  const USIZE_LIMIT := 0x1_0000_0000_0000_0000

  /** What the system's listing call writes, at its `k`-th call, into a buffer of a size. */
  type Lister = (nat, nat) -> Result<seq<int>, ListError>

  /** It writes no more than there is room for. */
  ghost predicate InBounds(list: Lister) {
    forall k, size :: list(k, size).Ok? ==> |list(k, size).value| <= size
  }

  /** The size of the `k`-th buffer. */
  function Size(initial: nat, k: nat): nat {
    if k == 0 then if initial > 1 then initial else 1 else 2 * Size(initial, k - 1)
  }

  /** The first `k` buffers were filled to the last place. */
  ghost predicate Filled(list: Lister, initial: nat, k: nat) {
    forall j :: 0 <= j < k ==> list(j, Size(initial, j)).Ok? && |list(j, Size(initial, j)).value| == Size(initial, j)
  }

  /** Takes no list that may have been cut short: only one that left room in its buffer.
    * Ends with it, with the system's error, or when no larger buffer can be had.
    */
  method FillPids(initial: nat, list: Lister) returns (r: Result<seq<int>, ListError>, calls: nat)
    requires initial <= 0xFFFF_FFFF_FFFF_FFFF && InBounds(list)
    ensures calls > 0 && Filled(list, initial, calls - 1) && Size(initial, calls - 1) <= 0xFFFF_FFFF_FFFF_FFFF
    ensures var last := list(calls - 1, Size(initial, calls - 1));
      match r
      case Ok(pids) => last == r && |pids| < Size(initial, calls - 1)
      case Err(e) => last == r || (e == NeverFit && Filled(list, initial, calls) && Size(initial, calls) > 0xFFFF_FFFF_FFFF_FFFF)
  {
    var capacity := if initial > 1 then initial else 1;
    calls := 0;
    while true
      invariant capacity == Size(initial, calls) < USIZE_LIMIT && capacity > 0 && Filled(list, initial, calls)
      decreases USIZE_LIMIT - capacity
    {
      r := list(calls, capacity);
      calls := calls + 1;
      if r.Err? {
        return;
      }
      var count := |r.value|;
      if count < capacity {
        return;
      }
      if capacity * 2 >= USIZE_LIMIT {
        return Err(NeverFit), calls;
      }
      capacity := capacity * 2;
    }
  }
}
