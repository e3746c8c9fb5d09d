/** A task's trail as a table that fits a width where it can
  * (`choco/src/render.rs`, lines 1190 to 1364).
  */
module StageTable {
  import opened Wrappers
  import opened ProgressTable
  import opened Text
  import Decimal

  // ---- The steps -----------------------------------------------------------------------

  /** A `stage_entered` event: its stage and outcome if it has them, and its time as
    * it prints, empty when unknown.
    */
  datatype Entry = Entry(stage: Option<string>, outcome: Option<string>, at: string)

  datatype Step = Step(cells: Cells, current: bool)

  const DOTS := [ELLIPSIS]
  const ARROW: string := ['\U{2192}']
  const TITLES: Cells := ["#", "from", "outcome", "to", "at (UTC)"]
  const MARKER: string := ['\U{25C0}'] + " current"
  const MARKER_SHORT: string := ['\U{25C0}']

  function StageOf(e: Entry): (r: string)
    ensures Tidy(r)
  {
    SingleLine(match e.stage case Some(s) => s case None => "?")
  }

  /** The `i`-th hop: from the step before, by its outcome, to its own stage. */
  function CellsAt(trail: seq<Entry>, i: nat): (r: Cells)
    requires i < |trail|
  {
    var e := trail[i];
    var num := Decimal.Printed(i + 1);
    match e.outcome
    case Some(outcome) =>
      [num, if i > 0 then StageOf(trail[i - 1]) else DOTS, SingleLine(outcome), StageOf(e), e.at]
    case None => [num, "", "start", StageOf(e), e.at]
  }

  /** Whether the trail ends at the stage the task is in. */
  predicate EndsAt(trail: seq<Entry>, current: string) {
    trail != [] && StageOf(trail[|trail| - 1]) == SingleLine(current)
  }

  /** What the row of the `i`-th hop says: its number from one on; where it came from and by what
    * outcome, the start of a task having none, and an origin no longer on record being dots;
    * its own stage; and its time.
    */
  predicate TellsHop(trail: seq<Entry>, i: nat, cells: Cells)
    requires i < |trail|
  {
    var e := trail[i];
    && cells[0] == Decimal.Printed(i + 1)
    && cells[1] == (if e.outcome.None? then "" else if i == 0 then ['\U{2026}'] else SingleLine(StageName(trail[i - 1])))
    && cells[2] == (if e.outcome.None? then "start" else SingleLine(e.outcome.value))
    && cells[3] == SingleLine(StageName(e)) && cells[4] == e.at
  }

  function StageName(e: Entry): string {
    if e.stage.Some? then e.stage.value else "?"
  }

  lemma CellsTellHop(trail: seq<Entry>, i: nat)
    requires i < |trail|
    ensures TellsHop(trail, i, CellsAt(trail, i))
  {
  }

  /** A hop a row, the last one marked if the task is where it ends; else one more row says where it is. */
  ghost predicate TellsTrail(trail: seq<Entry>, current: Option<string>, steps: seq<Step>) {
    && |trail| <= |steps|
    && (forall i :: 0 <= i < |trail| ==> steps[i].cells == CellsAt(trail, i))
    && match current
       case None => |steps| == |trail| && forall i :: 0 <= i < |steps| ==> !steps[i].current
       case Some(c) =>
         && |steps| == |trail| + (if EndsAt(trail, c) then 0 else 1)
         && (forall i :: 0 <= i < |steps| ==> (steps[i].current <==> i == |steps| - 1))
         && (!EndsAt(trail, c) ==> steps[|steps| - 1].cells == [ARROW, "", "", SingleLine(c), ""])
  }

  /** All rows, spelled out: a hop a row; and if a current stage is given that the trail does not
    * end at, one more row that points at it.
    */
  ghost predicate TellsAll(trail: seq<Entry>, current: Option<string>, steps: seq<Step>) {
    var there := trail != [] && current.Some? && SingleLine(StageName(trail[|trail| - 1])) == SingleLine(current.value);
    && |steps| == |trail| + (if current.None? || there then 0 else 1)
    && (forall i :: 0 <= i < |trail| ==> TellsHop(trail, i, steps[i].cells))
    && (forall i :: 0 <= i < |steps| ==> (steps[i].current <==> current.Some? && i == |steps| - 1))
    && (|steps| > |trail| ==> steps[|trail|].cells == [['\U{2192}'], "", "", SingleLine(current.value), ""])
  }

  lemma TellsTrailTellsAll(trail: seq<Entry>, current: Option<string>, steps: seq<Step>)
    requires TellsTrail(trail, current, steps)
    ensures TellsAll(trail, current, steps)
  {
    forall i | 0 <= i < |trail| ensures TellsHop(trail, i, steps[i].cells) {
      CellsTellHop(trail, i);
    }
  }

  /** A hop a row, none marked yet. */
  ghost predicate AreHops(trail: seq<Entry>, steps: seq<Step>) {
    |steps| == |trail| && forall k :: 0 <= k < |trail| ==> steps[k].cells == CellsAt(trail, k) && !steps[k].current
  }

  method BuildHops(trail: seq<Entry>) returns (steps: seq<Step>)
    ensures AreHops(trail, steps)
  {
    steps := [];
    for i := 0 to |trail|
      invariant |steps| == i
      invariant forall k :: 0 <= k < i ==> steps[k].cells == CellsAt(trail, k) && !steps[k].current
    {
      steps := steps + [Step(CellsAt(trail, i), false)];
    }
  }

  method BuildSteps(trail: seq<Entry>, current: Option<string>) returns (steps: seq<Step>)
    requires trail != []
    ensures TellsTrail(trail, current, steps) && TellsAll(trail, current, steps)
  {
    steps := BuildHops(trail);
    if current.Some? {
      if EndsAt(trail, current.value) {
        steps := steps[|steps| - 1 := steps[|steps| - 1].(current := true)];
      } else {
        steps := steps + [Step([ARROW, "", "", SingleLine(current.value), ""], true)];
      }
    }
    TellsTrailTellsAll(trail, current, steps);
  }

  lemma CellsLink(trail: seq<Entry>, i: nat)
    requires i < |trail|
    ensures CellsAt(trail, i)[3] == StageOf(trail[i])
    ensures i > 0 && trail[i].outcome.Some? ==> CellsAt(trail, i)[1] == StageOf(trail[i - 1])
  {
  }

  /** Read down the table: a row that says where it comes from says what the row
    * above led to.
    */
  lemma RowsChain(trail: seq<Entry>, current: Option<string>, steps: seq<Step>, i: nat)
    requires TellsTrail(trail, current, steps) && 0 < i < |trail| && trail[i].outcome.Some?
    ensures steps[i].cells[1] == steps[i - 1].cells[3]
  {
    CellsLink(trail, i);
    CellsLink(trail, i - 1);
    assert steps[i - 1].cells == CellsAt(trail, i - 1);
  }

  /** The mark is on the last row, if the current stage is known, and that row names it. */
  lemma MarkedRowIsCurrent(trail: seq<Entry>, current: Option<string>, steps: seq<Step>, i: nat)
    requires trail != [] && TellsTrail(trail, current, steps) && i < |steps|
    ensures steps[i].current <==> current.Some? && i == |steps| - 1
    ensures steps[i].current ==> steps[i].cells[3] == SingleLine(current.value)
  {
    if steps[i].current && EndsAt(trail, current.value) {
      CellsLink(trail, i);
      assert steps[i].cells == CellsAt(trail, i);
    }
  }

  // ---- Widths ----------------------------------------------------------------------------

  function LongestOf(a: nat, b: nat): nat { if a < b then b else a }

  /** The titles, laid out like a row of their own, then the steps. */
  function WithTitles(steps: seq<Step>): seq<Step> { [Step(TITLES, false)] + steps }

  /** The widest text of column `i`. */
  ghost predicate IsNatural(rows: seq<Step>, i: nat, n: nat)
    requires i < 5
  {
    && (forall k :: 0 <= k < |rows| ==> |rows[k].cells[i]| <= n)
    && (exists k :: 0 <= k < |rows| && n == |rows[k].cells[i]|)
  }

  ghost predicate AllNatural(rows: seq<Step>, natural: Widths) {
    forall i :: 0 <= i < 5 ==> IsNatural(rows, i, natural[i])
  }

  method NaturalWidths(rows: seq<Step>) returns (natural: Widths)
    requires rows != []
    ensures AllNatural(rows, natural)
  {
    var first := rows[0].cells;
    natural := [|first[0]|, |first[1]|, |first[2]|, |first[3]|, |first[4]|];
    assert rows[..1][0] == rows[0];
    for k := 1 to |rows|
      invariant AllNatural(rows[..k], natural)
    {
      natural := WidenFor(rows, k, natural);
    }
    assert rows[..|rows|] == rows;
  }

  method WidenFor(rows: seq<Step>, k: nat, before: Widths) returns (natural: Widths)
    requires k < |rows| && AllNatural(rows[..k], before)
    ensures AllNatural(rows[..k + 1], natural)
  {
    var cells := rows[k].cells;
    natural := before;
    for i := 0 to 5
      invariant forall j :: 0 <= j < i ==> natural[j] == LongestOf(before[j], |cells[j]|)
      invariant forall j :: i <= j < 5 ==> natural[j] == before[j]
    {
      natural := natural[i := LongestOf(natural[i], |cells[i]|)];
    }
    forall i | 0 <= i < 5 ensures IsNatural(rows[..k + 1], i, natural[i]) {
      NaturalFurther(rows, k, i, before[i]);
    }
  }

  lemma NaturalFurther(rows: seq<Step>, k: nat, i: nat, n: nat)
    requires k < |rows| && i < 5 && IsNatural(rows[..k], i, n)
    ensures IsNatural(rows[..k + 1], i, LongestOf(n, |rows[k].cells[i]|))
  {
    var was, new' := rows[..k], rows[..k + 1];
    forall j | 0 <= j < |new'| ensures |new'[j].cells[i]| <= LongestOf(n, |rows[k].cells[i]|) {
      if j < k {
        assert new'[j] == was[j];
      }
    }
    if n < |rows[k].cells[i]| {
      assert new'[k] == rows[k];
    } else {
      var j :| 0 <= j < |was| && n == |was[j].cells[i]|;
      assert new'[j] == was[j];
    }
  }

  // ---- The lines --------------------------------------------------------------------------

  function LineOf(row: Step, w: Widths, marker: string): string {
    Line(row.cells, w, if row.current then Some(marker) else None)
  }

  ghost function LinesOf(rows: seq<Step>, w: Widths, marker: string): seq<string> {
    if rows == [] then [] else LinesOf(rows[..|rows| - 1], w, marker) + [LineOf(rows[|rows| - 1], w, marker)]
  }

  lemma {:induction false} LinesOfAt(rows: seq<Step>, w: Widths, marker: string, k: nat)
    requires k < |rows|
    ensures |LinesOf(rows, w, marker)| == |rows| && LinesOf(rows, w, marker)[k] == LineOf(rows[k], w, marker)
  {
    if k < |rows| - 1 {
      LinesOfAt(rows[..|rows| - 1], w, marker, k);
    } else if k > 0 {
      LinesOfAt(rows[..|rows| - 1], w, marker, k - 1);
    }
  }

  ghost predicate AreLines(rows: seq<Step>, w: Widths, marker: string, lines: seq<string>) {
    |lines| == |rows| && lines == LinesOf(rows, w, marker)
  }

  ghost predicate Fits(rows: seq<Step>, w: Widths, marker: string, limit: nat) {
    forall k :: 0 <= k < |rows| ==> |LineOf(rows[k], w, marker)| <= limit
  }

  method RenderRow(rows: seq<Step>, w: Widths, marker: string, k: nat, ghost wanted: seq<string>) returns (line: string)
    requires k < |rows| && wanted == LinesOf(rows, w, marker)
    ensures |wanted| == |rows| && line == wanted[k]
  {
    LinesOfAt(rows, w, marker, k);
    line := LayoutRow(rows[k].cells, w, if rows[k].current then Some(marker) else None);
  }

  lemma NextLine(wanted: seq<string>, lines: seq<string>, line: string, k: nat)
    requires k < |wanted| && lines == wanted[..k] && line == wanted[k]
    ensures lines + [line] == wanted[..k + 1]
  {
  }

  method Render(rows: seq<Step>, w: Widths, marker: string) returns (lines: seq<string>)
    requires rows != []
    ensures AreLines(rows, w, marker, lines)
  {
    ghost var wanted := LinesOf(rows, w, marker);
    LinesOfAt(rows, w, marker, 0);
    lines := [];
    for k := 0 to |rows|
      invariant |lines| == k && lines == wanted[..k]
    {
      var line := RenderRow(rows, w, marker, k, wanted);
      NextLine(wanted, lines, line, k);
      lines := lines + [line];
    }
  }

  method Widest(lines: seq<string>) returns (n: nat)
    ensures forall k :: 0 <= k < |lines| ==> |lines[k]| <= n
    ensures n == 0 || exists k :: 0 <= k < |lines| && |lines[k]| == n
  {
    n := 0;
    for k := 0 to |lines|
      invariant forall j :: 0 <= j < k ==> |lines[j]| <= n
      invariant n == 0 || exists j :: 0 <= j < k && |lines[j]| == n
    {
      n := LongestOf(n, |lines[k]|);
    }
  }

  // ---- Shrinking ----------------------------------------------------------------------------

  function Floor(natural: Widths, i: nat): nat
    requires i < 5
  {
    Min(natural[i], 5)
  }

  /** The widths a shrinking passes through: only the middle columns give way,
    * none below its floor, none that is narrower while another is wider; of equals
    * the leftmost first.
    */
  ghost predicate Fair(natural: Widths, w: Widths) {
    && w[0] == natural[0] && w[4] == natural[4]
    && (forall i :: 1 <= i <= 3 ==> Floor(natural, i) <= w[i] <= natural[i])
    && (forall i, j :: 1 <= i <= 3 && 1 <= j <= 3 && w[i] < natural[i] ==> w[j] <= w[i] + (if j <= i then 0 else 1))
  }

  ghost predicate AtFloors(natural: Widths, w: Widths) {
    forall i :: 1 <= i <= 3 ==> w[i] == Floor(natural, i)
  }

  function Total(w: Widths): nat { w[1] + w[2] + w[3] }

  /** The widest of the middle columns above its floor, the leftmost of a tie. */
  method Pick(natural: Widths, w: Widths) returns (best: Option<nat>)
    ensures best.None? ==> forall j :: 1 <= j <= 3 ==> w[j] <= Floor(natural, j)
    ensures best.Some? ==> 1 <= best.value <= 3 && w[best.value] > Floor(natural, best.value)
    ensures best.Some? ==> forall j :: 1 <= j <= 3 && w[j] > Floor(natural, j) ==>
              w[j] <= w[best.value] && (j < best.value ==> w[j] < w[best.value])
  {
    best := None;
    for i := 1 to 4
      invariant best.None? ==> forall j :: 1 <= j < i ==> w[j] <= Floor(natural, j)
      invariant best.Some? ==> 1 <= best.value < i && w[best.value] > Floor(natural, best.value)
      invariant best.Some? ==> forall j :: 1 <= j < i && w[j] > Floor(natural, j) ==>
                  w[j] <= w[best.value] && (j < best.value ==> w[j] < w[best.value])
    {
      if w[i] > Floor(natural, i) {
        best := if best.Some? && w[best.value] >= w[i] then best else Some(i);
      }
    }
  }

  lemma CutKeepsFair(natural: Widths, w: Widths, i: nat)
    requires Fair(natural, w) && 1 <= i <= 3 && w[i] > Floor(natural, i)
    requires forall j :: 1 <= j <= 3 && w[j] > Floor(natural, j) ==> w[j] <= w[i] && (j < i ==> w[j] < w[i])
    ensures Fair(natural, w[i := w[i] - 1])
  {
    assert w[i] >= 6;
    assert forall j :: 1 <= j <= 3 ==> Floor(natural, j) <= 5;
  }

  lemma NoTwoWays(natural: Widths, v: Widths, w: Widths, i: nat, j: nat)
    requires Fair(natural, v) && Fair(natural, w) && 1 <= i <= 3 && 1 <= j <= 3 && w[i] < v[i]
    ensures w[j] <= v[j]
  {
    assert w[j] <= w[i] + (if j <= i then 0 else 1);
    if v[j] < natural[j] {
      assert v[i] <= v[j] + (if i <= j then 0 else 1);
    }
  }

  /** Fair widths come in one order: with less in all, none is wider anywhere. */
  lemma FairOnesChain(natural: Widths, v: Widths, w: Widths)
    requires Fair(natural, v) && Fair(natural, w) && Total(v) <= Total(w)
    ensures Within(v, w)
  {
    forall i | 1 <= i <= 3 ensures v[i] <= w[i] {
      if w[i] < v[i] {
        NoTwoWays(natural, v, w, i, 1);
        NoTwoWays(natural, v, w, i, 2);
        NoTwoWays(natural, v, w, i, 3);
        assert false;
      }
    }
  }

  // ---- The steps are clean, the widths wide enough ---------------------------------------------

  ghost predicate TimesTidy(trail: seq<Entry>) {
    forall i :: 0 <= i < |trail| ==> Tidy(trail[i].at)
  }

  lemma DigitsAreTidy(n: nat)
    ensures Tidy(Decimal.Printed(n))
  {
    var s := Decimal.Printed(n);
    assert Decimal.IsDigit(s[|s| - 1]);
  }

  lemma CellsAreClean(trail: seq<Entry>, i: nat)
    requires i < |trail| && Tidy(trail[i].at)
    ensures Clean(CellsAt(trail, i))
  {
    DigitsAreTidy(i + 1);
    assert Tidy("start") && Tidy(DOTS) && Tidy("");
  }

  ghost predicate AllClean(steps: seq<Step>) {
    forall k :: 0 <= k < |steps| ==> Clean(steps[k].cells)
  }

  lemma CurrentIsClean(current: string)
    ensures Clean([ARROW, "", "", SingleLine(current), ""])
  {
    var stage := SingleLine(current);
    var cells: Cells := [ARROW, "", "", stage, ""];
    assert cells[3] == stage && Tidy(stage) && Tidy("") && Tidy(ARROW);
  }

  lemma StepsAreClean(trail: seq<Entry>, current: Option<string>, steps: seq<Step>)
    requires TellsTrail(trail, current, steps) && TimesTidy(trail)
    ensures AllClean(steps)
  {
    forall k | 0 <= k < |steps| ensures Clean(steps[k].cells) {
      StepIsClean(trail, current, steps, k);
    }
  }

  lemma StepIsClean(trail: seq<Entry>, current: Option<string>, steps: seq<Step>, k: nat)
    requires TellsTrail(trail, current, steps) && k < |steps| && (k < |trail| ==> Tidy(trail[k].at))
    ensures Clean(steps[k].cells)
  {
    if k < |trail| {
      CellsAreClean(trail, k);
    } else {
      CurrentIsClean(current.value);
    }
  }

  /** Rows as they are built, with the widths they ask for. */
  ghost predicate Regular(rows: seq<Step>, natural: Widths) {
    rows != [] && AllClean(rows) && AllNatural(rows, natural) && Roomy(natural)
  }

  /** Lines only get shorter as the columns narrow. */
  lemma LinesGrow(rows: seq<Step>, natural: Widths, v: Widths, w: Widths, marker: string, limit: nat)
    requires Regular(rows, natural) && marker != "" && Tidy(marker)
    requires Fair(natural, v) && Fair(natural, w) && Within(v, w) && Fits(rows, w, marker, limit)
    ensures Fits(rows, v, marker, limit)
  {
    assert IsNatural(rows, 0, natural[0]);
    forall k | 0 <= k < |rows| ensures |LineOf(rows[k], v, marker)| <= limit {
      assert |LineOf(rows[k], w, marker)| <= limit;
      LineGrows(rows[k].cells, v, w, if rows[k].current then Some(marker) else None);
    }
  }

  /** No column is empty: each has its title. */
  ghost predicate Roomy(natural: Widths) {
    natural[1] > 0 && natural[2] > 0 && natural[3] > 0
  }

  lemma TitlesMakeRoom(steps: seq<Step>, natural: Widths)
    requires AllNatural(WithTitles(steps), natural) && AllClean(steps)
    ensures Regular(WithTitles(steps), natural)
  {
    var rows := WithTitles(steps);
    TitlesAreClean();
    assert rows[0].cells == TITLES && forall k :: 0 < k < |rows| ==> rows[k] == steps[k - 1];
    assert IsNatural(rows, 1, natural[1]) && IsNatural(rows, 2, natural[2]) && IsNatural(rows, 3, natural[3]);
  }

  lemma TitlesAreClean()
    ensures Clean(TITLES) && forall i :: 0 <= i < 5 ==> |TITLES[i]| > 0
  {
  }

  // ---- The layout ------------------------------------------------------------------------------

  /** No fair widths above `total` in all fit. */
  ghost predicate NoneWiderFits(rows: seq<Step>, natural: Widths, total: nat, marker: string, limit: nat) {
    forall v: Widths :: Fair(natural, v) && Total(v) > total ==> !Fits(rows, v, marker, limit)
  }

  lemma MarkersAreTidy()
    ensures MARKER != "" && MARKER_SHORT != "" && Tidy(MARKER) && Tidy(MARKER_SHORT) && MARKER != MARKER_SHORT
  {
    assert MARKER[|MARKER| - 1] == 't';
    assert |MARKER| == 9;
  }

  lemma NoneWiderThanMisfit(rows: seq<Step>, natural: Widths, w: Widths, marker: string, limit: nat)
    requires Regular(rows, natural) && Fair(natural, w) && marker != "" && Tidy(marker)
    requires !Fits(rows, w, marker, limit) && Total(w) > 0
    ensures NoneWiderFits(rows, natural, Total(w) - 1, marker, limit)
  {
    forall v: Widths | Fair(natural, v) && Total(v) > Total(w) - 1 ensures !Fits(rows, v, marker, limit) {
      FairOnesChain(natural, w, v);
      if Fits(rows, v, marker, limit) {
        LinesGrow(rows, natural, w, v, marker, limit);
        assert false;
      }
    }
  }

  lemma NaturalIsFair(natural: Widths)
    ensures Fair(natural, natural) && forall v: Widths :: Fair(natural, v) ==> Total(v) <= Total(natural)
  {
  }

  method Overflows(rows: seq<Step>, w: Widths, marker: string, lines: seq<string>, limit: nat) returns (b: bool)
    requires AreLines(rows, w, marker, lines)
    ensures b <==> !Fits(rows, w, marker, limit)
  {
    var n := Widest(lines);
    b := n > limit;
    if b {
      var k :| 0 <= k < |lines| && |lines[k]| == n;
      LinesOfAt(rows, w, marker, k);
      assert |LineOf(rows[k], w, marker)| > limit;
    } else {
      forall k | 0 <= k < |rows| ensures |LineOf(rows[k], w, marker)| <= limit {
        LinesOfAt(rows, w, marker, k);
        assert |lines[k]| <= n;
      }
    }
  }

  /** Every line fits; or no middle column is wider than five characters, unless one never was, and
    * the marker is cut short.
    */
  ghost predicate FitsOrGaveUp(rows: seq<Step>, natural: Widths, w: Widths, marker: string, limit: nat) {
    if Fits(rows, w, ['\U{25C0}'] + " current", limit) then marker == ['\U{25C0}'] + " current"
    else marker == ['\U{25C0}'] && forall i :: 1 <= i <= 3 ==> w[i] == if natural[i] < 5 then natural[i] else 5
  }

  /** A layout, its lines, and whether one of them is too long. */
  ghost predicate Laid(rows: seq<Step>, natural: Widths, w: Widths, marker: string, limit: nat,
                       lines: seq<string>, over: bool)
  {
    && Fair(natural, w) && AreLines(rows, w, marker, lines) && NoneWiderFits(rows, natural, Total(w), marker, limit)
    && (over <==> !Fits(rows, w, marker, limit))
  }

  method LayOut(rows: seq<Step>, natural: Widths, w: Widths, marker: string, limit: nat)
    returns (lines: seq<string>, over: bool)
    requires rows != [] && Fair(natural, w) && NoneWiderFits(rows, natural, Total(w), marker, limit)
    ensures Laid(rows, natural, w, marker, limit, lines, over)
  {
    lines := Render(rows, w, marker);
    over := Overflows(rows, w, marker, lines, limit);
  }

  /** One character off the widest of the middle columns that can give way, if one can. */
  method NarrowOnce(rows: seq<Step>, natural: Widths, w: Widths, marker: string, limit: nat)
    returns (v: Widths, lines: seq<string>, over: bool, stuck: bool)
    requires Regular(rows, natural) && marker != "" && Tidy(marker)
    requires Fair(natural, w) && NoneWiderFits(rows, natural, Total(w), marker, limit) && !Fits(rows, w, marker, limit)
    ensures stuck ==> AtFloors(natural, w)
    ensures !stuck ==> Total(v) < Total(w) && Laid(rows, natural, v, marker, limit, lines, over)
  {
    lines, over := [], true;
    v, stuck := CutWidest(natural, w);
    if !stuck {
      NoneWiderThanMisfit(rows, natural, w, marker, limit);
      lines, over := LayOut(rows, natural, v, marker, limit);
    }
  }

  method CutWidest(natural: Widths, w: Widths) returns (v: Widths, stuck: bool)
    requires Fair(natural, w)
    ensures if stuck then AtFloors(natural, w) else Fair(natural, v) && Total(v) == Total(w) - 1
  {
    var pick := Pick(natural, w);
    match pick
    case None =>
      v, stuck := w, true;
    case Some(i) =>
      CutKeepsFair(natural, w, i);
      CutsOne(w, i);
      v, stuck := w[i := w[i] - 1], false;
  }

  lemma CutsOne(w: Widths, i: nat)
    requires 1 <= i <= 3 && w[i] > 0
    ensures Total(w[i := w[i] - 1]) == Total(w) - 1
  {
  }

  /** Narrows the middle columns, a character at a time, until every line fits or none can give way. */
  method Narrow(rows: seq<Step>, natural: Widths, marker: string, limit: nat)
    returns (w: Widths, lines: seq<string>, over: bool)
    requires Regular(rows, natural) && marker != "" && Tidy(marker)
    ensures Laid(rows, natural, w, marker, limit, lines, over)
    ensures over ==> AtFloors(natural, w)
  {
    w := natural;
    NaturalIsFair(natural);
    lines, over := LayOut(rows, natural, w, marker, limit);
    var stuck := false;
    while over && !stuck
      invariant Laid(rows, natural, w, marker, limit, lines, over)
      invariant stuck ==> AtFloors(natural, w)
      decreases Total(w), !stuck
    {
      var v, relaid, misfit, none := NarrowOnce(rows, natural, w, marker, limit);
      stuck := none;
      if !stuck {
        w, lines, over := v, relaid, misfit;
      }
    }
  }

  /** The widest fair layout that fits, or else the floors and the short marker. */
  method Shrink(rows: seq<Step>, natural: Widths, limit: nat) returns (w: Widths, marker: string, lines: seq<string>)
    requires Regular(rows, natural)
    ensures Fair(natural, w) && AreLines(rows, w, marker, lines)
    ensures NoneWiderFits(rows, natural, Total(w), MARKER, limit)
    ensures FitsOrGaveUp(rows, natural, w, marker, limit)
  {
    marker := MARKER;
    MarkersAreTidy();
    var over;
    w, lines, over := Narrow(rows, natural, marker, limit);
    if over {
      marker := MARKER_SHORT;
      lines := Render(rows, w, marker);
    }
  }

  /** Column titles if there is a table, and a line per step. */
  datatype Table = Table(header: Option<string>, rows: seq<string>)

  /** `table` shows these lines. */
  ghost predicate Shows(table: Table, lines: seq<string>) {
    lines != [] && table.header == Some(lines[0]) && table.rows == lines[1..]
  }

  /** What is said of a trail without a step. */
  function NoStepsLine(current: Option<string>): string {
    match current
    case Some(c) => "  " + ARROW + " " + c + " (current, no transitions yet)"
    case None => "  (none)"
  }

  method StageProgressTable(trail: seq<Entry>, current: Option<string>, width: Option<nat>)
    returns (table: Table, steps: seq<Step>, natural: Widths, w: Widths, marker: string, ghost lines: seq<string>)
    requires TimesTidy(trail)
    ensures trail == [] ==>
      table == Table(None, [if current.None? then "  (none)"
                            else "  " + ['\U{2192}'] + " " + current.value + " (current, no transitions yet)"])
    ensures trail != [] ==> TellsTrail(trail, current, steps) && Regular(WithTitles(steps), natural)
    ensures trail != [] ==> AreLines(WithTitles(steps), w, marker, lines) && Shows(table, lines)
    ensures trail != [] ==> TellsAll(trail, current, steps)
    ensures trail != [] ==> WithTitles(steps)[0].cells == ["#", "from", "outcome", "to", "at (UTC)"]
    ensures trail != [] && width.None? ==> w == natural && marker == ['\U{25C0}'] + " current"
    ensures trail != [] && width.Some? ==>
      && Fair(natural, w) && NoneWiderFits(WithTitles(steps), natural, Total(w), MARKER, width.value)
      && FitsOrGaveUp(WithTitles(steps), natural, w, marker, width.value)
  {
    steps, natural, w, marker, lines := [], [0, 0, 0, 0, 0], [0, 0, 0, 0, 0], "", [];
    if trail == [] {
      table := Table(None, [NoStepsLine(current)]);
      return;
    }
    steps := BuildSteps(trail, current);
    StepsAreClean(trail, current, steps);
    var rows := WithTitles(steps);
    natural := NaturalWidths(rows);
    TitlesMakeRoom(steps, natural);
    var laid;
    if width.Some? {
      w, marker, laid := Shrink(rows, natural, width.value);
    } else {
      w, marker := natural, MARKER;
      laid := Render(rows, w, marker);
    }
    lines := laid;
    table := Table(Some(laid[0]), laid[1..]);
  }

  /** A table that has the room it wants is laid out in full, whatever the limit. */
  lemma RoomyTablesAreNotCut(rows: seq<Step>, natural: Widths, w: Widths, limit: nat)
    requires Fair(natural, w) && NoneWiderFits(rows, natural, Total(w), MARKER, limit) && Fits(rows, natural, MARKER, limit)
    ensures w == natural
  {
    NaturalIsFair(natural);
    if Total(w) < Total(natural) {
      assert false;
    }
    assert forall i :: 0 <= i < 5 ==> w[i] == natural[i];
  }

  /** A text is shown in full, padded, where its column kept its natural width; elsewhere
    * its start is, at least four characters of it, and the ellipsis.
    */
  lemma CellsAreReadable(rows: seq<Step>, natural: Widths, w: Widths, k: nat, i: nat)
    requires AllNatural(rows, natural) && Fair(natural, w) && k < |rows| && 1 <= i <= 3
    ensures var s, shown := rows[k].cells[i], CutCell(rows[k].cells[i], w[i]);
      shown == s || (w[i] < natural[i] && w[i] >= 5 && |shown| == w[i]
                     && shown[w[i] - 1] == '\U{2026}' && shown[..w[i] - 1] == s[..w[i] - 1])
  {
    assert IsNatural(rows, i, natural[i]);
  }
}
