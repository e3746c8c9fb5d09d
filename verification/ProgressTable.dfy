/** The table of a task's steps (`choco/src/render.rs`, lines 1141 to 1364 and 1738 to 1740).
  *
  * A time arrives formatted, an unknown one as the empty text.
  */
module ProgressTable {
  import opened Wrappers
  import opened Text

  // ---- Cells and columns ---------------------------------------------------------------

  /** Texts of the columns number, from, outcome, to, at. */
  type Cells = c: seq<string> | |c| == 5 witness ["", "", "", "", ""]

  type Widths = w: seq<nat> | |w| == 5 witness [0, 0, 0, 0, 0]

  function Spaces(n: nat): (r: string)
    ensures |r| == n && forall k :: 0 <= k < n ==> r[k] == ' '
  {
    if n == 0 then "" else " " + Spaces(n - 1)
  }

  function PadRight(s: string, w: nat): string {
    if |s| < w then s + Spaces(w - |s|) else s
  }

  function PadLeft(s: string, w: nat): string {
    if |s| < w then Spaces(w - |s|) + s else s
  }

  const ELLIPSIS: char := '\U{2026}'

  /** `s` in at most `w` characters, the last an ellipsis if any was dropped. */
  function CutCell(s: string, w: nat): (r: string)
    ensures |r| == if |s| <= w then |s| else w
  {
    if |s| <= w then s else if w == 0 then "" else s[..w - 1] + [ELLIPSIS]
  }

  /** What stands in a middle column: exactly `w` characters. */
  function Column(s: string, w: nat): (r: string)
    ensures |r| == w
  {
    PadRight(CutCell(s, w), w)
  }

  /** The text of the `i`-th column. */
  function Shown(cells: Cells, w: Widths, i: nat): string
    requires i < 5
  {
    if i == 0 then PadLeft(cells[0], w[0]) else if i == 4 then cells[4] else Column(cells[i], w[i])
  }

  /** The texts of a line, in their columns. */
  function Texts(cells: Cells, w: Widths): Cells {
    seq(5, i requires 0 <= i < 5 => Shown(cells, w, i))
  }

  /** Where the `i`-th column begins. */
  function Offset(w: Widths, i: nat): nat
    requires i < 5
  {
    if i == 0 then 2 else Offset(w, i - 1) + w[i - 1] + 2
  }

  /** A line up to the end of its `i`-th column. */
  function Front(texts: Cells, i: nat): string
    requires i < 5
  {
    if i == 0 then "  " + texts[0] else Front(texts, i - 1) + "  " + texts[i]
  }

  /** What follows the last cell on a row carrying the marker. */
  function Mark(at: string, w: nat, marker: Option<string>): string {
    match marker
    case None => ""
    case Some(m) => Spaces(if |at| < w then w - |at| else 0) + "  " + m
  }

  function FullLine(cells: Cells, w: Widths, marker: Option<string>): string {
    Front(Texts(cells, w), |cells| - 1) + Mark(cells[4], w[4], marker)
  }

  function Line(cells: Cells, w: Widths, marker: Option<string>): string {
    TrimBlanks(FullLine(cells, w, marker))
  }

  method LayoutRow(cells: Cells, widths: Widths, marker: Option<string>) returns (line: string)
    ensures line == Line(cells, widths, marker)
  {
    ghost var texts := Texts(cells, widths);
    line := LayoutCells(cells, widths, texts);
    line := AddMarker(line, cells[4], widths[4], marker);
    line := TrimBlanks(line);
  }

  method LayoutCells(cells: Cells, widths: Widths, ghost texts: Cells) returns (line: string)
    requires texts[0] == PadLeft(cells[0], widths[0]) && texts[4] == cells[4]
    requires forall i :: 1 <= i < 4 ==> texts[i] == Column(cells[i], widths[i])
    ensures line == Front(texts, |cells| - 1)
  {
    line := "  " + PadLeft(cells[0], widths[0]);
    for i := 1 to 4
      invariant line == Front(texts, i - 1)
    {
      var text := PadRight(CutCell(cells[i], widths[i]), widths[i]);
      assert text == texts[i];
      line := line + "  " + text;
    }
    line := line + "  " + cells[4];
  }

  method AddMarker(front: string, at: string, w: nat, marker: Option<string>) returns (line: string)
    ensures line == front + Mark(at, w, marker)
  {
    line := front;
    if marker.Some? {
      var pad := if |at| < w then w - |at| else 0;
      line := line + Spaces(pad);
      line := line + "  ";
      line := line + marker.value;
    }
  }

  // ---- Columns line up ------------------------------------------------------------------

  /** The first four columns are filled to their widths. */
  ghost predicate Filled(texts: Cells, w: Widths) {
    forall i :: 0 <= i < 4 ==> |texts[i]| == w[i]
  }

  lemma TextsFill(cells: Cells, w: Widths)
    requires |cells[0]| <= w[0]
    ensures Filled(Texts(cells, w), w)
  {
  }

  lemma {:induction false} FrontReaches(texts: Cells, w: Widths, i: nat)
    requires i < 5 && Filled(texts, w)
    ensures |Front(texts, i)| == Offset(w, i) + |texts[i]|
  {
    if i > 0 {
      FrontReaches(texts, w, i - 1);
    }
  }

  predicate StandsAt(line: string, o: nat, s: string) {
    o + |s| <= |line| && line[o..o + |s|] == s
  }

  lemma StandsStill(a: string, b: string, o: nat, s: string)
    requires StandsAt(a, o, s)
    ensures StandsAt(a + b, o, s)
  {
    assert (a + b)[o..o + |s|] == a[o..o + |s|];
  }

  lemma StandsLast(a: string, s: string)
    ensures StandsAt(a + s, |a|, s)
  {
  }

  lemma {:induction false} FrontShows(texts: Cells, w: Widths, i: nat, j: nat)
    requires i <= j < 5 && Filled(texts, w)
    ensures StandsAt(Front(texts, j), Offset(w, i), texts[i])
  {
    if i < j {
      FrontShows(texts, w, i, j - 1);
      var before := Front(texts, j - 1);
      StandsStill(before, "  ", Offset(w, i), texts[i]);
      StandsStill(before + "  ", texts[j], Offset(w, i), texts[i]);
    } else if i == 0 {
      StandsLast("  ", texts[0]);
    } else {
      FrontReaches(texts, w, i - 1);
      StandsLast(Front(texts, i - 1) + "  ", texts[i]);
    }
  }

  lemma TrimmedShows(full: string, o: nat, s: string, k: nat)
    requires StandsAt(full, o, s) && k < |s|
    ensures var line := TrimBlanks(full);
      if o + k < |line| then line[o + k] == s[k] else IsBlank(s[k])
  {
    var line := TrimBlanks(full);
    TrimmedIsTidy(full);
    assert full[o..o + |s|][k] == full[o + k];
    if o + k >= |line| {
      assert full[|line|..][o + k - |line|] == full[o + k];
    }
  }

  /** Every line laid out at `w`, the header or a row, shows column `i` from one
    * offset on, as far as the line reaches; what was trimmed is blank.
    */
  lemma ColumnsLineUp(cells: Cells, w: Widths, marker: Option<string>, i: nat, k: nat)
    requires i < 5 && |cells[0]| <= w[0] && k < |Texts(cells, w)[i]|
    ensures var line, o, s := Line(cells, w, marker), Offset(w, i), Texts(cells, w)[i];
      if o + k < |line| then line[o + k] == s[k] else IsBlank(s[k])
  {
    var texts := Texts(cells, w);
    TextsFill(cells, w);
    ShowsThrough(texts, w, Mark(cells[4], w[4], marker), i, k);
  }

  lemma ShowsThrough(texts: Cells, w: Widths, mark: string, i: nat, k: nat)
    requires i < 5 && Filled(texts, w) && k < |texts[i]|
    ensures var line, o, s := TrimBlanks(Front(texts, |texts| - 1) + mark), Offset(w, i), texts[i];
      if o + k < |line| then line[o + k] == s[k] else IsBlank(s[k])
  {
    FrontShows(texts, w, i, |texts| - 1);
    StandsStill(Front(texts, |texts| - 1), mark, Offset(w, i), texts[i]);
    TrimmedShows(Front(texts, |texts| - 1) + mark, Offset(w, i), texts[i], k);
  }

  lemma MarkStands(front: string, at: string, w: nat, m: string)
    requires |at| <= w && m != "" && Tidy(m)
    ensures var full := front + Mark(at, w, Some(m));
      && TrimBlanks(full) == full && |full| == |front| + (w - |at|) + 2 + |m|
      && StandsAt(full, |front| + (w - |at|) + 2, m)
  {
    MarkedLine(front, Spaces(w - |at|), "  ", m);
  }

  lemma MarkedLine(front: string, pad: string, gap: string, m: string)
    requires m != "" && Tidy(m)
    ensures var full := front + (pad + gap + m);
      TrimBlanks(full) == full && StandsAt(full, |front| + |pad| + |gap|, m)
  {
    var head := front + pad + gap;
    assert front + (pad + gap + m) == head + m;
    StandsLast(head, m);
    TidyStays(head, m);
  }

  /** The markers line up too, and are never trimmed. */
  lemma MarkersLineUp(cells: Cells, w: Widths, m: string)
    requires |cells[0]| <= w[0] && |cells[4]| <= w[4] && m != "" && Tidy(m)
    ensures StandsAt(Line(cells, w, Some(m)), Offset(w, 4) + w[4] + 2, m)
    ensures |Line(cells, w, Some(m))| == Offset(w, 4) + w[4] + 2 + |m|
  {
    var texts := Texts(cells, w);
    TextsFill(cells, w);
    FrontReaches(texts, w, |cells| - 1);
    MarkStands(Front(texts, |cells| - 1), cells[4], w[4], m);
  }

  // ---- How long a line is -----------------------------------------------------------------

  /** Cells as the steps have them: the number is there, and nothing ends in a blank. */
  ghost predicate Clean(cells: Cells) {
    cells[0] != "" && forall i :: 0 <= i < 5 ==> Tidy(cells[i])
  }

  ghost predicate Wide(cells: Cells, w: Widths) {
    |cells[0]| <= w[0] && w[1] > 0 && w[2] > 0 && w[3] > 0
  }

  function Min(a: nat, b: nat): nat { if a <= b then a else b }

  function FrontLength(cells: Cells, w: Widths, i: nat): nat
    requires i < 4
  {
    if i == 0 then 2 + w[0]
    else if cells[i] != "" then Offset(w, i) + Min(|cells[i]|, w[i])
    else FrontLength(cells, w, i - 1)
  }

  function Length(cells: Cells, w: Widths, marker: Option<string>): nat {
    match marker
    case Some(m) => Offset(w, 4) + (if |cells[4]| < w[4] then w[4] else |cells[4]|) + 2 + |m|
    case None => if cells[4] != "" then Offset(w, 4) + |cells[4]| else FrontLength(cells, w, 3)
  }

  lemma TidyStays(a: string, b: string)
    requires b != "" && Tidy(b)
    ensures TrimBlanks(a + b) == a + b
  {
    assert (a + b)[|a + b| - 1] == b[|b| - 1];
  }

  lemma PaddedStaysTidy(s: string, w: nat)
    requires s != "" && Tidy(s)
    ensures PadLeft(s, w) != "" && Tidy(PadLeft(s, w))
  {
  }

  /** `text` is `core` and blanks. */
  ghost predicate CoreOf(text: string, core: string) {
    core <= text && Tidy(core) && AllBlank(text[|core|..])
  }

  lemma ColumnCore(s: string, w: nat)
    requires w > 0 && Tidy(s)
    ensures CoreOf(Column(s, w), CutCell(s, w)) && (CutCell(s, w) == "" <==> s == "")
  {
    var cut := CutCell(s, w);
    assert Column(s, w) == cut + Spaces(w - |cut|);
  }

  lemma TrimmedCore(a: string, text: string, core: string)
    requires CoreOf(text, core)
    ensures TrimBlanks(a + "  " + text) == if core == "" then TrimBlanks(a) else a + "  " + core
  {
    var pad := text[|core|..];
    assert text == core + pad;
    assert a + "  " + text == (a + "  " + core) + pad;
    TrimDropsBlanks(a + "  " + core, pad);
    TrimmedEnd(a, core);
  }

  /** The number's column, and those after it, without their padding. */
  ghost predicate Cores(cells: Cells, texts: Cells, w: Widths, cores: Cells) {
    && cores[0] != "" && |cores[0]| == w[0] && texts[0] == cores[0]
    && (forall i :: 0 <= i < 4 ==> CoreOf(texts[i], cores[i]))
    && (forall i :: 1 <= i < 4 ==> |cores[i]| == Min(|cells[i]|, w[i]) && (cores[i] == "" <==> cells[i] == ""))
  }

  lemma {:induction false} TrimmedFront(cells: Cells, texts: Cells, w: Widths, cores: Cells, i: nat)
    requires i < 4 && Filled(texts, w) && Cores(cells, texts, w, cores)
    ensures |TrimBlanks(Front(texts, i))| == FrontLength(cells, w, i)
  {
    if i == 0 {
      TidyStays("  ", texts[0]);
    } else {
      TrimmedFront(cells, texts, w, cores, i - 1);
      FrontReaches(texts, w, i - 1);
      TrimmedCore(Front(texts, i - 1), texts[i], cores[i]);
    }
  }

  /** What `core` is to the cell `s` in a column `w` wide. */
  ghost predicate MiddleCore(text: string, core: string, s: string, w: nat) {
    CoreOf(text, core) && |core| == Min(|s|, w) && (core == "" <==> s == "")
  }

  lemma ColumnHasCore(s: string, w: nat, text: string) returns (core: string)
    requires w > 0 && Tidy(s) && text == Column(s, w)
    ensures MiddleCore(text, core, s, w)
  {
    core := CutCell(s, w);
    ColumnCore(s, w);
  }

  lemma PackedCores(cells: Cells, texts: Cells, w: Widths, a: string, b: string, c: string) returns (cores: Cells)
    requires texts[0] != "" && Tidy(texts[0]) && |texts[0]| == w[0]
    requires MiddleCore(texts[1], a, cells[1], w[1]) && MiddleCore(texts[2], b, cells[2], w[2])
    requires MiddleCore(texts[3], c, cells[3], w[3])
    ensures Cores(cells, texts, w, cores)
  {
    cores := [texts[0], a, b, c, ""];
    assert CoreOf(texts[0], texts[0]);
    assert forall i :: 1 <= i < 4 ==> MiddleCore(texts[i], cores[i], cells[i], w[i]);
  }

  lemma CoresOfTexts(cells: Cells, texts: Cells, w: Widths) returns (cores: Cells)
    requires Clean(cells) && Wide(cells, w) && texts[0] == PadLeft(cells[0], w[0])
    requires texts[1] == Column(cells[1], w[1]) && texts[2] == Column(cells[2], w[2]) && texts[3] == Column(cells[3], w[3])
    ensures Cores(cells, texts, w, cores)
  {
    PaddedStaysTidy(cells[0], w[0]);
    var a := ColumnHasCore(cells[1], w[1], texts[1]);
    var b := ColumnHasCore(cells[2], w[2], texts[2]);
    var c := ColumnHasCore(cells[3], w[3], texts[3]);
    cores := PackedCores(cells, texts, w, a, b, c);
  }

  lemma TrimmedEnd(front: string, at: string)
    requires Tidy(at)
    ensures TrimBlanks(front + "  " + at) == if at == "" then TrimBlanks(front) else front + "  " + at
  {
    if at == "" {
      assert front + "  " + at == front + "  ";
      TrimDropsBlanks(front, "  ");
    } else {
      TidyStays(front + "  ", at);
    }
  }

  lemma MarkedEnd(front: string, at: string, w: nat, m: string)
    requires m != "" && Tidy(m)
    ensures |TrimBlanks(front + Mark(at, w, Some(m)))| == |front| + (if |at| < w then w - |at| else 0) + 2 + |m|
  {
    MarkStands(front, at, if |at| < w then w else |at|, m);
  }

  lemma LineLength(cells: Cells, w: Widths, marker: Option<string>)
    requires Clean(cells) && Wide(cells, w) && (marker.Some? ==> marker.value != "" && Tidy(marker.value))
    ensures |Line(cells, w, marker)| == Length(cells, w, marker)
  {
    var cores := CoresOfTexts(cells, Texts(cells, w), w);
    TextsFill(cells, w);
    LengthOf(cells, Texts(cells, w), w, cores, marker);
  }

  lemma LengthOf(cells: Cells, texts: Cells, w: Widths, cores: Cells, marker: Option<string>)
    requires Filled(texts, w) && Cores(cells, texts, w, cores) && texts[4] == cells[4] && Tidy(cells[4])
    requires marker.Some? ==> marker.value != "" && Tidy(marker.value)
    ensures |TrimBlanks(Front(texts, |cells| - 1) + Mark(cells[4], w[4], marker))| == Length(cells, w, marker)
  {
    var last := |cells| - 1;
    FrontReaches(texts, w, last);
    match marker
    case Some(m) =>
      MarkedEnd(Front(texts, last), cells[4], w[4], m);
    case None =>
      assert Front(texts, last) + Mark(cells[4], w[4], marker) == Front(texts, last - 1) + "  " + cells[4];
      TrimmedEnd(Front(texts, last - 1), cells[4]);
      TrimmedFront(cells, texts, w, cores, last - 1);
  }

  /** `v` is nowhere wider than `w`. */
  ghost predicate Within(v: Widths, w: Widths) {
    forall i :: 0 <= i < 5 ==> v[i] <= w[i]
  }

  lemma {:induction false} OffsetsGrow(v: Widths, w: Widths, i: nat)
    requires i < 5 && Within(v, w)
    ensures Offset(v, i) <= Offset(w, i)
  {
    if i > 0 {
      OffsetsGrow(v, w, i - 1);
    }
  }

  lemma {:induction false} FrontLengthGrows(cells: Cells, v: Widths, w: Widths, i: nat)
    requires i < 4 && Within(v, w)
    ensures FrontLength(cells, v, i) <= FrontLength(cells, w, i)
  {
    OffsetsGrow(v, w, i);
    if i > 0 && cells[i] == "" {
      FrontLengthGrows(cells, v, w, i - 1);
    }
  }

  /** Narrower columns never make a line longer. */
  lemma LineGrows(cells: Cells, v: Widths, w: Widths, marker: Option<string>)
    requires Clean(cells) && Wide(cells, v) && Wide(cells, w) && Within(v, w)
    requires marker.Some? ==> marker.value != "" && Tidy(marker.value)
    ensures |Line(cells, v, marker)| <= |Line(cells, w, marker)|
  {
    LineLength(cells, v, marker);
    LineLength(cells, w, marker);
    OffsetsGrow(v, w, 4);
    FrontLengthGrows(cells, v, w, 3);
  }
}
