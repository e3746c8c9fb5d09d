/** Which required sections a report accounts for
  * (`chocofactory-core/src/mcp.rs`, lines 173 to 252).
  */
module ReportSections {
  import opened Wrappers
  import opened Text
  import opened ReportHeading

  // ---- Lines -----------------------------------------------------------------

  function WithoutCr(line: string): string {
    if line != "" && line[|line| - 1] == '\r' then line[..|line| - 1] else line
  }

  /** Lines end at a newline, which a carriage return may come before; the last
    * line may have none. `begun` is the line being read. */
  function LinesFrom(begun: string, s: string): seq<string>
    decreases |s|
  {
    if s == "" then (if begun == "" then [] else [begun])
    else if s[0] == '\n' then [WithoutCr(begun)] + LinesFrom("", s[1..])
    else LinesFrom(begun + [s[0]], s[1..])
  }

  function Lines(s: string): seq<string> { LinesFrom("", s) }

  /** The lines read so far stay as they are when a new line is begun below them,
    * as long as the last of them does not end in a carriage return.
    */
  lemma {:induction false} LinesGoOn(begun: string, s: string, t: string)
    requires begun + s == "" || (begun + s)[|begun + s| - 1] != '\r'
    ensures LinesFrom(begun, s) <= LinesFrom(begun, s + "\n" + t)
    decreases |s|
  {
    if s == "" {
      assert s + "\n" + t == "\n" + t && begun + s == begun;
      assert ("\n" + t)[1..] == t;
    } else {
      var rest := s[1..];
      assert (s + "\n" + t)[1..] == rest + "\n" + t;
      if s[0] == '\n' {
        assert rest == "" || rest[|rest| - 1] == (begun + s)[|begun + s| - 1];
        assert "" + rest == rest;
        LinesGoOn("", rest, t);
      } else {
        assert begun + [s[0]] + rest == begun + s;
        LinesGoOn(begun + [s[0]], rest, t);
      }
    }
  }

  /** A carriage return at the end is dropped when a new line is begun, or leaves a blank line. */
  lemma {:induction false} LinesAfterReturn(begun: string, s: string, t: string)
    ensures var was, now := LinesFrom(begun, s), LinesFrom(begun, s + "\r\n" + t);
      now == was + Lines(t) || now == was + [""] + Lines(t)
    decreases |s|
  {
    var whole := s + "\r\n" + t;
    if s == "" {
      assert whole[0] == '\r' && whole[1..] == "\n" + t && ("\n" + t)[1..] == t;
      assert WithoutCr(begun + ['\r']) == begun;
      assert begun == "" ==> [begun] == [] + [""];
    } else {
      assert whole[0] == s[0] && whole[1..] == s[1..] + "\r\n" + t;
      LinesAfterReturn(if s[0] == '\n' then "" else begun + [s[0]], s[1..], t);
    }
  }

  lemma {:induction false} LinesJoin(begun: string, s: string, t: string)
    requires s != "" && s[|s| - 1] == '\n'
    ensures LinesFrom(begun, s + t) == LinesFrom(begun, s) + Lines(t)
    decreases |s|
  {
    var rest := s[1..];
    assert (s + t)[0] == s[0] && (s + t)[1..] == rest + t;
    if rest == "" {
      assert rest + t == t && s[0] == '\n';
    } else {
      LinesJoin(if s[0] == '\n' then "" else begun + [s[0]], rest, t);
    }
  }

  /** A line, ended, and what comes after it. */
  lemma {:induction false} FirstLine(begun: string, line: string, rest: string)
    requires '\n' !in line
    ensures LinesFrom(begun, line + "\n" + rest) == [WithoutCr(begun + line)] + Lines(rest)
    decreases |line|
  {
    var s := line + "\n" + rest;
    if line == "" {
      assert s == "\n" + rest && s[1..] == rest && begun + line == begun;
    } else {
      assert s[0] == line[0] && s[1..] == line[1..] + "\n" + rest;
      assert begun + [line[0]] + line[1..] == begun + line;
      FirstLine(begun + [line[0]], line[1..], rest);
    }
  }

  // ---- The pass ------------------------------------------------------------------

  /** A line that heads a section, and whether it says anything after the name. */
  datatype Mention = Mention(section: nat, inline: bool)

  /** All the pass looks at: which lines show anything, and which head what. */
  datatype Report = Report(visible: seq<bool>, headings: seq<Option<Mention>>, sections: nat)

  function MentionOf(u: Unicode, line: string, names: seq<string>): (m: Option<Mention>)
    ensures m.Some? ==> m.value.section < |names|
  {
    match HeadingFor(u, line, names)
    case None => None
    case Some(h) => Some(Mention(h.0, !Blank(u, h.1)))
  }

  function ReadReport(u: Unicode, lines: seq<string>, names: seq<string>): (r: Report)
    ensures WellRead(r)
  {
    Report(seq(|lines|, i requires 0 <= i < |lines| => !Blank(u, lines[i])),
           seq(|lines|, i requires 0 <= i < |lines| => MentionOf(u, lines[i], names)),
           |names|)
  }

  ghost predicate WellRead(r: Report) {
    && |r.headings| == |r.visible|
    && forall i :: 0 <= i < |r.headings| && r.headings[i].Some? ==> r.headings[i].value.section < r.sections
  }

  /** The line does not end the section being scanned: it heads nothing, or
    * only a section already accounted for. */
  predicate Open(r: Report, done: seq<bool>, j: nat)
    requires WellRead(r) && |done| == r.sections && j < |r.visible|
  {
    r.headings[j].Some? ==> done[r.headings[j].value.section]
  }

  ghost predicate OpenTo(r: Report, done: seq<bool>, i: nat, j: nat)
    requires WellRead(r) && |done| == r.sections && i <= j < |r.visible|
  {
    forall k :: i < k <= j ==> Open(r, done, k)
  }

  /** Some visible line below `i` is reached before any line that ends the section. */
  ghost predicate ContentBelow(r: Report, done: seq<bool>, i: nat)
    requires WellRead(r) && |done| == r.sections && i < |r.visible|
  {
    exists j :: i < j < |r.visible| && r.visible[j] && OpenTo(r, done, i, j)
  }

  ghost predicate HasContent(r: Report, done: seq<bool>, i: nat)
    requires WellRead(r) && |done| == r.sections && i < |r.visible| && r.headings[i].Some?
  {
    r.headings[i].value.inline || ContentBelow(r, done, i)
  }

  /** Which sections the first `k` lines account for. */
  ghost function Done(r: Report, k: nat): (done: seq<bool>)
    requires WellRead(r) && k <= |r.visible|
    ensures |done| == r.sections
  {
    if k == 0 then seq(r.sections, _ => false)
    else if r.headings[k - 1].None? then Done(r, k - 1)
    else
      var before := Done(r, k - 1);
      var s := r.headings[k - 1].value.section;
      if before[s] then before else before[s := HasContent(r, before, k - 1)]
  }

  /** No blank line is a heading. */
  ghost predicate BlanksAreBare(r: Report)
    requires |r.headings| == |r.visible|
  {
    forall i :: 0 <= i < |r.visible| && !r.visible[i] ==> r.headings[i].None?
  }

  /** The scan below one heading; `looked` is the last line it examined. */
  method ScanBelow(r: Report, done: seq<bool>, i: nat) returns (found: bool, ghost looked: nat)
    requires WellRead(r) && |done| == r.sections && i < |r.visible|
    ensures found == ContentBelow(r, done, i)
    ensures i <= looked < |r.visible|
    ensures BlanksAreBare(r) ==> forall k :: i < k < looked ==> r.headings[k].None?
  {
    found, looked := false, i;
    var j := i + 1;
    while j < |r.visible|
      invariant i < j <= |r.visible| && looked == j - 1
      invariant OpenTo(r, done, i, j - 1)
      invariant forall k :: i < k < j ==> !r.visible[k]
    {
      looked := j;
      if !Open(r, done, j) {
        return;
      }
      if r.visible[j] {
        assert OpenTo(r, done, i, j);
        found := true;
        return;
      }
      j := j + 1;
    }
  }

  /** One pass over the lines. `examined` counts the lines the inner scans look
    * at, over the whole pass: no more than the report has, however often its
    * headings repeat. */
  method Account(r: Report) returns (done: seq<bool>, ghost examined: nat)
    requires WellRead(r)
    ensures done == Done(r, |r.visible|)
    ensures BlanksAreBare(r) ==> examined <= |r.visible|
  {
    done := seq(r.sections, _ => false);
    examined := 0;
    ghost var frontier := 0;
    for i := 0 to |r.visible|
      invariant done == Done(r, i)
      invariant BlanksAreBare(r) ==> examined <= frontier <= |r.visible|
      invariant BlanksAreBare(r) ==> forall k :: i <= k < frontier ==> r.headings[k].None?
    {
      if r.headings[i].Some? && !done[r.headings[i].value.section] {
        var hasContent := r.headings[i].value.inline;
        if !hasContent {
          ghost var looked;
          hasContent, looked := ScanBelow(r, done, i);
          examined := examined + (looked - i);
          frontier := looked;
        }
        done := done[r.headings[i].value.section := hasContent];
      }
    }
  }

  // ---- What the pass means ---------------------------------------------------------

  function NextVisible(r: Report, i: nat): (j: nat)
    requires i <= |r.visible|
    ensures i <= j <= |r.visible| && (j < |r.visible| ==> r.visible[j])
    ensures forall k :: i <= k < j ==> !r.visible[k]
    decreases |r.visible| - i
  {
    if i == |r.visible| || r.visible[i] then i else NextVisible(r, i + 1)
  }

  /** One look is enough: a heading has content when its own line does, or when
    * the next visible line exists and heads no section still owed. */
  predicate OneLook(r: Report, done: seq<bool>, i: nat)
    requires WellRead(r) && |done| == r.sections && i < |r.visible| && r.headings[i].Some?
  {
    var j := NextVisible(r, i + 1);
    || r.headings[i].value.inline
    || (j < |r.visible| && (r.headings[j].None? || done[r.headings[j].value.section]))
  }

  lemma OneLookIsEnough(r: Report, done: seq<bool>, i: nat)
    requires WellRead(r) && BlanksAreBare(r) && |done| == r.sections && i < |r.visible| && r.headings[i].Some?
    ensures HasContent(r, done, i) <==> OneLook(r, done, i)
  {
    var j := NextVisible(r, i + 1);
    if j < |r.visible| && Open(r, done, j) {
      assert OpenTo(r, done, i, j);
    }
    if ContentBelow(r, done, i) {
      var k :| i < k < |r.visible| && r.visible[k] && OpenTo(r, done, i, k);
      assert j <= k;
      assert Open(r, done, j);
    }
  }

  lemma {:induction false} DoneStays(r: Report, i: nat, k: nat, s: nat)
    requires WellRead(r) && i <= k <= |r.visible| && s < r.sections && Done(r, i)[s]
    ensures Done(r, k)[s]
    decreases k - i
  {
    if i < k {
      DoneStays(r, i, k - 1, s);
    }
  }

  ghost predicate Credits(r: Report, i: nat, s: nat)
    requires WellRead(r) && i < |r.visible|
  {
    r.headings[i].Some? && r.headings[i].value.section == s && HasContent(r, Done(r, i), i)
  }

  /** A section is accounted for exactly when one of its headings has content
    * under it, judged by what the lines before that heading account for. */
  lemma {:induction false} DoneMeansCredited(r: Report, k: nat, s: nat)
    requires WellRead(r) && k <= |r.visible| && s < r.sections
    ensures Done(r, k)[s] <==> exists i :: 0 <= i < k && Credits(r, i, s)
  {
    if k > 0 {
      DoneMeansCredited(r, k - 1, s);
      if Done(r, k)[s] && !Done(r, k - 1)[s] {
        assert Credits(r, k - 1, s);
      }
      if Done(r, k - 1)[s] {
        DoneStays(r, k - 1, k, s);
      }
    }
  }

  /** Blank lines and bare headings account for nothing, in whatever order and however many. */
  lemma {:induction false} EmptyWalkDoesNothing(r: Report, k: nat)
    requires WellRead(r) && BlanksAreBare(r) && k <= |r.visible|
    requires forall i :: 0 <= i < |r.visible| && r.visible[i] ==> r.headings[i].Some? && !r.headings[i].value.inline
    ensures forall s :: 0 <= s < r.sections ==> !Done(r, k)[s]
  {
    if k > 0 {
      EmptyWalkDoesNothing(r, k - 1);
      if r.headings[k - 1].Some? {
        OneLookIsEnough(r, Done(r, k - 1), k - 1);
      }
    }
  }

  predicate Extends(r: Report, longer: Report) {
    r.visible <= longer.visible && r.headings <= longer.headings && r.sections == longer.sections
  }

  predicate NoLess(a: seq<bool>, b: seq<bool>) {
    |a| == |b| && forall s :: 0 <= s < |a| && a[s] ==> b[s]
  }

  lemma ContentGrows(r: Report, longer: Report, done: seq<bool>, more: seq<bool>, i: nat)
    requires WellRead(r) && WellRead(longer) && Extends(r, longer)
    requires |done| == r.sections && NoLess(done, more) && i < |r.visible| && r.headings[i].Some?
    requires HasContent(r, done, i)
    ensures HasContent(longer, more, i)
  {
    assert forall k :: 0 <= k < |r.visible| ==>
        r.visible[k] == longer.visible[k] && r.headings[k] == longer.headings[k];
    if !r.headings[i].value.inline {
      var j :| i < j < |r.visible| && r.visible[j] && OpenTo(r, done, i, j);
      forall k | i < k <= j ensures Open(longer, more, k) {
        assert Open(r, done, k);
      }
      assert OpenTo(longer, more, i, j);
    }
  }

  lemma {:induction false} LongerDoesNoLess(r: Report, longer: Report, k: nat)
    requires WellRead(r) && WellRead(longer) && Extends(r, longer) && k <= |r.visible|
    ensures NoLess(Done(r, k), Done(longer, k))
  {
    if k > 0 {
      LongerDoesNoLess(r, longer, k - 1);
      assert r.headings[k - 1] == longer.headings[k - 1];
      if r.headings[k - 1].Some? && HasContent(r, Done(r, k - 1), k - 1) {
        ContentGrows(r, longer, Done(r, k - 1), Done(longer, k - 1), k - 1);
      }
    }
  }

  // ---- The required sections of a summary ------------------------------------------

  function Unaccounted(required: seq<string>, done: seq<bool>): (missing: seq<string>)
    requires |required| == |done|
  {
    if required == [] then []
    else (if done[0] then [] else [required[0]]) + Unaccounted(required[1..], done[1..])
  }

  function ReportOf(u: Unicode, summary: string, required: seq<string>): (r: Report)
    ensures WellRead(r) && r.sections == |required|
  {
    ReadReport(u, Lines(summary), NormalizedNames(u, required))
  }

  /** The sections the summary accounts for, by their place in the list. */
  ghost function Accounted(u: Unicode, summary: string, required: seq<string>): (done: seq<bool>)
    ensures |done| == |required|
  {
    var r := ReportOf(u, summary, required);
    Done(r, |r.visible|)
  }

  ghost function Missing(u: Unicode, summary: string, required: seq<string>): seq<string> {
    Unaccounted(required, Accounted(u, summary, required))
  }

  method MissingSections(u: Unicode, summary: string, required: seq<string>) returns (missing: seq<string>)
    ensures missing == Missing(u, summary, required)
  {
    if required == [] {
      return [];
    }
    var done, _ := Account(ReportOf(u, summary, required));
    missing := Unaccounted(required, done);
  }

  /** What the workflow loader guarantees of a stage's sections. */
  predicate EveryNameSaysSomething(u: Unicode, required: seq<string>) {
    forall i :: 0 <= i < |required| ==> NormalizeReportHeading(u, required[i]) != ""
  }

  lemma ReadBlanksAreBare(u: Unicode, lines: seq<string>, names: seq<string>)
    requires Lawful(u) && forall i :: 0 <= i < |names| ==> names[i] != ""
    ensures BlanksAreBare(ReadReport(u, lines, names))
  {
    var r := ReadReport(u, lines, names);
    forall i | 0 <= i < |lines| && !r.visible[i] ensures r.headings[i] == None {
      BlankHeadsNothing(u, lines[i], names);
    }
  }

  lemma {:induction false} NothingDoneIsAllMissing(required: seq<string>, done: seq<bool>)
    requires |required| == |done| && forall s :: 0 <= s < |done| ==> !done[s]
    ensures Unaccounted(required, done) == required
  {
    if required != [] {
      NothingDoneIsAllMissing(required[1..], done[1..]);
    }
  }

  lemma {:induction false} AllDoneIsNoneMissing(required: seq<string>, done: seq<bool>)
    requires |required| == |done|
    ensures Unaccounted(required, done) == [] <==> forall s :: 0 <= s < |done| ==> done[s]
  {
    if required != [] {
      AllDoneIsNoneMissing(required[1..], done[1..]);
      if forall s :: 0 <= s < |done[1..]| ==> done[1..][s] {
        assert forall s :: 0 < s < |done| ==> done[s] == done[1..][s - 1];
      }
    }
  }

  /** A summary of nothing but blank lines and bare headings is missing every section. */
  lemma EmptyWalksNeverPass(u: Unicode, summary: string, required: seq<string>)
    requires Lawful(u) && EveryNameSaysSomething(u, required)
    requires var names := NormalizedNames(u, required);
      forall line :: line in Lines(summary) && !Blank(u, line) ==>
        HeadingFor(u, line, names).Some? && Blank(u, HeadingFor(u, line, names).value.1)
    ensures Missing(u, summary, required) == required
  {
    ReadBlanksAreBare(u, Lines(summary), NormalizedNames(u, required));
    var r := ReportOf(u, summary, required);
    EmptyWalkDoesNothing(r, |r.visible|);
    NothingDoneIsAllMissing(required, Accounted(u, summary, required));
  }

  /** A report that goes on accounts for no less. */
  lemma LongerReportDoesNoLess(u: Unicode, summary: string, longer: string, required: seq<string>)
    requires Lines(summary) <= Lines(longer)
    ensures NoLess(Accounted(u, summary, required), Accounted(u, longer, required))
  {
    var r, more := ReportOf(u, summary, required), ReportOf(u, longer, required);
    assert Extends(r, more);
    var n := |r.visible|;
    LongerDoesNoLess(r, more, n);
    forall s | 0 <= s < |required| && Done(more, n)[s] ensures Done(more, |more.visible|)[s] {
      DoneStays(more, n, |more.visible|, s);
    }
  }

  /** A blank line below everything accounts for nothing. */
  lemma {:induction false} BlankLineBelow(r: Report, longer: Report, k: nat)
    requires WellRead(r) && WellRead(longer) && Extends(r, longer) && k <= |r.visible|
    requires |longer.visible| == |r.visible| + 1 && !longer.visible[|r.visible|]
    ensures Done(longer, k) == Done(r, k)
  {
    if k > 0 {
      BlankLineBelow(r, longer, k - 1);
      assert r.headings[k - 1] == longer.headings[k - 1];
      if r.headings[k - 1].Some? {
        var before := Done(r, k - 1);
        SameContent(r, longer, before, k - 1);
      }
    }
  }

  lemma SameContent(r: Report, longer: Report, done: seq<bool>, i: nat)
    requires WellRead(r) && WellRead(longer) && Extends(r, longer) && i < |r.visible| && |done| == r.sections
    requires |longer.visible| == |r.visible| + 1 && !longer.visible[|r.visible|] && r.headings[i].Some?
    ensures longer.headings[i].Some? && (HasContent(longer, done, i) <==> HasContent(r, done, i))
  {
    assert forall k :: 0 <= k < |r.visible| ==>
        r.visible[k] == longer.visible[k] && r.headings[k] == longer.headings[k];
    if HasContent(r, done, i) {
      ContentGrows(r, longer, done, done, i);
    }
    if HasContent(longer, done, i) && !longer.headings[i].value.inline {
      var j :| i < j < |longer.visible| && longer.visible[j] && OpenTo(longer, done, i, j);
      assert j < |r.visible|;
      forall k | i < k <= j ensures Open(r, done, k) {
        assert Open(longer, done, k);
      }
      assert OpenTo(r, done, i, j);
    }
  }

  lemma BlankAtTheEnd(r: Report, longer: Report)
    requires WellRead(r) && WellRead(longer) && Extends(r, longer)
    requires |longer.visible| == |r.visible| + 1 && !longer.visible[|r.visible|] && longer.headings[|r.visible|].None?
    ensures Done(longer, |longer.visible|) == Done(r, |r.visible|)
  {
    BlankLineBelow(r, longer, |r.visible|);
  }

  lemma ReadOneMore(u: Unicode, lines: seq<string>, more: seq<string>, names: seq<string>)
    requires Lawful(u) && more == lines + [""] && forall i :: 0 <= i < |names| ==> names[i] != ""
    ensures var r, longer := ReadReport(u, lines, names), ReadReport(u, more, names);
      && Extends(r, longer) && |longer.visible| == |r.visible| + 1
      && !longer.visible[|r.visible|] && longer.headings[|r.visible|].None?
  {
    assert more[|lines|] == "" && Blank(u, "");
    BlankHeadsNothing(u, more[|lines|], names);
    assert forall i :: 0 <= i < |lines| ==> more[i] == lines[i];
  }

  lemma OneBlankMore(u: Unicode, summary: string, longer: string, required: seq<string>)
    requires Lawful(u) && EveryNameSaysSomething(u, required)
    requires Lines(longer) == Lines(summary) + [""]
    ensures Accounted(u, longer, required) == Accounted(u, summary, required)
  {
    ReadOneMore(u, Lines(summary), Lines(longer), NormalizedNames(u, required));
    BlankAtTheEnd(ReportOf(u, summary, required), ReportOf(u, longer, required));
  }

  /** New lines below a report, whatever they say, make no section it accounts for missing. */
  ghost predicate NewLinesNeverHurt(u: Unicode, summary: string, required: seq<string>) {
    forall more :: NoLess(Accounted(u, summary, required), Accounted(u, summary + "\n" + more, required))
  }

  /** Text added below a report never makes a section it accounts for missing:
    * straight after its last newline, or on new lines. Where the report breaks
    * off in a carriage return, that is so exactly if the report without it
    * accounts for as much.
    */
  lemma MoreTextNeverHurts(u: Unicode, summary: string, required: seq<string>)
    requires Lawful(u) && EveryNameSaysSomething(u, required)
    ensures summary == "" || summary[|summary| - 1] == '\n' ==>
      forall more :: NoLess(Accounted(u, summary, required), Accounted(u, summary + more, required))
    ensures NewLinesNeverHurt(u, summary, required) <==>
      (summary != "" && summary[|summary| - 1] == '\r' ==>
        NoLess(Accounted(u, summary, required), Accounted(u, summary[..|summary| - 1], required)))
  {
    if summary == "" || summary[|summary| - 1] == '\n' {
      forall more ensures NoLess(Accounted(u, summary, required), Accounted(u, summary + more, required)) {
        if summary == "" {
          assert summary + more == more;
        } else {
          LinesJoin("", summary, more);
        }
        LongerReportDoesNoLess(u, summary, summary + more, required);
      }
    }
    if summary != "" && summary[|summary| - 1] == '\r' {
      BreakingOffInAReturn(u, summary, summary[..|summary| - 1], required);
    } else {
      forall more ensures NoLess(Accounted(u, summary, required), Accounted(u, summary + "\n" + more, required)) {
        assert "" + summary == summary;
        LinesGoOn("", summary, more);
        LongerReportDoesNoLess(u, summary, summary + "\n" + more, required);
      }
    }
  }

  /** What is said on new lines is said below the report without its carriage return. */
  lemma BelowTheBody(u: Unicode, summary: string, body: string, more: string, required: seq<string>)
    requires summary == body + "\r"
    ensures NoLess(Accounted(u, body, required), Accounted(u, summary + "\n" + more, required))
  {
    assert summary + "\n" + more == body + "\r\n" + more;
    LinesAfterReturn("", body, more);
    LongerReportDoesNoLess(u, body, summary + "\n" + more, required);
  }

  lemma BreakingOffInAReturn(u: Unicode, summary: string, body: string, required: seq<string>)
    requires Lawful(u) && EveryNameSaysSomething(u, required) && summary == body + "\r"
    ensures NewLinesNeverHurt(u, summary, required) <==>
      NoLess(Accounted(u, summary, required), Accounted(u, body, required))
  {
    forall more ensures NoLess(Accounted(u, body, required), Accounted(u, summary + "\n" + more, required)) {
      BelowTheBody(u, summary, body, more, required);
    }
    if NewLinesNeverHurt(u, summary, required) {
      var longer := summary + "\n" + "";
      assert NoLess(Accounted(u, summary, required), Accounted(u, longer, required));
      EndedAlone(body, summary, longer);
      ReturnAlone(u, body, longer, required);
    }
  }

  lemma EndedAlone(body: string, summary: string, longer: string)
    requires summary == body + "\r" && longer == summary + "\n" + ""
    ensures longer == body + "\r\n"
  {
  }

  lemma SameLines(u: Unicode, a: string, b: string, required: seq<string>)
    requires Lines(a) == Lines(b)
    ensures Accounted(u, a, required) == Accounted(u, b, required)
  {
  }

  /** With its line ended, the report reads as without the carriage return. */
  lemma ReturnAlone(u: Unicode, body: string, longer: string, required: seq<string>)
    requires Lawful(u) && EveryNameSaysSomething(u, required) && longer == body + "\r\n"
    ensures Accounted(u, longer, required) == Accounted(u, body, required)
  {
    ReturnEnded(body, longer);
    if Lines(longer) == Lines(body) {
      SameLines(u, longer, body, required);
    } else {
      OneBlankMore(u, body, longer, required);
    }
  }

  lemma ReturnEnded(body: string, longer: string)
    requires longer == body + "\r\n"
    ensures Lines(longer) == Lines(body) || Lines(longer) == Lines(body) + [""]
  {
    LinesAfterReturn("", body, "");
    assert body + "\r\n" + "" == longer && Lines("") == [];
  }

  // ---- A report that breaks off in a carriage return ---------------------------------

  /** A table under which `a` and `b` are small letters and a carriage return is a blank. */
  ghost predicate ReadsLetters(u: Unicode) {
    && Lawful(u) && u.white('\r')
    && u.alnum('a') && !u.white('a') && u.lower('a') == 'a'
    && u.alnum('b') && !u.white('b') && u.lower('b') == 'b'
  }

  predicate Letter(t: string) {
    t == "a" || t == "b"
  }

  lemma LetterIsOne(u: Unicode, t: string)
    requires ReadsLetters(u) && Letter(t)
    ensures |t| == 1 && SmallLetter(t[0]) && Settled(u, t) && SplitWordInternalHyphens(u, t) == t && IsWord(u.white, t)
    ensures !IsSign(t[0]) && !IsBullet(t[0]) && !Digit(t[0])
  {
  }

  lemma LetterStartsNothing(u: Unicode, t: string, s: string)
    requires |t| == 1 && !u.white(t[0]) && !IsSign(t[0]) && !IsBullet(t[0]) && !Digit(t[0]) && t <= s
    ensures PeelOne(u, s) == None
  {
    assert s[0] == t[0];
    NothingToPeel(u, s);
  }

  lemma LetterIsPlain(u: Unicode, t: string)
    requires ReadsLetters(u) && Letter(t)
    ensures PeelOne(u, t) == None && Settled(u, t) && SplitWordInternalHyphens(u, t) == t && Words(u.white, t) == [t]
    ensures !BareMarker(u, t)
  {
    LetterIsOne(u, t);
    LetterStartsNothing(u, t, t);
    LetterStartsNothing(u, t, t + " ");
    OneWord(u.white, t, "");
    assert t + "" == t;
  }

  lemma LetterIsNormal(u: Unicode, t: string)
    requires ReadsLetters(u) && Letter(t)
    ensures NormalizeReportHeading(u, t) == t
  {
    LetterIsPlain(u, t);
    NormalOfPlainText(u, t, t);
  }

  lemma LetterPeels(u: Unicode, t: string)
    requires ReadsLetters(u) && Letter(t)
    ensures PeeledText(u, t) == t
  {
    LetterIsPlain(u, t);
    FixedByLowering(u, t);
  }

  lemma MarkedLetter(u: Unicode, t: string, tail: string)
    requires ReadsLetters(u) && Letter(t) && tail == "_"
    ensures NormalizeReportHeading(u, t + tail) == t
  {
    LetterIsNormal(u, t);
    LetterIsPlain(u, t);
    LetterPeels(u, t);
    ClosingIsInvisible(u, t, tail);
  }

  lemma MarkStartsNothing(u: Unicode, t: string)
    requires ReadsLetters(u) && t == "b_\r"
    ensures PeelOne(u, t) == None && Settled(u, t) && SplitWordInternalHyphens(u, t) == t
  {
    NothingToPeel(u, t);
    assert Plain(u, '_');
  }

  lemma MarkIsOneWord(u: Unicode, t: string)
    requires ReadsLetters(u) && t == "b_\r"
    ensures Words(u.white, t) == [t[..2]]
  {
    assert Plain(u, '_');
    assert t == t[..2] + t[2..] && IsWord(u.white, t[..2]);
    OneWord(u.white, t[..2], t[2..]);
    NoWordsInBlanks(u.white, t[2..]);
  }

  lemma MarkedLetterAndReturn(u: Unicode, t: string)
    requires ReadsLetters(u) && t == "b_\r"
    ensures NormalizeReportHeading(u, t) == "b_"
  {
    MarkStartsNothing(u, t);
    MarkIsOneWord(u, t);
    NormalOfPlainText(u, t, t[..2]);
  }

  lemma NameIsHeading(u: Unicode, line: string, names: seq<string>, i: nat)
    requires i < |names| && NormalizeReportHeading(u, line) == names[i]
    requires forall j :: 0 <= j < |names| && j != i ==> names[j] != names[i]
    ensures MentionOf(u, line, names) == Some(Mention(i, false))
  {
    WholeLineWins(u, names[i], names, i);
    assert names[i][|names[i]|..] == "" && Trim(u, "") == "";
  }

  lemma VisibleLine(u: Unicode, line: string)
    requires line != "" && !u.white(line[0])
    ensures !Blank(u, line)
  {
    BlankIsAllWhite(u, line);
  }

  lemma MarkStays(u: Unicode, rest: string)
    requires |rest| == 1 && Plain(u, rest[0])
    ensures Trim(u, rest) == rest
  {
    assert TrimStart(u, rest) == rest;
  }

  lemma MarkHeadsNothing(u: Unicode, rest: string, c: char)
    requires rest == [c] && Plain(u, c) && !EndsAName(c)
    ensures !HeadsASection(u, rest)
  {
    MarkStays(u, rest);
    InHeadingStops(c);
  }

  lemma NoneIsNamed(u: Unicode, n: string, a: string, b: string)
    requires |n| == 2 && Plain(u, n[1]) && !EndsAName(n[1]) && |a| == 1 && a[0] != n[0] && b == n[..1]
    ensures !Names(u, n, a) && !Names(u, n, b)
  {
    MarkHeadsNothing(u, n[1..], n[1]);
  }

  lemma NamesNothing(u: Unicode, line: string, names: seq<string>, n: string)
    requires NormalizeReportHeading(u, line) == n && forall j :: 0 <= j < |names| ==> !Names(u, n, names[j])
    ensures MentionOf(u, line, names) == None
  {
    var hits := Hits(u, n, names);
    assert IsBest(names, hits, |names|, LongestHit(names, hits, |names|));
  }

  /** A mark behind a name, and nothing else, is no way to end a heading unless it is one that ends names. */
  lemma MarkIsNoHeading(u: Unicode, names: seq<string>, n: string)
    requires |n| == 2 && Plain(u, n[1]) && !EndsAName(n[1])
    requires |names| == 2 && |names[0]| == 1 && names[0][0] != n[0] && names[1] == n[..1]
    ensures forall j :: 0 <= j < |names| ==> !Names(u, n, names[j])
  {
    NoneIsNamed(u, n, names[0], names[1]);
  }

  lemma ReadLine(u: Unicode, lines: seq<string>, names: seq<string>, r: Report, i: nat)
    requires r == ReadReport(u, lines, names) && i < |lines|
    ensures |r.visible| == |r.headings| == |lines| && r.sections == |names|
    ensures r.visible[i] == !Blank(u, lines[i]) && r.headings[i] == MentionOf(u, lines[i], names)
  {
  }

  /** Required: `a` and `b`. The report is `a` and, on a last line that breaks off
    * in a carriage return, `b_`. That line heads nothing, so it is what the report
    * says under `a`; once the line is ended it heads `b`, and `a` is missing.
    */
  lemma ReturnHurts(u: Unicode, r: Report, q: Report, was: seq<string>, now: seq<string>, required: seq<string>)
    requires ReadsLetters(u) && required == ["a", "b"] && was == ["a", "b_\r"] && now == ["a", "b_"]
    requires r == ReadReport(u, was, required) && q == ReadReport(u, now, required)
    ensures !NoLess(Done(r, |r.visible|), Done(q, |q.visible|))
  {
    StartsWithA(u, was[0], required);
    MarkedLetterAndReturn(u, was[1]);
    VisibleLine(u, was[1]);
    BreaksOff(u, was[1], required, NormalizeReportHeading(u, was[1]));
    GoesOn(u, now[1], required);
    ReadLine(u, was, required, r, 0);
    ReadLine(u, was, required, r, 1);
    ReadLine(u, now, required, q, 0);
    ReadLine(u, now, required, q, 1);
    Accounts(r, q);
  }

  lemma LettersAreNormal(u: Unicode, required: seq<string>)
    requires ReadsLetters(u) && forall i :: 0 <= i < |required| ==> Letter(required[i])
    ensures NormalizedNames(u, required) == required && EveryNameSaysSomething(u, required)
  {
    forall i | 0 <= i < |required| ensures NormalizeReportHeading(u, required[i]) == required[i] != "" {
      LetterIsNormal(u, required[i]);
    }
  }

  lemma UnderscoreIsNoStop(u: Unicode)
    requires Lawful(u)
    ensures Plain(u, '_') && !EndsAName('_')
  {
  }

  lemma BreaksOff(u: Unicode, b: string, names: seq<string>, n: string)
    requires ReadsLetters(u) && names == ["a", "b"] && n == "b_" && NormalizeReportHeading(u, b) == n
    ensures MentionOf(u, b, names) == None
  {
    UnderscoreIsNoStop(u);
    assert n[1] == '_' && n[..1] == names[1] && names[0][0] != n[0];
    MarkIsNoHeading(u, names, n);
    NamesNothing(u, b, names, n);
  }

  lemma StartsWithA(u: Unicode, a: string, names: seq<string>)
    requires ReadsLetters(u) && a == "a" && names == ["a", "b"]
    ensures MentionOf(u, a, names) == Some(Mention(0, false)) && !Blank(u, a)
  {
    LetterIsNormal(u, a);
    NameIsHeading(u, a, names, 0);
    VisibleLine(u, a);
  }

  lemma GoesOn(u: Unicode, b: string, names: seq<string>)
    requires ReadsLetters(u) && b == "b_" && names == ["a", "b"]
    ensures MentionOf(u, b, names) == Some(Mention(1, false)) && !Blank(u, b)
  {
    MarkedLetter(u, names[1], "_");
    assert b == names[1] + "_";
    NameIsHeading(u, b, names, 1);
    VisibleLine(u, b);
  }

  lemma TwoLines(summary: string, body: string)
    requires summary == "a\nb_\r" && body == "a\nb_"
    ensures Lines(summary) == ["a", "b_\r"] && Lines(body) == ["a", "b_"] && summary == body + "\r"
  {
    FirstLine("", "a", "b_\r");
    FirstLine("", "a", "b_");
    assert WithoutCr("" + "a") == "a";
    assert "a" + "\n" + "b_\r" == summary && "a" + "\n" + "b_" == body;
    OneLine("", "b_\r");
    OneLine("", "b_");
    assert "" + "b_\r" == "b_\r" && "" + "b_" == "b_";
  }

  lemma {:induction false} OneLine(begun: string, s: string)
    requires '\n' !in s && begun + s != ""
    ensures LinesFrom(begun, s) == [begun + s]
    decreases |s|
  {
    if s == "" {
      assert begun + s == begun;
    } else {
      assert begun + [s[0]] + s[1..] == begun + s;
      OneLine(begun + [s[0]], s[1..]);
    }
  }

  lemma Accounts(r: Report, q: Report)
    requires WellRead(r) && WellRead(q) && |r.visible| == |q.visible| == 2 && r.sections == q.sections == 2
    requires r.visible[0] && r.visible[1] && q.visible[0] && q.visible[1]
    requires r.headings[0] == Some(Mention(0, false)) && r.headings[1] == None
    requires q.headings[0] == Some(Mention(0, false)) && q.headings[1] == Some(Mention(1, false))
    ensures Done(r, 2)[0] && !Done(q, 2)[0]
  {
    assert Done(r, 0) == Done(q, 0) == [false, false];
    assert OpenTo(r, Done(r, 0), 0, 1);
    assert HasContent(r, Done(r, 0), 0);
    assert !Open(q, Done(q, 0), 1);
    assert !HasContent(q, Done(q, 0), 0);
    assert Done(q, 1) == [false, false];
  }

  /** There is such a table: new lines can hurt. */
  lemma ReturnCanHurt() returns (u: Unicode, summary: string, required: seq<string>)
    ensures Lawful(u) && EveryNameSaysSomething(u, required)
    ensures summary == "a\nb_\r" && required == ["a", "b"] && !NewLinesNeverHurt(u, summary, required)
  {
    u, summary, required := Small, "a\nb_\r", ["a", "b"];
    SmallIsLawful(u);
    LettersAreNormal(u, required);
    var body := "a\nb_";
    TwoLines(summary, body);
    ReturnHurts(u, ReportOf(u, summary, required), ReportOf(u, body, required), Lines(summary), Lines(body), required);
    BreakingOffInAReturn(u, summary, body, required);
  }

  ghost predicate CreditedAtALook(r: Report, i: nat, s: nat)
    requires WellRead(r) && i < |r.visible|
  {
    r.headings[i].Some? && r.headings[i].value.section == s && OneLook(r, Done(r, i), i)
  }

  /** The whole rule for a summary, in one look per heading. */
  lemma AccountedInOneLook(u: Unicode, summary: string, required: seq<string>, s: nat)
    requires Lawful(u) && EveryNameSaysSomething(u, required) && s < |required|
    ensures var r := ReportOf(u, summary, required);
      Accounted(u, summary, required)[s] <==> exists i :: 0 <= i < |r.visible| && CreditedAtALook(r, i, s)
  {
    ReadBlanksAreBare(u, Lines(summary), NormalizedNames(u, required));
    var r := ReportOf(u, summary, required);
    DoneMeansCredited(r, |r.visible|, s);
    forall i | 0 <= i < |r.visible| ensures Credits(r, i, s) <==> CreditedAtALook(r, i, s) {
      if r.headings[i].Some? {
        OneLookIsEnough(r, Done(r, i), i);
      }
    }
  }
}
