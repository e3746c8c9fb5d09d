/** The forms in which a section may be written, character by character
  * (`chocofactory-core/src/mcp.rs`, lines 254 to 342): what may follow a
  * section's name, and that `<section>: none` is enough.
  */
module ReportForms {
  import opened Wrappers
  import opened Text
  import opened ReportHeading
  import opened ReportSections

  // ---- Spellings that make no difference ------------------------------------------------

  lemma OneLowered(u: Unicode, c: char)
    requires c != '\U{2192}'
    ensures Lowered(u, ArrowsSpelled([c])) == [u.lower(c)]
  {
    assert [c][1..] == "" && ArrowsSpelled("") == "";
    assert ArrowsSpelled([c]) == [c];
  }

  lemma WordCharacter(u: Unicode, x: char)
    requires Lawful(u) && u.alnum(x)
    ensures !u.white(x) && !IsSign(x) && !IsBullet(x) && !IsStop(x) && !IsClosing(x) && !SaysNothing(x)
  {
    assert IsSign(x) || IsBullet(x) || IsStop(x) || EndsAName(x) ==> Plain(u, x);
  }

  lemma ArrowAlone(arrow: string, spelled: string)
    requires arrow == "\U{2192}" && spelled == "->"
    ensures ArrowsSpelled(arrow) == ArrowsSpelled(spelled)
  {
    assert arrow[0] == '\U{2192}' && arrow[1..] == "" && ArrowsSpelled("") == "";
    assert spelled[0] == '-' && spelled[1..][0] == '>' && spelled[1..][1..] == "";
    assert ArrowsSpelled(spelled[1..]) == [spelled[1..][0]] + ArrowsSpelled("");
    assert ArrowsSpelled(spelled) == [spelled[0]] + ArrowsSpelled(spelled[1..]);
  }

  /** Two ways to write an arrow. */
  lemma ArrowIsSpelled(u: Unicode, a: string, b: string)
    ensures NormalizeReportHeading(u, a + "\U{2192}" + b) == NormalizeReportHeading(u, a + "->" + b)
  {
    ArrowAlone("\U{2192}", "->");
    LoweredJoins(u, a + "\U{2192}", b);
    LoweredJoins(u, a, "\U{2192}");
    LoweredJoins(u, a + "->", b);
    LoweredJoins(u, a, "->");
  }

  /** The same letters, capitals or not. */
  predicate SameLetters(u: Unicode, a: string, b: string) {
    |a| == |b| && forall i :: 0 <= i < |a| ==>
      u.lower(a[i]) == u.lower(b[i]) && (a[i] == '\U{2192}' <==> b[i] == '\U{2192}')
  }

  lemma {:induction false} SameLowered(u: Unicode, a: string, b: string)
    requires SameLetters(u, a, b)
    ensures Lowered(u, ArrowsSpelled(a)) == Lowered(u, ArrowsSpelled(b))
    decreases |a|
  {
    if a != "" {
      SameLowered(u, a[1..], b[1..]);
      LoweredJoins(u, [a[0]], a[1..]);
      LoweredJoins(u, [b[0]], b[1..]);
      assert a == [a[0]] + a[1..] && b == [b[0]] + b[1..];
      if a[0] != '\U{2192}' {
        OneLowered(u, a[0]);
        OneLowered(u, b[0]);
      }
    }
  }

  lemma CapitalsAreInvisible(u: Unicode, a: string, b: string)
    requires SameLetters(u, a, b)
    ensures NormalizeReportHeading(u, a) == NormalizeReportHeading(u, b)
  {
    SameLowered(u, a, b);
  }

  predicate EndsInWord(u: Unicode, w: string) {
    w != "" && u.alnum(w[|w| - 1])
  }

  lemma NoMarkerBefore(u: Unicode, w: string, tail: string, n: nat)
    requires w != "" && !u.white(w[|w| - 1]) && !IsStop(w[|w| - 1])
    requires tail != "" && !Digit(tail[0]) && !IsStop(tail[0]) && !ListMarker(u, w, n)
    ensures !ListMarker(u, w + tail, n)
  {
    var s := w + tail;
    assert forall i :: 0 <= i < |w| ==> s[i] == w[i];
    assert s[|w|] == tail[0];
  }

  lemma BareBefore(u: Unicode, w: string, tail: string)
    requires w != "" && tail != "" && PeelBare(u, w) && (|w| > 1 || !IsBullet(w[0]) || !u.white(tail[0]))
    ensures PeelBare(u, w + tail)
  {
    var s := w + tail;
    assert s[0] == w[0] && s[1] == if |w| > 1 then w[1] else tail[0];
  }

  lemma PeelOneBefore(u: Unicode, w: string, tail: string)
    requires Lawful(u) && EndsInWord(u, w) && tail != "" && !Digit(tail[0]) && !IsStop(tail[0])
    requires PeelOne(u, w) == None
    ensures PeelOne(u, w + tail) == None
  {
    NothingToPeel(u, w);
    NothingToPeel(u, w + tail);
    WordCharacter(u, w[|w| - 1]);
    BareBefore(u, w, tail);
    forall n: nat ensures !ListMarker(u, w + tail, n) {
      NoMarkerBefore(u, w, tail, n);
    }
  }

  lemma PeelLeavesWord(u: Unicode, w: string)
    requires Lawful(u) && EndsInWord(u, w) && PeelOne(u, w).Some?
    ensures EndsInWord(u, PeelOne(u, w).value)
  {
    WordCharacter(u, w[|w| - 1]);
    PeelOneIsSuffix(u, w);
    if |w| == 1 {
      NothingToPeel(u, w);
    }
  }

  lemma {:induction false} PeeledEndsInWord(u: Unicode, w: string)
    requires Lawful(u) && EndsInWord(u, w)
    ensures EndsInWord(u, Peeled(u, w))
    decreases |w|
  {
    if PeelOne(u, w).Some? {
      PeelLeavesWord(u, w);
      PeeledEndsInWord(u, PeelOne(u, w).value);
    }
  }

  /** What follows a word, if it is no digit and no stop, does not change what is peeled off in front. */
  lemma {:induction false} PeelBefore(u: Unicode, w: string, tail: string)
    requires Lawful(u) && EndsInWord(u, w) && tail != "" && !Digit(tail[0]) && !IsStop(tail[0])
    ensures Peeled(u, w + tail) == Peeled(u, w) + tail
    decreases |w|
  {
    if PeelOne(u, w).Some? {
      StepWithTail(u, w, tail);
      PeelLeavesWord(u, w);
      PeelBefore(u, PeelOne(u, w).value, tail);
    } else {
      PeelOneBefore(u, w, tail);
    }
  }

  /** Trimming at the end goes no further than a character that is no closing mark. */
  lemma {:induction false} TrimBehind(p: string, b: string)
    requires b != "" && !IsClosing(b[0])
    ensures var c := TrimEndOf(TrailMarks, b);
      TrimEndOf(TrailMarks, p + b) == p + c && c != "" && c[0] == b[0]
    decreases |b|
  {
    var s := p + b;
    assert s[|s| - 1] == b[|b| - 1];
    InTrailMarks(b[|b| - 1]);
    if IsClosing(b[|b| - 1]) {
      assert s[..|s| - 1] == p + b[..|b| - 1];
      TrimBehind(p, b[..|b| - 1]);
    }
  }

  lemma HyphenSplits(u: Unicode, p: string, z: string)
    requires Lawful(u) && EndsInWord(u, p) && z != "" && u.alnum(z[0])
    ensures SplitWordInternalHyphens(u, p + "-" + z) == SplitWordInternalHyphens(u, p + " " + z)
  {
    var s, t, k := p + "-" + z, p + " " + z, |p|;
    WordCharacter(u, p[k - 1]);
    WordCharacter(u, z[0]);
    assert Plain(u, '-');
    assert s[k] == '-' && t[k] == ' ' && s[k + 1] == t[k + 1] == z[0] && s[k - 1] == t[k - 1] == p[k - 1];
    assert forall i :: 0 <= i < |s| && i != k ==> s[i] == t[i];
    assert SplitsAt(u, s, k);
    forall i | 0 <= i < |s| && i != k ensures SplitsAt(u, s, i) <==> SplitsAt(u, t, i) {
    }
  }

  lemma CoreAround(u: Unicode, w: string, c: string, z: string)
    requires Lawful(u) && EndsInWord(u, w) && z != "" && u.alnum(z[0]) && (c == "-" || c == " ")
    ensures TrimEndOf(TrailMarks, Peeled(u, w + (c + z))) == Peeled(u, w) + c + TrimEndOf(TrailMarks, z)
    ensures EndsInWord(u, Peeled(u, w))
    ensures TrimEndOf(TrailMarks, z) != "" && TrimEndOf(TrailMarks, z)[0] == z[0]
  {
    WordCharacter(u, z[0]);
    assert (c + z)[0] == c[0];
    PeelBefore(u, w, c + z);
    PeeledEndsInWord(u, w);
    Regroup(Peeled(u, w), c, z);
    TrimBehind(Peeled(u, w) + c, z);
  }

  lemma LoweredAround(u: Unicode, w: string, c: string, z: string)
    requires Lawful(u) && (c == "-" || c == " ")
    ensures Lowered(u, ArrowsSpelled(w + (c + z))) == Lowered(u, ArrowsSpelled(w)) + (c + Lowered(u, ArrowsSpelled(z)))
  {
    LoweredJoins(u, w, c + z);
    LoweredJoins(u, c, z);
    assert Plain(u, '-');
    FixedByLowering(u, c);
  }

  /** `w` ends, and `z` begins, with a letter or a digit. */
  predicate BetweenWords(u: Unicode, w: string, z: string) {
    var lw, lz := Lowered(u, ArrowsSpelled(w)), Lowered(u, ArrowsSpelled(z));
    EndsInWord(u, lw) && lz != "" && u.alnum(lz[0])
  }

  /** A hyphen between two words is as good as a blank. */
  lemma HyphenIsABlank(u: Unicode, w: string, z: string)
    requires Lawful(u) && BetweenWords(u, w, z)
    ensures NormalizeReportHeading(u, w + ("-" + z)) == NormalizeReportHeading(u, w + (" " + z))
  {
    var lw, lz := Lowered(u, ArrowsSpelled(w)), Lowered(u, ArrowsSpelled(z));
    LoweredAround(u, w, "-", z);
    LoweredAround(u, w, " ", z);
    CoreAround(u, lw, "-", lz);
    CoreAround(u, lw, " ", lz);
    HyphenSplits(u, Peeled(u, lw), TrimEndOf(TrailMarks, lz));
  }

  // ---- What may follow a name -----------------------------------------------------

  /** Where the first visible character stands; the length if there is none. */
  function Start(u: Unicode, t: string): (k: nat)
    ensures k <= |t| && (forall i :: 0 <= i < k ==> u.white(t[i])) && (k < |t| ==> !u.white(t[k]))
  {
    if t == "" || !u.white(t[0]) then 0 else 1 + Start(u, t[1..])
  }

  /** Behind a name: nothing to be seen, or first of all a mark that ends a name. */
  predicate NameEnds(u: Unicode, after: string) {
    var k := Start(u, after);
    k == |after| || EndsAName(after[k])
  }

  lemma {:induction false} TrimStartDrops(u: Unicode, t: string)
    ensures TrimStart(u, t) == t[Start(u, t)..]
    decreases |t|
  {
    if t != "" && u.white(t[0]) {
      TrimStartDrops(u, t[1..]);
    }
  }

  lemma TrimShows(u: Unicode, t: string)
    ensures var k := Start(u, t); if k == |t| then Trim(u, t) == "" else Trim(u, t) != "" && Trim(u, t)[0] == t[k]
  {
    TrimStartDrops(u, t);
    var k := Start(u, t);
    if k < |t| {
      TrimEndKeepsVisible(u, t[k..]);
    }
  }

  lemma HeadsWhereNameEnds(u: Unicode, after: string)
    requires Lawful(u)
    ensures HeadsASection(u, after) <==> NameEnds(u, after)
  {
    var k := Start(u, after);
    TrimShows(u, after);
    if k < |after| {
      assert EndsAName(after[k]) ==> Plain(u, after[k]);
      InHeadingStops(after[k]);
    }
  }

  lemma InRestTrim(c: char)
    ensures c in RestTrim <==> SaysNothing(c)
  {
  }

  // ---- Which section a line heads -----------------------------------------------------

  /** The normal line `n` is this name with what may follow one. */
  ghost predicate HeadsBy(u: Unicode, n: string, name: string) {
    name <= n && NameEnds(u, n[|name|..])
  }

  /** What is left behind a name when the marks that say nothing are gone. */
  ghost predicate LeftOver(after: string, rest: string) {
    && |rest| <= |after| && rest == after[|after| - |rest|..]
    && (forall i :: 0 <= i < |after| - |rest| ==> SaysNothing(after[i])) && (rest != "" ==> !SaysNothing(rest[0]))
  }

  lemma {:induction false} TrimmedLeaves(t: string)
    ensures LeftOver(t, TrimStartOf(RestTrim, t))
    decreases |t|
  {
    if t != "" {
      InRestTrim(t[0]);
      if t[0] in RestTrim {
        TrimmedLeaves(t[1..]);
      }
    }
  }

  /** The longest of the names by which the line is a heading, and what is left behind it. */
  ghost predicate IsHeading(u: Unicode, n: string, names: seq<string>, i: nat, rest: string) {
    && i < |names| && HeadsBy(u, n, names[i]) && LeftOver(n[|names[i]|..], rest)
    && forall j :: 0 <= j < |names| && HeadsBy(u, n, names[j]) ==>
         |names[j]| < |names[i]| || (|names[j]| == |names[i]| && j <= i)
  }

  /** A line heads a section exactly when its normal form is the name of one with what may follow it. */
  lemma HeadingInFull(u: Unicode, line: string, names: seq<string>)
    requires Lawful(u)
    ensures var n := NormalizeReportHeading(u, line);
      match HeadingFor(u, line, names)
      case None => forall j :: 0 <= j < |names| ==> !HeadsBy(u, n, names[j])
      case Some((i, rest)) => IsHeading(u, n, names, i, rest)
  {
    var n := NormalizeReportHeading(u, line);
    var hits := Hits(u, n, names);
    forall j | 0 <= j < |names| ensures hits[j] <==> HeadsBy(u, n, names[j]) {
      if names[j] <= n {
        HeadsWhereNameEnds(u, n[|names[j]|..]);
      }
    }
    match LongestHit(names, hits, |names|)
    case None =>
    case Some(i) => TrimmedLeaves(n[|names[i]|..]);
  }

  lemma StartIs(u: Unicode, t: string, k: nat)
    requires k < |t| && !u.white(t[k]) && forall i :: 0 <= i < k ==> u.white(t[i])
    ensures Start(u, t) == k
  {
  }

  lemma StartsAfter(u: Unicode, gap: string, c: char, more: string)
    requires (forall k :: 0 <= k < |gap| ==> u.white(gap[k])) && !u.white(c)
    ensures var after := gap + [c] + more; Start(u, after) == |gap| && after[|gap|] == c
  {
    var after := gap + [c] + more;
    assert after[|gap|] == c && forall j :: 0 <= j < |gap| ==> after[j] == gap[j];
    StartIs(u, after, |gap|);
  }

  /** A name and, blanks aside, a mark that ends it: the line heads that section, unless it
    * heads one with a longer name; and it says something unless only such marks follow.
    */
  lemma PunctuationEndsAName(u: Unicode, line: string, names: seq<string>, i: nat, gap: string, c: char, more: string)
    requires Lawful(u) && i < |names| && (forall k :: 0 <= k < |gap| ==> u.white(gap[k])) && EndsAName(c)
    requires NormalizeReportHeading(u, line) == names[i] + (gap + [c] + more)
    requires forall j :: 0 <= j < |names| && j != i && HeadsBy(u, NormalizeReportHeading(u, line), names[j]) ==>
      |names[j]| < |names[i]|
    ensures var h := HeadingFor(u, line, names);
      && h.Some? && h.value.0 == i
      && (h.value.1 == "" <==> forall k :: 0 <= k < |gap + [c] + more| ==> SaysNothing((gap + [c] + more)[k]))
  {
    var n, after := NormalizeReportHeading(u, line), gap + [c] + more;
    assert n[|names[i]|..] == after;
    assert Plain(u, c);
    StartsAfter(u, gap, c, more);
    assert HeadsBy(u, n, names[i]);
    HeadingInFull(u, line, names);
  }

  /** A name and then, blanks aside, a letter or a digit: not a heading for that section. */
  lemma ProseHeadsNothing(u: Unicode, line: string, names: seq<string>, i: nat, gap: string, c: char, more: string)
    requires Lawful(u) && i < |names| && (forall k :: 0 <= k < |gap| ==> u.white(gap[k])) && u.alnum(c)
    requires NormalizeReportHeading(u, line) == names[i] + (gap + [c] + more)
    ensures var h := HeadingFor(u, line, names); h.Some? ==> h.value.0 != i
    ensures (forall j :: 0 <= j < |names| && j != i ==> !(names[j] <= NormalizeReportHeading(u, line))) ==>
      HeadingFor(u, line, names) == None
  {
    var n, after := NormalizeReportHeading(u, line), gap + [c] + more;
    assert n[|names[i]|..] == after;
    assert EndsAName(c) ==> Plain(u, c);
    StartsAfter(u, gap, c, more);
    assert !HeadsBy(u, n, names[i]);
    HeadingInFull(u, line, names);
  }

  // ---- A colon behind a name, as it is written ------------------------------------------------

  /** A colon, and what is said behind it. */
  predicate Colon(b: string) {
    b != "" && b[0] == ':'
  }

  lemma NoMarkerBeforeColon(u: Unicode, t: string, b: string, n: nat)
    requires Lawful(u) && Colon(b) && !ListMarker(u, t, n)
    ensures !ListMarker(u, t + b, n)
  {
    var s := t + b;
    assert Plain(u, ':') && s[|t|] == ':' && forall i :: 0 <= i < |t| ==> s[i] == t[i];
  }

  lemma PeelOneBeforeColon(u: Unicode, t: string, b: string)
    requires Lawful(u) && t != "" && Colon(b) && PeelOne(u, t) == None
    ensures PeelOne(u, t + b) == None
  {
    NothingToPeel(u, t);
    NothingToPeel(u, t + b);
    assert Plain(u, ':');
    BareBefore(u, t, b);
    forall n: nat ensures !ListMarker(u, t + b, n) {
      NoMarkerBeforeColon(u, t, b, n);
    }
  }

  /** A colon behind a text does not change what is peeled off in front of it. */
  lemma {:induction false} PeelBeforeColon(u: Unicode, t: string, b: string)
    requires Lawful(u) && Colon(b) && Peeled(u, t) != ""
    ensures Peeled(u, t + b) == Peeled(u, t) + b
    decreases |t|
  {
    match PeelOne(u, t)
    case Some(s) =>
      StepWithTail(u, t, b);
      PeelBeforeColon(u, s, b);
    case None =>
      PeelOneBeforeColon(u, t, b);
  }

  lemma SplitAtColon(u: Unicode, p: string, c: string)
    requires Lawful(u) && Colon(c)
    ensures SplitWordInternalHyphens(u, p + c) == SplitWordInternalHyphens(u, p) + SplitWordInternalHyphens(u, c)
  {
    var s := p + c;
    assert Plain(u, ':');
    forall i | 0 <= i < |s| ensures SplitsAt(u, s, i) <==> if i < |p| then SplitsAt(u, p, i) else SplitsAt(u, c, i - |p|) {
      assert s[|p|] == ':' && forall j :: 0 <= j < |p| ==> s[j] == p[j];
    }
  }

  lemma SplitBeforeMarks(u: Unicode, c: string, tail: string)
    requires Lawful(u) && forall i :: 0 <= i < |tail| ==> IsClosing(tail[i])
    ensures SplitWordInternalHyphens(u, c + tail) == SplitWordInternalHyphens(u, c) + tail
  {
    var s := c + tail;
    forall i | 0 <= i < |s| ensures SplitsAt(u, s, i) <==> i < |c| && SplitsAt(u, c, i) {
      assert forall j :: 0 <= j < |s| ==> s[j] == if j < |c| then c[j] else tail[j - |c|];
      if |c| < |s| {
        TrailMarkFacts(u, s[|c|]);
        assert IsSign(s[|c|]) ==> Plain(u, s[|c|]);
      }
    }
  }

  /** What is made of a text without its words being parted. */
  function Tidied(u: Unicode, text: string): string {
    SplitWordInternalHyphens(u, Core(u, text))
  }

  lemma TidiedIsNormal(u: Unicode, text: string)
    ensures NormalizeReportHeading(u, text) == Spaced(u.white, Tidied(u, text))
  {
  }

  /** The closing marks trimmed off behind a text. */
  function Closing(u: Unicode, text: string): string {
    PeeledText(u, text)[|Core(u, text)|..]
  }

  lemma TrimmedOff(p: string)
    ensures var c := TrimEndOf(TrailMarks, p);
      p == c + p[|c|..] && forall i :: 0 <= i < |p[|c|..]| ==> IsClosing(p[|c|..][i])
  {
    ClosingTrimmed(p);
    var c := TrimEndOf(TrailMarks, p);
    assert c == p[..|c|];
  }

  lemma ClosingIsMarks(u: Unicode, text: string)
    ensures PeeledText(u, text) == Core(u, text) + Closing(u, text)
    ensures forall i :: 0 <= i < |Closing(u, text)| ==> IsClosing(Closing(u, text)[i])
  {
    TrimmedOff(PeeledText(u, text));
  }

  lemma LoweredColon(u: Unicode, text: string, said: string) returns (b: string)
    requires Lawful(u)
    ensures b == ":" + Lowered(u, ArrowsSpelled(said))
    ensures Lowered(u, ArrowsSpelled(text + (":" + said))) == Lowered(u, ArrowsSpelled(text)) + b
  {
    LoweredJoins(u, text, ":" + said);
    LoweredJoins(u, ":", said);
    assert Plain(u, ':');
    FixedByLowering(u, ":");
    b := Lowered(u, ArrowsSpelled(":" + said));
  }

  lemma CoreWithColon(u: Unicode, text: string, said: string) returns (c: string)
    requires Lawful(u) && PeeledText(u, text) != ""
    ensures Colon(c) && c == TrimEndOf(TrailMarks, ":" + Lowered(u, ArrowsSpelled(said)))
    ensures Core(u, text + (":" + said)) == PeeledText(u, text) + c
  {
    var b := LoweredColon(u, text, said);
    PeelBeforeColon(u, Lowered(u, ArrowsSpelled(text)), b);
    TrimBehind(PeeledText(u, text), b);
    c := TrimEndOf(TrailMarks, b);
  }

  lemma NamedIsPeeled(u: Unicode, text: string)
    requires NormalizeReportHeading(u, text) != ""
    ensures PeeledText(u, text) != ""
  {
  }

  lemma ColonStays(u: Unicode, c: string)
    requires Colon(c)
    ensures Colon(SplitWordInternalHyphens(u, c))
  {
  }

  /** A colon behind a text comes after all that is tidied up of it. */
  lemma TidiedWithColon(u: Unicode, text: string, said: string) returns (s: string)
    requires Lawful(u) && NormalizeReportHeading(u, text) != ""
    ensures Colon(s) && Tidied(u, text + (":" + said)) == Tidied(u, text) + (Closing(u, text) + s)
    ensures s == SplitWordInternalHyphens(u, TrimEndOf(TrailMarks, ":" + Lowered(u, ArrowsSpelled(said))))
  {
    NamedIsPeeled(u, text);
    var c := CoreWithColon(u, text, said);
    ClosingIsMarks(u, text);
    SplitAtColon(u, PeeledText(u, text), c);
    SplitBeforeMarks(u, Core(u, text), Closing(u, text));
    ColonStays(u, c);
    s := SplitWordInternalHyphens(u, c);
    Regroup(Tidied(u, text), Closing(u, text), s);
  }

  /** Behind the last word of `h`: blanks `w`, and then `z`. */
  lemma SpacedOn(white: Blanks, h: string, z: string, l: nat)
    requires l < |h| && !white(h[l]) && forall i :: l < i < |h| ==> white(h[i])
    ensures Spaced(white, h + z) == Spaced(white, h) + Behind(white, h[l + 1..] + z)
  {
    var a, w := h[..l + 1], h[l + 1..];
    assert h == a + w && a[|a| - 1] == h[l];
    SpacedJoin(white, a, w);
    NoWordsInBlanks(white, w);
    Regroup(a, w, z);
    SpacedJoin(white, a, w + z);
  }

  lemma BehindShows(u: Unicode, z: string)
    requires Lawful(u) && Start(u, z) < |z|
    ensures var after := Behind(u.white, z);
      Start(u, after) < |after| && after[Start(u, after)] == z[Start(u, z)]
  {
    var k, j := Start(u, z), Spaced(u.white, z);
    NoWordsInBlanks(u.white, z);
    SpacedStarts(u.white, z, k);
    if u.white(z[0]) {
      StartsAfter(u, " ", j[0], j[1..]);
      assert " " + [j[0]] + j[1..] == " " + j;
    } else {
      StartsAfter(u, "", j[0], j[1..]);
      assert "" + [j[0]] + j[1..] == j;
    }
  }

  lemma StartsBehind(u: Unicode, w: string, z: string)
    requires (forall i :: 0 <= i < |w| ==> u.white(w[i])) && Start(u, z) < |z|
    ensures Start(u, w + z) < |w + z| && (w + z)[Start(u, w + z)] == z[Start(u, z)]
  {
    var t, k := w + z, Start(u, z);
    assert t[|w| + k] == z[k] && forall i :: 0 <= i < |w| + k ==> t[i] == if i < |w| then w[i] else z[i - |w|];
    StartIs(u, t, |w| + k);
  }

  /** The first that shows of the closing marks of a text, blanks aside, or else the colon behind them. */
  function FirstBehind(u: Unicode, text: string): char {
    var tail := Closing(u, text);
    if Start(u, tail) < |tail| then tail[Start(u, tail)] else ':'
  }

  lemma ShowsFirst(u: Unicode, tail: string, s: string)
    requires Lawful(u) && Colon(s)
    ensures Start(u, tail + s) < |tail + s|
    ensures (tail + s)[Start(u, tail + s)] == if Start(u, tail) < |tail| then tail[Start(u, tail)] else ':'
  {
    var t, k := tail + s, Start(u, tail);
    assert Plain(u, ':');
    assert t[|tail|] == ':' && forall i :: 0 <= i < |tail| ==> t[i] == tail[i];
    StartIs(u, t, k);
  }

  lemma AllThere(a: string, b: string, s: string)
    ensures forall x :: x in s ==> x in a + (b + s)
  {
    assert a + (b + s) == a + b + s;
  }

  lemma LastOfWords(u: Unicode, h: string) returns (l: nat)
    requires Spaced(u.white, h) != ""
    ensures l < |h| && !u.white(h[l]) && forall i :: l < i < |h| ==> u.white(h[i])
  {
    var k := LastVisible(u, h);
    if k < 0 {
      NoWordsInBlanks(u.white, h);
      assert false;
    }
    l := k;
  }

  /** Behind a name: blanks, closing marks, and what begins with a colon. */
  lemma BehindAName(u: Unicode, w: string, tail: string, s: string)
    requires Lawful(u) && Colon(s) && forall i :: 0 <= i < |w| ==> u.white(w[i])
    ensures var after := Behind(u.white, w + (tail + s));
      && Start(u, after) < |after|
      && after[Start(u, after)] == if Start(u, tail) < |tail| then tail[Start(u, tail)] else ':'
  {
    ShowsFirst(u, tail, s);
    StartsBehind(u, w, tail + s);
    BehindShows(u, w + (tail + s));
  }

  /** The words of `h`, and then what is behind them: `tail`, and what begins with a colon. */
  lemma SpacedWithColon(u: Unicode, h: string, tail: string, s: string) returns (z: string)
    requires Lawful(u) && Spaced(u.white, h) != "" && Colon(s)
    ensures Spaced(u.white, h + (tail + s)) == Spaced(u.white, h) + Behind(u.white, z)
    ensures var after := Behind(u.white, z);
      && Start(u, after) < |after|
      && after[Start(u, after)] == if Start(u, tail) < |tail| then tail[Start(u, tail)] else ':'
    ensures forall x :: x in s ==> x in z
  {
    var l := LastOfWords(u, h);
    SpacedOn(u.white, h, tail + s, l);
    BehindAName(u, h[l + 1..], tail, s);
    AllThere(h[l + 1..], tail, s);
    z := h[l + 1..] + (tail + s);
  }

  /** What is said, its closing marks off and its hyphens split. */
  function TidySaid(u: Unicode, said: string): string {
    SplitWordInternalHyphens(u, TrimEndOf(TrailMarks, ":" + Lowered(u, ArrowsSpelled(said))))
  }

  /** A name, a colon and what is said: normalized, the name and something that begins, blanks
    * aside, with the first mark behind the name.
    */
  lemma NormalWithColon(u: Unicode, text: string, said: string) returns (z: string)
    requires Lawful(u) && NormalizeReportHeading(u, text) != ""
    ensures NormalizeReportHeading(u, text + (":" + said)) == NormalizeReportHeading(u, text) + Behind(u.white, z)
    ensures var after := Behind(u.white, z); Start(u, after) < |after| && after[Start(u, after)] == FirstBehind(u, text)
    ensures forall x :: x in TidySaid(u, said) ==> x in z
  {
    var s := TidiedWithColon(u, text, said);
    TidiedIsNormal(u, text);
    TidiedIsNormal(u, text + (":" + said));
    z := SpacedWithColon(u, Tidied(u, text), Closing(u, text), s);
  }

  // ---- Something said -------------------------------------------------------------------------

  /** A letter or a digit. */
  predicate SaysSomething(u: Unicode, said: string) {
    exists c :: c in said && c != '\U{2192}' && u.alnum(u.lower(c))
  }

  lemma {:induction false} LoweredIsThere(u: Unicode, t: string, k: nat)
    requires k < |t| && t[k] != '\U{2192}'
    ensures u.lower(t[k]) in Lowered(u, ArrowsSpelled(t))
    decreases |t|
  {
    LoweredJoins(u, [t[0]], t[1..]);
    assert t == [t[0]] + t[1..];
    if k == 0 {
      OneLowered(u, t[0]);
    } else {
      LoweredIsThere(u, t[1..], k - 1);
    }
  }

  lemma StaysTrimmed(b: string, x: char)
    requires x in b && !IsClosing(x)
    ensures x in TrimEndOf(TrailMarks, b)
  {
    var c := TrimEndOf(TrailMarks, b);
    ClosingTrimmed(b);
    var k :| 0 <= k < |b| && b[k] == x;
    assert k < |c| && c[k] == x;
  }

  lemma StaysSplit(u: Unicode, c: string, x: char)
    requires x in c && x != '-'
    ensures x in SplitWordInternalHyphens(u, c)
  {
    var k :| 0 <= k < |c| && c[k] == x;
    assert SplitWordInternalHyphens(u, c)[k] == x;
  }

  lemma SaidIsTidied(u: Unicode, said: string, x: char)
    requires Lawful(u) && u.alnum(x) && x in Lowered(u, ArrowsSpelled(said))
    ensures x in TidySaid(u, said)
  {
    WordCharacter(u, x);
    var b := ":" + Lowered(u, ArrowsSpelled(said));
    StaysTrimmed(b, x);
    StaysSplit(u, TrimEndOf(TrailMarks, b), x);
  }

  lemma SaidIsBehind(u: Unicode, z: string, x: char)
    requires Lawful(u) && u.alnum(x) && x in z
    ensures x in Behind(u.white, z)
  {
    WordCharacter(u, x);
    var k :| 0 <= k < |z| && z[k] == x;
    VisibleIsKept(u.white, z, k);
    NoWordsInBlanks(u.white, z);
  }

  lemma SaidIsLeft(u: Unicode, after: string, rest: string, x: char)
    requires Lawful(u) && u.alnum(x) && x in after && LeftOver(after, rest)
    ensures !Blank(u, rest)
  {
    WordCharacter(u, x);
    var k :| 0 <= k < |after| && after[k] == x;
    var n := |after| - |rest|;
    assert rest[k - n] == x;
    BlankIsAllWhite(u, rest);
  }

  // ---- `<section>: ...` -----------------------------------------------------------------------

  /** Of the closing marks behind a name the first, blanks aside, is a quote or an underscore:
    * what follows it is then no heading for that name.
    */
  predicate QuoteBehind(u: Unicode, text: string) {
    var c := FirstBehind(u, text);
    c == '`' || c == '"' || c == '_'
  }

  lemma FirstBehindIsAMark(u: Unicode, text: string)
    requires Lawful(u)
    ensures EndsAName(FirstBehind(u, text)) <==> !QuoteBehind(u, text)
  {
    ClosingIsMarks(u, text);
    var tail := Closing(u, text);
    var k := Start(u, tail);
    if k < |tail| {
      assert IsClosing(tail[k]) && tail[k] != ' ' && tail[k] != '\t';
    }
  }

  /** A line for a section: any decoration, the name as required, a colon, and what is said. */
  function SectionLine(ms: seq<Mark>, name: string, said: string): string {
    SpelledAll(ms) + (name + (":" + said))
  }

  lemma LineIsNormal(u: Unicode, ms: seq<Mark>, name: string, said: string) returns (after: string, x: char)
    requires Lawful(u) && NormalizeReportHeading(u, name) != "" && SaysSomething(u, said)
    requires forall k :: 0 <= k < |ms| ==> IsMark(u, ms[k])
    ensures NormalizeReportHeading(u, SectionLine(ms, name, said)) == NormalizeReportHeading(u, name) + after
    ensures Start(u, after) < |after| && after[Start(u, after)] == FirstBehind(u, name)
    ensures u.alnum(x) && x in after
  {
    DecorationIsInvisible(u, ms, name + (":" + said));
    var z := NormalWithColon(u, name, said);
    after := Behind(u.white, z);
    var c :| c in said && c != '\U{2192}' && u.alnum(u.lower(c));
    x := u.lower(c);
    var k :| 0 <= k < |said| && said[k] == c;
    LoweredIsThere(u, said, k);
    SaidIsTidied(u, said, x);
    SaidIsBehind(u, z, x);
  }

  /** Such a line heads its section, and says something under it, if and only if no quote or
    * underscore closes the name and no longer name is headed by the line.
    */
  lemma ColonHeadsItsSection(u: Unicode, required: seq<string>, i: nat, ms: seq<Mark>, said: string)
    requires Lawful(u) && i < |required| && NormalizeReportHeading(u, required[i]) != "" && SaysSomething(u, said)
    requires forall k :: 0 <= k < |ms| ==> IsMark(u, ms[k])
    ensures var names, line := NormalizedNames(u, required), SectionLine(ms, required[i], said);
      var n := NormalizeReportHeading(u, line);
      MentionOf(u, line, names) == Some(Mention(i, true)) <==>
        && !QuoteBehind(u, required[i])
        && forall j :: 0 <= j < |names| && HeadsBy(u, n, names[j]) ==>
             |names[j]| < |names[i]| || (|names[j]| == |names[i]| && j <= i)
  {
    var names, line := NormalizedNames(u, required), SectionLine(ms, required[i], said);
    var after, x := LineIsNormal(u, ms, required[i], said);
    var n := NormalizeReportHeading(u, line);
    assert n[|names[i]|..] == after;
    FirstBehindIsAMark(u, required[i]);
    HeadingInFull(u, line, names);
    match HeadingFor(u, line, names)
    case None =>
    case Some((j, rest)) =>
      if j == i {
        SaidIsLeft(u, after, rest, x);
      }
  }

  /** No other required name reads as a heading for this one. */
  ghost predicate Apart(u: Unicode, names: seq<string>, i: nat)
    requires i < |names|
  {
    forall j :: 0 <= j < |names| && j != i ==> !HeadsBy(u, names[j], names[i])
  }

  lemma NoneHeadsLonger(u: Unicode, n: string, name: string, after: string, longer: string)
    requires n == name + after && Start(u, after) < |after| && EndsAName(after[Start(u, after)])
    requires longer <= n && |longer| >= |name|
    ensures HeadsBy(u, longer, name)
  {
    var k, rest := Start(u, after), longer[|name|..];
    assert forall i :: 0 <= i < |longer| ==> longer[i] == n[i];
    assert forall i :: 0 <= i < |rest| ==> rest[i] == n[|name| + i] == after[i];
    assert Start(u, rest) == if k < |rest| then k else |rest|;
  }

  lemma ApartIsEnough(u: Unicode, required: seq<string>, i: nat, ms: seq<Mark>, said: string)
    requires Lawful(u) && i < |required| && NormalizeReportHeading(u, required[i]) != "" && SaysSomething(u, said)
    requires forall k :: 0 <= k < |ms| ==> IsMark(u, ms[k])
    requires !QuoteBehind(u, required[i]) && Apart(u, NormalizedNames(u, required), i)
    ensures MentionOf(u, SectionLine(ms, required[i], said), NormalizedNames(u, required)) == Some(Mention(i, true))
  {
    var names := NormalizedNames(u, required);
    var after, x := LineIsNormal(u, ms, required[i], said);
    var n := NormalizeReportHeading(u, SectionLine(ms, required[i], said));
    FirstBehindIsAMark(u, required[i]);
    forall j | 0 <= j < |names| && HeadsBy(u, n, names[j]) ensures |names[j]| < |names[i]| || j == i {
      if j != i && |names[j]| >= |names[i]| {
        NoneHeadsLonger(u, n, names[i], after, names[j]);
        assert false;
      }
    }
    ColonHeadsItsSection(u, required, i, ms, said);
  }

  /** The summary has a line for this section. */
  ghost predicate WrittenOut(u: Unicode, lines: seq<string>, name: string) {
    exists ms, said :: SectionLine(ms, name, said) in lines && SaysSomething(u, said)
      && forall k :: 0 <= k < |ms| ==> IsMark(u, ms[k])
  }

  lemma WrittenOutIsAccounted(u: Unicode, summary: string, required: seq<string>, i: nat)
    requires Lawful(u) && i < |required| && NormalizeReportHeading(u, required[i]) != ""
    requires !QuoteBehind(u, required[i]) && Apart(u, NormalizedNames(u, required), i)
    requires WrittenOut(u, Lines(summary), required[i])
    ensures Accounted(u, summary, required)[i]
  {
    var lines := Lines(summary);
    var ms, said :| SectionLine(ms, required[i], said) in lines && SaysSomething(u, said)
      && forall k :: 0 <= k < |ms| ==> IsMark(u, ms[k]);
    var k :| 0 <= k < |lines| && lines[k] == SectionLine(ms, required[i], said);
    ApartIsEnough(u, required, i, ms, said);
    var r := ReportOf(u, summary, required);
    ReadLine(u, lines, NormalizedNames(u, required), r, k);
    assert Credits(r, k, i);
    DoneMeansCredited(r, |r.visible|, i);
  }

  /** A summary with such a line for every required section, in any order and with anything
    * between them, misses none.
    */
  lemma WrittenOutMissesNone(u: Unicode, summary: string, required: seq<string>)
    requires Lawful(u) && EveryNameSaysSomething(u, required)
    requires forall i :: 0 <= i < |required| ==>
      !QuoteBehind(u, required[i]) && Apart(u, NormalizedNames(u, required), i) && WrittenOut(u, Lines(summary), required[i])
    ensures Missing(u, summary, required) == []
  {
    forall i | 0 <= i < |required| ensures Accounted(u, summary, required)[i] {
      WrittenOutIsAccounted(u, summary, required, i);
    }
    AllDoneIsNoneMissing(required, Accounted(u, summary, required));
  }

  // ---- `<section>: none` ------------------------------------------------------------------------

  /** Nothing to say of any section: each on a line of its own, `none` behind a colon. */
  function NoneOfAll(required: seq<string>): string {
    if required == [] then "" else required[0] + ": none" + "\n" + NoneOfAll(required[1..])
  }

  lemma NoneIsALine(name: string, rest: string)
    requires '\n' !in name
    ensures Lines(name + ": none" + "\n" + rest) == [name + ": none"] + Lines(rest)
  {
    var line := name + ": none";
    assert line[|line| - 1] == 'e';
    assert '\n' !in ": none";
    FirstLine("", line, rest);
    assert "" + line == line;
  }

  lemma {:induction false} NoneLines(required: seq<string>, i: nat)
    requires i < |required| && forall k :: 0 <= k < |required| ==> '\n' !in required[k]
    ensures required[i] + ": none" in Lines(NoneOfAll(required))
    decreases |required|
  {
    NoneIsALine(required[0], NoneOfAll(required[1..]));
    if i > 0 {
      NoneLines(required[1..], i - 1);
    }
  }

  lemma NoneSaysSomething(u: Unicode)
    requires Lawful(u)
    ensures SaysSomething(u, " none")
  {
    assert " none"[1] == 'n' && SmallLetter('n');
    assert 'n' in " none";
  }

  lemma NoneIsASectionLine(name: string)
    ensures SectionLine([], name, " none") == name + ": none"
  {
    assert ":" + " none" == ": none";
    assert "" + (name + ": none") == name + ": none";
  }

  lemma NoneIsWrittenOut(u: Unicode, lines: seq<string>, name: string)
    requires Lawful(u) && name + ": none" in lines
    ensures WrittenOut(u, lines, name)
  {
    NoneSaysSomething(u);
    NoneIsASectionLine(name);
  }

  lemma NoneWritesAllOut(u: Unicode, required: seq<string>)
    requires Lawful(u) && forall k :: 0 <= k < |required| ==> '\n' !in required[k]
    ensures forall i :: 0 <= i < |required| ==> WrittenOut(u, Lines(NoneOfAll(required)), required[i])
  {
    forall i | 0 <= i < |required| ensures WrittenOut(u, Lines(NoneOfAll(required)), required[i]) {
      NoneLines(required, i);
      NoneIsWrittenOut(u, Lines(NoneOfAll(required)), required[i]);
    }
  }

  /** The form the rejection asks for: saying `none` of every section misses none. */
  lemma NoneOfAllMissesNone(u: Unicode, required: seq<string>)
    requires Lawful(u) && EveryNameSaysSomething(u, required)
    requires forall i :: 0 <= i < |required| ==>
      '\n' !in required[i] && !QuoteBehind(u, required[i]) && Apart(u, NormalizedNames(u, required), i)
    ensures Missing(u, NoneOfAll(required), required) == []
  {
    NoneWritesAllOut(u, required);
    WrittenOutMissesNone(u, NoneOfAll(required), required);
  }

  // ---- A name in quotes -------------------------------------------------------------------------

  /** `a` in backquotes. */
  predicate Quoted(name: string) {
    |name| == 3 && name[0] == '`' && name[1] == 'a' && name[2] == '`'
  }

  lemma QuotedPeels(u: Unicode, name: string)
    requires Lawful(u) && Quoted(name)
    ensures PeeledText(u, name) == name[1..]
  {
    assert SmallLetter('a') && Plain(u, '`');
    FixedByLowering(u, name);
    var t := name[1..];
    assert PeelOne(u, name) == Some(t);
    assert t[0] == 'a' && !IsBullet('a') && !IsSign('a') && !Digit('a');
    NothingToPeel(u, t);
    assert PeelOne(u, t) == None && Peeled(u, t) == t;
    assert Lowered(u, ArrowsSpelled(name)) == name;
  }

  lemma LastTrimmed(t: string)
    requires |t| == 2 && !IsClosing(t[0]) && IsClosing(t[1])
    ensures TrimEndOf(TrailMarks, t) == t[..1]
  {
    ClosingTrimmed(t);
    var r := TrimEndOf(TrailMarks, t);
    assert r == t[..|r|];
  }

  lemma QuotedCore(u: Unicode, name: string)
    requires Lawful(u) && Quoted(name)
    ensures Core(u, name) == name[1..2] && Closing(u, name) == name[2..]
  {
    QuotedPeels(u, name);
    var t := name[1..];
    LastTrimmed(t);
    assert t[..1] == name[1..2] && t[1..] == name[2..];
  }

  lemma QuotedIsQuoted(u: Unicode, name: string)
    requires Lawful(u) && Quoted(name)
    ensures QuoteBehind(u, name)
  {
    QuotedCore(u, name);
    assert Plain(u, '`') && name[2..][0] == '`';
  }

  lemma LetterStands(u: Unicode, t: string)
    requires Lawful(u) && |t| == 1 && t[0] == 'a'
    ensures Spaced(u.white, SplitWordInternalHyphens(u, t)) == t
  {
    assert SmallLetter('a');
    assert SplitWordInternalHyphens(u, t) == t;
    OneWordAfter(u.white, t, "");
    assert t + "" == t;
  }

  lemma QuotedIsNormal(u: Unicode, name: string)
    requires Lawful(u) && Quoted(name)
    ensures NormalizeReportHeading(u, name) == name[1..2]
  {
    QuotedCore(u, name);
    LetterStands(u, name[1..2]);
  }

  lemma OnlyLineHeadsNothing(u: Unicode, summary: string, required: seq<string>, line: string)
    requires Lines(summary) == [line] && |required| == 1
    requires MentionOf(u, line, NormalizedNames(u, required)) == None
    ensures Missing(u, summary, required) == required
  {
    var r := ReportOf(u, summary, required);
    ReadLine(u, [line], NormalizedNames(u, required), r, 0);
    assert Done(r, 0) == [false] && Done(r, 1) == Done(r, 0);
    NothingDoneIsAllMissing(required, Done(r, 1));
  }

  lemma QuotedHeadsNothing(u: Unicode, required: seq<string>, said: string)
    requires Lawful(u) && |required| == 1 && Quoted(required[0]) && SaysSomething(u, said)
    ensures MentionOf(u, SectionLine([], required[0], said), NormalizedNames(u, required)) == None
  {
    QuotedIsNormal(u, required[0]);
    QuotedIsQuoted(u, required[0]);
    var line, names := SectionLine([], required[0], said), NormalizedNames(u, required);
    var after, x := LineIsNormal(u, [], required[0], said);
    assert NormalizeReportHeading(u, line)[|names[0]|..] == after;
    FirstBehindIsAMark(u, required[0]);
    HeadingInFull(u, line, names);
  }

  /** A required name in backquotes is never satisfied by that form: told that it is missing, a
    * model that writes it so is turned away again.
    */
  lemma QuotedNameIsMissed(u: Unicode, required: seq<string>)
    requires Lawful(u) && |required| == 1 && Quoted(required[0])
    ensures EveryNameSaysSomething(u, required) && Missing(u, NoneOfAll(required), required) == required
  {
    QuotedIsNormal(u, required[0]);
    NoneOfOne(required, required[0]);
    NoneSaysSomething(u);
    NoneIsASectionLine(required[0]);
    QuotedHeadsNothing(u, required, " none");
    OnlyLineHeadsNothing(u, NoneOfAll(required), required, required[0] + ": none");
  }

  lemma NoneOfOne(required: seq<string>, name: string)
    requires required == [name] && Quoted(name)
    ensures Lines(NoneOfAll(required)) == [name + ": none"]
  {
    assert required[1..] == [] && NoneOfAll([]) == "";
    NoneIsALine(name, "");
  }
}
