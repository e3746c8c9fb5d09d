/** Report headings reduced to what matching cares about
  * (`chocofactory-core/src/mcp.rs`, lines 32 to 145 and 254 to 342).
  *
  * Character classes are a parameter: `Lawful` states the facts about Unicode
  * the proofs use, and every law holds for every lawful table.
  */
module ReportHeading {
  import opened Wrappers
  import opened Text

  datatype Unicode = Unicode(lower: char -> char, alnum: char -> bool, white: char -> bool)

  const LeadMarks: set<char> := {'#', '>', '`', '"', '_', '*'}
  const TrailMarks: set<char> := {'*', '_', '#', '`', '"', ' ', '\t'}
  const Bullets: set<char> := {'-', '*', '+'}
  const ListStops: set<char> := {'.', ')'}
  const HeadingStops: set<char> := {':', '(', '[', '{', '\U{2014}', '\U{2013}', '-', ',', '.', '/', '*', '#'}
  const RestTrim: set<char> := {':', '-', '\U{2014}', '\U{2013}', '*', '_', '#', '.', ' ', '\t'}

  predicate Digit(c: char) { '0' <= c <= '9' }

  predicate SmallLetter(c: char) { 'a' <= c <= 'z' }

  // ---- The marks, spelled out

  /** In front of a heading: heading signs, quotes and emphasis. */
  predicate IsSign(c: char) { c == '#' || c == '>' || c == '`' || c == '"' || c == '_' || c == '*' }

  predicate IsBullet(c: char) { c == '-' || c == '*' || c == '+' }

  /** Behind a list number. */
  predicate IsStop(c: char) { c == '.' || c == ')' }

  /** Behind a heading. */
  predicate IsClosing(c: char) {
    c == '*' || c == '_' || c == '#' || c == '`' || c == '"' || c == ' ' || c == '\t'
  }

  /** What may follow a section's name, blanks aside. */
  predicate EndsAName(c: char) {
    || c == ':' || c == '(' || c == '[' || c == '{' || c == '\U{2014}' || c == '\U{2013}' || c == '-' || c == ','
    || c == '.' || c == '/' || c == '*' || c == '#'
  }

  /** What says nothing, straight after a section's name. */
  predicate SaysNothing(c: char) {
    || c == ':' || c == '-' || c == '\U{2014}' || c == '\U{2013}' || c == '*' || c == '_' || c == '#' || c == '.'
    || c == ' ' || c == '\t'
  }

  /** Punctuation: neither blank nor part of a word, and unchanged by lowercasing. */
  predicate Plain(u: Unicode, c: char) {
    !u.white(c) && !u.alnum(c) && u.lower(c) == c
  }

  ghost predicate Lawful(u: Unicode) {
    && (forall c: char :: u.lower(u.lower(c)) == u.lower(c))
    && (forall c: char :: u.white(c) ==> u.lower(c) == c && !u.alnum(c))
    && (forall c: char :: u.white(u.lower(c)) ==> u.white(c))
    && (forall c: char :: u.lower(c) == '\U{2192}' ==> c == '\U{2192}')
    && u.white(' ') && u.white('\t') && u.white('\n') && !u.white('\U{2192}')
    && (forall c: char :: Digit(c) ==> !u.white(c) && u.alnum(c) && u.lower(c) == c)
    && (forall c: char :: SmallLetter(c) ==> !u.white(c) && u.alnum(c) && u.lower(c) == c)
    && (forall c: char :: IsSign(c) || IsBullet(c) || IsStop(c) || EndsAName(c) ==> Plain(u, c))
  }

  // ---- Trimming --------------------------------------------------------------

  function TrimStart(u: Unicode, t: string): (r: string)
    ensures |r| <= |t| && r == t[|t| - |r|..]
    ensures r == "" || !u.white(r[0])
  {
    if t == "" || !u.white(t[0]) then t else TrimStart(u, t[1..])
  }

  function TrimStartOf(marks: set<char>, t: string): (r: string)
    ensures |r| <= |t| && r == t[|t| - |r|..]
    ensures r == "" || r[0] !in marks
  {
    if t == "" || t[0] !in marks then t else TrimStartOf(marks, t[1..])
  }

  function TrimEndOf(marks: set<char>, t: string): (r: string)
    ensures r <= t
    ensures r == "" || r[|r| - 1] !in marks
    ensures (t == "" || t[|t| - 1] !in marks) ==> r == t
  {
    if t == "" || t[|t| - 1] !in marks then t else TrimEndOf(marks, t[..|t| - 1])
  }

  // ---- Leading markers ---------------------------------------------------------

  predicate StartsABullet(u: Unicode, t: string) {
    var s := TrimStart(u, t);
    |s| > 1 && s[0] in Bullets && u.white(s[1])
  }

  function DigitRun(t: string): (n: nat)
    ensures n <= |t| && (forall i :: 0 <= i < n ==> Digit(t[i])) && (n < |t| ==> !Digit(t[n]))
  {
    if t == "" || !Digit(t[0]) then 0 else 1 + DigitRun(t[1..])
  }

  /** A number, a stop and a blank: a list number. Without the blank it is a number like any other. */
  function StripOrderedListMarker(u: Unicode, t: string): (r: string)
    ensures |r| <= |t| && r == t[|t| - |r|..]
  {
    var n := DigitRun(t);
    if n > 0 && n + 1 < |t| && t[n] in ListStops && u.white(t[n + 1]) then t[n + 1..] else t
  }

  /** One piece of decoration taken off the front, or nothing to take. */
  function PeelOne(u: Unicode, t: string): (r: Option<string>)
    ensures r.Some? ==> |r.value| < |t|
  {
    if t == "" then None
    else if u.white(t[0]) || t[0] in LeadMarks then Some(t[1..])
    else if t[0] in Bullets && |t| > 1 && u.white(t[1]) then Some(t[1..])
    else
      var s := StripOrderedListMarker(u, t);
      if |s| < |t| then Some(s) else None
  }

  /** The normal form: pieces taken off one at a time until none is left. */
  function Peeled(u: Unicode, t: string): (r: string)
    ensures |r| <= |t| && PeelOne(u, r) == None
    decreases |t|
  {
    match PeelOne(u, t)
    case None => t
    case Some(s) => Peeled(u, s)
  }

  lemma {:induction false} TrimStartIsPeeling(u: Unicode, t: string)
    ensures Peeled(u, TrimStart(u, t)) == Peeled(u, t)
    decreases |t|
  {
    if t != "" && u.white(t[0]) {
      TrimStartIsPeeling(u, t[1..]);
    }
  }

  lemma {:induction false} TrimMarksIsPeeling(u: Unicode, t: string)
    ensures Peeled(u, TrimStartOf(LeadMarks, t)) == Peeled(u, t)
    decreases |t|
  {
    if t != "" && t[0] in LeadMarks {
      TrimMarksIsPeeling(u, t[1..]);
    }
  }

  lemma StripListIsPeeling(u: Unicode, t: string)
    requires Lawful(u)
    ensures Peeled(u, StripOrderedListMarker(u, t)) == Peeled(u, t)
  {
    var s := StripOrderedListMarker(u, t);
    if |s| < |t| {
      assert DigitRun(t) > 0;
      assert Digit(t[0]) && t[0] !in LeadMarks && t[0] !in Bullets && !u.white(t[0]);
      assert PeelOne(u, t) == Some(s);
    } else {
      assert s == t;
    }
  }

  lemma BulletIsPeeling(u: Unicode, t: string)
    requires StartsABullet(u, t)
    ensures Peeled(u, TrimStart(u, t)[1..]) == Peeled(u, t)
  {
    TrimStartIsPeeling(u, t);
    var s := TrimStart(u, t);
    assert PeelOne(u, s) == Some(s[1..]);
  }

  lemma EmphasisIsPeeling(u: Unicode, t: string)
    requires "**" <= t
    ensures Peeled(u, t[2..]) == Peeled(u, t)
  {
    assert t[0] == '*' && t[1..][0] == '*' && t[1..][1..] == t[2..];
    assert PeelOne(u, t) == Some(t[1..]) && PeelOne(u, t[1..]) == Some(t[2..]);
  }

  /** `**bold**` is emphasis. */
  method StripEmphasis(u: Unicode, text: string) returns (rest: string)
    ensures Peeled(u, rest) == Peeled(u, text)
    ensures |rest| <= |text| && (|rest| == |text| ==> rest == text)
  {
    rest := text;
    while "**" <= rest
      invariant Peeled(u, rest) == Peeled(u, text)
      invariant |rest| <= |text| && (|rest| == |text| ==> rest == text)
      decreases |rest|
    {
      EmphasisIsPeeling(u, rest);
      rest := rest[2..];
    }
  }

  /** One pass that changed nothing had nothing to take. */
  lemma NothingTaken(u: Unicode, t: string)
    requires t == "" || !u.white(t[0])
    requires TrimStartOf(LeadMarks, t) == t && !StartsABullet(u, t) && StripOrderedListMarker(u, t) == t
    ensures Peeled(u, t) == t
  {
    assert TrimStart(u, t) == t;
    assert PeelOne(u, t) == None;
  }

  /** The loop of the source takes off several pieces a pass; it stops at the normal form. */
  method StripLeadingMarkers(u: Unicode, text: string) returns (rest: string)
    requires Lawful(u)
    ensures rest == Peeled(u, text)
  {
    rest := TrimStart(u, text);
    TrimStartIsPeeling(u, text);
    while true
      invariant Peeled(u, rest) == Peeled(u, text)
      invariant rest == "" || !u.white(rest[0])
      decreases |rest|
    {
      var before := rest;
      TrimMarksIsPeeling(u, rest);
      rest := TrimStartOf(LeadMarks, rest);
      rest := StripEmphasis(u, rest);
      ghost var bare := rest;
      var bullet := StartsABullet(u, rest);
      if bullet {
        BulletIsPeeling(u, rest);
        rest := TrimStart(u, rest)[1..];
      }
      StripListIsPeeling(u, rest);
      rest := StripOrderedListMarker(u, rest);
      TrimStartIsPeeling(u, rest);
      rest := TrimStart(u, rest);
      if rest == before {
        assert bare == before && !bullet;
        NothingTaken(u, before);
        return;
      }
    }
  }

  /** Neither a mark nor a bullet is left at the front. */
  predicate PeelBare(u: Unicode, t: string) {
    t == "" || (!IsSign(t[0]) && !u.white(t[0]) && !(IsBullet(t[0]) && |t| > 1 && u.white(t[1])))
  }

  /** `n` digits, a stop and a blank: a list marker at the front of `t`. */
  predicate ListMarker(u: Unicode, t: string, n: nat) {
    && 0 < n && n + 1 < |t| && (forall i :: 0 <= i < n ==> Digit(t[i]))
    && IsStop(t[n]) && u.white(t[n + 1])
  }

  lemma InListStops(c: char)
    ensures c in ListStops <==> IsStop(c)
  {
  }

  /** The only list marker there can be is the run of digits in front. */
  lemma OneMarker(u: Unicode, t: string, n: nat)
    requires ListMarker(u, t, n)
    ensures n == DigitRun(t)
  {
    var k := DigitRun(t);
    assert !Digit(t[n]);
    assert k == |t| || !Digit(t[k]);
  }

  lemma MarkerIsRun(u: Unicode, t: string)
    ensures |StripOrderedListMarker(u, t)| < |t| <==> ListMarker(u, t, DigitRun(t))
  {
    var n := DigitRun(t);
    if n < |t| {
      InListStops(t[n]);
    }
  }

  lemma BareIsBare(u: Unicode, t: string)
    ensures PeelOne(u, t) == None <==> PeelBare(u, t) && (t == "" || |StripOrderedListMarker(u, t)| >= |t|)
  {
  }

  /** What it takes for nothing to be left to peel. */
  lemma NothingToPeel(u: Unicode, t: string)
    ensures PeelOne(u, t) == None <==> PeelBare(u, t) && forall n: nat :: !ListMarker(u, t, n)
  {
    BareIsBare(u, t);
    MarkerIsRun(u, t);
    forall n: nat | ListMarker(u, t, n) ensures n == DigitRun(t) {
      OneMarker(u, t, n);
    }
  }

  // ---- Normalizing -------------------------------------------------------------

  function ArrowsSpelled(t: string): (r: string)
    ensures '\U{2192}' !in r
  {
    if t == "" then ""
    else (if t[0] == '\U{2192}' then "->" else [t[0]]) + ArrowsSpelled(t[1..])
  }

  function Lowered(u: Unicode, t: string): (r: string)
    ensures |r| == |t| && forall i :: 0 <= i < |t| ==> r[i] == u.lower(t[i])
  {
    seq(|t|, i requires 0 <= i < |t| => u.lower(t[i]))
  }

  predicate SplitsAt(u: Unicode, t: string, i: int) {
    0 < i < |t| - 1 && t[i] == '-' && u.alnum(t[i - 1]) && u.alnum(t[i + 1])
  }

  function SplitWordInternalHyphens(u: Unicode, t: string): (r: string)
    ensures |r| == |t| && forall i :: 0 <= i < |t| ==> r[i] == if SplitsAt(u, t, i) then ' ' else t[i]
  {
    seq(|t|, i requires 0 <= i < |t| => if SplitsAt(u, t, i) then ' ' else t[i])
  }

  /** The text with its front and back decoration gone: what is left to tidy. */
  function Core(u: Unicode, text: string): string {
    TrimEndOf(TrailMarks, Peeled(u, Lowered(u, ArrowsSpelled(text))))
  }

  function NormalizeReportHeading(u: Unicode, text: string): string {
    Joined(Words(u.white, SplitWordInternalHyphens(u, Core(u, text))))
  }

  // ---- Decoration in front is invisible ------------------------------------------

  datatype Mark = Sign(c: char) | Space(c: char) | Bullet(c: char, gap: char) | Number(digits: string, stop: char, gap: char)

  predicate IsMark(u: Unicode, m: Mark) {
    match m
    case Sign(c) => IsSign(c)
    case Space(c) => u.white(c)
    case Bullet(c, gap) => IsBullet(c) && u.white(gap)
    case Number(digits, stop, gap) =>
      digits != "" && (forall i :: 0 <= i < |digits| ==> Digit(digits[i])) && IsStop(stop) && u.white(gap)
  }

  function Spelled(m: Mark): string {
    match m
    case Sign(c) => [c]
    case Space(c) => [c]
    case Bullet(c, gap) => [c, gap]
    case Number(digits, stop, gap) => digits + [stop, gap]
  }

  function SpelledAll(ms: seq<Mark>): string {
    if ms == [] then "" else Spelled(ms[0]) + SpelledAll(ms[1..])
  }

  lemma PeelMark(u: Unicode, m: Mark, t: string)
    requires Lawful(u) && IsMark(u, m)
    ensures Peeled(u, Spelled(m) + t) == Peeled(u, t)
  {
    var s := Spelled(m) + t;
    match m
    case Sign(c) => assert s[1..] == t;
    case Space(c) => assert s[1..] == t;
    case Bullet(c, gap) =>
      assert s[1..] == [gap] + t && ([gap] + t)[1..] == t;
      assert PeelOne(u, s) == Some([gap] + t);
      assert PeelOne(u, [gap] + t) == Some(t);
    case Number(digits, stop, gap) => PeelNumber(u, digits, stop, gap, t);
  }

  lemma PeelNumber(u: Unicode, digits: string, stop: char, gap: char, t: string)
    requires Lawful(u) && IsMark(u, Number(digits, stop, gap))
    ensures Peeled(u, digits + [stop, gap] + t) == Peeled(u, t)
  {
    var s, n := digits + [stop, gap] + t, |digits|;
    assert s[..n] == digits && s[n] == stop && s[n + 1] == gap && !Digit(s[n]);
    assert forall i :: 0 <= i < n ==> s[i] == s[..n][i];
    assert DigitRun(s) == n;
    assert s[n + 1..] == [gap] + t && ([gap] + t)[1..] == t;
    assert StripOrderedListMarker(u, s) == s[n + 1..];
    assert s[0] == digits[0] && Digit(s[0]);
    assert PeelOne(u, s) == Some([gap] + t);
    assert PeelOne(u, [gap] + t) == Some(t);
  }

  lemma {:induction false} LoweredJoins(u: Unicode, a: string, b: string)
    ensures Lowered(u, ArrowsSpelled(a + b)) == Lowered(u, ArrowsSpelled(a)) + Lowered(u, ArrowsSpelled(b))
    decreases |a|
  {
    if a == "" {
      assert a + b == b;
    } else {
      assert (a + b)[1..] == a[1..] + b;
      LoweredJoins(u, a[1..], b);
      var head := if a[0] == '\U{2192}' then "->" else [a[0]];
      assert ArrowsSpelled(a + b) == head + ArrowsSpelled(a[1..] + b);
      assert ArrowsSpelled(a) == head + ArrowsSpelled(a[1..]);
    }
  }

  lemma {:induction false} FixedByLowering(u: Unicode, t: string)
    requires forall i :: 0 <= i < |t| ==> u.lower(t[i]) == t[i] && t[i] != '\U{2192}'
    ensures Lowered(u, ArrowsSpelled(t)) == t
    decreases |t|
  {
    if t != "" {
      FixedByLowering(u, t[1..]);
      LoweredJoins(u, [t[0]], t[1..]);
      assert t == [t[0]] + t[1..];
      assert ArrowsSpelled([t[0]]) == [t[0]] + ArrowsSpelled([t[0]][1..]);
      assert Lowered(u, ArrowsSpelled([t[0]])) == [t[0]];
    }
  }

  lemma {:induction false} PeelMarks(u: Unicode, ms: seq<Mark>, t: string)
    requires Lawful(u) && forall i :: 0 <= i < |ms| ==> IsMark(u, ms[i])
    ensures Peeled(u, SpelledAll(ms) + t) == Peeled(u, t)
    decreases |ms|
  {
    if ms == [] {
      assert SpelledAll(ms) + t == t;
    } else {
      assert SpelledAll(ms) + t == Spelled(ms[0]) + (SpelledAll(ms[1..]) + t);
      PeelMark(u, ms[0], SpelledAll(ms[1..]) + t);
      PeelMarks(u, ms[1..], t);
    }
  }

  lemma MarkIsFixed(u: Unicode, m: Mark, i: int)
    requires Lawful(u) && IsMark(u, m) && 0 <= i < |Spelled(m)|
    ensures u.lower(Spelled(m)[i]) == Spelled(m)[i] && Spelled(m)[i] != '\U{2192}'
  {
    var c := Spelled(m)[i];
    assert u.white(c) || Digit(c) || IsSign(c) || IsBullet(c) || IsStop(c);
  }

  lemma {:induction false} MarksAreFixed(u: Unicode, ms: seq<Mark>)
    requires Lawful(u) && forall i :: 0 <= i < |ms| ==> IsMark(u, ms[i])
    ensures forall i :: 0 <= i < |SpelledAll(ms)| ==>
              u.lower(SpelledAll(ms)[i]) == SpelledAll(ms)[i] && SpelledAll(ms)[i] != '\U{2192}'
    decreases |ms|
  {
    if ms != [] {
      MarksAreFixed(u, ms[1..]);
      var a, b := Spelled(ms[0]), SpelledAll(ms[1..]);
      forall i | 0 <= i < |a| ensures u.lower(a[i]) == a[i] && a[i] != '\U{2192}' {
        MarkIsFixed(u, ms[0], i);
      }
      forall i | 0 <= i < |SpelledAll(ms)| ensures SpelledAll(ms)[i] == if i < |a| then a[i] else b[i - |a|] {
      }
    }
  }

  /** Any run of heading signs, quotes, emphasis, blanks, bullets and list
    * numbers in front of a heading leaves its normal form as it was. */
  lemma DecorationIsInvisible(u: Unicode, ms: seq<Mark>, text: string)
    requires Lawful(u) && forall i :: 0 <= i < |ms| ==> IsMark(u, ms[i])
    ensures NormalizeReportHeading(u, SpelledAll(ms) + text) == NormalizeReportHeading(u, text)
  {
    MarksAreFixed(u, ms);
    FixedByLowering(u, SpelledAll(ms));
    LoweredJoins(u, SpelledAll(ms), text);
    PeelMarks(u, ms, Lowered(u, ArrowsSpelled(text)));
  }

  // ---- Decoration behind -----------------------------------------------------------

  /** Nothing but a bullet or a list number, which a blank after it would make decoration. */
  predicate BareMarker(u: Unicode, t: string) {
    t != "" && PeelOne(u, t + " ") != None
  }

  lemma TrailMarkFacts(u: Unicode, c: char)
    requires Lawful(u) && IsClosing(c)
    ensures u.white(c) || IsSign(c)
    ensures !Digit(c) && !IsStop(c) && u.lower(c) == c && c != '\U{2192}'
  {
    assert u.white(c) || Plain(u, c);
  }

  lemma {:induction false} PeelAllMarks(u: Unicode, t: string)
    requires Lawful(u) && forall i :: 0 <= i < |t| ==> IsClosing(t[i])
    ensures Peeled(u, t) == ""
    decreases |t|
  {
    if t != "" {
      TrailMarkFacts(u, t[0]);
      PeelAllMarks(u, t[1..]);
    }
  }

  /** Closing marks do not change what is peeled off in front. */
  lemma PeelOneWithTail(u: Unicode, t: string, tail: string)
    requires Lawful(u) && t != "" && forall i :: 0 <= i < |tail| ==> IsClosing(tail[i])
    requires PeelOne(u, t) == None && !BareMarker(u, t)
    ensures PeelOne(u, t + tail) == None
  {
    var s := t + tail;
    NothingToPeel(u, t);
    NothingToPeel(u, t + " ");
    NothingToPeel(u, s);
    assert s[0] == t[0] == (t + " ")[0];
    assert |t| == 1 ==> (t + " ")[1] == ' ';
    assert |t| > 1 ==> s[1] == t[1];
    assert PeelBare(u, s);
    forall n: nat ensures !ListMarker(u, s, n) {
      NoMarkerInTail(u, t, tail, n);
    }
  }

  lemma NoMarkerInTail(u: Unicode, t: string, tail: string, n: nat)
    requires Lawful(u) && forall i :: 0 <= i < |tail| ==> IsClosing(tail[i])
    requires !ListMarker(u, t, n) && !ListMarker(u, t + " ", n)
    ensures !ListMarker(u, t + tail, n)
  {
    var s := t + tail;
    assert forall i :: 0 <= i < |t| ==> s[i] == t[i] == (t + " ")[i];
    if |t| <= n < |s| {
      TrailMarkFacts(u, s[n]);
    }
  }

  lemma StepWithTail(u: Unicode, t: string, tail: string)
    requires PeelOne(u, t).Some?
    ensures PeelOne(u, t + tail) == Some(PeelOne(u, t).value + tail)
  {
    var s := t + tail;
    assert s[0] == t[0] && s[1..] == t[1..] + tail;
    assert |t| > 1 ==> s[1] == t[1];
    if |StripOrderedListMarker(u, t)| < |t| {
      NumberWithTail(u, t, tail);
    }
  }

  lemma NumberWithTail(u: Unicode, t: string, tail: string)
    requires |StripOrderedListMarker(u, t)| < |t|
    ensures StripOrderedListMarker(u, t + tail) == StripOrderedListMarker(u, t) + tail
  {
    var s, n := t + tail, DigitRun(t);
    assert forall i :: 0 <= i < |t| ==> s[i] == t[i];
    assert DigitRun(s) == n;
    assert s[n + 1..] == t[n + 1..] + tail;
  }

  lemma {:induction false} PeelWithTail(u: Unicode, t: string, tail: string)
    requires Lawful(u) && forall i :: 0 <= i < |tail| ==> IsClosing(tail[i])
    requires !BareMarker(u, Peeled(u, t))
    ensures Peeled(u, t + tail) == if Peeled(u, t) == "" then "" else Peeled(u, t) + tail
    decreases |t|
  {
    match PeelOne(u, t)
    case Some(s) =>
      StepWithTail(u, t, tail);
      PeelWithTail(u, s, tail);
    case None =>
      if t == "" {
        assert t + tail == tail;
        PeelAllMarks(u, tail);
      } else {
        PeelOneWithTail(u, t, tail);
      }
  }

  lemma {:induction false} TrimWithTail(t: string, tail: string)
    requires forall i :: 0 <= i < |tail| ==> IsClosing(tail[i])
    ensures TrimEndOf(TrailMarks, t + tail) == TrimEndOf(TrailMarks, t)
    decreases |tail|
  {
    if tail == "" {
      assert t + tail == t;
    } else {
      assert (t + tail)[..|t + tail| - 1] == t + tail[..|tail| - 1];
      TrimWithTail(t, tail[..|tail| - 1]);
    }
  }

  function PeeledText(u: Unicode, text: string): string {
    Peeled(u, Lowered(u, ArrowsSpelled(text)))
  }

  /** Closing decoration is invisible too, behind anything that is not itself a bare marker. */
  lemma ClosingIsInvisible(u: Unicode, text: string, tail: string)
    requires Lawful(u) && forall i :: 0 <= i < |tail| ==> IsClosing(tail[i])
    requires !BareMarker(u, PeeledText(u, text))
    ensures NormalizeReportHeading(u, text + tail) == NormalizeReportHeading(u, text)
  {
    var t := Lowered(u, ArrowsSpelled(text));
    forall i | 0 <= i < |tail| ensures u.lower(tail[i]) == tail[i] && tail[i] != '\U{2192}' {
      TrailMarkFacts(u, tail[i]);
    }
    FixedByLowering(u, tail);
    LoweredJoins(u, text, tail);
    PeelWithTail(u, t, tail);
    TrimWithTail(Peeled(u, t), tail);
  }

  // ---- Normalizing twice ---------------------------------------------------------

  /** Where the first word ends, and that something follows it only if something did before. */
  lemma FirstWord(u: Unicode, t: string) returns (n: nat)
    requires Lawful(u) && t != "" && !u.white(t[0])
    ensures 0 < n <= |t| && n == WordEnd(u.white, t)
    ensures var j := Joined(Words(u.white, t)); |j| >= n && j[..n] == t[..n] && (|j| > n ==> j[n] == ' ' && n < |t|)
  {
    n := WordEnd(u.white, t);
    var ws := Words(u.white, t);
    assert ws[0] == t[..n] && ws[1..] == Words(u.white, t[n..]);
  }

  /** A list marker ends with the first word. */
  lemma MarkerInFirstWord(u: Unicode, t: string, j: string, n: nat, m: nat)
    requires Lawful(u) && n <= |t| && n <= |j| && forall i :: 0 <= i < n ==> j[i] == t[i] && !u.white(t[i])
    requires |j| > n ==> n < |t| && u.white(j[n]) && u.white(t[n])
    requires ListMarker(u, j, m)
    ensures ListMarker(u, t, m)
  {
    assert Plain(u, j[m]) && !u.white(j[m]);
    assert forall i :: 0 <= i < m ==> Digit(j[i]) && !u.white(j[i]);
    assert m + 1 == n;
  }

  lemma JoinedMarker(u: Unicode, t: string, m: nat)
    requires Lawful(u) && t != "" && !u.white(t[0])
    requires ListMarker(u, Joined(Words(u.white, t)), m)
    ensures ListMarker(u, t, m)
  {
    var j := Joined(Words(u.white, t));
    var n := FirstWord(u, t);
    assert forall i :: 0 <= i < n ==> j[i] == j[..n][i] == t[..n][i] == t[i];
    MarkerInFirstWord(u, t, j, n, m);
  }

  lemma JoinedStaysPeeled(u: Unicode, t: string)
    requires Lawful(u) && PeelOne(u, t) == None
    ensures PeelOne(u, Joined(Words(u.white, t))) == None
  {
    var j := Joined(Words(u.white, t));
    NothingToPeel(u, t);
    NothingToPeel(u, j);
    if t != "" {
      var n := FirstWord(u, t);
      assert j[0] == j[..n][0] == t[..n][0] == t[0];
      assert n > 1 ==> j[1] == j[..n][1] == t[..n][1] == t[1];
      forall m: nat | ListMarker(u, j, m) ensures ListMarker(u, t, m) {
        JoinedMarker(u, t, m);
      }
    }
  }

  lemma SplitMarker(u: Unicode, t: string, n: nat)
    requires Lawful(u) && ListMarker(u, SplitWordInternalHyphens(u, t), n)
    ensures ListMarker(u, t, n)
  {
    var h := SplitWordInternalHyphens(u, t);
    assert Plain(u, h[n]);
    assert Plain(u, '-');
    forall i | 0 <= i <= n + 1 ensures h[i] == t[i] {
      assert i < n ==> Digit(h[i]);
    }
  }

  lemma SplitStaysPeeled(u: Unicode, t: string)
    requires Lawful(u) && PeelOne(u, t) == None
    ensures PeelOne(u, SplitWordInternalHyphens(u, t)) == None
  {
    var h := SplitWordInternalHyphens(u, t);
    NothingToPeel(u, t);
    NothingToPeel(u, h);
    forall n: nat | ListMarker(u, h, n) ensures ListMarker(u, t, n) {
      SplitMarker(u, t, n);
    }
    if |t| > 1 && h[0] in Bullets {
      assert Plain(u, h[0]);
    }
  }

  lemma PrefixMarker(u: Unicode, t: string, p: string, n: nat)
    requires p <= t && ListMarker(u, p, n)
    ensures ListMarker(u, t, n)
  {
    assert forall i :: 0 <= i < |p| ==> p[i] == t[i];
  }

  lemma PrefixStaysPeeled(u: Unicode, t: string, p: string)
    requires PeelOne(u, t) == None && p <= t
    ensures PeelOne(u, p) == None
  {
    NothingToPeel(u, t);
    NothingToPeel(u, p);
    assert p != "" ==> p[0] == t[0];
    assert |p| > 1 ==> p[1] == t[1];
    forall n: nat | ListMarker(u, p, n) ensures ListMarker(u, t, n) {
      PrefixMarker(u, t, p, n);
    }
  }

  predicate Settled(u: Unicode, t: string) {
    forall i :: 0 <= i < |t| ==> u.lower(t[i]) == t[i] && t[i] != '\U{2192}'
  }

  predicate NothingToSplit(u: Unicode, t: string) {
    forall i :: 0 <= i < |t| ==> !SplitsAt(u, t, i)
  }

  lemma {:induction false} WordsKeep(u: Unicode, t: string)
    requires Lawful(u) && Settled(u, t) && NothingToSplit(u, t)
    ensures forall k :: 0 <= k < |Words(u.white, t)| ==> Settled(u, Words(u.white, t)[k]) && NothingToSplit(u, Words(u.white, t)[k])
    decreases |t|
  {
    if t != "" {
      var n := if u.white(t[0]) then 1 else WordEnd(u.white, t);
      var rest := t[n..];
      forall i | 0 <= i < |rest| ensures !SplitsAt(u, rest, i) {
        assert !SplitsAt(u, t, n + i);
      }
      forall i | 0 <= i < n ensures !SplitsAt(u, t[..n], i) {
        assert !SplitsAt(u, t, i);
      }
      WordsKeep(u, rest);
    }
  }

  lemma {:induction false} JoinedKeeps(u: Unicode, ws: seq<string>)
    requires Lawful(u)
    requires forall k :: 0 <= k < |ws| ==> Settled(u, ws[k]) && NothingToSplit(u, ws[k])
    ensures Settled(u, Joined(ws)) && NothingToSplit(u, Joined(ws))
    decreases |ws|
  {
    if |ws| > 1 {
      JoinedKeeps(u, ws[1..]);
      var w, t, rest := ws[0], Joined(ws), Joined(ws[1..]);
      assert t == w + " " + rest;
      forall i | 0 <= i < |t| ensures !SplitsAt(u, t, i) {
        if i < |w| {
          assert !SplitsAt(u, w, i);
        } else if i > |w| {
          assert !SplitsAt(u, rest, i - |w| - 1);
        }
      }
    }
  }

  lemma {:induction false} PeeledIsSuffix(u: Unicode, t: string)
    ensures Peeled(u, t) == t[|t| - |Peeled(u, t)|..]
    decreases |t|
  {
    match PeelOne(u, t)
    case None =>
    case Some(s) =>
      PeelOneIsSuffix(u, t);
      PeeledIsSuffix(u, s);
      SuffixOfSuffix(t, |t| - |s|, |s| - |Peeled(u, s)|);
  }

  lemma PeelOneIsSuffix(u: Unicode, t: string)
    requires PeelOne(u, t).Some?
    ensures var s := PeelOne(u, t).value; s == t[|t| - |s|..]
  {
  }

  lemma SuffixOfSuffix(t: string, j: nat, k: nat)
    requires j + k <= |t|
    ensures t[j..][k..] == t[j + k..]
  {
  }

  /** The core is a stretch of the lowered text. */
  lemma CoreIsStretch(u: Unicode, text: string) returns (k: nat)
    ensures var t, c := Lowered(u, ArrowsSpelled(text)), Core(u, text);
      k + |c| <= |t| && forall i :: 0 <= i < |c| ==> c[i] == t[k + i]
  {
    var t := Lowered(u, ArrowsSpelled(text));
    var p := Peeled(u, t);
    PeeledIsSuffix(u, t);
    k := |t| - |p|;
    PrefixOfSuffix(t, k, Core(u, text));
  }

  lemma PrefixOfSuffix(t: string, k: nat, c: string)
    requires k <= |t| && c <= t[k..]
    ensures forall i :: 0 <= i < |c| ==> c[i] == t[k + i]
  {
    assert forall i :: 0 <= i < |c| ==> c[i] == t[k..][i];
  }

  lemma CoreIsPeeled(u: Unicode, text: string)
    ensures PeelOne(u, Core(u, text)) == None
  {
    PrefixStaysPeeled(u, Peeled(u, Lowered(u, ArrowsSpelled(text))), Core(u, text));
  }

  lemma NormalFormIsPeeled(u: Unicode, text: string)
    requires Lawful(u)
    ensures PeelOne(u, NormalizeReportHeading(u, text)) == None
  {
    CoreIsPeeled(u, text);
    SplitStaysPeeled(u, Core(u, text));
    JoinedStaysPeeled(u, SplitWordInternalHyphens(u, Core(u, text)));
  }

  lemma SplittingSettles(u: Unicode, t: string)
    requires Lawful(u) && Settled(u, t)
    ensures var h := SplitWordInternalHyphens(u, t); Settled(u, h) && NothingToSplit(u, h)
  {
    var h := SplitWordInternalHyphens(u, t);
    forall i | SplitsAt(u, h, i) ensures SplitsAt(u, t, i) {
    }
  }

  lemma NormalFormIsSettled(u: Unicode, text: string)
    requires Lawful(u)
    ensures var n := NormalizeReportHeading(u, text);
      Settled(u, n) && NothingToSplit(u, n) && Joined(Words(u.white, n)) == n
  {
    var c := Core(u, text);
    var h := SplitWordInternalHyphens(u, c);
    var k := CoreIsStretch(u, text);
    SplittingSettles(u, c);
    WordsKeep(u, h);
    JoinedKeeps(u, Words(u.white, h));
    WordsAreWords(u.white, h);
    WordsOfJoined(u.white, Words(u.white, h));
  }

  lemma {:induction false} JoinedIsNoLonger(u: Unicode, t: string)
    ensures |Joined(Words(u.white, t))| <= |t|
    decreases |t|
  {
    if t != "" {
      var n := if u.white(t[0]) then 1 else WordEnd(u.white, t);
      JoinedIsNoLonger(u, t[n..]);
      if !u.white(t[0]) && n < |t| {
        assert t[n..][0] == t[n] && t[n..][1..] == t[n + 1..];
        JoinedIsNoLonger(u, t[n + 1..]);
      }
    }
  }

  lemma {:induction false} TrimmedAreMarks(marks: set<char>, t: string)
    ensures forall i :: |TrimEndOf(marks, t)| <= i < |t| ==> t[i] in marks
    decreases |t|
  {
    if t != "" && t[|t| - 1] in marks {
      TrimmedAreMarks(marks, t[..|t| - 1]);
    }
  }

  lemma InTrailMarks(c: char)
    ensures c in TrailMarks <==> IsClosing(c)
  {
  }

  /** Trimming at the end takes off the closing marks there, and no more. */
  lemma ClosingTrimmed(t: string)
    ensures var r := TrimEndOf(TrailMarks, t);
      && r <= t && (r != "" ==> !IsClosing(r[|r| - 1])) && (forall i :: |r| <= i < |t| ==> IsClosing(t[i]))
      && (r == t <==> t == "" || !IsClosing(t[|t| - 1]))
  {
    var r := TrimEndOf(TrailMarks, t);
    TrimmedAreMarks(TrailMarks, t);
    forall i | |r| <= i < |t| ensures IsClosing(t[i]) {
      InTrailMarks(t[i]);
    }
    if r != "" {
      InTrailMarks(r[|r| - 1]);
    }
  }

  /** Normalizing again changes nothing exactly when the normal form ends in no closing mark. */
  lemma FixedUnlessMarked(u: Unicode, text: string)
    requires Lawful(u)
    ensures var n := NormalizeReportHeading(u, text);
      NormalizeReportHeading(u, n) == n <==> n == "" || !IsClosing(n[|n| - 1])
  {
    var n := NormalizeReportHeading(u, text);
    NormalFormIsPeeled(u, text);
    NormalFormIsSettled(u, text);
    FixedByLowering(u, n);
    assert Core(u, n) == TrimEndOf(TrailMarks, n);
    ClosingTrimmed(n);
    if n == "" || !IsClosing(n[|n| - 1]) {
      assert SplitWordInternalHyphens(u, n) == n;
    } else {
      assert |TrimEndOf(TrailMarks, n)| < |n|;
      JoinedIsNoLonger(u, SplitWordInternalHyphens(u, Core(u, n)));
    }
  }

  /** The last visible character of a text is the last of its words. */
  lemma {:induction false} LastStays(u: Unicode, t: string, k: nat)
    requires k < |t| && !u.white(t[k]) && forall i :: k < i < |t| ==> u.white(t[i])
    ensures var j := Joined(Words(u.white, t)); j != "" && j[|j| - 1] == t[k]
    decreases |t|
  {
    var n := if u.white(t[0]) then 1 else WordEnd(u.white, t);
    if n <= k {
      LastStays(u, t[n..], k - n);
      var ws := Words(u.white, t);
      if !u.white(t[0]) {
        assert ws[1..] == Words(u.white, t[n..]) && Joined(ws[1..]) != "";
        assert Joined(ws) == ws[0] + " " + Joined(ws[1..]);
      }
    } else {
      assert k + 1 < |t| ==> u.white(t[k + 1]);
      assert n == k + 1;
      NoWordsInBlanks(u.white, t[n..]);
      assert Words(u.white, t) == [t[..n]];
    }
  }

  /** The last visible character of `c` stands at `l`; at -1 if there is none. */
  predicate EndsVisiblyAt(u: Unicode, c: string, l: int) {
    && -1 <= l < |c| && (l >= 0 ==> !u.white(c[l])) && forall i :: l < i < |c| ==> u.white(c[i])
  }

  /** There is such a place. */
  lemma {:induction false} LastVisible(u: Unicode, t: string) returns (k: int)
    ensures EndsVisiblyAt(u, t, k)
    decreases |t|
  {
    if t == "" || !u.white(t[|t| - 1]) {
      k := |t| - 1;
    } else {
      k := LastVisible(u, t[..|t| - 1]);
    }
  }

  /** Splitting words leaves the last visible character where it was. */
  lemma SplitKeepsLast(u: Unicode, t: string, k: int)
    requires Lawful(u) && EndsVisiblyAt(u, t, k)
    ensures var h := SplitWordInternalHyphens(u, t);
      (k >= 0 ==> h[k] == t[k]) && forall i :: k < i < |t| ==> u.white(h[i])
  {
  }

  /** `n` ends in what stands at `k` in `c`; both say nothing if `k` is -1. */
  predicate EndsAs(n: string, c: string, k: int)
    requires -1 <= k < |c|
  {
    if k == -1 then n == "" else n != "" && n[|n| - 1] == c[k]
  }

  /** Splitting into words and joining them keeps the last visible character. */
  lemma WordsEndAs(u: Unicode, c: string) returns (k: int)
    requires Lawful(u)
    ensures EndsVisiblyAt(u, c, k) && EndsAs(Joined(Words(u.white, SplitWordInternalHyphens(u, c))), c, k)
  {
    k := LastVisible(u, c);
    SplitKeepsLast(u, c, k);
    if k >= 0 {
      LastStays(u, SplitWordInternalHyphens(u, c), k);
    } else {
      NoWordsInBlanks(u.white, SplitWordInternalHyphens(u, c));
    }
  }

  /** A closing mark that trimming at the end does not reach: behind it stand
    * only blanks and closing marks, and one of the blanks is neither space nor
    * tab. The first `k` characters do not count.
    */
  predicate HiddenMark(u: Unicode, t: string, k: nat, i: nat) {
    && k <= i < |t| && IsClosing(t[i]) && !u.white(t[i])
    && (forall j :: i < j < |t| ==> u.white(t[j]) || IsClosing(t[j]))
    && exists j :: i < j < |t| && !IsClosing(t[j])
  }

  ghost predicate HidesAMarkFrom(u: Unicode, t: string, k: nat) {
    exists i :: HiddenMark(u, t, k, i)
  }

  /** How much is peeled off in front. */
  function Front(u: Unicode, t: string): nat {
    |t| - |Peeled(u, t)|
  }

  ghost predicate HidesIn(u: Unicode, t: string) {
    HidesAMarkFrom(u, t, Front(u, t))
  }

  /** The text, in lower case, hides a closing mark that is not peeled off in front. */
  ghost predicate HidesAMark(u: Unicode, text: string) {
    HidesIn(u, Lowered(u, ArrowsSpelled(text)))
  }

  /** `c` is what is left of `t` without its first `k` characters and the closing marks at its end. */
  ghost predicate CoreOf(t: string, k: nat, c: string) {
    && k + |c| <= |t| && (forall i :: 0 <= i < |c| ==> c[i] == t[k + i])
    && (forall i :: k + |c| <= i < |t| ==> IsClosing(t[i]))
    && (c != "" ==> !IsClosing(c[|c| - 1]))
  }

  /** The core ends visibly in a closing mark exactly when the text hides one. */
  lemma CoreEndsMarked(u: Unicode, t: string, k: nat, c: string, l: int)
    requires CoreOf(t, k, c) && EndsVisiblyAt(u, c, l)
    ensures HidesAMarkFrom(u, t, k) <==> l >= 0 && IsClosing(c[l])
  {
    if i: nat :| HiddenMark(u, t, k, i) {
      assert i < k + |c|;
      assert c[i - k] == t[i] && l >= i - k;
      assert c[l] == t[k + l];
    }
    if l >= 0 && IsClosing(c[l]) {
      assert t[k + l] == c[l];
      forall j | k + l < j < |t| ensures u.white(t[j]) || IsClosing(t[j]) {
        assert j < k + |c| ==> t[j] == c[j - k];
      }
      assert c[|c| - 1] == t[k + |c| - 1];
      assert HiddenMark(u, t, k, k + l);
    }
  }

  lemma TrimmedSuffix(t: string, p: string, c: string)
    requires |p| <= |t| && p == t[|t| - |p|..] && c <= p
    requires forall i :: |c| <= i < |p| ==> IsClosing(p[i])
    requires c != "" ==> !IsClosing(c[|c| - 1])
    ensures CoreOf(t, |t| - |p|, c)
  {
    assert forall i :: 0 <= i < |p| ==> t[|t| - |p| + i] == p[i];
    forall i | |t| - |p| + |c| <= i < |t| ensures IsClosing(t[i]) {
      assert t[i] == p[i - (|t| - |p|)];
    }
  }

  lemma CoreIsCoreOf(u: Unicode, t: string, p: string, c: string)
    requires p == Peeled(u, t) && c == TrimEndOf(TrailMarks, p)
    ensures CoreOf(t, |t| - |p|, c)
  {
    PeeledIsSuffix(u, t);
    ClosingTrimmed(p);
    TrimmedSuffix(t, p, c);
  }

  lemma EndsMarkedWhenHidden(u: Unicode, t: string, k: nat, c: string, l: int, n: string)
    requires CoreOf(t, k, c) && EndsVisiblyAt(u, c, l) && EndsAs(n, c, l)
    ensures HidesAMarkFrom(u, t, k) <==> n != "" && IsClosing(n[|n| - 1])
  {
    CoreEndsMarked(u, t, k, c, l);
  }

  /** What is made of a lowered text. */
  function Finished(u: Unicode, t: string): string {
    Joined(Words(u.white, SplitWordInternalHyphens(u, TrimEndOf(TrailMarks, Peeled(u, t)))))
  }

  lemma MarkedWhenHiddenIn(u: Unicode, t: string)
    requires Lawful(u)
    ensures var n := Finished(u, t); HidesIn(u, t) <==> n != "" && IsClosing(n[|n| - 1])
  {
    var p := Peeled(u, t);
    var c := TrimEndOf(TrailMarks, p);
    CoreIsCoreOf(u, t, p, c);
    var l := WordsEndAs(u, c);
    EndsMarkedWhenHidden(u, t, Front(u, t), c, l, Finished(u, t));
  }

  /** A normalized text ends in a closing mark exactly when the text hides one. */
  lemma MarkedWhenHidden(u: Unicode, text: string)
    requires Lawful(u)
    ensures var n := NormalizeReportHeading(u, text); HidesAMark(u, text) <==> n != "" && IsClosing(n[|n| - 1])
  {
    MarkedWhenHiddenIn(u, Lowered(u, ArrowsSpelled(text)));
  }

  /** Normalizing again changes nothing exactly when the text hides no closing mark. */
  lemma NormalizingTwice(u: Unicode, text: string)
    requires Lawful(u)
    ensures NormalizeReportHeading(u, NormalizeReportHeading(u, text)) == NormalizeReportHeading(u, text)
       <==> !HidesAMark(u, text)
  {
    FixedUnlessMarked(u, text);
    MarkedWhenHidden(u, text);
  }

  // ---- When every blank is a space or a tab

  predicate SpacesAndTabs(u: Unicode, t: string) {
    forall i :: 0 <= i < |t| ==> (u.white(t[i]) ==> t[i] == ' ' || t[i] == '\t')
  }

  lemma {:induction false} SpellingKeepsBlanks(u: Unicode, t: string)
    requires Lawful(u) && SpacesAndTabs(u, t)
    ensures SpacesAndTabs(u, Lowered(u, ArrowsSpelled(t)))
    decreases |t|
  {
    if t != "" {
      SpellingKeepsBlanks(u, t[1..]);
      LoweredJoins(u, [t[0]], t[1..]);
      assert t == [t[0]] + t[1..];
      assert Plain(u, '-') && Plain(u, '>');
      assert ArrowsSpelled([t[0]]) == (if t[0] == '\U{2192}' then "->" else [t[0]]) + ArrowsSpelled([t[0]][1..]);
    }
  }

  lemma NothingHidden(u: Unicode, t: string)
    requires SpacesAndTabs(u, t)
    ensures !HidesIn(u, t)
  {
    assert forall j :: 0 <= j < |t| && u.white(t[j]) ==> IsClosing(t[j]);
  }

  lemma NormalizingIsIdempotent(u: Unicode, text: string)
    requires Lawful(u) && SpacesAndTabs(u, text)
    ensures NormalizeReportHeading(u, NormalizeReportHeading(u, text)) == NormalizeReportHeading(u, text)
  {
    SpellingKeepsBlanks(u, text);
    NormalizingTwice(u, text);
    NothingHidden(u, Lowered(u, ArrowsSpelled(text)));
  }

  /** A table without capitals, to read an example with. */
  const Small := Unicode(
    c => c,
    c => 'a' <= c <= 'z' || '0' <= c <= '9',
    c => c == ' ' || c == '\t' || c == '\n' || c == '\r')

  const Starred := ['a', '*', '\n']

  lemma CoreOfPlainText(u: Unicode, t: string)
    requires Settled(u, t) && PeelOne(u, t) == None && t != "" && !IsClosing(t[|t| - 1])
    ensures Core(u, t) == t
  {
    FixedByLowering(u, t);
    ClosingTrimmed(t);
  }

  lemma NormalOfPlainText(u: Unicode, t: string, word: string)
    requires Settled(u, t) && PeelOne(u, t) == None && t != "" && !IsClosing(t[|t| - 1])
    requires SplitWordInternalHyphens(u, t) == t && Words(u.white, t) == [word]
    ensures NormalizeReportHeading(u, t) == word
  {
    CoreOfPlainText(u, t);
  }

  /** `a` is a small letter. */
  predicate ReadsA(u: Unicode) {
    u.alnum('a') && !u.white('a') && u.lower('a') == 'a'
  }

  lemma StarredIsPeeled(u: Unicode, t: string)
    requires Lawful(u) && ReadsA(u) && t == Starred
    ensures PeelOne(u, t) == None && !IsClosing(t[|t| - 1]) && Settled(u, t)
    ensures SplitWordInternalHyphens(u, t) == t
  {
    NothingToPeel(u, t);
    assert Plain(u, '*') && u.white('\n');
  }

  lemma StarredWords(u: Unicode, t: string)
    requires Lawful(u) && ReadsA(u) && t == Starred
    ensures Words(u.white, t) == [['a', '*']]
  {
    assert Plain(u, '*');
    var w := ['a', '*'];
    assert t == w + ['\n'] && IsWord(u.white, w);
    OneWord(u.white, w, ['\n']);
    NoWordsInBlanks(u.white, ['\n']);
  }

  lemma SmallMarksArePlain(u: Unicode, c: char)
    requires u == Small && (IsSign(c) || IsBullet(c) || IsStop(c) || EndsAName(c))
    ensures Plain(u, c)
  {
  }

  lemma SmallIsLawful(u: Unicode)
    requires u == Small
    ensures Lawful(u)
  {
    forall c: char | IsSign(c) || IsBullet(c) || IsStop(c) || EndsAName(c) ensures Plain(u, c) {
      SmallMarksArePlain(u, c);
    }
  }

  lemma StarredNormal(u: Unicode, t: string)
    requires Lawful(u) && ReadsA(u) && t == Starred
    ensures NormalizeReportHeading(u, t) == ['a', '*']
  {
    StarredIsPeeled(u, t);
    StarredWords(u, t);
    NormalOfPlainText(u, t, ['a', '*']);
  }

  /** Where a closing mark is followed by a blank of another kind it is not
    * trimmed the first time: normalizing `a*` and a newline twice differs.
    */
  lemma IdempotenceNeedsPlainBlanks() returns (u: Unicode, text: string)
    ensures Lawful(u) && text == ['a', '*', '\n']
    ensures var n := NormalizeReportHeading(u, text); NormalizeReportHeading(u, n) != n
  {
    u, text := Small, Starred;
    SmallIsLawful(u);
    StarredNormal(u, text);
    FixedUnlessMarked(u, text);
  }

  // ---- Recognising a heading -------------------------------------------------------

  function Trim(u: Unicode, t: string): string {
    TrimEnd(u.white, TrimStart(u, t))
  }

  /** What a line has left after a section's name still reads as a heading. */
  predicate HeadsASection(u: Unicode, rest: string) {
    if rest != "" && u.alnum(rest[0]) then false
    else
      var r := Trim(u, rest);
      r == "" || r[0] in HeadingStops
  }

  lemma InHeadingStops(c: char)
    ensures c in HeadingStops <==> EndsAName(c)
  {
  }

  predicate Names(u: Unicode, line: string, name: string) {
    name <= line && HeadsASection(u, line[|name|..])
  }

  function Hits(u: Unicode, line: string, names: seq<string>): (hits: seq<bool>)
    ensures |hits| == |names| && forall j :: 0 <= j < |names| ==> hits[j] == Names(u, line, names[j])
  {
    seq(|names|, j requires 0 <= j < |names| => Names(u, line, names[j]))
  }

  /** The longest of the first `k` names that hit; the last of a tie. */
  function LongestHit(names: seq<string>, hits: seq<bool>, k: nat): (best: Option<nat>)
    requires k <= |names| == |hits|
    ensures IsBest(names, hits, k, best)
  {
    if k == 0 then None
    else
      var before := LongestHit(names, hits, k - 1);
      if hits[k - 1] && (before.None? || |names[before.value]| <= |names[k - 1]|) then Some(k - 1) else before
  }

  ghost predicate IsBest(names: seq<string>, hits: seq<bool>, k: nat, best: Option<nat>)
    requires k <= |names| == |hits|
  {
    match best
    case None => forall j :: 0 <= j < k ==> !hits[j]
    case Some(i) =>
      && i < k && hits[i]
      && forall j :: 0 <= j < k && hits[j] ==>
           |names[j]| < |names[i]| || (|names[j]| == |names[i]| && j <= i)
  }

  /** The section a line heads, and what the line says after the name. */
  function HeadingFor(u: Unicode, line: string, names: seq<string>): Option<(nat, string)> {
    var n := NormalizeReportHeading(u, line);
    match LongestHit(names, Hits(u, n, names), |names|)
    case None => None
    case Some(i) => Some((i, TrimStartOf(RestTrim, n[|names[i]|..])))
  }

  function NormalizedNames(u: Unicode, required: seq<string>): (names: seq<string>)
    ensures |names| == |required|
    ensures forall i :: 0 <= i < |names| ==> names[i] == NormalizeReportHeading(u, required[i])
  {
    seq(|required|, i requires 0 <= i < |required| => NormalizeReportHeading(u, required[i]))
  }

  /** A required name written out with any decoration in front and closing marks
    * behind is recognised as that section, with nothing after it. */
  lemma DecoratedNameIsRecognised(u: Unicode, required: seq<string>, i: nat, ms: seq<Mark>, tail: string)
    requires Lawful(u) && i < |required|
    requires forall j :: 0 <= j < |required| && j != i ==>
               NormalizeReportHeading(u, required[j]) != NormalizeReportHeading(u, required[i])
    requires forall k :: 0 <= k < |ms| ==> IsMark(u, ms[k])
    requires forall k :: 0 <= k < |tail| ==> IsClosing(tail[k])
    requires tail == "" || !BareMarker(u, PeeledText(u, required[i]))
    ensures HeadingFor(u, SpelledAll(ms) + (required[i] + tail), NormalizedNames(u, required)) == Some((i, ""))
  {
    DecoratedIsTheSame(u, required[i], ms, tail);
    var names := NormalizedNames(u, required);
    var n := names[i];
    WholeLineWins(u, n, names, i);
    assert n[|n|..] == "";
  }

  /** Decoration on both sides of a heading is invisible. */
  lemma DecoratedIsTheSame(u: Unicode, text: string, ms: seq<Mark>, tail: string)
    requires Lawful(u)
    requires forall k :: 0 <= k < |ms| ==> IsMark(u, ms[k])
    requires forall k :: 0 <= k < |tail| ==> IsClosing(tail[k])
    requires tail == "" || !BareMarker(u, PeeledText(u, text))
    ensures NormalizeReportHeading(u, SpelledAll(ms) + (text + tail)) == NormalizeReportHeading(u, text)
  {
    DecorationIsInvisible(u, ms, text + tail);
    if tail == "" {
      assert text + tail == text;
    } else {
      ClosingIsInvisible(u, text, tail);
    }
  }

  lemma WholeLineWins(u: Unicode, line: string, names: seq<string>, i: nat)
    requires i < |names| && names[i] == line && forall j :: 0 <= j < |names| && j != i ==> names[j] != line
    ensures LongestHit(names, Hits(u, line, names), |names|) == Some(i)
  {
    var hits := Hits(u, line, names);
    var best := LongestHit(names, hits, |names|);
    assert line[|line|..] == "" && hits[i];
    forall j | 0 <= j < |names| && hits[j] && |names[j]| == |line| ensures j == i {
      assert names[j] == line;
    }
  }

  lemma {:induction false} BlankPeelsAway(u: Unicode, t: string)
    requires Lawful(u) && forall i :: 0 <= i < |t| ==> u.white(t[i])
    ensures Peeled(u, t) == ""
    decreases |t|
  {
    if t != "" {
      BlankPeelsAway(u, t[1..]);
    }
  }

  predicate Blank(u: Unicode, line: string) {
    Trim(u, line) == ""
  }

  lemma {:induction false} BlankIsAllWhite(u: Unicode, t: string)
    ensures Blank(u, t) <==> forall i :: 0 <= i < |t| ==> u.white(t[i])
    decreases |t|
  {
    if t != "" {
      if u.white(t[0]) {
        BlankIsAllWhite(u, t[1..]);
        assert t == [t[0]] + t[1..];
      } else {
        TrimEndKeepsVisible(u, t);
      }
    }
  }

  lemma {:induction false} TrimEndKeepsVisible(u: Unicode, t: string)
    requires t != "" && !u.white(t[0])
    ensures TrimEnd(u.white, t) != ""
    decreases |t|
  {
    if u.white(t[|t| - 1]) {
      TrimEndKeepsVisible(u, t[..|t| - 1]);
    }
  }

  lemma BlankIsNothing(u: Unicode, line: string)
    requires Lawful(u) && Blank(u, line)
    ensures NormalizeReportHeading(u, line) == ""
  {
    BlankIsAllWhite(u, line);
    FixedByLowering(u, line);
    BlankPeelsAway(u, line);
    assert SplitWordInternalHyphens(u, Core(u, line)) == "";
  }

  lemma NothingHits(u: Unicode, names: seq<string>)
    requires forall j :: 0 <= j < |names| ==> names[j] != ""
    ensures LongestHit(names, Hits(u, "", names), |names|) == None
  {
    var hits := Hits(u, "", names);
    forall j | 0 <= j < |names| ensures !hits[j] {
      assert !(names[j] <= "");
    }
  }

  /** A heading line is never blank, as long as every name is something. */
  lemma BlankHeadsNothing(u: Unicode, line: string, names: seq<string>)
    requires Lawful(u) && Blank(u, line) && forall j :: 0 <= j < |names| ==> names[j] != ""
    ensures HeadingFor(u, line, names) == None
  {
    BlankIsNothing(u, line);
    NothingHits(u, names);
  }
}
