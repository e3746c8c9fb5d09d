/** White space in text: trimming it, and the words it parts. What counts as white
  * is a parameter, `white`; `IsBlank` is Unicode's.
  */
module Text {
  type Blanks = char -> bool

  function TrimEnd(white: Blanks, t: string): (r: string)
    ensures r <= t
    ensures r == "" || !white(r[|r| - 1])
  {
    if t == "" || !white(t[|t| - 1]) then t else TrimEnd(white, t[..|t| - 1])
  }

  // ---- Words -------------------------------------------------------------------------

  predicate IsWord(white: Blanks, w: string) {
    w != "" && forall i :: 0 <= i < |w| ==> !white(w[i])
  }

  predicate AreWords(white: Blanks, ws: seq<string>) {
    forall i :: 0 <= i < |ws| ==> IsWord(white, ws[i])
  }

  function WordEnd(white: Blanks, t: string): (n: nat)
    ensures n <= |t| && (forall i :: 0 <= i < n ==> !white(t[i])) && (n < |t| ==> white(t[n]))
  {
    if t == "" || white(t[0]) then 0 else 1 + WordEnd(white, t[1..])
  }

  /** The words of `t`, in order. */
  function Words(white: Blanks, t: string): (ws: seq<string>)
    decreases |t|
  {
    if t == "" then []
    else if white(t[0]) then Words(white, t[1..])
    else
      var n := WordEnd(white, t);
      [t[..n]] + Words(white, t[n..])
  }

  lemma {:induction false} WordsAreWords(white: Blanks, t: string)
    ensures AreWords(white, Words(white, t))
    decreases |t|
  {
    if t != "" && white(t[0]) {
      WordsAreWords(white, t[1..]);
    } else if t != "" {
      var n := WordEnd(white, t);
      WordsAreWords(white, t[n..]);
      assert IsWord(white, t[..n]);
    }
  }

  /** Words, one space apart. */
  function Joined(ws: seq<string>): string {
    if ws == [] then "" else if |ws| == 1 then ws[0] else ws[0] + " " + Joined(ws[1..])
  }

  lemma {:induction false} WordsOfJoined(white: Blanks, ws: seq<string>)
    requires white(' ') && AreWords(white, ws)
    ensures Words(white, Joined(ws)) == ws
    decreases |ws|
  {
    if ws != [] {
      var w, others := ws[0], ws[1..];
      assert IsWord(white, w) && AreWords(white, others);
      var rest := if others == [] then "" else " " + Joined(others);
      assert Joined(ws) == w + rest;
      OneWord(white, w, rest);
      if others != [] {
        WordsOfJoined(white, others);
        BlankBefore(white, Joined(others));
      }
      assert ws == [w] + others;
    }
  }

  lemma BlankBefore(white: Blanks, t: string)
    requires white(' ')
    ensures Words(white, " " + t) == Words(white, t)
  {
    assert (" " + t)[1..] == t;
  }

  lemma OneWord(white: Blanks, w: string, rest: string)
    requires IsWord(white, w) && (rest == "" || white(rest[0]))
    ensures Words(white, w + rest) == [w] + Words(white, rest)
  {
    var t := w + rest;
    assert t[..|w|] == w && t[|w|..] == rest;
    assert forall i :: 0 <= i < |w| ==> t[i] == w[i];
    assert rest != "" ==> t[|w|] == rest[0];
    assert WordEnd(white, t) == |w|;
  }

  /** The words of `t`, one space apart. */
  function Spaced(white: Blanks, t: string): string { Joined(Words(white, t)) }

  /** What `b` adds behind a word. */
  function Behind(white: Blanks, b: string): string {
    if Words(white, b) == [] then "" else if white(b[0]) then " " + Spaced(white, b) else Spaced(white, b)
  }

  lemma {:induction false} NoWordsInBlanks(white: Blanks, t: string)
    ensures Words(white, t) == [] <==> forall i :: 0 <= i < |t| ==> white(t[i])
    decreases |t|
  {
    if t != "" && white(t[0]) {
      NoWordsInBlanks(white, t[1..]);
      assert forall i :: 0 < i < |t| ==> t[i] == t[1..][i - 1];
    }
  }

  lemma EndsInAWord(white: Blanks, a: string, b: string)
    requires a != "" && !white(a[|a| - 1])
    ensures Words(white, a) != [] && Words(white, a + b) != []
  {
    assert (a + b)[|a| - 1] == a[|a| - 1];
    NoWordsInBlanks(white, a);
    NoWordsInBlanks(white, a + b);
  }

  lemma Separated(white: Blanks, w: string, rest: string, b: string)
    requires rest != "" && white(rest[0]) && Words(white, rest) != [] && Words(white, rest + b) != []
    requires Spaced(white, rest + b) == Spaced(white, rest) + Behind(white, b)
    ensures w + Behind(white, rest + b) == w + Behind(white, rest) + Behind(white, b)
  {
    assert (rest + b)[0] == rest[0];
  }

  lemma JoinedFirst(w: string, ws: seq<string>)
    ensures Joined([w] + ws) == if ws == [] then w else w + (" " + Joined(ws))
  {
    assert ([w] + ws)[1..] == ws;
  }

  lemma WordThenBlank(white: Blanks, w: string, b: string)
    requires IsWord(white, w) && (b == "" || white(b[0]))
    ensures Spaced(white, w + b) == w + Behind(white, b)
  {
    OneWord(white, w, b);
    JoinedFirst(w, Words(white, b));
  }

  /** The first word, and what is behind it. */
  lemma SpacedStep(white: Blanks, t: string)
    requires t != ""
    ensures white(t[0]) ==> Spaced(white, t) == Spaced(white, t[1..])
    ensures !white(t[0]) ==> var n := WordEnd(white, t); Spaced(white, t) == t[..n] + Behind(white, t[n..])
  {
    if !white(t[0]) {
      var n := WordEnd(white, t);
      assert t == t[..n] + t[n..];
      WordThenBlank(white, t[..n], t[n..]);
    }
  }

  /** A word that goes on. */
  lemma WordThenWord(white: Blanks, w: string, x: string, b: string)
    requires IsWord(white, w) && IsWord(white, x) && (b == "" || white(b[0]))
    ensures Spaced(white, w + (x + b)) == w + Spaced(white, x + b) && Words(white, x + b) != []
  {
    Regroup(w, x, b);
    LongerWord(white, w, x);
    WordThenBlank(white, w + x, b);
    WordThenBlank(white, x, b);
    OneWord(white, x, b);
    Regroup(w, x, Behind(white, b));
  }

  lemma Regroup(a: string, b: string, c: string)
    ensures a + (b + c) == a + b + c
  {
  }

  lemma LongerWord(white: Blanks, w: string, x: string)
    requires IsWord(white, w) && IsWord(white, x)
    ensures IsWord(white, w + x)
  {
  }

  lemma OneWordAfter(white: Blanks, w: string, b: string)
    requires IsWord(white, w)
    ensures Spaced(white, w + b) == w + Behind(white, b)
  {
    if b == "" || white(b[0]) {
      WordThenBlank(white, w, b);
    } else {
      var m := WordEnd(white, b);
      var x, rest := b[..m], b[m..];
      assert b == x + rest;
      WordThenWord(white, w, x, rest);
    }
  }

  /** More words in front. */
  lemma WordsBefore(white: Blanks, w: string, a: string, b: string)
    requires IsWord(white, w) && a != "" && white(a[0]) && !white(a[|a| - 1])
    requires Spaced(white, a + b) == Spaced(white, a) + Behind(white, b)
    ensures Spaced(white, w + (a + b)) == Spaced(white, w + a) + Behind(white, b)
  {
    OneWordAfter(white, w, a);
    OneWordAfter(white, w, a + b);
    EndsInAWord(white, a, b);
    Separated(white, w, a, b);
  }

  /** A text that ends in a word, and what is behind it. */
  lemma {:induction false} SpacedJoin(white: Blanks, a: string, b: string)
    requires a != "" && !white(a[|a| - 1])
    ensures Spaced(white, a + b) == Spaced(white, a) + Behind(white, b)
    decreases |a|
  {
    var n := if white(a[0]) then 1 else WordEnd(white, a);
    var w, rest := a[..n], a[n..];
    assert a == w + rest && a + b == w + (rest + b);
    if n == |a| {
      OneWordAfter(white, a, b);
      OneWordAfter(white, a, "");
      assert a + "" == a;
    } else {
      assert rest[|rest| - 1] == a[|a| - 1];
      SpacedJoin(white, rest, b);
      if white(a[0]) {
        BlankFirst(white, a, rest);
        BlankFirst(white, a + b, rest + b);
      } else {
        assert rest[0] == a[n];
        WordsBefore(white, w, rest, b);
      }
    }
  }

  lemma BlankFirst(white: Blanks, t: string, rest: string)
    requires t != "" && white(t[0]) && rest == t[1..]
    ensures Spaced(white, t) == Spaced(white, rest)
  {
  }

  /** Every visible character is in some word. */
  lemma {:induction false} VisibleIsKept(white: Blanks, t: string, k: nat)
    requires k < |t| && !white(t[k])
    ensures t[k] in Spaced(white, t)
    decreases |t|
  {
    var n := if white(t[0]) then 1 else WordEnd(white, t);
    SpacedStep(white, t);
    if k < n {
      assert t[k] == t[..n][k] && t[..n][k] in t[..n];
    } else {
      VisibleIsKept(white, t[n..], k - n);
      NoWordsInBlanks(white, t[n..]);
      assert t[k] == t[n..][k - n];
    }
  }

  lemma {:induction false} SpacedStarts(white: Blanks, t: string, k: nat)
    requires k < |t| && !white(t[k]) && forall i :: 0 <= i < k ==> white(t[i])
    ensures Spaced(white, t) != "" && Spaced(white, t)[0] == t[k]
    decreases |t|
  {
    SpacedStep(white, t);
    if k > 0 {
      SpacedStarts(white, t[1..], k - 1);
    }
  }

  // ---- Unicode's blanks ------------------------------------------------------------------

  /** Unicode's `White_Space`. */
  predicate IsBlank(c: char) {
    var u := c as int;
    || 0x9 <= u <= 0xD || u == 0x20 || u == 0x85 || u == 0xA0 || u == 0x1680 || 0x2000 <= u <= 0x200A
    || u == 0x2028 || u == 0x2029 || u == 0x202F || u == 0x205F || u == 0x3000
  }

  predicate AllBlank(s: string) {
    forall k :: 0 <= k < |s| ==> IsBlank(s[k])
  }

  /** Does not end in a blank. */
  predicate Tidy(s: string) {
    s != "" ==> !IsBlank(s[|s| - 1])
  }

  function TrimBlanks(s: string): string {
    TrimEnd(IsBlank, s)
  }

  /** What is left ends in no blank; what is gone is nothing else. */
  lemma {:induction false} TrimmedIsTidy(s: string)
    ensures TrimBlanks(s) <= s && Tidy(TrimBlanks(s)) && AllBlank(s[|TrimBlanks(s)|..])
  {
    if s != "" && IsBlank(s[|s| - 1]) {
      var t := s[..|s| - 1];
      TrimmedIsTidy(t);
      var n := |TrimBlanks(t)|;
      assert s[n..] == t[n..] + [s[|s| - 1]];
    }
  }

  lemma {:induction false} TrimDropsBlanks(s: string, t: string)
    requires AllBlank(t)
    ensures TrimBlanks(s + t) == TrimBlanks(s)
    decreases |t|
  {
    if t == "" {
      assert s + t == s;
    } else {
      var u := t[..|t| - 1];
      assert (s + t)[..|s + t| - 1] == s + u;
      TrimDropsBlanks(s, u);
    }
  }

  lemma {:induction false} JoinedIsTidy(ws: seq<string>)
    requires AreWords(IsBlank, ws)
    ensures Tidy(Joined(ws)) && (ws != [] ==> Joined(ws) != "")
  {
    if ws != [] {
      assert IsWord(IsBlank, ws[0]);
    }
    if |ws| > 1 {
      JoinedIsTidy(ws[1..]);
      var rest := Joined(ws[1..]);
      var s := Joined(ws);
      assert s[|s| - 1] == rest[|rest| - 1];
    }
  }

  /** The text on one line: any run of blanks is one space, and none is at its ends. */
  function SingleLine(s: string): (r: string)
    ensures Tidy(r)
  {
    WordsAreWords(IsBlank, s);
    JoinedIsTidy(Words(IsBlank, s));
    Joined(Words(IsBlank, s))
  }

  /** It says the same words, and a text of words one space apart stays as it is. */
  lemma SingleLineKeepsWords(s: string, ws: seq<string>)
    requires AreWords(IsBlank, ws)
    ensures Words(IsBlank, SingleLine(s)) == Words(IsBlank, s) && SingleLine(Joined(ws)) == Joined(ws)
  {
    WordsAreWords(IsBlank, s);
    WordsOfJoined(IsBlank, Words(IsBlank, s));
    WordsOfJoined(IsBlank, ws);
  }

  /** One line of text stays as it is. */
  lemma SingleLineIsFinal(s: string)
    ensures SingleLine(SingleLine(s)) == SingleLine(s)
  {
    WordsAreWords(IsBlank, s);
    WordsOfJoined(IsBlank, Words(IsBlank, s));
  }
}
