/**
 String handling that the services rely on: trimming, collapsing of white space
 and case folding. Case folding is the ASCII part of lower-casing.
 */
module Text {
  /** The white space of ECMAScript, shared by trim() and the \s class. */
  predicate IsSpace(c: char) {
    var n := c as int;
    9 <= n <= 13 || n == 32 || n == 0xA0 || n == 0x1680 || 0x2000 <= n <= 0x200A
    || n == 0x2028 || n == 0x2029 || n == 0x202F || n == 0x205F || n == 0x3000 || n == 0xFEFF
  }

  function DropSpaces(s: string): (r: string)
    ensures |r| <= |s|
    ensures r == "" || !IsSpace(r[0])
    ensures s != "" && IsSpace(s[0]) ==> |r| < |s|
  {
    if s != "" && IsSpace(s[0]) then DropSpaces(s[1..]) else s
  }

  function TrimEnd(s: string): string {
    if s != "" && IsSpace(s[|s| - 1]) then TrimEnd(s[..|s| - 1]) else s
  }

  function Trim(s: string): string {
    TrimEnd(DropSpaces(s))
  }

  /** replace(/\s+/g, ' ') */
  function Collapse(s: string): string
    decreases |s|
  {
    if s == "" then ""
    else if IsSpace(s[0]) then " " + Collapse(DropSpaces(s))
    else [s[0]] + Collapse(s[1..])
  }

  /** The text a question is stored under. */
  function Normalise(s: string): string {
    Collapse(Trim(s))
  }

  function LowerChar(c: char): char {
    if 'A' <= c <= 'Z' then c - 'A' + 'a' else c
  }

  function Lower(s: string): string {
    seq(|s|, i requires 0 <= i < |s| => LowerChar(s[i]))
  }

  /** The longest prefix without white space. */
  function FirstWord(s: string): (w: string)
    ensures |w| <= |s| && w == s[..|w|]
    ensures s != "" && !IsSpace(s[0]) ==> w != ""
  {
    if s == "" || IsSpace(s[0]) then "" else [s[0]] + FirstWord(s[1..])
  }

  /** What a reader sees: the words, whatever separates them. */
  function Words(s: string): seq<string>
    decreases |s|
  {
    if s == "" then []
    else if IsSpace(s[0]) then Words(s[1..])
    else [FirstWord(s)] + Words(s[|FirstWord(s)|..])
  }

  /** The words again, joined by single blanks. */
  function Join(ws: seq<string>): string {
    if |ws| == 0 then "" else if |ws| == 1 then ws[0] else ws[0] + " " + Join(ws[1..])
  }

  lemma {:induction false} WordsOfSpaces(s: string)
    ensures Words(DropSpaces(s)) == Words(s)
    decreases |s|
  {
    if s != "" && IsSpace(s[0]) {
      WordsOfSpaces(s[1..]);
    }
  }

  /** A trailing blank changes neither the first word nor the words. */
  lemma {:induction false} WordsOfTail(s: string, c: char)
    requires IsSpace(c)
    ensures FirstWord(s + [c]) == FirstWord(s)
    ensures Words(s + [c]) == Words(s)
    decreases |s|
  {
    var t := s + [c];
    if s == "" {
      assert t[1..] == "";
    } else {
      assert t[0] == s[0] && t[1..] == s[1..] + [c];
      WordsOfTail(s[1..], c);
      if !IsSpace(s[0]) {
        var n := |FirstWord(s)|;
        assert t[n..] == s[n..] + [c];
        WordsOfTail(s[n..], c);
      }
    }
  }

  lemma {:induction false} WordsOfTrimEnd(s: string)
    ensures Words(TrimEnd(s)) == Words(s)
    ensures TrimEnd(s) == "" || !IsSpace(TrimEnd(s)[|TrimEnd(s)| - 1])
    ensures TrimEnd(s) <= s
    decreases |s|
  {
    if s != "" && IsSpace(s[|s| - 1]) {
      var init := s[..|s| - 1];
      assert s == init + [s[|s| - 1]];
      WordsOfTail(init, s[|s| - 1]);
      WordsOfTrimEnd(init);
    }
  }

  /** On text without blanks at its ends, collapsing is joining the words. */
  lemma {:induction false} CollapseJoins(s: string)
    requires s == "" || (!IsSpace(s[0]) && !IsSpace(s[|s| - 1]))
    ensures Collapse(s) == Join(Words(s))
    decreases |s|
  {
    if s != "" {
      var n := |FirstWord(s)|;
      CollapseWord(s);
      if n < |s| {
        FirstWordEnds(s);
        var rest := s[n..];
        var next := DropSpaces(rest);
        DropKeepsEnd(rest);
        WordsOfSpaces(rest);
        CollapseJoins(next);
        assert Words(s) == [FirstWord(s)] + Words(next);
        assert Words(s)[1..] == Words(next);
        assert Words(next) != [];
      }
    }
  }

  lemma {:induction false} CollapseWord(s: string)
    ensures Collapse(s) == FirstWord(s) + Collapse(s[|FirstWord(s)|..])
    decreases |s|
  {
    if s == "" || IsSpace(s[0]) {
      assert s[0..] == s;
    } else {
      var w, rest := FirstWord(s[1..]), s[|FirstWord(s)|..];
      CollapseWord(s[1..]);
      assert s[1..][|w|..] == rest;
      assert [s[0]] + (w + Collapse(rest)) == ([s[0]] + w) + Collapse(rest);
    }
  }

  lemma {:induction false} FirstWordEnds(s: string)
    ensures |FirstWord(s)| < |s| ==> IsSpace(s[|FirstWord(s)|])
    decreases |s|
  {
    if s != "" && !IsSpace(s[0]) {
      FirstWordEnds(s[1..]);
    }
  }

  lemma {:induction false} DropKeepsEnd(s: string)
    requires s != "" && !IsSpace(s[|s| - 1])
    ensures DropSpaces(s) != "" && !IsSpace(DropSpaces(s)[|DropSpaces(s)| - 1])
    decreases |s|
  {
    if IsSpace(s[0]) {
      DropKeepsEnd(s[1..]);
    }
  }

  /** Normalising is joining the words by single blanks. */
  lemma NormaliseJoinsWords(s: string)
    ensures Normalise(s) == Join(Words(s))
  {
    WordsOfSpaces(s);
    WordsOfTrimEnd(DropSpaces(s));
    CollapseJoins(Trim(s));
  }

  ghost predicate IsWord(w: string) {
    w != "" && forall i :: 0 <= i < |w| ==> !IsSpace(w[i])
  }

  lemma {:induction false} FirstWordIsWord(s: string)
    ensures forall i :: 0 <= i < |FirstWord(s)| ==> !IsSpace(FirstWord(s)[i])
    decreases |s|
  {
    if s != "" && !IsSpace(s[0]) {
      FirstWordIsWord(s[1..]);
    }
  }

  lemma {:induction false} WordsAreWords(s: string)
    ensures forall w :: w in Words(s) ==> IsWord(w)
    decreases |s|
  {
    if s == "" {
    } else if IsSpace(s[0]) {
      WordsAreWords(s[1..]);
    } else {
      FirstWordIsWord(s);
      WordsAreWords(s[|FirstWord(s)|..]);
    }
  }

  lemma {:induction false} FirstWordOfPrefix(w: string, rest: string)
    requires forall i :: 0 <= i < |w| ==> !IsSpace(w[i])
    requires rest == "" || IsSpace(rest[0])
    ensures FirstWord(w + rest) == w
    decreases |w|
  {
    var t := w + rest;
    if w == "" {
      assert t == rest;
    } else {
      assert t[0] == w[0] && t[1..] == w[1..] + rest;
      FirstWordOfPrefix(w[1..], rest);
    }
  }

  lemma {:induction false} WordsOfJoin(ws: seq<string>)
    requires forall w :: w in ws ==> IsWord(w)
    ensures Words(Join(ws)) == ws
    decreases |ws|
  {
    if |ws| == 0 {
    } else if |ws| == 1 {
      assert ws[0] in ws;
      FirstWordOfPrefix(ws[0], "");
      assert ws[0] + "" == ws[0];
      assert ws == [ws[0]];
    } else {
      assert ws[0] in ws;
      WordsOfJoin(ws[1..]);
      var rest := " " + Join(ws[1..]);
      var t := Join(ws);
      assert t == ws[0] + rest;
      FirstWordOfPrefix(ws[0], rest);
      assert t[0] == ws[0][0] && t[|ws[0]|..] == rest && rest[1..] == Join(ws[1..]);
      assert ws == [ws[0]] + ws[1..];
    }
  }

  /** Two texts are stored alike exactly when they have the same words. */
  lemma NormaliseDecidesWords(a: string, b: string)
    ensures Normalise(a) == Normalise(b) <==> Words(a) == Words(b)
  {
    NormaliseJoinsWords(a);
    NormaliseJoinsWords(b);
    WordsAreWords(a);
    WordsAreWords(b);
    WordsOfJoin(Words(a));
    WordsOfJoin(Words(b));
  }

  lemma NormaliseIdempotent(s: string)
    ensures Normalise(Normalise(s)) == Normalise(s)
  {
    NormaliseJoinsWords(s);
    WordsAreWords(s);
    WordsOfJoin(Words(s));
    NormaliseJoinsWords(Normalise(s));
  }

  lemma LowerKeepsSpaces(c: char)
    ensures IsSpace(LowerChar(c)) <==> IsSpace(c)
    ensures LowerChar(LowerChar(c)) == LowerChar(c)
  {
  }

  /** Text without blanks at its ends is left alone by trimming. */
  lemma TrimFixed(s: string)
    requires s == "" || (!IsSpace(s[0]) && !IsSpace(s[|s| - 1]))
    ensures Trim(s) == s
  {
  }

  lemma TrimLowerIdempotent(s: string)
    ensures Lower(Trim(Lower(Trim(s)))) == Lower(Trim(s))
  {
    var t := Trim(s);
    var l := Lower(t);
    WordsOfTrimEnd(DropSpaces(s));
    assert t == "" || (!IsSpace(t[0]) && !IsSpace(t[|t| - 1]));
    if t != "" {
      LowerKeepsSpaces(t[0]);
      LowerKeepsSpaces(t[|t| - 1]);
    }
    TrimFixed(l);
    forall i | 0 <= i < |l|
      ensures Lower(l)[i] == l[i]
    {
      LowerKeepsSpaces(t[i]);
    }
    assert Lower(l) == l;
  }

  // ---------- What folding and normalising mean, character by character ----------

  /** The same letter in either case, by code points; or the same character. */
  predicate AgreeUpToCase(a: char, b: char) {
    var m, n := a as int, b as int;
    || m == n
    || (65 <= m <= 90 && n == m + 32)
    || (65 <= n <= 90 && m == n + 32)
  }

  predicate SameUpToCase(a: string, b: string) {
    |a| == |b| && forall i :: 0 <= i < |a| ==> AgreeUpToCase(a[i], b[i])
  }

  lemma LowerCharDecidesCase(a: char, b: char)
    ensures LowerChar(a) == LowerChar(b) <==> AgreeUpToCase(a, b)
  {
  }

  /** Two texts fold alike exactly when they agree character by character, up to the case of letters. */
  lemma LowerDecidesCase(a: string, b: string)
    ensures Lower(a) == Lower(b) <==> SameUpToCase(a, b)
  {
    hide LowerChar, AgreeUpToCase;
    forall i | 0 <= i < |a| && i < |b|
      ensures LowerChar(a[i]) == LowerChar(b[i]) <==> AgreeUpToCase(a[i], b[i])
    {
      LowerCharDecidesCase(a[i], b[i]);
    }
    if Lower(a) == Lower(b) {
      assert |a| == |Lower(a)| == |b|;
      forall i | 0 <= i < |a| ensures AgreeUpToCase(a[i], b[i]) {
        assert Lower(a)[i] == Lower(b)[i];
      }
    }
  }

  /** Folded text has no capital letters and agrees with the original up to case. */
  lemma LowerIsLower(s: string)
    ensures SameUpToCase(Lower(s), s)
    ensures forall c :: c in Lower(s) ==> !('A' <= c <= 'Z')
  {
    forall i | 0 <= i < |s| ensures AgreeUpToCase(Lower(s)[i], s[i]) && !('A' <= Lower(s)[i] <= 'Z') {
    }
  }

  /** What is left of a text without its white space. */
  function Visible(s: string): string {
    if s == "" then "" else if IsSpace(s[0]) then Visible(s[1..]) else [s[0]] + Visible(s[1..])
  }

  /** White space occurs as single blanks between other characters only. */
  predicate IsSpacedOnce(s: string) {
    forall i :: 0 <= i < |s| && IsSpace(s[i]) ==>
      s[i] == ' ' && 0 < i < |s| - 1 && !IsSpace(s[i - 1]) && !IsSpace(s[i + 1])
  }

  lemma {:induction false} VisibleJoins(a: string, b: string)
    ensures Visible(a + b) == Visible(a) + Visible(b)
    decreases |a|
  {
    if a == "" {
      assert a + b == b;
    } else {
      assert (a + b)[0] == a[0] && (a + b)[1..] == a[1..] + b;
      VisibleJoins(a[1..], b);
    }
  }

  lemma {:induction false} VisibleWord(w: string)
    requires forall i :: 0 <= i < |w| ==> !IsSpace(w[i])
    ensures Visible(w) == w
  {
    if w != "" {
      VisibleWord(w[1..]);
      assert w == [w[0]] + w[1..];
    }
  }

  lemma {:induction false} VisibleOfWords(s: string)
    ensures Visible(s) == Visible(Join(Words(s)))
    decreases |s|
  {
    if s != "" {
      if IsSpace(s[0]) {
        VisibleOfWords(s[1..]);
      } else {
        var w := FirstWord(s);
        var rest := s[|w|..];
        assert s == w + rest;
        VisibleJoins(w, rest);
        VisibleOfWords(rest);
        assert Words(s)[0] == w && Words(s)[1..] == Words(rest);
        if Words(rest) == [] {
          assert w + "" == w;
          VisibleJoins(w, "");
        } else {
          VisibleJoins(w, " " + Join(Words(rest)));
          assert w + (" " + Join(Words(rest))) == w + " " + Join(Words(rest));
          assert (" " + Join(Words(rest)))[1..] == Join(Words(rest));
        }
      }
    }
  }

  lemma {:induction false} JoinIsSpacedOnce(ws: seq<string>)
    requires forall w :: w in ws ==> IsWord(w)
    ensures IsSpacedOnce(Join(ws))
    ensures ws != [] ==> Join(ws) != "" && !IsSpace(Join(ws)[0]) && !IsSpace(Join(ws)[|Join(ws)| - 1])
  {
    if ws != [] {
      assert IsWord(ws[0]) by { assert ws[0] in ws; }
      if |ws| > 1 {
        JoinIsSpacedOnce(ws[1..]);
        SpacedOnceJoins(ws[0], Join(ws[1..]));
      }
    }
  }

  lemma SpacedOnceJoins(w: string, rest: string)
    requires IsWord(w) && IsSpacedOnce(rest) && rest != "" && !IsSpace(rest[0])
    ensures IsSpacedOnce(w + " " + rest)
  {
    var t := w + " " + rest;
    var n := |w|;
    assert forall i :: 0 <= i < n ==> t[i] == w[i];
    assert t[n] == ' ';
    assert forall i :: 0 <= i < |rest| ==> t[n + 1 + i] == rest[i];
    forall i | 0 <= i < |t| && IsSpace(t[i])
      ensures t[i] == ' ' && 0 < i < |t| - 1 && !IsSpace(t[i - 1]) && !IsSpace(t[i + 1])
    {
      if i > n {
        var k := i - n - 1;
        assert IsSpace(rest[k]) && rest[k] == t[i];
        assert t[i - 1] == rest[k - 1] && t[i + 1] == rest[k + 1];
      }
    }
  }

  /** The stored text has the visible characters of the text in their order, with single blanks in between. */
  lemma NormaliseShape(s: string)
    ensures IsSpacedOnce(Normalise(s)) && Visible(Normalise(s)) == Visible(s)
  {
    NormaliseJoinsWords(s);
    WordsAreWords(s);
    JoinIsSpacedOnce(Words(s));
    VisibleOfWords(s);
  }

  predicate HasVisible(s: string) {
    exists i :: 0 <= i < |s| && !IsSpace(s[i])
  }

  /** Trimming leaves something exactly when there is something to see. */
  lemma TrimmedIff(s: string)
    ensures Trim(s) != "" <==> HasVisible(s)
  {
    TrimEndOf(DropSpaces(s));
    DropSpacesOf(s);
  }

  lemma {:induction false} TrimEndOf(s: string)
    ensures TrimEnd(s) != "" <==> HasVisible(s)
  {
    if s != "" {
      var n := |s| - 1;
      if IsSpace(s[n]) {
        TrimEndOf(s[..n]);
        assert forall i :: 0 <= i < n ==> s[..n][i] == s[i];
      }
    }
  }

  lemma {:induction false} DropSpacesOf(s: string)
    ensures HasVisible(DropSpaces(s)) <==> HasVisible(s)
  {
    if s != "" && IsSpace(s[0]) {
      DropSpacesOf(s[1..]);
      if i :| 0 <= i < |s| && !IsSpace(s[i]) {
        assert i > 0 && !IsSpace(s[1..][i - 1]);
      }
      if k :| 0 <= k < |s[1..]| && !IsSpace(s[1..][k]) {
        assert !IsSpace(s[k + 1]);
      }
    }
  }

  /** Trimming takes white space off both ends, and all of it. */
  lemma TrimShape(s: string) returns (before: string, core: string, after: string)
    ensures s == before + core + after && core == Trim(s)
    ensures forall c :: c in before || c in after ==> IsSpace(c)
    ensures core != "" ==> !IsSpace(core[0]) && !IsSpace(core[|core| - 1])
  {
    var rest;
    before, rest := DropShape(s);
    after := EndShape(rest);
    core := TrimEnd(rest);
    hide IsSpace, DropSpaces, TrimEnd;
    assert before + (core + after) == before + core + after;
    assert core != "" ==> core[0] == rest[0];
  }

  lemma {:induction false} DropShape(s: string) returns (before: string, rest: string)
    ensures s == before + rest && rest == DropSpaces(s) && (rest == "" || !IsSpace(rest[0]))
    ensures forall c :: c in before ==> IsSpace(c)
  {
    if s != "" && IsSpace(s[0]) {
      var more;
      more, rest := DropShape(s[1..]);
      before := [s[0]] + more;
    } else {
      before, rest := "", s;
    }
  }

  lemma {:induction false} EndShape(s: string) returns (after: string)
    ensures s == TrimEnd(s) + after && (TrimEnd(s) == "" || !IsSpace(TrimEnd(s)[|TrimEnd(s)| - 1]))
    ensures forall c :: c in after ==> IsSpace(c)
  {
    if s != "" && IsSpace(s[|s| - 1]) {
      var more := EndShape(s[..|s| - 1]);
      after := more + [s[|s| - 1]];
    } else {
      after := "";
    }
  }
}
