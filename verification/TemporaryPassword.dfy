/**
 The temporary password generator: four required characters, filler, and an in-place
 Fisher-Yates shuffle. The random draws are inputs, bounded as randomInt bounds them.
 */
module TemporaryPassword {
  import opened Sequences

  const UPPER := "ABCDEFGHJKLMNPQRSTUVWXYZ"
  const LOWER := "abcdefghijkmnopqrstuvwxyz"
  const DIGITS := "23456789"
  const SYMBOLS := "!@#$%^&*"
  const ALL := UPPER + LOWER + DIGITS + SYMBOLS

  // ---------- The shuffle, as a function of its draws ----------

  function Swap<T>(s: seq<T>, i: nat, j: nat): (r: seq<T>)
    requires i < |s| && j < |s|
    ensures |r| == |s|
  {
    s[i := s[j]][j := s[i]]
  }

  lemma SwapPermutes<T>(s: seq<T>, i: nat, j: nat)
    requires i < |s| && j < |s|
    ensures multiset(Swap(s, i, j)) == multiset(s)
  {
  }

  /** draws[i] is the draw made at position i, in 0..i. Position 0 draws nothing, which reads as 0. */
  ghost predicate ValidDraws(draws: seq<nat>) {
    forall i :: 0 <= i < |draws| ==> draws[i] <= i
  }

  /** The loop from position i down: swap position i with the drawn one, then go on below it. */
  function ShuffleFrom<T>(s: seq<T>, i: nat, draws: seq<nat>): (r: seq<T>)
    requires i < |s| && i < |draws| && ValidDraws(draws)
    ensures |r| == |s|
    decreases i
  {
    if i == 0 then s else ShuffleFrom(Swap(s, i, draws[i]), i - 1, draws)
  }

  function Shuffle<T>(s: seq<T>, draws: seq<nat>): (r: seq<T>)
    requires |draws| == |s| && ValidDraws(draws)
    ensures |r| == |s|
  {
    if s == [] then s else ShuffleFrom(s, |s| - 1, draws)
  }

  lemma {:induction false} ShufflePermutes<T>(s: seq<T>, i: nat, draws: seq<nat>)
    requires i < |s| && i < |draws| && ValidDraws(draws)
    ensures multiset(ShuffleFrom(s, i, draws)) == multiset(s)
    decreases i
  {
    hide Swap;
    if i > 0 {
      SwapPermutes(s, i, draws[i]);
      ShufflePermutes(Swap(s, i, draws[i]), i - 1, draws);
    }
  }

  /** Positions above i are never touched again. */
  lemma {:induction false} TailFixed<T>(s: seq<T>, i: nat, draws: seq<nat>, k: nat)
    requires i < |s| && i < |draws| && ValidDraws(draws) && i < k < |s|
    ensures ShuffleFrom(s, i, draws)[k] == s[k]
    decreases i
  {
    if i > 0 {
      TailFixed(Swap(s, i, draws[i]), i - 1, draws, k);
    }
  }

  /** The item that ends up at position i > 0 is the one drawn for it. */
  lemma PlacedByDraw<T>(s: seq<T>, i: nat, draws: seq<nat>)
    requires 0 < i < |s| && i < |draws| && ValidDraws(draws)
    ensures ShuffleFrom(s, i, draws)[i] == s[draws[i]]
  {
    TailFixed(Swap(s, i, draws[i]), i - 1, draws, i);
  }

  // ---------- Draw sequences and arrangements correspond one to one ----------

  lemma SwapDistinct<T>(s: seq<T>, i: nat, j: nat)
    requires Distinct(s) && i < |s| && j < |s|
    ensures Distinct(Swap(s, i, j))
  {
    var r := Swap(s, i, j);
    forall a, b | 0 <= a < b < |r|
      ensures r[a] != r[b]
    {
      var x := if a == i then j else if a == j then i else a;
      var y := if b == i then j else if b == j then i else b;
      assert r[a] == s[x] && r[b] == s[y];
      assert s[x] != s[y] by { if x < y {} else {} }
    }
  }

  /** Two draw sequences that give the same arrangement agree at every position. */
  lemma {:induction false} DrawsUnique<T>(s: seq<T>, i: nat, p: seq<nat>, q: seq<nat>, k: nat)
    requires Distinct(s) && i < |s| && i < |p| && i < |q| && ValidDraws(p) && ValidDraws(q)
    requires ShuffleFrom(s, i, p) == ShuffleFrom(s, i, q)
    requires k <= i
    ensures p[k] == q[k]
    decreases i
  {
    hide Swap, Distinct;
    if i > 0 {
      assert p[i] == q[i] by {
        PlacedByDraw(s, i, p);
        PlacedByDraw(s, i, q);
        SameItemSamePlace(s, p[i], q[i]);
      }
      if k < i {
        SwapDistinct(s, i, p[i]);
        DrawsUnique(Swap(s, i, p[i]), i - 1, p, q, k);
      }
    }
  }

  lemma SameItemSamePlace<T>(s: seq<T>, a: nat, b: nat)
    requires Distinct(s) && a < |s| && b < |s| && s[a] == s[b]
    ensures a == b
  {
    if a < b {} else if b < a {}
  }

  /** Only the draws at i and below matter. */
  lemma {:induction false} DrawsLocal<T>(s: seq<T>, i: nat, p: seq<nat>, q: seq<nat>)
    requires i < |s| && i < |p| && i < |q| && ValidDraws(p) && ValidDraws(q)
    requires forall k :: 0 <= k <= i ==> p[k] == q[k]
    ensures ShuffleFrom(s, i, p) == ShuffleFrom(s, i, q)
    decreases i
  {
    hide Swap;
    if i > 0 {
      DrawsLocal(Swap(s, i, p[i]), i - 1, p, q);
    }
  }

  /** t rearranges s and agrees with it above i. */
  ghost predicate Reachable<T>(s: seq<T>, i: nat, t: seq<T>) {
    && i < |s| && |t| == |s| && multiset(t) == multiset(s)
    && forall k :: i < k < |s| ==> t[k] == s[k]
  }

  lemma PrefixMultiset<T>(s: seq<T>, i: nat, t: seq<T>)
    requires Reachable(s, i, t)
    ensures multiset(t[..i + 1]) == multiset(s[..i + 1])
  {
    var n := i + 1;
    assert s == s[..n] + s[n..] && t == t[..n] + t[n..] && s[n..] == t[n..];
    var rest := multiset(s[n..]);
    assert multiset(s) == multiset(s[..n]) + rest && multiset(t) == multiset(t[..n]) + rest;
    assert multiset(t[..n]) == multiset(t[..n]) + rest - rest;
    assert multiset(s[..n]) == multiset(s[..n]) + rest - rest;
  }

  /** The item wanted at position i lies at i or below. */
  lemma SourceBelow<T>(s: seq<T>, i: nat, t: seq<T>) returns (j: nat)
    requires Reachable(s, i, t)
    ensures j <= i && s[j] == t[i]
  {
    PrefixMultiset(s, i, t);
    assert t[..i + 1][i] == t[i];
    assert t[i] in multiset(t[..i + 1]);
    assert t[i] in s[..i + 1];
    j :| 0 <= j < i + 1 && s[..i + 1][j] == t[i];
  }

  lemma SwapReaches<T>(s: seq<T>, i: nat, t: seq<T>, j: nat)
    requires Reachable(s, i, t) && i > 0 && j <= i && s[j] == t[i]
    ensures Reachable(Swap(s, i, j), i - 1, t)
  {
    SwapPermutes(s, i, j);
  }

  lemma BottomReached<T>(s: seq<T>, t: seq<T>)
    requires Reachable(s, 0, t)
    ensures t == s
  {
    var j := SourceBelow(s, 0, t);
  }

  /** Draws that lead from s to t are found from position i down. */
  lemma {:induction false} DrawsFound<T>(s: seq<T>, i: nat, t: seq<T>) returns (draws: seq<nat>)
    requires Reachable(s, i, t)
    ensures i < |s| && |draws| == i + 1 && ValidDraws(draws) && ShuffleFrom(s, i, draws) == t
    decreases i
  {
    if i == 0 {
      BottomReached(s, t);
      draws := [0];
    } else {
      var j := SourceBelow(s, i, t);
      SwapReaches(s, i, t, j);
      hide Swap, Reachable, ValidDraws, ShuffleFrom;
      var below := DrawsFound(Swap(s, i, j), i - 1, t);
      draws := below + [j];
      DrawExtends(s, i, j, below);
    }
  }

  lemma DrawExtends<T>(s: seq<T>, i: nat, j: nat, below: seq<nat>)
    requires 0 < i < |s| && j <= i && |below| == i && ValidDraws(below)
    ensures ValidDraws(below + [j]) && ShuffleFrom(s, i, below + [j]) == ShuffleFrom(Swap(s, i, j), i - 1, below)
  {
    hide Swap;
    var draws := below + [j];
    assert draws[i] == j;
    DrawsLocal(Swap(s, i, j), i - 1, draws, below);
  }

  function Positions(n: nat): (s: seq<nat>)
    ensures |s| == n && forall k :: 0 <= k < n ==> s[k] == k
  {
    seq(n, k => k)
  }

  ghost predicate Yields(n: nat, draws: seq<nat>, t: seq<nat>) {
    |draws| == n && ValidDraws(draws) && Shuffle(Positions(n), draws) == t
  }

  /** Every arrangement of n positions comes from exactly one sequence of draws. */
  lemma ShuffleBijection(n: nat, t: seq<nat>)
    requires multiset(t) == multiset(Positions(n))
    ensures exists draws :: Yields(n, draws, t)
    ensures forall p, q :: Yields(n, p, t) && Yields(n, q, t) ==> p == q
  {
    var s := Positions(n);
    assert |t| == |multiset(t)| == |multiset(s)| == n;
    if n == 0 {
      assert Yields(n, [], t);
    } else {
      assert Reachable(s, n - 1, t);
      hide Reachable, Positions;
      var draws := DrawsFound(s, n - 1, t);
      assert Yields(n, draws, t);
      forall p, q | Yields(n, p, t) && Yields(n, q, t)
        ensures p == q
      {
        YieldsUnique(n, p, q, t);
      }
    }
  }

  lemma YieldsUnique(n: nat, p: seq<nat>, q: seq<nat>, t: seq<nat>)
    requires n > 0 && Yields(n, p, t) && Yields(n, q, t)
    ensures p == q
  {
    var s := Positions(n);
    assert Distinct(s);
    hide Positions, Distinct, ShuffleFrom, ValidDraws;
    forall k | 0 <= k < n
      ensures p[k] == q[k]
    {
      DrawsUnique(s, n - 1, p, q, k);
    }
  }

  ghost predicate Places(places: seq<nat>, n: nat) {
    |places| == n && forall p :: p in multiset(places) ==> p < n
  }

  ghost function Arranged<T>(s: seq<T>, places: seq<nat>): (r: seq<T>)
    requires Places(places, |s|)
    ensures |r| == |s|
  {
    seq(|s|, k requires 0 <= k < |s| => assert places[k] in multiset(places); s[places[k]])
  }

  lemma ArrangedSwap<T>(s: seq<T>, places: seq<nat>, i: nat, j: nat)
    requires Places(places, |s|) && i < |s| && j < |s|
    ensures Places(Swap(places, i, j), |s|)
    ensures Swap(Arranged(s, places), i, j) == Arranged(s, Swap(places, i, j))
  {
    SwapPermutes(places, i, j);
  }

  /** Items follow their positions, so the correspondence carries over to any items. */
  lemma {:induction false} ShuffleFollowsPositions<T>(s: seq<T>, places: seq<nat>, i: nat, draws: seq<nat>)
    requires Places(places, |s|) && i < |s| && i < |draws| && ValidDraws(draws)
    ensures Places(ShuffleFrom(places, i, draws), |s|)
    ensures ShuffleFrom(Arranged(s, places), i, draws) == Arranged(s, ShuffleFrom(places, i, draws))
    decreases i
  {
    hide Swap, Arranged, Places;
    if i > 0 {
      ArrangedSwap(s, places, i, draws[i]);
      ShuffleFollowsPositions(s, Swap(places, i, draws[i]), i - 1, draws);
    }
  }

  // ---------- The generator ----------

  /** draws[k] picks from a set of the given size, as randomInt does. */
  ghost predicate ValidPicks(draws: seq<nat>, size: nat) {
    forall k :: 0 <= k < |draws| ==> draws[k] < size
  }

  /** Array.from with a length clamped at 0. */
  function RestLength(length: int): nat {
    if length < 4 then 0 else length - 4
  }

  /** The characters before shuffling: one of each kind, then filler from all of them. */
  function Picked(u: nat, l: nat, d: nat, y: nat, rest: seq<nat>): (chars: string)
    requires u < |UPPER| && l < |LOWER| && d < |DIGITS| && y < |SYMBOLS| && ValidPicks(rest, |ALL|)
    ensures |chars| == 4 + |rest|
  {
    [UPPER[u], LOWER[l], DIGITS[d], SYMBOLS[y]] + seq(|rest|, k requires 0 <= k < |rest| => ALL[rest[k]])
  }

  lemma SwapIsAssignment<T>(s: seq<T>, i: nat, j: nat, r: seq<T>)
    requires i < |s| && j < |s| && |r| == |s| && r[i] == s[j] && r[j] == s[i]
    requires forall k :: 0 <= k < |s| && k != i && k != j ==> r[k] == s[k]
    ensures r == Swap(s, i, j)
  {
  }

  method ShuffleInPlace(chars: array<char>, draws: seq<nat>)
    requires |draws| == chars.Length && ValidDraws(draws)
    modifies chars
    ensures chars[..] == Shuffle(old(chars[..]), draws)
  {
    hide Swap;
    var i := chars.Length - 1;
    while i > 0
      invariant -1 <= i < chars.Length && (i < 0 ==> chars.Length == 0)
      invariant i < 0 ==> chars[..] == old(chars[..])
      invariant i >= 0 ==> ShuffleFrom(chars[..], i, draws) == Shuffle(old(chars[..]), draws)
    {
      var j := draws[i];
      ghost var before := chars[..];
      chars[i], chars[j] := chars[j], chars[i];
      SwapIsAssignment(before, i, j, chars[..]);
      i := i - 1;
    }
  }

  method GenerateTemporaryPassword(length: int, u: nat, l: nat, d: nat, y: nat, rest: seq<nat>, draws: seq<nat>)
    returns (password: string)
    requires u < |UPPER| && l < |LOWER| && d < |DIGITS| && y < |SYMBOLS|
    requires |rest| == RestLength(length) && ValidPicks(rest, |ALL|)
    requires |draws| == 4 + |rest| && ValidDraws(draws)
    ensures password == Shuffle(Picked(u, l, d, y, rest), draws)
  {
    var picked := Picked(u, l, d, y, rest);
    var chars := new char[|picked|](k requires 0 <= k < |picked| => picked[k]);
    assert chars[..] == picked;
    ShuffleInPlace(chars, draws);
    password := chars[..];
  }

  // ---------- The registration policy ----------

  const SPECIALS := "@$!%*?&#^()_-+=[]{};:'\",.<>/\\|`~"

  predicate HasOneOf(password: string, charset: string) {
    exists c :: c in password && c in charset
  }

  /** The pattern registration enforces. */
  predicate RegistrationAccepts(password: string) {
    && 8 <= |password| <= 128
    && (exists c :: c in password && 'a' <= c <= 'z')
    && (exists c :: c in password && 'A' <= c <= 'Z')
    && (exists c :: c in password && '0' <= c <= '9')
    && HasOneOf(password, SPECIALS)
    && '\n' !in password && '\r' !in password
  }

  lemma LettersFit()
    ensures forall c :: c in UPPER ==> 'A' <= c <= 'Z'
    ensures forall c :: c in LOWER ==> 'a' <= c <= 'z'
    ensures forall c :: c in DIGITS ==> '0' <= c <= '9'
  {
  }

  lemma SymbolsFit()
    ensures forall c :: c in SYMBOLS ==> c in SPECIALS
    ensures '\n' !in SYMBOLS && '\r' !in SYMBOLS
  {
    var all := SPECIALS;
    assert all[2] == '!' && all[0] == '@' && all[7] == '#' && all[1] == '$';
    assert all[3] == '%' && all[8] == '^' && all[6] == '&' && all[4] == '*';
  }

  /** Every character of each kind, but for those easily taken for another, and eight symbols. */
  lemma SetsInWords(c: char)
    ensures c in UPPER <==> 'A' <= c <= 'Z' && c != 'I' && c != 'O'
    ensures c in LOWER <==> 'a' <= c <= 'z' && c != 'l'
    ensures c in DIGITS <==> '2' <= c <= '9'
    ensures c in SYMBOLS <==> c == '!' || '#' <= c <= '&' || c == '*' || c == '@' || c == '^'
  {
    UpperInWords(c);
    LowerInWords(c);
    DigitsAndSymbolsInWords(c);
    hide UPPER, LOWER, DIGITS, SYMBOLS;
  }

  lemma UpperInWords(c: char)
    ensures c in UPPER <==> 'A' <= c <= 'Z' && c != 'I' && c != 'O'
  {
    if 'A' <= c <= 'Z' && c != 'I' && c != 'O' {
      var k := c as int - 'A' as int;
      assert UPPER[if c < 'I' then k else if c < 'O' then k - 1 else k - 2] == c;
    }
  }

  lemma LowerInWords(c: char)
    ensures c in LOWER <==> 'a' <= c <= 'z' && c != 'l'
  {
    if 'a' <= c <= 'z' && c != 'l' {
      var k := c as int - 'a' as int;
      assert LOWER[if c < 'l' then k else k - 1] == c;
    }
  }

  lemma DigitsAndSymbolsInWords(c: char)
    ensures c in DIGITS <==> '2' <= c <= '9'
    ensures c in SYMBOLS <==> c == '!' || '#' <= c <= '&' || c == '*' || c == '@' || c == '^'
  {
    if '2' <= c <= '9' {
      assert DIGITS[c as int - '2' as int] == c;
    }
    assert SYMBOLS[0] == '!' && SYMBOLS[1] == '@' && SYMBOLS[2] == '#' && SYMBOLS[3] == '$' && SYMBOLS[4] == '%';
  }

  lemma PartsOfAll(c: char)
    ensures c in ALL <==> c in UPPER || c in LOWER || c in DIGITS || c in SYMBOLS
  {
  }

  lemma PickedFromAll(u: nat, l: nat, d: nat, y: nat, rest: seq<nat>)
    requires u < |UPPER| && l < |LOWER| && d < |DIGITS| && y < |SYMBOLS| && ValidPicks(rest, |ALL|)
    ensures var p := Picked(u, l, d, y, rest);
      && p[0] in UPPER && p[1] in LOWER && p[2] in DIGITS && p[3] in SYMBOLS
      && forall c :: c in p ==> c in ALL
  {
    hide UPPER, LOWER, DIGITS, SYMBOLS;
    var p := Picked(u, l, d, y, rest);
    forall c | c in p
      ensures c in ALL
    {
      PartsOfAll(c);
    }
  }

  // ---------- Every draw counts ----------

  predicate Rising(s: string) {
    forall i :: 0 <= i < |s| - 1 ==> s[i] < s[i + 1]
  }

  lemma {:induction false} RisingOrder(s: string, i: nat, j: nat)
    requires Rising(s) && i < j < |s|
    ensures s[i] < s[j]
    decreases j - i
  {
    if i + 1 < j {
      RisingOrder(s, i + 1, j);
    }
  }

  lemma RisingIsDistinct(s: string)
    requires Rising(s)
    ensures Distinct(s)
  {
    forall i, j | 0 <= i < j < |s| ensures s[i] != s[j] {
      RisingOrder(s, i, j);
    }
  }

  lemma LettersRise()
    ensures Rising(UPPER) && Rising(LOWER) && Rising(DIGITS)
  {
  }

  lemma SymbolsDiffer()
    ensures Distinct(SYMBOLS)
    ensures forall c :: c in SYMBOLS ==> c !in UPPER && c !in LOWER && c !in DIGITS
  {
    LettersFit();
    assert forall c :: c in SYMBOLS ==> !('A' <= c <= 'Z') && !('a' <= c <= 'z') && !('0' <= c <= '9');
  }

  lemma DistinctJoin(a: string, b: string)
    requires Distinct(a) && Distinct(b) && forall c :: c in a ==> c !in b
    ensures Distinct(a + b)
  {
    forall i, j | 0 <= i < j < |a + b| ensures (a + b)[i] != (a + b)[j] {
      if i < |a| <= j {
        assert a[i] in a && b[j - |a|] in b;
      }
    }
  }

  /** No character occurs twice in the filler set. */
  lemma AllDistinct()
    ensures Distinct(ALL)
  {
    LettersFit();
    LettersRise();
    SymbolsDiffer();
    RisingIsDistinct(UPPER);
    RisingIsDistinct(LOWER);
    RisingIsDistinct(DIGITS);
    assert ALL == UPPER + LOWER + DIGITS + SYMBOLS;
    hide UPPER, LOWER, DIGITS, SYMBOLS, ALL, Distinct;
    DistinctJoin(UPPER, LOWER);
    DistinctJoin(UPPER + LOWER, DIGITS);
    DistinctJoin(UPPER + LOWER + DIGITS, SYMBOLS);
  }

  /** All draws before the shuffle. */
  datatype Picks = Picks(upper: nat, lower: nat, digit: nat, symbol: nat, rest: seq<nat>)

  /** The draws yield these four required characters, each of its kind, and t after them. */
  ghost predicate Yield(p: Picks, required: string, t: string) {
    && p.upper < |UPPER| && p.lower < |LOWER| && p.digit < |DIGITS| && p.symbol < |SYMBOLS|
    && ValidPicks(p.rest, |ALL|)
    && Picked(p.upper, p.lower, p.digit, p.symbol, p.rest) == required + t
  }

  ghost predicate IsRequired(required: string) {
    && |required| == 4
    && required[0] in UPPER && required[1] in LOWER && required[2] in DIGITS && required[3] in SYMBOLS
  }

  lemma {:induction false} PicksFound(t: string) returns (rest: seq<nat>)
    requires forall c :: c in t ==> c in ALL
    ensures |rest| == |t| && ValidPicks(rest, |ALL|) && forall k :: 0 <= k < |t| ==> ALL[rest[k]] == t[k]
  {
    hide ALL;
    if t == "" {
      rest := [];
    } else {
      var n := |t| - 1;
      var init := PicksFound(t[..n]);
      assert t[n] in ALL;
      var i :| 0 <= i < |ALL| && ALL[i] == t[n];
      rest := init + [i];
      assert forall k :: 0 <= k < n ==> t[..n][k] == t[k];
    }
  }

  lemma PickFound(charset: string, c: char) returns (i: nat)
    requires c in charset
    ensures i < |charset| && charset[i] == c
  {
    i :| 0 <= i < |charset| && charset[i] == c;
  }

  lemma PicksExist(required: string, t: string) returns (p: Picks)
    requires IsRequired(required) && forall c :: c in t ==> c in ALL
    ensures Yield(p, required, t)
  {
    hide UPPER, LOWER, DIGITS, SYMBOLS, ALL;
    var rest := PicksFound(t);
    var u := PickFound(UPPER, required[0]);
    var l := PickFound(LOWER, required[1]);
    var d := PickFound(DIGITS, required[2]);
    var y := PickFound(SYMBOLS, required[3]);
    p := Picks(u, l, d, y, rest);
    var filler := seq(|rest|, k requires 0 <= k < |rest| => ALL[rest[k]]);
    assert filler == t;
    assert [UPPER[u], LOWER[l], DIGITS[d], SYMBOLS[y]] == required;
  }

  lemma SetsDistinct()
    ensures Distinct(UPPER) && Distinct(LOWER) && Distinct(DIGITS) && Distinct(SYMBOLS) && Distinct(ALL)
  {
    LettersRise();
    RisingIsDistinct(UPPER);
    RisingIsDistinct(LOWER);
    RisingIsDistinct(DIGITS);
    SymbolsDiffer();
    AllDistinct();
  }

  lemma PicksUnique(p: Picks, q: Picks, required: string, t: string)
    requires Yield(p, required, t) && Yield(q, required, t)
    ensures p == q
  {
    SetsDistinct();
    hide UPPER, LOWER, DIGITS, SYMBOLS, ALL, Distinct;
    var a := Picked(p.upper, p.lower, p.digit, p.symbol, p.rest);
    var b := Picked(q.upper, q.lower, q.digit, q.symbol, q.rest);
    assert a[0] == b[0] && a[1] == b[1] && a[2] == b[2] && a[3] == b[3];
    SameItemSamePlace(UPPER, p.upper, q.upper);
    SameItemSamePlace(LOWER, p.lower, q.lower);
    SameItemSamePlace(DIGITS, p.digit, q.digit);
    SameItemSamePlace(SYMBOLS, p.symbol, q.symbol);
    assert |p.rest| == |a| - 4 == |b| - 4 == |q.rest|;
    forall k | 0 <= k < |p.rest| ensures p.rest[k] == q.rest[k] {
      assert a[4 + k] == b[4 + k];
      SameItemSamePlace(ALL, p.rest[k], q.rest[k]);
    }
    assert p.rest == q.rest;
  }

  /** Every choice of one character of each kind and of filler characters comes from exactly one sequence of draws. */
  lemma PicksBijection(required: string, t: string)
    requires IsRequired(required) && forall c :: c in t ==> c in ALL
    ensures exists p :: Yield(p, required, t)
    ensures forall p, q :: Yield(p, required, t) && Yield(q, required, t) ==> p == q
  {
    var found := PicksExist(required, t);
    hide Yield;
    forall p, q | Yield(p, required, t) && Yield(q, required, t) ensures p == q {
      PicksUnique(p, q, required, t);
    }
  }

  /** The password is a rearrangement of the characters drawn: one of each kind, and one per filler draw. */
  lemma PasswordOfDraws(u: nat, l: nat, d: nat, y: nat, rest: seq<nat>, t: string, draws: seq<nat>)
    requires u < |UPPER| && l < |LOWER| && d < |DIGITS| && y < |SYMBOLS| && ValidPicks(rest, |ALL|)
    requires |t| == |rest| && forall k :: 0 <= k < |t| ==> t[k] == ALL[rest[k]]
    requires |draws| == 4 + |rest| && ValidDraws(draws)
    ensures multiset(Shuffle(Picked(u, l, d, y, rest), draws))
         == multiset([UPPER[u], LOWER[l], DIGITS[d], SYMBOLS[y]]) + multiset(t)
  {
    hide UPPER, LOWER, DIGITS, SYMBOLS, ALL;
    var picked := Picked(u, l, d, y, rest);
    ShufflePermutes(picked, |picked| - 1, draws);
    assert picked == [UPPER[u], LOWER[l], DIGITS[d], SYMBOLS[y]] + t;
  }

  /** Every generated password is a rearrangement of the picks, and is registrable exactly at lengths 8 to 128. */
  lemma PasswordMeetsPolicy(length: int, u: nat, l: nat, d: nat, y: nat, rest: seq<nat>, draws: seq<nat>)
    requires u < |UPPER| && l < |LOWER| && d < |DIGITS| && y < |SYMBOLS|
    requires |rest| == RestLength(length) && ValidPicks(rest, |ALL|)
    requires |draws| == 4 + |rest| && ValidDraws(draws)
    ensures var password := Shuffle(Picked(u, l, d, y, rest), draws);
      && multiset(password) == multiset(Picked(u, l, d, y, rest))
      && |password| == (if length < 4 then 4 else length)
      && (forall c :: c in password ==> c in ALL)
      && (RegistrationAccepts(password) <==> 8 <= length <= 128)
  {
    hide UPPER, LOWER, DIGITS, SYMBOLS, ALL, Picked, SPECIALS;
    var picked := Picked(u, l, d, y, rest);
    var password := Shuffle(picked, draws);
    PickedFromAll(u, l, d, y, rest);
    ShufflePermutes(picked, |picked| - 1, draws);
    assert multiset(password) == multiset(picked);
    SameMembers(picked, password);
    LettersFit();
    SymbolsFit();
    PartsOfAll('\n');
    PartsOfAll('\r');
    assert picked[0] in password && picked[1] in password && picked[2] in password && picked[3] in password;
  }
}
