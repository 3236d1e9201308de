/** `pdk_find_pattern` of src/dll/Library.cpp: a search from the end with a rolling sum. */
module PatternSearch {

  const TWO_64 := 0x1_0000_0000_0000_0000

  /** A plain `char`, which is signed. */
  type Char = c: int | -128 <= c < 128

  /** Adding to and subtracting from an `unsigned long`. */
  function Add(sum: nat, c: Char): (after: nat)
    ensures after < TWO_64
  {
    (sum + c) % TWO_64
  }

  function Sub(sum: nat, c: Char): (after: nat)
    ensures after < TWO_64
  {
    (sum - c) % TWO_64
  }

  function Sum(text: seq<Char>): (sum: nat)
    ensures sum < TWO_64
  {
    if text == [] then 0 else Add(Sum(text[..|text| - 1]), text[|text| - 1])
  }

  lemma AddThenSub(sum: nat, c: Char)
    requires sum < TWO_64
    ensures Sub(Add(sum, c), c) == sum
  {
  }

  lemma AddSwaps(sum: nat, a: Char, b: Char)
    ensures Add(Add(sum, a), b) == Add(Add(sum, b), a)
  {
    ModSum(sum + a, b);
    ModSum(sum + b, a);
  }

  lemma ModSum(a: int, b: int)
    ensures (a % TWO_64 + b) % TWO_64 == (a + b) % TWO_64
  {
  }

  /** `strncmp(a, b, n) == 0`: a NUL ends both. */
  predicate SameUpToNul(a: seq<Char>, b: seq<Char>)
    requires |a| == |b|
  {
    a == [] || (a[0] == b[0] && (a[0] == 0 || SameUpToNul(a[1..], b[1..])))
  }

  /** What the search takes for an occurrence at `i`. */
  predicate Hit(s: seq<Char>, pattern: seq<Char>, i: int) {
    && 0 <= i <= |s| - |pattern|
    && Sum(s[i..i + |pattern|]) == Sum(pattern) && SameUpToNul(s[i..i + |pattern|], pattern)
  }

  lemma {:induction false} SumFront(c: Char, text: seq<Char>)
    ensures Sum([c] + text) == Add(Sum(text), c)
  {
    hide Add;
    if text == [] {
      assert [c][..0] == [] && [c] + text == [c];
    } else {
      var init, last := text[..|text| - 1], text[|text| - 1];
      SumFront(c, init);
      assert ([c] + text)[..|text|] == [c] + init;
      AddSwaps(Sum(init), c, last);
    }
  }

  /** Moving the window down by one. */
  lemma Roll(s: seq<Char>, i: nat, n: nat)
    requires i + 1 + n <= |s|
    ensures Add(Sub(Sum(s[i + 1..i + 1 + n]), s[i + n]), s[i]) == Sum(s[i..i + n])
  {
    hide Add, Sub;
    if n == 0 {
      SubThenAdd(0, s[i]);
    } else {
      var middle := s[i + 1..i + n];
      var upper := s[i + 1..i + 1 + n];
      assert upper[..n - 1] == middle && upper[n - 1] == s[i + n];
      AddThenSub(Sum(middle), s[i + n]);
      assert s[i..i + n] == [s[i]] + middle;
      SumFront(s[i], middle);
    }
  }

  lemma SubThenAdd(sum: nat, c: Char)
    requires sum < TWO_64
    ensures Add(Sub(sum, c), c) == sum
  {
  }

  lemma SumNext(text: seq<Char>, from: nat, i: nat)
    requires from + i < |text|
    ensures Sum(text[from..from + i + 1]) == Add(Sum(text[from..from + i]), text[from + i])
  {
    assert text[from..from + i + 1][..i] == text[from..from + i];
  }

  method FindPattern(s: seq<Char>, pattern: seq<Char>) returns (r: int)
    requires |s| < TWO_64
    ensures r == -1 || Hit(s, pattern, r)
    ensures forall i :: r < i ==> !Hit(s, pattern, i)
  {
    hide Add, Sub, Sum, SameUpToNul;
    if |pattern| > |s| {
      return -1;
    }
    var plen := |pattern|;
    var hs, hp, delta := 0, 0, |s| - plen;
    SumNothing(s, delta, pattern);
    var i := 0;
    while i < plen
      invariant i <= plen && hs == Sum(s[delta..delta + i]) && hp == Sum(pattern[0..0 + i])
    {
      SumNext(s, delta, i);
      SumNext(pattern, 0, i);
      hs := Add(hs, s[delta + i]);
      hp := Add(hp, pattern[i]);
      i := i + 1;
    }
    assert pattern[0..0 + plen] == pattern;
    i := delta;
    while true
      invariant 0 <= i <= delta && hs == Sum(s[i..i + plen]) && hp == Sum(pattern)
      invariant forall k :: i < k ==> !Hit(s, pattern, k)
      decreases i
    {
      if hs == hp && SameUpToNul(s[i..i + plen], pattern) {
        return i;
      }
      if i == 0 {
        break;
      }
      i := i - 1;
      Roll(s, i, plen);
      hs := Sub(hs, s[i + plen]);
      hs := Add(hs, s[i]);
    }
    r := -1;
  }

  lemma SumNothing(s: seq<Char>, delta: nat, pattern: seq<Char>)
    requires delta <= |s|
    ensures Sum(s[delta..delta + 0]) == 0 == Sum(pattern[0..0 + 0])
  {
  }

  lemma {:induction false} SameIff(a: seq<Char>, b: seq<Char>)
    requires |a| == |b| && 0 !in b
    ensures SameUpToNul(a, b) <==> a == b
  {
    if a != [] {
      SameIff(a[1..], b[1..]);
      assert a == [a[0]] + a[1..] && b == [b[0]] + b[1..];
    }
  }

  /** For a pattern without NUL a hit is an occurrence, so the search finds the last one, and
      answers -1 exactly when there is none. */
  lemma HitIff(s: seq<Char>, pattern: seq<Char>, i: int)
    requires 0 !in pattern
    ensures Hit(s, pattern, i) <==> 0 <= i <= |s| - |pattern| && s[i..i + |pattern|] == pattern
  {
    if 0 <= i <= |s| - |pattern| {
      SameIff(s[i..i + |pattern|], pattern);
    }
  }

  // ----- patterns with a NUL -------------------------------------------------------------

  /** The sum without wrapping. */
  function Total(text: seq<Char>): int {
    if text == [] then 0 else Total(text[..|text| - 1]) + text[|text| - 1]
  }

  lemma {:induction false} SumWraps(text: seq<Char>)
    ensures Sum(text) == Total(text) % TWO_64
  {
    if text != [] {
      SumWraps(text[..|text| - 1]);
      ModSum(Total(text[..|text| - 1]), text[|text| - 1]);
    }
  }

  lemma {:induction false} TotalConcat(a: seq<Char>, b: seq<Char>)
    ensures Total(a + b) == Total(a) + Total(b)
  {
    if b == [] {
      assert a + b == a;
    } else {
      TotalConcat(a, b[..|b| - 1]);
      assert (a + b)[..|a + b| - 1] == a + b[..|b| - 1];
    }
  }

  lemma {:induction false} SameToNul(a: seq<Char>, b: seq<Char>, p: nat)
    requires |a| == |b| && p < |b| && b[p] == 0 && 0 !in b[..p]
    ensures SameUpToNul(a, b) <==> a[..p + 1] == b[..p + 1]
  {
    if p > 0 {
      assert b[0] == b[..p][0] && b[1..][..p - 1] == b[..p][1..];
      SameToNul(a[1..], b[1..], p - 1);
      assert a[..p + 1] == [a[0]] + a[1..][..p] && b[..p + 1] == [b[0]] + b[1..][..p];
    }
  }

  /** Equal remainders stay equal when the same is added to both. */
  lemma Shifted(a: int, b: int, c: int)
    ensures (c + a) % TWO_64 == (c + b) % TWO_64 <==> a % TWO_64 == b % TWO_64
  {
  }

  /** With the first NUL of the pattern at `p`, a window is a hit if and only if it agrees up to
      and including the NUL, and what is behind adds up to the same. */
  lemma HitAtNul(s: seq<Char>, pattern: seq<Char>, p: nat, i: int)
    requires p < |pattern| && pattern[p] == 0 && 0 !in pattern[..p]
    ensures Hit(s, pattern, i) <==>
      && 0 <= i <= |s| - |pattern|
      && s[i..i + p + 1] == pattern[..p + 1]
      && Total(s[i + p + 1..i + |pattern|]) % TWO_64 == Total(pattern[p + 1..]) % TWO_64
  {
    if 0 <= i <= |s| - |pattern| {
      var window := s[i..i + |pattern|];
      SameToNul(window, pattern, p);
      assert window[..p + 1] == s[i..i + p + 1] && window[p + 1..] == s[i + p + 1..i + |pattern|];
      assert window == window[..p + 1] + window[p + 1..] && pattern == pattern[..p + 1] + pattern[p + 1..];
      SumWraps(window);
      SumWraps(pattern);
      TotalConcat(window[..p + 1], window[p + 1..]);
      TotalConcat(pattern[..p + 1], pattern[p + 1..]);
      Shifted(Total(window[p + 1..]), Total(pattern[p + 1..]), Total(pattern[..p + 1]));
    }
  }

  /** A hit is always an occurrence. */
  ghost predicate Exact(pattern: seq<Char>) {
    forall s: seq<Char>, i: int :: Hit(s, pattern, i) ==> s[i..i + |pattern|] == pattern
  }

  predicate AllAre(text: seq<Char>, c: Char) {
    forall k :: 0 <= k < |text| ==> text[k] == c
  }

  /** No other text of that length adds up to the same: there is one character at most, or all
      are the largest or all the smallest one and their number does not make the sum wrap. */
  predicate Rigid(tail: seq<Char>) {
    |tail| <= 1 || (255 * |tail| < TWO_64 && (AllAre(tail, 127) || AllAre(tail, -128)))
  }

  lemma {:induction false} TotalBounds(text: seq<Char>)
    ensures -128 * |text| <= Total(text) <= 127 * |text|
    ensures Total(text) == 127 * |text| <==> AllAre(text, 127)
    ensures Total(text) == -128 * |text| <==> AllAre(text, -128)
  {
    if text != [] {
      var init := text[..|text| - 1];
      TotalBounds(init);
      assert text == init + [text[|text| - 1]];
    }
  }

  lemma RigidAlone(tail: seq<Char>, other: seq<Char>)
    requires Rigid(tail) && |other| == |tail| && Total(other) % TWO_64 == Total(tail) % TWO_64
    ensures other == tail
  {
    TotalBounds(tail);
    TotalBounds(other);
    if |tail| == 1 {
      assert tail[..0] == other[..0] == [];
    }
  }

  /** A text of `n` characters for every sum they can have. */
  lemma {:induction false} Spread(n: nat, total: int) returns (text: seq<Char>)
    requires -128 * n <= total <= 127 * n
    ensures |text| == n && Total(text) == total
  {
    if n == 0 {
      text := [];
    } else {
      var c: Char := if total > 127 then 127 else if total < -128 then -128 else total;
      var init := Spread(n - 1, total - c);
      text := init + [c];
      assert text[..n - 1] == init;
    }
  }

  /** One character up and another one down. */
  lemma Traded(tail: seq<Char>, i: nat, j: nat) returns (other: seq<Char>)
    requires i < |tail| && j < |tail| && i != j && tail[i] < 127 && tail[j] > -128
    ensures |other| == |tail| && other != tail && Total(other) == Total(tail)
  {
    var raised := Replaced(tail, i, tail[i] + 1);
    other := Replaced(raised, j, tail[j] - 1);
    assert other[i] != tail[i];
  }

  lemma Replaced(text: seq<Char>, i: nat, c: Char) returns (other: seq<Char>)
    requires i < |text|
    ensures other == text[i := c] && Total(other) == Total(text) - text[i] + c
  {
    other := text[i := c];
    assert text == text[..i] + ([text[i]] + text[i + 1..]) && other == text[..i] + ([c] + text[i + 1..]);
    TotalConcat(text[..i], [text[i]] + text[i + 1..]);
    TotalConcat(text[..i], [c] + text[i + 1..]);
    TotalConcat([text[i]], text[i + 1..]);
    TotalConcat([c], text[i + 1..]);
    assert [c][..0] == [] && [text[i]][..0] == [];
  }

  lemma NotRigid(tail: seq<Char>) returns (other: seq<Char>)
    requires !Rigid(tail)
    ensures |other| == |tail| && other != tail && Total(other) % TWO_64 == Total(tail) % TWO_64
  {
    hide Total;
    TotalBounds(tail);
    if AllAre(tail, 127) {
      other := Spread(|tail|, 127 * |tail| - TWO_64);
    } else if AllAre(tail, -128) {
      other := Spread(|tail|, -128 * |tail| + TWO_64);
    } else {
      var i: nat :| i < |tail| && tail[i] != 127;
      var j: nat :| j < |tail| && tail[j] != -128;
      var k: nat := if i == 0 then 1 else 0;
      if i != j {
        other := Traded(tail, i, j);
      } else if tail[k] < 127 {
        other := Traded(tail, k, j);
      } else {
        other := Traded(tail, i, k);
      }
    }
  }

  /** So with a NUL in the pattern the search is right on every text if and only if what follows
      the first NUL is rigid. */
  lemma ExactIff(pattern: seq<Char>, p: nat)
    requires p < |pattern| && pattern[p] == 0 && 0 !in pattern[..p]
    ensures Exact(pattern) <==> Rigid(pattern[p + 1..])
  {
    var tail := pattern[p + 1..];
    if Rigid(tail) {
      forall s: seq<Char>, i: int | Hit(s, pattern, i)
        ensures s[i..i + |pattern|] == pattern
      {
        HitAtNul(s, pattern, p, i);
        RigidAlone(tail, s[i + p + 1..i + |pattern|]);
        assert s[i..i + |pattern|] == s[i..i + p + 1] + s[i + p + 1..i + |pattern|] && pattern == pattern[..p + 1] + tail;
      }
    } else {
      var other := NotRigid(tail);
      var s := pattern[..p + 1] + other;
      HitAtNul(s, pattern, p, 0);
      assert s[p + 1..] == other && s[0..p + 1] == pattern[..p + 1];
      assert s[p + 1..|pattern|] == other && s[0..|pattern|] == s;
      assert Hit(s, pattern, 0);
    }
  }

  /** For example, a text with two characters behind the NUL exchanged is a hit. */
  lemma SwappedBehindNul(a: Char, b: Char)
    requires a != b
    ensures Hit([0, a, b], [0, b, a], 0) && [0, a, b] != [0, b, a]
  {
    var s: seq<Char>, pattern: seq<Char> := [0, a, b], [0, b, a];
    HitAtNul(s, pattern, 0, 0);
    assert s[1..3] == [a] + [b] && pattern[1..] == [b] + [a];
    TotalConcat([a], [b]);
    TotalConcat([b], [a]);
    assert s[0..1] == pattern[..1];
    assert s[1] != pattern[1];
  }
}
