/** Which texts `numberToCLocale` (src/utils/Locale.cpp) takes for numbers, told character by
    character without its loop, and what it makes of them. */
module NumberSyntax {
  import opened Wrappers
  import opened LocaleNumbers

  /** The C character that stands for one of the text. */
  function At(loc: Locale, s: Text, j: nat): nat
    requires j < |s|
  {
    Normalised(loc, s[j])
  }

  ghost predicate IsPoint(loc: Locale, s: Text, j: nat)
    requires j < |s|
  {
    DigitToC(loc, s[j]) == 0x2E
  }

  ghost predicate IsExponent(loc: Locale, s: Text, j: nat)
    requires j < |s|
  {
    DigitToC(loc, s[j]) == 0x65
  }

  ghost predicate IsSeparator(loc: Locale, s: Text, j: nat)
    requires j < |s|
  {
    At(loc, s, j) == 0x2C
  }

  /** A decimal point or a letter e, after which no group is open. */
  ghost predicate Closes(loc: Locale, s: Text, j: nat)
    requires j < |s|
  {
    At(loc, s, j) == 0x2E || At(loc, s, j) == 0x65
  }

  /** The characters that are kept: all but group separators, unless these are not looked for. */
  ghost function Kept(loc: Locale, options: Options, s: Text, i: nat, j: nat): Text
    requires i <= j <= |s|
    decreases j
  {
    if i == j then []
    else Kept(loc, options, s, i, j - 1)
         + if !options.rejectGroupSeparator && IsSeparator(loc, s, j - 1) then [] else [At(loc, s, j - 1)]
  }

  /** Neither a point nor an exponent so far. */
  ghost predicate WholePart(loc: Locale, s: Text, i: nat, j: nat)
    requires i <= j <= |s|
  {
    forall k :: i <= k < j ==> !IsPoint(loc, s, k) && !IsExponent(loc, s, k)
  }

  /** The last separator that no point or exponent closed stands at `k`. */
  ghost predicate OpenAt(loc: Locale, s: Text, j: nat, k: nat)
    requires k < j <= |s|
  {
    IsSeparator(loc, s, k) && forall m :: k < m < j ==> !IsSeparator(loc, s, m) && !Closes(loc, s, m)
  }

  ghost predicate NoneOpen(loc: Locale, s: Text, i: nat, j: nat)
    requires i <= j <= |s|
  {
    forall k :: i <= k < j ==> !OpenAt(loc, s, j, k)
  }

  /** Behind an open separator stand three characters. */
  ghost predicate GroupDone(loc: Locale, s: Text, i: nat, j: nat)
    requires i <= j <= |s|
  {
    NoneOpen(loc, s, i, j) || (i + 4 <= j && OpenAt(loc, s, j, j - 4))
  }

  ghost predicate FirstDigit(loc: Locale, s: Text, i: nat, j: nat, d: nat)
    requires i <= j <= |s|
  {
    i <= d < j && IsDigit(At(loc, s, d)) && forall k :: i <= k < d ==> !IsDigit(At(loc, s, k))
  }

  /** A separator stands in the whole part, three characters behind the one before or, if it is the
      first, at most three behind the first digit. */
  ghost predicate SeparatorFits(loc: Locale, s: Text, i: nat, j: nat)
    requires i <= j < |s|
  {
    && WholePart(loc, s, i, j)
    && if NoneOpen(loc, s, i, j) then exists d :: FirstDigit(loc, s, i, j, d) && j - d <= 3 else i + 4 <= j && OpenAt(loc, s, j, j - 4)
  }

  /** The character at `j` may follow those before it; `l` is where the number ends. */
  ghost predicate Fits(loc: Locale, options: Options, s: Text, i: nat, l: nat, j: nat)
    requires i <= j < l <= |s|
  {
    && At(loc, s, j) != 0
    && (IsPoint(loc, s, j) ==> WholePart(loc, s, i, j))
    && (!options.rejectGroupSeparator && IsSeparator(loc, s, j) ==> SeparatorFits(loc, s, i, j))
    && (!options.rejectGroupSeparator && Closes(loc, s, j) ==> GroupDone(loc, s, i, j))
    && (options.rejectLeadingZeroInExponent && At(loc, s, j) == 0x30 && j < l - 1 && (exists e :: i <= e < j && IsExponent(loc, s, e)) ==>
          IsDigit(Last(Kept(loc, options, s, i, j))))
    && (options.rejectTrailingZeroesAfterDot && IsExponent(loc, s, j) && (exists p :: i <= p < j && IsPoint(loc, s, p)) ==>
          Last(Kept(loc, options, s, i, j)) != 0x30)
  }

  ghost predicate Ends(loc: Locale, options: Options, s: Text, i: nat, l: nat)
    requires i <= l <= |s|
  {
    && (!options.rejectGroupSeparator ==> GroupDone(loc, s, i, l))
    && (options.rejectTrailingZeroesAfterDot && (exists p :: i <= p < l && IsPoint(loc, s, p))
          && (forall e :: i <= e < l ==> !IsExponent(loc, s, e)) ==>
          Last(Kept(loc, options, s, i, l)) != 0x30)
  }

  ghost predicate IsNumber(loc: Locale, options: Options, s: Text, i: nat, l: nat)
    requires i <= l <= |s|
  {
    (forall j :: i <= j < l ==> Fits(loc, options, s, i, l, j)) && Ends(loc, options, s, i, l)
  }

  // ----- the variables of the loop -------------------------------------------------------

  /** The last separator without a point or exponent behind it, or -1. */
  ghost predicate LastOpen(loc: Locale, s: Text, i: nat, j: nat, k: int)
    requires i <= j <= |s|
  {
    if k == -1 then NoneOpen(loc, s, i, j) else i <= k < j && OpenAt(loc, s, j, k)
  }

  ghost predicate StartOfDigits(loc: Locale, s: Text, i: nat, j: nat, d: int)
    requires i <= j <= |s|
  {
    if d == -1 then forall k :: i <= k < j ==> !IsDigit(At(loc, s, k)) else d >= 0 && FirstDigit(loc, s, i, j, d)
  }

  ghost predicate PointAt(loc: Locale, s: Text, i: nat, j: nat, k: int)
    requires i <= j <= |s|
  {
    if k == -1 then forall m :: i <= m < j ==> !IsPoint(loc, s, m) else i <= k < j && IsPoint(loc, s, k)
  }

  ghost predicate ExponentAt(loc: Locale, s: Text, i: nat, j: nat, k: int)
    requires i <= j <= |s|
  {
    if k == -1 then forall m :: i <= m < j ==> !IsExponent(loc, s, m) else i <= k < j && IsExponent(loc, s, k)
  }

  /** What the variables hold when the loop that began at `i` is about to look at `st.idx`. */
  ghost predicate Holds(loc: Locale, options: Options, s: Text, i: nat, st: Scan) {
    && i <= st.idx <= |s|
    && st.out == Kept(loc, options, s, i, st.idx)
    && PointAt(loc, s, i, st.idx, st.decpt) && ExponentAt(loc, s, i, st.idx, st.exponent)
    && (!options.rejectGroupSeparator ==>
          LastOpen(loc, s, i, st.idx, st.lastSeparator) && StartOfDigits(loc, s, i, st.idx, st.startOfDigits))
  }

  lemma OpenMeans(loc: Locale, s: Text, i: nat, j: nat, k: int)
    requires i <= j <= |s| && LastOpen(loc, s, i, j, k)
    ensures NoneOpen(loc, s, i, j) <==> k == -1
    ensures GroupDone(loc, s, i, j) <==> k == -1 || j - k == 4
    ensures k != -1 ==> (i + 4 <= j && OpenAt(loc, s, j, j - 4) <==> j - k == 4)
  {
    forall m: nat | i <= m < j && k != -1 && OpenAt(loc, s, j, m)
      ensures m == k
    {
    }
  }

  lemma OpenWas(loc: Locale, s: Text, j: nat, m: nat)
    requires m < j + 1 <= |s| && OpenAt(loc, s, j + 1, m) && !IsSeparator(loc, s, j)
    ensures m < j && OpenAt(loc, s, j, m)
  {
  }

  lemma OpenNext(loc: Locale, s: Text, i: nat, j: nat, k: int)
    requires i <= j < |s| && LastOpen(loc, s, i, j, k)
    ensures IsSeparator(loc, s, j) ==> LastOpen(loc, s, i, j + 1, j)
    ensures Closes(loc, s, j) ==> LastOpen(loc, s, i, j + 1, -1)
    ensures !IsSeparator(loc, s, j) && !Closes(loc, s, j) ==> LastOpen(loc, s, i, j + 1, k)
  {
    forall m: nat | i <= m < j + 1 && OpenAt(loc, s, j + 1, m)
      ensures (m == j && IsSeparator(loc, s, j)) || (m < j && OpenAt(loc, s, j, m) && !IsSeparator(loc, s, j) && !Closes(loc, s, j))
    {
    }
    if !IsSeparator(loc, s, j) && !Closes(loc, s, j) {
      if k != -1 {
        assert OpenAt(loc, s, j, k) && OpenAt(loc, s, j + 1, k);
      } else if !NoneOpen(loc, s, i, j + 1) {
        var m: nat :| i <= m < j + 1 && OpenAt(loc, s, j + 1, m);
        OpenWas(loc, s, j, m);
      }
    }
  }

  lemma StartNext(loc: Locale, s: Text, i: nat, j: nat, d: int)
    requires i <= j < |s| && StartOfDigits(loc, s, i, j, d)
    ensures StartOfDigits(loc, s, i, j + 1, if d == -1 && IsDigit(At(loc, s, j)) then j else d)
  {
  }

  lemma StartMeans(loc: Locale, s: Text, i: nat, j: nat, d: int)
    requires i <= j <= |s| && StartOfDigits(loc, s, i, j, d)
    ensures (exists m :: FirstDigit(loc, s, i, j, m) && j - m <= 3) <==> d != -1 && j - d <= 3
  {
  }

  lemma MarksMean(loc: Locale, s: Text, i: nat, j: nat, p: int, e: int)
    requires i <= j <= |s| && PointAt(loc, s, i, j, p) && ExponentAt(loc, s, i, j, e)
    ensures WholePart(loc, s, i, j) <==> p == -1 && e == -1
    ensures (exists k :: i <= k < j && IsPoint(loc, s, k)) <==> p != -1
    ensures (exists k :: i <= k < j && IsExponent(loc, s, k)) <==> e != -1
    ensures -1 <= p < j && -1 <= e < j
  {
  }

  lemma StepFits(loc: Locale, options: Options, s: Text, i: nat, l: nat, st: Scan)
    requires i <= st.idx < l <= |s| && Holds(loc, options, s, i, st)
    ensures ScanStep(loc, options, s, l, st).Go? <==> Fits(loc, options, s, i, l, st.idx)
  {
    hide PointAt, ExponentAt, LastOpen, StartOfDigits, WholePart, NoneOpen, OpenAt, GroupDone, FirstDigit, Kept;
    MarksMean(loc, s, i, st.idx, st.decpt, st.exponent);
    if !options.rejectGroupSeparator {
      OpenMeans(loc, s, i, st.idx, st.lastSeparator);
      StartMeans(loc, s, i, st.idx, st.startOfDigits);
    }
  }

  lemma StepHolds(loc: Locale, options: Options, s: Text, i: nat, l: nat, st: Scan)
    requires Holds(loc, options, s, i, st) && st.idx < l <= |s| && ScanStep(loc, options, s, l, st).Go?
    ensures Holds(loc, options, s, i, ScanStep(loc, options, s, l, st).next)
  {
    hide LastOpen, StartOfDigits;
    StepAdvances(loc, options, s, l, st);
    if !options.rejectGroupSeparator {
      OpenNext(loc, s, i, st.idx, st.lastSeparator);
      StartNext(loc, s, i, st.idx, st.startOfDigits);
    }
  }

  lemma {:induction false} ScanFits(loc: Locale, options: Options, s: Text, i: nat, l: nat, st: Scan)
    requires i <= st.idx <= l <= |s| && Holds(loc, options, s, i, st)
    ensures var r := ScanAll(loc, options, s, l, st);
      if forall j :: st.idx <= j < l ==> Fits(loc, options, s, i, l, j)
      then r.Some? && r.value.idx == l && Holds(loc, options, s, i, r.value)
      else r == None || r.value.idx < l
    decreases l - st.idx
  {
    hide Holds, Fits, ScanStep;
    if st.idx == l {
      assert ScanAll(loc, options, s, l, st) == Some(st);
    } else {
      StepFits(loc, options, s, i, l, st);
      if ScanStep(loc, options, s, l, st).Go? {
        StepHolds(loc, options, s, i, l, st);
        StepAdvances(loc, options, s, l, st);
        var next := ScanStep(loc, options, s, l, st).next;
        ScanFits(loc, options, s, i, l, next);
        assert (forall j :: st.idx <= j < l ==> Fits(loc, options, s, i, l, j))
          <==> (forall j :: next.idx <= j < l ==> Fits(loc, options, s, i, l, j));
      }
    }
  }

  lemma FinishEnds(loc: Locale, options: Options, s: Text, i: nat, l: nat, st: Scan)
    requires i < l <= |s| && st.idx == l && Holds(loc, options, s, i, st)
    ensures Finish(options, l, st) == if Ends(loc, options, s, i, l) then Some(Kept(loc, options, s, i, l)) else None
  {
    hide PointAt, ExponentAt, LastOpen, StartOfDigits, WholePart, NoneOpen, OpenAt, GroupDone, FirstDigit, Kept;
    MarksMean(loc, s, i, l, st.decpt, st.exponent);
    if !options.rejectGroupSeparator {
      OpenMeans(loc, s, i, l, st.lastSeparator);
    }
    assert (forall e :: i <= e < l ==> !IsExponent(loc, s, e)) <==> !(exists e :: i <= e < l && IsExponent(loc, s, e));
  }

  lemma {:induction false} SpacesSkipped(loc: Locale, s: Text, i: nat, k: nat)
    requires i <= k <= |s| && (k < |s| ==> !loc.isSpace(s[k])) && forall j :: i <= j < k ==> loc.isSpace(s[j])
    ensures SkipSpaces(loc, s, i) == k
    decreases k - i
  {
    if i < k {
      SpacesSkipped(loc, s, i + 1, k);
    }
  }

  lemma {:induction false} SpacesTrimmed(loc: Locale, s: Text, from: nat, k: nat, l: nat)
    requires from < k <= l <= |s| && !loc.isSpace(s[k - 1]) && forall j :: k <= j < l ==> loc.isSpace(s[j])
    ensures TrimEnd(loc, s, from, l) == k
    decreases l
  {
    if k < l {
      SpacesTrimmed(loc, s, from, k, l - 1);
    }
  }

  lemma BeginHolds(loc: Locale, options: Options, s: Text, i: nat)
    requires i <= |s|
    ensures Holds(loc, options, s, i, Scan(i, -1, -1, -1, -1, []))
  {
  }

  /** `numberToCLocale` takes a text, which begins at `i` and ends at `l` between white space, if and
      only if every character fits those before it and the last group is complete; the answer is
      the characters that are kept, in the C locale.  Nothing but white space is no number. */
  lemma AcceptedIff(loc: Locale, options: Options, s: Text, i: nat, l: nat)
    requires i <= l <= |s| && (i == l ==> l == |s|)
    requires (forall j :: 0 <= j < i ==> loc.isSpace(s[j])) && (forall j :: l <= j < |s| ==> loc.isSpace(s[j]))
    requires i < l ==> !loc.isSpace(s[i]) && !loc.isSpace(s[l - 1])
    ensures ToCLocale(loc, s, options)
         == if i < l && IsNumber(loc, options, s, i, l) then Some(Kept(loc, options, s, i, l)) else None
  {
    hide Holds, Fits, Ends, Kept, ScanAll;
    SpacesSkipped(loc, s, 0, i);
    if i < l {
      SpacesTrimmed(loc, s, i, l, |s|);
      var begun := Scan(i, -1, -1, -1, -1, []);
      BeginHolds(loc, options, s, i);
      ScanFits(loc, options, s, i, l, begun);
      var r := ScanAll(loc, options, s, l, begun);
      if r.Some? && r.value.idx == l && Holds(loc, options, s, i, r.value) {
        FinishEnds(loc, options, s, i, l, r.value);
      }
    }
  }
}
