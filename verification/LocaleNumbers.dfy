/** Integers as text in a locale: printing (`pdk_ulltoa` of src/utils/LocaleTools.cpp and
    `longLongToString` of src/utils/Locale.cpp) and reading back (`numberToCLocale`,
    `stringToLongLong`).  Characters are UTF-16 code units. */
module LocaleNumbers {
  import opened Wrappers
  import opened Arithmetic

  type Text = seq<nat>

  /** The characters of a locale, and which characters are white space. */
  datatype Locale = Locale(zero: nat, plus: nat, minus: nat, decimal: nat, group: nat, exponential: nat, bigExponential: nat,
                           list: nat, percent: nat, isSpace: nat -> bool)

  const PLUS := 0x2B
  const COMMA := 0x2C
  const MINUS := 0x2D
  const POINT := 0x2E
  const ZERO := 0x30
  const NINE := 0x39
  const SEMICOLON := 0x3B
  const PERCENT := 0x25
  const SMALL_E := 0x65
  const BLANK := 0x20
  const MATH_MINUS := 0x2212
  const NO_BREAK_SPACE := 0xA0

  const TWO_63 := 0x8000_0000_0000_0000
  const TWO_64 := 0x1_0000_0000_0000_0000

  // ----- digits --------------------------------------------------------------------------

  /** The digits of a number, the first one not zero; none for zero. */
  function DigitsOf(l: nat, base: nat): (digits: seq<nat>)
    requires base >= 2
    ensures forall k :: 0 <= k < |digits| ==> digits[k] < base
  {
    if l == 0 then [] else DigitsOf(l / base, base) + [l % base]
  }

  function ValueOf(digits: seq<nat>): nat {
    if digits == [] then 0 else 10 * ValueOf(digits[..|digits| - 1]) + digits[|digits| - 1]
  }

  lemma {:induction false} DigitsValue(l: nat)
    ensures ValueOf(DigitsOf(l, 10)) == l
  {
    if l > 0 {
      DigitsValue(l / 10);
      assert DigitsOf(l, 10)[..|DigitsOf(l, 10)| - 1] == DigitsOf(l / 10, 10);
    }
  }

  lemma {:induction false} LeadingZeros(zeros: seq<nat>, digits: seq<nat>)
    requires forall k :: 0 <= k < |zeros| ==> zeros[k] == 0
    ensures ValueOf(zeros + digits) == ValueOf(digits)
  {
    if digits == [] {
      assert zeros + digits == zeros;
      if zeros != [] {
        LeadingZeros(zeros[..|zeros| - 1], []);
        assert zeros[..|zeros| - 1] + [] == zeros[..|zeros| - 1];
      }
    } else {
      LeadingZeros(zeros, digits[..|digits| - 1]);
      assert (zeros + digits)[..|zeros + digits| - 1] == zeros + digits[..|digits| - 1];
    }
  }

  function DigitChar(c: nat, base: nat, zero: nat): nat {
    if base != 10 || zero == ZERO then (if c < 10 then ZERO + c else c - 10 + 0x61) else zero + c
  }

  function Chars(digits: seq<nat>, base: nat, zero: nat): (text: Text)
    ensures |text| == |digits|
  {
    seq(|digits|, k requires 0 <= k < |digits| => DigitChar(digits[k], base, zero))
  }

  function Pow2(k: nat): (p: nat)
    ensures p > 0
  {
    if k == 0 then 1 else 2 * Pow2(k - 1)
  }

  lemma Pow2Of64()
    ensures Pow2(64) == TWO_64
  {
    assert Pow2(8) == 256 && Pow2(16) == 0x1_0000 && Pow2(24) == 0x100_0000 && Pow2(32) == 0x1_0000_0000;
    assert Pow2(40) == 0x100_0000_0000 && Pow2(48) == 0x1_0000_0000_0000 && Pow2(56) == 0x100_0000_0000_0000;
  }

  lemma DivHalves(l: nat, base: nat, p: nat)
    requires base >= 2 && l < 2 * p
    ensures l / base < p
  {
    DivModSplit(l, base);
    MulMonotone(2, base, l / base);
  }

  lemma DivShrinks(l: nat, base: nat)
    requires l > 0 && base >= 2
    ensures 0 <= l / base < l
  {
    DivModSplit(l, base);
    MulMonotone(2, base, l / base);
  }

  /** One digit moves from the number to the buffer. */
  lemma NextDigit(rest: nat, base: nat, done: seq<nat>, p: nat)
    requires base >= 2 && rest != 0 && 1 <= p && rest < Pow2(p - 1)
    ensures p >= 2 && rest / base < Pow2(p - 2) && 0 <= rest / base < rest
    ensures DigitsOf(rest, base) + done == DigitsOf(rest / base, base) + ([rest % base] + done)
  {
    DivHalves(rest, base, Pow2(p - 2));
    DivShrinks(rest, base);
  }

  /** The buffer holds 65 characters and is filled from its end; 64 are enough in any base. */
  method Ulltoa(l: nat, base: nat, zero: nat) returns (text: Text)
    requires l < TWO_64 && base >= 2
    ensures text == Chars(DigitsOf(l, base), base, zero)
    ensures |text| <= 64
  {
    hide Pow2;
    Pow2Of64();
    var buff := new nat[65];
    var p: nat, rest: nat := 65, l;
    ghost var done: seq<nat> := [];
    assert DigitsOf(l, base) + [] == DigitsOf(l, base);
    while rest != 0
      invariant 1 <= p <= 65 && rest < Pow2(p - 1)
      invariant |done| == 65 - p && DigitsOf(rest, base) + done == DigitsOf(l, base)
      invariant buff[p..] == Chars(done, base, zero)
    {
      NextDigit(rest, base, done, p);
      var c := rest % base;
      p := p - 1;
      ghost var behind := buff[p + 1..];
      if base != 10 || zero == ZERO {
        buff[p] := if c < 10 then ZERO + c else c - 10 + 0x61;
      } else {
        buff[p] := zero + c;
      }
      assert buff[p..] == [DigitChar(c, base, zero)] + behind;
      CharsCons(c, done, base, zero);
      done, rest := [c] + done, rest / base;
    }
    assert [] + done == done;
    text := buff[p..];
  }

  lemma CharsCons(c: nat, digits: seq<nat>, base: nat, zero: nat)
    ensures Chars([c] + digits, base, zero) == [DigitChar(c, base, zero)] + Chars(digits, base, zero)
  {
  }

  // ----- grouping ------------------------------------------------------------------------

  /** Groups of three from `i` on, each behind a separator. */
  function GroupFrom(d: Text, i: nat, group: nat): Text
    decreases |d| - i
  {
    if i + 3 > |d| then [] else [group] + d[i..i + 3] + GroupFrom(d, i + 3, group)
  }

  /** The digits before the first separator. */
  function FirstGroup(n: nat): (f: nat)
    ensures f <= n && f <= 3 && (n > 0 ==> f > 0)
  {
    if n == 0 then 0 else (n - 1) % 3 + 1
  }

  function Grouped(d: Text, group: nat): Text {
    d[..FirstGroup(|d|)] + GroupFrom(d, FirstGroup(|d|), group)
  }

  /** The separators are inserted from the right. */
  method InsertGroups(d: Text, group: nat) returns (num: Text)
    ensures num == Grouped(d, group)
  {
    num := d;
    var i := |d| - 3;
    ghost var j: nat, k: nat := |d|, 0;
    assert num == d[..j] + [];
    while i > 0
      invariant i == j - 3 && j + 3 * k == |d| && (k > 0 ==> j > 0)
      invariant Inserted(d, num, j, group)
    {
      InsertOne(d, num, i, j, group);
      num := num[..i] + [group] + num[i..];
      i, j, k := i - 3, j - 3, k + 1;
    }
    FirstGroupIs(|d|, j, k);
  }

  /** Separators stand behind `j` and from there on. */
  ghost predicate Inserted(d: Text, num: Text, j: nat, group: nat) {
    j <= |d| && num == d[..j] + GroupFrom(d, j, group)
  }

  lemma InsertOne(d: Text, num: Text, i: nat, j: nat, group: nat)
    requires j == i + 3 && Inserted(d, num, j, group)
    ensures i <= |num| && Inserted(d, num[..i] + [group] + num[i..], i, group)
  {
    var rest := GroupFrom(d, j, group);
    assert d[..j] == d[..i] + d[i..j];
    assert (d[..i] + d[i..j] + rest)[i..] == d[i..j] + rest;
  }

  lemma FirstGroupIs(n: nat, f: nat, k: nat)
    requires n == f + 3 * k && f <= 3 && (n > 0 ==> f > 0)
    ensures f == FirstGroup(n)
  {
    if n > 0 {
      DivModUnique(n - 1, 3, k, f - 1);
    }
  }

  lemma {:induction false} GroupsAt(d: Text, i: nat, k: nat, group: nat, r: nat)
    requires |d| == i + 3 * k
    ensures |GroupFrom(d, i, group)| == 4 * k
    ensures r < 4 * k && r % 4 != 3 ==> i <= |d| - 1 - (r - r / 4) < |d|
    ensures r < 4 * k ==> GroupFrom(d, i, group)[4 * k - 1 - r] == if r % 4 == 3 then group else d[|d| - 1 - (r - r / 4)]
    decreases k
  {
    if k > 0 {
      GroupsAt(d, i + 3, k - 1, group, r);
      var rest := GroupFrom(d, i + 3, group);
      if 4 * (k - 1) <= r < 4 * k {
        var q := 4 * k - 1 - r;
        assert r / 4 == k - 1 && r % 4 == 3 - q;
        assert |d| - 1 - (r - r / 4) == i + q - 1;
        assert GroupFrom(d, i, group)[q] == ([group] + d[i..i + 3])[q];
      } else if r < 4 * k {
        assert GroupFrom(d, i, group)[4 * k - 1 - r] == rest[4 * (k - 1) - 1 - r];
      }
    }
  }

  /** Counted from the right, every fourth character of a grouped number is a separator, and the
      others are the digits in their order. */
  lemma GroupedAt(d: Text, group: nat, r: nat)
    requires r < |Grouped(d, group)|
    ensures |Grouped(d, group)| == |d| + (if d == [] then 0 else (|d| - 1) / 3)
    ensures r % 4 != 3 ==> 0 <= |d| - 1 - (r - r / 4) < |d|
    ensures Grouped(d, group)[|Grouped(d, group)| - 1 - r] == if r % 4 == 3 then group else d[|d| - 1 - (r - r / 4)]
  {
    var f := FirstGroup(|d|);
    var k := if d == [] then 0 else (|d| - 1) / 3;
    GroupsAt(d, f, k, group, r);
    if r >= 4 * k {
      assert r / 4 == k && r % 4 == r - 4 * k;
    }
  }

  // ----- printing ------------------------------------------------------------------------

  datatype Flags = Flags(zeroPadded: bool, leftAdjusted: bool, blankBeforePositive: bool, alwaysShowSign: bool, thousandsGroup: bool)

  function Magnitude(l: int): nat {
    if l < 0 then -l else l
  }

  function Body(loc: Locale, l: int, flags: Flags): Text {
    var d := Chars(DigitsOf(Magnitude(l), 10), 10, loc.zero);
    if flags.thousandsGroup then Grouped(d, loc.group) else d
  }

  function AtLeastZero(n: int): nat {
    if n < 0 then 0 else n
  }

  /** How many zeros precision and width put in front. */
  function Pad(loc: Locale, l: int, precision: int, width: int, flags: Flags): nat {
    var size := |Body(loc, l, flags)|;
    var p := AtLeastZero((if precision == -1 then 1 else precision) - size);
    if flags.zeroPadded && !flags.leftAdjusted && precision == -1 then
      var sign := if l < 0 || flags.alwaysShowSign || flags.blankBeforePositive then 1 else 0;
      p + AtLeastZero(width - (p + size) - sign)
    else p
  }

  function Sign(loc: Locale, l: int, flags: Flags): Text {
    if l < 0 then [loc.minus] else if flags.alwaysShowSign then [loc.plus] else if flags.blankBeforePositive then [BLANK] else []
  }

  function Repeat(c: nat, n: nat): (text: Text)
    ensures |text| == n && forall k :: 0 <= k < n ==> text[k] == c
  {
    seq(n, _ => c)
  }

  function Printed(loc: Locale, l: int, precision: int, width: int, flags: Flags): Text {
    Sign(loc, l, flags) + (Repeat(loc.zero, Pad(loc, l, precision, width, flags)) + Body(loc, l, flags))
  }

  function Larger(a: int, b: int): int { if a < b then b else a }

  /** What is printed: the sign, then zeros up to the precision or, if no precision is given and
      padding with zeros is asked for and the text is not aligned left, up to the width, then the
      digits in groups or not. */
  lemma PrintedMeans(loc: Locale, l: int, precision: int, width: int, flags: Flags)
    ensures var text := Printed(loc, l, precision, width, flags);
      var digits := Chars(DigitsOf(if l < 0 then -l else l, 10), 10, loc.zero);
      var body := if flags.thousandsGroup then Grouped(digits, loc.group) else digits;
      var signs := if l < 0 || flags.alwaysShowSign || flags.blankBeforePositive then 1 else 0;
      var wanted :=
        if precision != -1 then precision
        else if flags.zeroPadded && !flags.leftAdjusted then Larger(1, width - signs)
        else 1;
      && |text| == signs + Larger(|body|, wanted)
      && (l < 0 ==> text[0] == loc.minus)
      && (l >= 0 && flags.alwaysShowSign ==> text[0] == loc.plus)
      && (l >= 0 && !flags.alwaysShowSign && flags.blankBeforePositive ==> text[0] == 0x20)
      && (forall k :: signs <= k < |text| - |body| ==> text[k] == loc.zero)
      && text[|text| - |body|..] == body
  {
    hide DigitsOf, Grouped;
    var text := Printed(loc, l, precision, width, flags);
    var body := Body(loc, l, flags);
    assert text[|text| - |body|..] == body;
  }

  /** `longLongToString` in base 10; the smallest 64-bit number has no magnitude in C. */
  method LongLongToString(loc: Locale, l: int, precision: int, width: int, flags: Flags) returns (num: Text)
    requires -TWO_63 < l < TWO_63
    ensures num == Printed(loc, l, precision, width, flags)
  {
    var precisionNotSpecified := precision == -1;
    var digits := if precisionNotSpecified then 1 else precision;
    num := Ulltoa(if l < 0 then -l else l, 10, loc.zero);
    if flags.thousandsGroup {
      num := InsertGroups(num, loc.group);
    }
    num := PadZeros(loc.zero, num, digits - |num|);
    if flags.zeroPadded && !flags.leftAdjusted && precisionNotSpecified {
      var numPadChars := width - |num|;
      if l < 0 || flags.alwaysShowSign || flags.blankBeforePositive {
        numPadChars := numPadChars - 1;
      }
      PadTwice(loc.zero, AtLeastZero(numPadChars), AtLeastZero(digits - |Body(loc, l, flags)|), Body(loc, l, flags));
      num := PadZeros(loc.zero, num, numPadChars);
    }
    num := Sign(loc, l, flags) + num;
  }

  /** The loops that prepend zeros. */
  method PadZeros(zero: nat, num: Text, count: int) returns (after: Text)
    ensures after == Repeat(zero, AtLeastZero(count)) + num
  {
    after := num;
    var i := 0;
    while i < count
      invariant 0 <= i && (i == 0 || i <= count) && after == Repeat(zero, i) + num
    {
      after := [zero] + after;
      i := i + 1;
    }
  }

  lemma PadTwice(zero: nat, i: nat, j: nat, num: Text)
    ensures Repeat(zero, i) + (Repeat(zero, j) + num) == Repeat(zero, j + i) + num
  {
  }

  // ----- normalising ---------------------------------------------------------------------

  /** `digitToCLocale`: the C character for a character of the locale, or 0. */
  function DigitToC(loc: Locale, c: nat): nat {
    if loc.zero <= c < (loc.zero + 10) % 0x1_0000 then ZERO + c - loc.zero
    else if ZERO <= c <= NINE then c
    else if c == loc.plus || c == PLUS then PLUS
    else if c == loc.minus || c == MINUS || c == MATH_MINUS then MINUS
    else if c == loc.decimal then POINT
    else if c == loc.group then COMMA
    else if c == loc.exponential || c == loc.bigExponential then SMALL_E
    else if loc.group == NO_BREAK_SPACE && c == BLANK then COMMA
    else 0
  }

  /** What `numberToCLocale` makes of one character; 0 ends the number. */
  function Normalised(loc: Locale, c: nat): nat {
    if DigitToC(loc, c) != 0 then DigitToC(loc, c)
    else if c == loc.list then SEMICOLON
    else if c == loc.percent then PERCENT
    else if 0x41 <= c <= 0x5A then c + 0x20
    else if 0x61 <= c <= 0x7A then c
    else 0
  }

  datatype Options = Options(rejectGroupSeparator: bool, rejectLeadingZeroInExponent: bool, rejectTrailingZeroesAfterDot: bool)

  /** The variables of the loop. */
  datatype Scan = Scan(idx: nat, decpt: int, lastSeparator: int, startOfDigits: int, exponent: int, out: Text)

  datatype Outcome = Fail | Stop | Go(next: Scan)

  function Last(text: Text): nat {
    if text == [] then 0 else text[|text| - 1]
  }

  predicate IsDigit(c: nat) {
    ZERO <= c <= NINE
  }

  /** The separator rules for one character. */
  function Separate(st: Scan, out: nat): Outcome {
    if st.startOfDigits == -1 && IsDigit(out) then Go(st.(startOfDigits := st.idx, out := st.out + [out], idx := st.idx + 1))
    else if out == COMMA then
      if st.decpt != -1 || st.exponent != -1 then Fail
      else if st.lastSeparator != -1 && st.idx - st.lastSeparator != 4 then Fail
      else if st.lastSeparator == -1 && (st.startOfDigits == -1 || st.idx - st.startOfDigits > 3) then Fail
      else Go(st.(lastSeparator := st.idx, idx := st.idx + 1))
    else if out == POINT || out == SMALL_E || out == 0x45 then
      if st.lastSeparator != -1 && st.idx - st.lastSeparator != 4 then Fail
      else Go(st.(lastSeparator := -1, out := st.out + [out], idx := st.idx + 1))
    else Go(st.(out := st.out + [out], idx := st.idx + 1))
  }

  function ScanStep(loc: Locale, options: Options, s: Text, l: nat, st: Scan): Outcome
    requires st.idx < l <= |s|
  {
    var special, out := DigitToC(loc, s[st.idx]), Normalised(loc, s[st.idx]);
    if out == 0 then Stop
    else if special == POINT && (st.decpt != -1 || st.exponent != -1) then Fail
    else
      var st' := if special == POINT then st.(decpt := st.idx)
                 else if special == SMALL_E then st.(exponent := st.idx) else st;
      if options.rejectLeadingZeroInExponent && st'.exponent != -1 && out == ZERO && st.idx < l - 1 && !IsDigit(Last(st.out)) then Fail
      else if options.rejectTrailingZeroesAfterDot && st'.decpt >= 0 && st.idx == st'.exponent && Last(st.out) == ZERO then Fail
      else if !options.rejectGroupSeparator then Separate(st', out)
      else Go(st'.(out := st.out + [out], idx := st.idx + 1))
  }

  lemma StepAdvances(loc: Locale, options: Options, s: Text, l: nat, st: Scan)
    requires st.idx < l <= |s| && ScanStep(loc, options, s, l, st).Go?
    ensures ScanStep(loc, options, s, l, st).next.idx == st.idx + 1
  {
  }

  /** The whole loop: where it stops, or `None` if it refuses. */
  function ScanAll(loc: Locale, options: Options, s: Text, l: nat, st: Scan): Option<Scan>
    requires st.idx <= l <= |s|
    decreases l - st.idx
  {
    if st.idx == l then Some(st)
    else
      match ScanStep(loc, options, s, l, st)
      case Fail => None
      case Stop => Some(st)
      case Go(next) =>
        StepAdvances(loc, options, s, l, st);
        ScanAll(loc, options, s, l, next)
  }

  /** The checks after the loop. */
  function Finish(options: Options, l: nat, st: Scan): Option<Text> {
    if !options.rejectGroupSeparator && st.lastSeparator + 1 == st.idx then None
    else if !options.rejectGroupSeparator && st.lastSeparator != -1 && st.idx - st.lastSeparator != 4 then None
    else if options.rejectTrailingZeroesAfterDot && st.decpt != -1 && st.exponent == -1 && Last(st.out) == ZERO then None
    else if st.idx != l then None
    else Some(st.out)
  }

  function SkipSpaces(loc: Locale, s: Text, i: nat): (k: nat)
    requires i <= |s|
    ensures i <= k <= |s|
    decreases |s| - i
  {
    if i < |s| && loc.isSpace(s[i]) then SkipSpaces(loc, s, i + 1) else i
  }

  function TrimEnd(loc: Locale, s: Text, from: nat, l: nat): (k: nat)
    requires from <= l <= |s|
    ensures from <= k <= l
    decreases l
  {
    if from < l && loc.isSpace(s[l - 1]) then TrimEnd(loc, s, from, l - 1) else l
  }

  /** The C text for a number in the locale, if it is one. */
  function ToCLocale(loc: Locale, s: Text, options: Options): Option<Text> {
    var i := SkipSpaces(loc, s, 0);
    if i == |s| then None
    else
      var l := TrimEnd(loc, s, i, |s|);
      match ScanAll(loc, options, s, l, Scan(i, -1, -1, -1, -1, []))
      case None => None
      case Some(st) => Finish(options, l, st)
  }

  method NormaliseOne(loc: Locale, c: nat) returns (out: nat)
    ensures out == Normalised(loc, c)
  {
    out := DigitToC(loc, c);
    if out == 0 {
      if c == loc.list {
        out := SEMICOLON;
      } else if c == loc.percent {
        out := PERCENT;
      } else if 0x41 <= c <= 0x5A {
        out := c + 0x20;
      } else if 0x61 <= c <= 0x7A {
        out := c;
      }
    }
  }

  /** The part of the loop that watches group separators; `skip` leaves a separator out. */
  method CheckSeparator(idx: nat, out: nat, decptIdx: int, exponentIdx: int, lastSeparator: int, startOfDigits: int, ghost result: Text)
    returns (good: bool, skip: bool, lastSeparatorIdx: int, startOfDigitsIdx: int)
    ensures var r := Separate(Scan(idx, decptIdx, lastSeparator, startOfDigits, exponentIdx, result), out);
      && good == r.Go?
      && (good ==> r.next == Scan(idx + 1, decptIdx, lastSeparatorIdx, startOfDigitsIdx, exponentIdx, if skip then result else result + [out]))
  {
    good, skip, lastSeparatorIdx, startOfDigitsIdx := true, false, lastSeparator, startOfDigits;
    if startOfDigitsIdx == -1 && IsDigit(out) {
      startOfDigitsIdx := idx;
    } else if out == COMMA {
      if decptIdx != -1 || exponentIdx != -1 {
        good := false;
      } else if lastSeparatorIdx != -1 && idx - lastSeparatorIdx != 4 {
        good := false;
      } else if lastSeparatorIdx == -1 && (startOfDigitsIdx == -1 || idx - startOfDigitsIdx > 3) {
        good := false;
      } else {
        lastSeparatorIdx, skip := idx, true;
      }
    } else if out == POINT || out == SMALL_E || out == 0x45 {
      if lastSeparatorIdx != -1 && idx - lastSeparatorIdx != 4 {
        good := false;
      } else {
        lastSeparatorIdx := -1;
      }
    }
  }

  /** The loops that leave out spaces in front and behind. */
  method WithoutSpaces(loc: Locale, s: Text) returns (idx: nat, l: nat)
    ensures idx == SkipSpaces(loc, s, 0) <= l <= |s|
    ensures idx < |s| ==> l == TrimEnd(loc, s, idx, |s|)
  {
    l, idx := |s|, 0;
    while idx < l && loc.isSpace(s[idx])
      invariant idx <= l && SkipSpaces(loc, s, idx) == SkipSpaces(loc, s, 0)
    {
      idx := idx + 1;
    }
    if idx == l {
      return;
    }
    while idx < l && loc.isSpace(s[l - 1])
      invariant idx <= l <= |s| && TrimEnd(loc, s, idx, l) == TrimEnd(loc, s, idx, |s|)
    {
      l := l - 1;
    }
  }

  /** `numberToCLocale`. */
  method NumberToCLocale(loc: Locale, s: Text, options: Options) returns (ok: bool, result: Text)
    ensures ok == ToCLocale(loc, s, options).Some?
    ensures ok ==> result == ToCLocale(loc, s, options).value
  {
    hide DigitToC, Normalised, Separate, IsDigit;
    result := [];
    var idx, l := WithoutSpaces(loc, s);
    if idx == |s| {
      return false, [];
    }
    var decptIdx, lastSeparatorIdx, startOfDigitsIdx, exponentIdx := -1, -1, -1, -1;
    ghost var whole := ScanAll(loc, options, s, l, Scan(idx, -1, -1, -1, -1, []));
    while idx < l
      invariant idx <= l
      invariant ScanAll(loc, options, s, l, Scan(idx, decptIdx, lastSeparatorIdx, startOfDigitsIdx, exponentIdx, result)) == whole
    {
      var special := DigitToC(loc, s[idx]);
      var out := NormaliseOne(loc, s[idx]);
      if out == 0 {
        break;
      }
      if special == POINT {
        if decptIdx != -1 || exponentIdx != -1 {
          return false, [];
        }
        decptIdx := idx;
      } else if special == SMALL_E {
        exponentIdx := idx;
      }
      if options.rejectLeadingZeroInExponent {
        if exponentIdx != -1 && out == ZERO && idx < l - 1 {
          if !IsDigit(Last(result)) {
            return false, [];
          }
        }
      }
      if options.rejectTrailingZeroesAfterDot {
        if decptIdx >= 0 && idx == exponentIdx && Last(result) == ZERO {
          return false, [];
        }
      }
      if !options.rejectGroupSeparator {
        var good, skip;
        good, skip, lastSeparatorIdx, startOfDigitsIdx :=
          CheckSeparator(idx, out, decptIdx, exponentIdx, lastSeparatorIdx, startOfDigitsIdx, result);
        if !good {
          return false, [];
        }
        if skip {
          idx := idx + 1;
          continue;
        }
      }
      result := result + [out];
      idx := idx + 1;
    }
    if !options.rejectGroupSeparator {
      if lastSeparatorIdx + 1 == idx {
        return false, [];
      }
      if lastSeparatorIdx != -1 && idx - lastSeparatorIdx != 4 {
        return false, [];
      }
    }
    if options.rejectTrailingZeroesAfterDot {
      if decptIdx != -1 && exponentIdx == -1 && Last(result) == ZERO {
        return false, [];
      }
    }
    ok := idx == l;
  }

  // ----- reading -------------------------------------------------------------------------

  predicate AllDigits(text: Text) {
    forall k :: 0 <= k < |text| ==> IsDigit(text[k])
  }

  function Figures(text: Text): (digits: seq<nat>)
    requires AllDigits(text)
    ensures |digits| == |text|
  {
    seq(|text|, k requires 0 <= k < |text| => text[k] - ZERO)
  }

  /** `strtoll` in base 10 on a whole string: an optional sign, digits, a 64-bit value. */
  function ReadDecimal(text: Text): Option<int> {
    var signed := text != [] && (text[0] == MINUS || text[0] == PLUS);
    var rest := if signed then text[1..] else text;
    if rest == [] || !AllDigits(rest) then None
    else
      var v := if signed && text[0] == MINUS then -(ValueOf(Figures(rest)) as int) else ValueOf(Figures(rest));
      if -TWO_63 <= v < TWO_63 then Some(v) else None
  }

  /** `stringToLongLong` in base 10. */
  function StringToLongLong(loc: Locale, s: Text, options: Options): Option<int> {
    match ToCLocale(loc, s, options)
    case None => None
    case Some(text) => ReadDecimal(text)
  }

  // ----- the round trip ------------------------------------------------------------------

  predicate NoDigit(loc: Locale, c: nat) {
    !(loc.zero <= c < loc.zero + 10) && !IsDigit(c)
  }

  /** A locale whose digits, signs and separators can be told apart. */
  ghost predicate Distinct(loc: Locale) {
    && loc.zero + 10 < 0x1_0000
    && NoDigit(loc, loc.plus) && NoDigit(loc, loc.minus) && NoDigit(loc, loc.group)
    && loc.minus != loc.plus && loc.minus != PLUS
    && loc.group != loc.plus && loc.group != PLUS && loc.group != loc.minus && loc.group != MINUS && loc.group != MATH_MINUS
    && loc.group != loc.decimal
    && loc.isSpace(BLANK) && !loc.isSpace(loc.plus) && !loc.isSpace(loc.minus)
    && forall c :: loc.zero <= c < loc.zero + 10 ==> !loc.isSpace(c)
  }

  /** Figures as characters of the C locale. */
  function Ascii(digits: seq<nat>): (text: Text)
    ensures |text| == |digits|
  {
    seq(|digits|, k requires 0 <= k < |digits| => ZERO + digits[k])
  }

  predicate Figured(digits: seq<nat>) {
    forall k :: 0 <= k < |digits| ==> digits[k] < 10
  }

  lemma SymbolsNormalised(loc: Locale, c: nat)
    requires Distinct(loc) && c < 10
    ensures DigitToC(loc, loc.zero + c) == Normalised(loc, loc.zero + c) == ZERO + c
    ensures DigitToC(loc, loc.minus) == Normalised(loc, loc.minus) == MINUS
    ensures DigitToC(loc, loc.plus) == Normalised(loc, loc.plus) == PLUS
    ensures DigitToC(loc, loc.group) == Normalised(loc, loc.group) == COMMA
  {
  }

  /** A run of digits. */
  function AfterDigits(options: Options, st: Scan, digits: seq<nat>): Scan {
    st.(idx := st.idx + |digits|, out := st.out + Ascii(digits),
        startOfDigits := if digits != [] && st.startOfDigits == -1 && !options.rejectGroupSeparator then st.idx else st.startOfDigits)
  }

  lemma DigitStep(loc: Locale, options: Options, s: Text, l: nat, st: Scan, c: nat)
    requires Distinct(loc) && c < 10 && st.idx < l <= |s| && s[st.idx] == loc.zero + c && st.decpt == -1 && st.exponent == -1
    ensures ScanStep(loc, options, s, l, st) == Go(AfterDigits(options, st, [c]))
  {
    SymbolsNormalised(loc, c);
    assert Ascii([c]) == [ZERO + c];
  }

  lemma ScanOn(loc: Locale, options: Options, s: Text, l: nat, st: Scan, c: nat)
    requires Distinct(loc) && c < 10 && st.idx < l <= |s| && s[st.idx] == loc.zero + c && st.decpt == -1 && st.exponent == -1
    ensures ScanAll(loc, options, s, l, st) == ScanAll(loc, options, s, l, AfterDigits(options, st, [c]))
  {
    DigitStep(loc, options, s, l, st, c);
    hide ScanStep, Distinct;
  }

  lemma DigitsJoin(options: Options, st: Scan, c: nat, rest: seq<nat>)
    ensures AfterDigits(options, AfterDigits(options, st, [c]), rest) == AfterDigits(options, st, [c] + rest)
  {
    AsciiCons(c, rest);
    assert Ascii([c]) == [ZERO + c];
    assert st.out + [ZERO + c] + Ascii(rest) == st.out + Ascii([c] + rest);
  }

  lemma {:induction false} DigitsRun(loc: Locale, options: Options, s: Text, l: nat, st: Scan, digits: seq<nat>)
    requires Distinct(loc) && Figured(digits) && st.decpt == -1 && st.exponent == -1
    requires st.idx + |digits| <= l <= |s|
    requires forall k :: 0 <= k < |digits| ==> s[st.idx + k] == loc.zero + digits[k]
    ensures ScanAll(loc, options, s, l, st) == ScanAll(loc, options, s, l, AfterDigits(options, st, digits))
    decreases |digits|
  {
    hide Distinct, ScanAll;
    if digits == [] {
      assert st.out + Ascii([]) == st.out;
    } else {
      var c, rest := digits[0], digits[1..];
      assert digits == [c] + rest;
      assert s[st.idx + 0] == loc.zero + c;
      ScanOn(loc, options, s, l, st, c);
      forall k | 0 <= k < |rest|
        ensures s[st.idx + 1 + k] == loc.zero + rest[k]
      {
        assert s[st.idx + (k + 1)] == loc.zero + digits[k + 1];
      }
      DigitsRun(loc, options, s, l, AfterDigits(options, st, [c]), rest);
      DigitsJoin(options, st, c, rest);
    }
  }

  lemma AsciiCons(c: nat, rest: seq<nat>)
    ensures Ascii([c] + rest) == [ZERO + c] + Ascii(rest)
  {
  }

  /** The state is one in which a separator may come. */
  predicate MaySeparate(st: Scan) {
    && st.decpt == -1 && st.exponent == -1 && st.startOfDigits != -1
    && (if st.lastSeparator == -1 then st.idx - st.startOfDigits <= 3 else st.idx - st.lastSeparator == 4)
  }

  lemma SeparatorStep(loc: Locale, options: Options, s: Text, l: nat, st: Scan)
    requires Distinct(loc) && !options.rejectGroupSeparator && st.idx < l <= |s| && s[st.idx] == loc.group
    requires st.decpt == -1 && st.exponent == -1 && st.startOfDigits != -1 && st.lastSeparator < st.idx
    ensures ScanStep(loc, options, s, l, st) == if MaySeparate(st) then Go(st.(lastSeparator := st.idx, idx := st.idx + 1)) else Fail
  {
    SymbolsNormalised(loc, 0);
  }

  /** What one group of the printed text is made of. */
  lemma OneGroup(s: Text, at: nat, l: nat, d: Text, i: nat, group: nat)
    requires at <= l <= |s| && i + 3 <= |d| && s[at..l] == GroupFrom(d, i, group)
    ensures at + 4 <= l && s[at] == group
    ensures s[at + 1] == d[i] && s[at + 2] == d[i + 1] && s[at + 3] == d[i + 2]
    ensures s[at + 4..l] == GroupFrom(d, i + 3, group)
  {
    var text := [group] + d[i..i + 3] + GroupFrom(d, i + 3, group);
    assert text == s[at..l];
    assert text[0] == s[at] && text[1] == s[at + 1] && text[2] == s[at + 2] && text[3] == s[at + 3];
    assert text[4..] == s[at + 4..l];
  }

  /** A separator and the three digits behind it. */
  lemma GroupRun(loc: Locale, options: Options, s: Text, l: nat, st: Scan, digits: seq<nat>, i: nat) returns (next: Scan)
    requires Distinct(loc) && Figured(digits) && !options.rejectGroupSeparator && MaySeparate(st)
    requires i + 3 <= |digits| && st.idx <= l <= |s| && st.lastSeparator < st.idx
    requires s[st.idx..l] == GroupFrom(Chars(digits, 10, loc.zero), i, loc.group)
    ensures next.idx == st.idx + 4 <= l && next.out == st.out + Ascii(digits[i..i + 3])
    ensures MaySeparate(next) && next.lastSeparator == next.idx - 4
    ensures s[next.idx..l] == GroupFrom(Chars(digits, 10, loc.zero), i + 3, loc.group)
    ensures ScanAll(loc, options, s, l, st) == ScanAll(loc, options, s, l, next)
  {
    OneGroup(s, st.idx, l, Chars(digits, 10, loc.zero), i, loc.group);
    SeparatorStep(loc, options, s, l, st);
    hide ScanStep, Distinct, GroupFrom;
    var sep := st.(lastSeparator := st.idx, idx := st.idx + 1);
    DigitsRun(loc, options, s, l, sep, digits[i..i + 3]);
    next := AfterDigits(options, sep, digits[i..i + 3]);
  }

  lemma {:induction false} GroupsRun(loc: Locale, options: Options, s: Text, l: nat, st: Scan, digits: seq<nat>, i: nat, k: nat)
    returns (end: Scan)
    requires Distinct(loc) && Figured(digits) && !options.rejectGroupSeparator
    requires i + 3 * k == |digits| && st.idx <= l <= |s| && st.lastSeparator < st.idx
    requires s[st.idx..l] == GroupFrom(Chars(digits, 10, loc.zero), i, loc.group)
    requires MaySeparate(st)
    ensures ScanAll(loc, options, s, l, st) == Some(end)
    ensures end.idx == l && end.out == st.out + Ascii(digits[i..]) && end.decpt == -1 && end.exponent == -1
    ensures end.lastSeparator == if k == 0 then st.lastSeparator else l - 4
    decreases k
  {
    hide Ascii;
    if k == 0 {
      end := st;
      assert digits[i..] == [] && st.out + Ascii([]) == st.out;
    } else {
      hide ScanAll, Distinct, Figured, Chars;
      var next := GroupRun(loc, options, s, l, st, digits, i);
      end := GroupsRun(loc, options, s, l, next, digits, i + 3, k - 1);
      AsciiConcat(digits[i..i + 3], digits[i + 3..]);
      assert digits[i..] == digits[i..i + 3] + digits[i + 3..];
      assert k == 1 ==> next.idx == l;
    }
  }

  lemma AsciiConcat(a: seq<nat>, b: seq<nat>)
    ensures Ascii(a + b) == Ascii(a) + Ascii(b)
  {
  }

  /** Digits with zeros in front, perhaps in groups. */
  function Number(loc: Locale, zeros: nat, digits: seq<nat>, grouped: bool): Text {
    var d := Chars(digits, 10, loc.zero);
    Repeat(loc.zero, zeros) + if grouped then Grouped(d, loc.group) else d
  }

  /** The first separator, if there is one, comes after three digits at most. */
  predicate Readable(zeros: nat, digits: seq<nat>, grouped: bool) {
    grouped && |digits| > 3 ==> zeros + FirstGroup(|digits|) <= 3
  }

  /** The digits before the first separator, with the zeros in front. */
  function Head(zeros: nat, digits: seq<nat>, f: nat): seq<nat>
    requires f <= |digits|
  {
    seq(zeros, _ => 0) + digits[..f]
  }

  lemma HeadChars(loc: Locale, zeros: nat, digits: seq<nat>, grouped: bool, s: Text, at: nat, f: nat)
    requires at <= |s| && s[at..] == Number(loc, zeros, digits, grouped) && Figured(digits)
    requires f == if grouped then FirstGroup(|digits|) else |digits|
    ensures Figured(Head(zeros, digits, f)) && at + zeros + f <= |s|
    ensures forall k :: 0 <= k < zeros + f ==> s[at + k] == loc.zero + Head(zeros, digits, f)[k]
    ensures s[at + zeros + f..] == if grouped then GroupFrom(Chars(digits, 10, loc.zero), f, loc.group) else []
  {
    var d := Chars(digits, 10, loc.zero);
    var rest := if grouped then GroupFrom(d, f, loc.group) else [];
    assert s[at..] == Repeat(loc.zero, zeros) + (d[..f] + rest);
    forall k | 0 <= k < zeros + f
      ensures s[at + k] == loc.zero + Head(zeros, digits, f)[k]
    {
      assert s[at + k] == s[at..][k];
    }
    assert s[at + zeros + f..] == s[at..][zeros + f..];
  }

  /** The scan came to the end with these figures. */
  predicate Ended(end: Scan, l: nat, out: Text, lastSeparator: int) {
    end.idx == l && end.decpt == -1 && end.exponent == -1 && end.out == out && end.lastSeparator == lastSeparator
  }

  predicate Fresh(st: Scan) {
    st.decpt == -1 && st.exponent == -1 && st.lastSeparator == -1 && st.startOfDigits == -1
  }

  /** Scanning a number without separators. */
  lemma PlainScanned(loc: Locale, options: Options, s: Text, st: Scan, zeros: nat, digits: seq<nat>, grouped: bool)
    returns (end: Scan)
    requires Distinct(loc) && Figured(digits) && (grouped ==> |digits| <= 3)
    requires st.idx <= |s| && s[st.idx..] == Number(loc, zeros, digits, grouped) && Fresh(st)
    ensures ScanAll(loc, options, s, |s|, st) == Some(end)
    ensures Ended(end, |s|, st.out + Ascii(Head(zeros, digits, |digits|)), -1)
  {
    HeadChars(loc, zeros, digits, grouped, s, st.idx, |digits|);
    var head := Head(zeros, digits, |digits|);
    DigitsRun(loc, options, s, |s|, st, head);
    end := AfterDigits(options, st, head);
    assert s[end.idx..] == [];
  }

  lemma GroupCount(n: nat, f: nat) returns (k: nat)
    requires n > 0 && f == FirstGroup(n)
    ensures n == f + 3 * k && (n > 3 ==> k > 0)
  {
    k := (n - 1) / 3;
    DivModSplit(n - 1, 3);
  }

  /** Scanning a number with separators. */
  lemma GroupedScanned(loc: Locale, options: Options, s: Text, st: Scan, zeros: nat, digits: seq<nat>)
    returns (end: Scan)
    requires Distinct(loc) && Figured(digits) && |digits| > 3 && !options.rejectGroupSeparator
    requires st.idx <= |s| && s[st.idx..] == Number(loc, zeros, digits, true) && Fresh(st)
    ensures Readable(zeros, digits, true) ==> ScanAll(loc, options, s, |s|, st) == Some(end)
    ensures Readable(zeros, digits, true) ==> Ended(end, |s|, st.out + Ascii(Head(zeros, digits, |digits|)), |s| - 4)
    ensures !Readable(zeros, digits, true) ==> ScanAll(loc, options, s, |s|, st) == None
  {
    var f := FirstGroup(|digits|);
    var k := GroupCount(|digits|, f);
    var mid := HeadScanned(loc, options, s, st, zeros, digits, f);
    end := mid;
    if Readable(zeros, digits, true) {
      end := GroupsRun(loc, options, s, |s|, mid, digits, f, k);
      AllFigures(zeros, digits, f, st.out);
    } else {
      OneGroup(s, mid.idx, |s|, Chars(digits, 10, loc.zero), f, loc.group);
      SeparatorStep(loc, options, s, |s|, mid);
    }
  }

  /** Up to the first separator. */
  lemma HeadScanned(loc: Locale, options: Options, s: Text, st: Scan, zeros: nat, digits: seq<nat>, f: nat) returns (mid: Scan)
    requires Distinct(loc) && Figured(digits) && f == FirstGroup(|digits|) > 0
    requires st.idx <= |s| && s[st.idx..] == Number(loc, zeros, digits, true) && Fresh(st)
    ensures mid == AfterDigits(options, st, Head(zeros, digits, f)) && mid.idx == st.idx + zeros + f <= |s|
    ensures ScanAll(loc, options, s, |s|, st) == ScanAll(loc, options, s, |s|, mid)
    ensures s[mid.idx..|s|] == GroupFrom(Chars(digits, 10, loc.zero), f, loc.group)
  {
    hide ScanAll, Number, Chars, GroupFrom, Distinct;
    HeadChars(loc, zeros, digits, true, s, st.idx, f);
    var head := Head(zeros, digits, f);
    DigitsRun(loc, options, s, |s|, st, head);
    mid := AfterDigits(options, st, head);
    assert s[mid.idx..] == s[mid.idx..|s|];
  }

  /** What has been put out stays there. */
  lemma {:induction false} OutStays(loc: Locale, options: Options, s: Text, l: nat, st: Scan, c: nat)
    requires st.idx <= l <= |s| && c in st.out && ScanAll(loc, options, s, l, st).Some?
    ensures c in ScanAll(loc, options, s, l, st).value.out
    decreases l - st.idx
  {
    if st.idx < l {
      match ScanStep(loc, options, s, l, st)
      case Fail =>
      case Stop =>
      case Go(next) =>
        StepAdvances(loc, options, s, l, st);
        OutStays(loc, options, s, l, next, c);
    }
  }

  lemma SeparatorOut(loc: Locale, options: Options, s: Text, l: nat, st: Scan)
    requires Distinct(loc) && options.rejectGroupSeparator && st.idx < l <= |s| && s[st.idx] == loc.group
    requires st.decpt == -1 && st.exponent == -1
    ensures ScanStep(loc, options, s, l, st) == Go(st.(out := st.out + [COMMA], idx := st.idx + 1))
  {
    SymbolsNormalised(loc, 0);
  }

  /** If separators are not welcome, they are not left out either. */
  lemma SeparatorLeft(loc: Locale, options: Options, s: Text, st: Scan, zeros: nat, digits: seq<nat>)
    requires Distinct(loc) && Figured(digits) && |digits| > 3 && options.rejectGroupSeparator
    requires st.idx <= |s| && s[st.idx..] == Number(loc, zeros, digits, true) && Fresh(st)
    ensures ScanAll(loc, options, s, |s|, st).Some? ==> COMMA in ScanAll(loc, options, s, |s|, st).value.out
  {
    var f := FirstGroup(|digits|);
    var k := GroupCount(|digits|, f);
    var mid := HeadScanned(loc, options, s, st, zeros, digits, f);
    OneGroup(s, mid.idx, |s|, Chars(digits, 10, loc.zero), f, loc.group);
    SeparatorOut(loc, options, s, |s|, mid);
    hide Number, GroupFrom, Chars, ScanStep, Distinct;
    var next := mid.(out := mid.out + [COMMA], idx := mid.idx + 1);
    if ScanAll(loc, options, s, |s|, next).Some? {
      OutStays(loc, options, s, |s|, next, COMMA);
    }
  }

  lemma AllFigures(zeros: nat, digits: seq<nat>, f: nat, out: Text)
    requires f <= |digits|
    ensures out + Ascii(Head(zeros, digits, f)) + Ascii(digits[f..]) == out + Ascii(Head(zeros, digits, |digits|))
  {
    AsciiConcat(Head(zeros, digits, f), digits[f..]);
    assert Head(zeros, digits, f) + digits[f..] == Head(zeros, digits, |digits|);
  }

  // ----- signs and spaces ----------------------------------------------------------------

  /** The sign as the C locale writes it. */
  function CSign(l: int, flags: Flags): Text {
    if l < 0 then [MINUS] else if flags.alwaysShowSign then [PLUS] else []
  }

  /** A number of at least one digit neither begins nor ends with a space. */
  lemma NumberEnds(loc: Locale, zeros: nat, digits: seq<nat>, grouped: bool)
    requires Distinct(loc) && Figured(digits) && zeros + |digits| > 0
    ensures var n := Number(loc, zeros, digits, grouped); n != [] && !loc.isSpace(n[0]) && !loc.isSpace(n[|n| - 1])
  {
    var d, n := Chars(digits, 10, loc.zero), Number(loc, zeros, digits, grouped);
    if grouped && |digits| > 0 {
      var f := FirstGroup(|digits|);
      var k := GroupCount(|digits|, f);
      GroupsEnd(d, f, k, loc.group);
    }
  }

  lemma {:induction false} GroupsEnd(d: Text, i: nat, k: nat, group: nat)
    requires i + 3 * k == |d|
    ensures k > 0 ==> GroupFrom(d, i, group) != [] && GroupFrom(d, i, group)[|GroupFrom(d, i, group)| - 1] == d[|d| - 1]
    ensures k == 0 ==> GroupFrom(d, i, group) == []
    decreases k
  {
    if k > 0 {
      GroupsEnd(d, i + 3, k - 1, group);
    }
  }

  /** Where scanning starts, and that it goes to the very end. */
  lemma Framed(loc: Locale, l: int, flags: Flags, n: Text, s: Text)
    requires Distinct(loc) && n != [] && !loc.isSpace(n[0]) && !loc.isSpace(n[|n| - 1]) && s == Sign(loc, l, flags) + n
    ensures SkipSpaces(loc, s, 0) == if Sign(loc, l, flags) == [BLANK] then 1 else 0
    ensures forall i: nat :: i <= |s| ==> TrimEnd(loc, s, i, |s|) == |s|
    ensures s[|Sign(loc, l, flags)|..] == n
  {
    assert s[|s| - 1] == n[|n| - 1];
    if Sign(loc, l, flags) != [] {
      assert s[0] == Sign(loc, l, flags)[0] && s[1] == n[0];
    }
  }

  /** The sign is normalised first. */
  lemma SignScanned(loc: Locale, options: Options, l: int, flags: Flags, n: Text, s: Text) returns (st: Scan)
    requires Distinct(loc) && n != [] && s == Sign(loc, l, flags) + n
    ensures st.idx == |Sign(loc, l, flags)| && Fresh(st) && st.out == CSign(l, flags)
    ensures var start := if Sign(loc, l, flags) == [BLANK] then 1 else 0;
      ScanAll(loc, options, s, |s|, Scan(start, -1, -1, -1, -1, [])) == ScanAll(loc, options, s, |s|, st)
  {
    SymbolsNormalised(loc, 0);
    var first := Scan(0, -1, -1, -1, -1, []);
    if l < 0 || flags.alwaysShowSign {
      assert s[0] == Sign(loc, l, flags)[0];
      st := Scan(1, -1, -1, -1, -1, [] + CSign(l, flags));
      assert ScanStep(loc, options, s, |s|, first) == Go(st);
    } else {
      st := Scan(|Sign(loc, l, flags)|, -1, -1, -1, -1, []);
    }
  }

  /** What normalising makes of a printed number of at least one digit. */
  lemma PrintedNormalised(loc: Locale, options: Options, l: int, flags: Flags, zeros: nat, digits: seq<nat>, grouped: bool)
    requires Distinct(loc) && Figured(digits) && zeros + |digits| > 0
    requires grouped && |digits| > 3 ==> !options.rejectGroupSeparator
    ensures ToCLocale(loc, Sign(loc, l, flags) + Number(loc, zeros, digits, grouped), options)
         == if Readable(zeros, digits, grouped) then Some(CSign(l, flags) + Ascii(Head(zeros, digits, |digits|))) else None
  {
    var n := Number(loc, zeros, digits, grouped);
    var s := Sign(loc, l, flags) + n;
    NumberEnds(loc, zeros, digits, grouped);
    Framed(loc, l, flags, n, s);
    var st := SignScanned(loc, options, l, flags, n, s);
    if grouped && |digits| > 3 {
      var end := GroupedScanned(loc, options, s, st, zeros, digits);
    } else {
      var end := PlainScanned(loc, options, s, st, zeros, digits, grouped);
    }
  }

  lemma SeparatedRefused(loc: Locale, options: Options, l: int, flags: Flags, zeros: nat, digits: seq<nat>)
    requires Distinct(loc) && Figured(digits) && |digits| > 3 && options.rejectGroupSeparator
    ensures var text := ToCLocale(loc, Sign(loc, l, flags) + Number(loc, zeros, digits, true), options);
      text.Some? ==> COMMA in text.value
  {
    var n := Number(loc, zeros, digits, true);
    var s := Sign(loc, l, flags) + n;
    NumberEnds(loc, zeros, digits, true);
    Framed(loc, l, flags, n, s);
    var st := SignScanned(loc, options, l, flags, n, s);
    SeparatorLeft(loc, options, s, st, zeros, digits);
  }

  lemma NoComma(text: Text)
    requires COMMA in text
    ensures ReadDecimal(text) == None
  {
    if text[0] == MINUS || text[0] == PLUS {
      assert COMMA in text[1..];
    }
  }

  /** Reading figures, with a C sign or without. */
  lemma SignedRead(sign: Text, head: seq<nat>)
    requires Figured(head) && head != [] && (sign == [] || sign == [MINUS] || sign == [PLUS])
    requires ValueOf(head) < TWO_63
    ensures ReadDecimal(sign + Ascii(head)) == Some(if sign == [MINUS] then -(ValueOf(head) as int) else ValueOf(head))
  {
    hide ValueOf;
    assert Figures(Ascii(head)) == head;
    var text := sign + Ascii(head);
    if sign == [] {
      assert text == Ascii(head) && IsDigit(text[0]);
    } else {
      assert text[0] == sign[0] && text[1..] == Ascii(head);
    }
  }

  lemma FiguresRead(l: int, flags: Flags, zeros: nat, digits: seq<nat>)
    requires -TWO_63 < l < TWO_63 && digits == DigitsOf(Magnitude(l), 10) && zeros + |digits| > 0
    ensures ReadDecimal(CSign(l, flags) + Ascii(Head(zeros, digits, |digits|))) == Some(l)
  {
    assert digits[..|digits|] == digits;
    LeadingZeros(seq(zeros, _ => 0), digits);
    DigitsValue(Magnitude(l));
    SignedRead(CSign(l, flags), Head(zeros, digits, |digits|));
  }

  /** Does the printed text have a separator? */
  predicate Separated(l: int, flags: Flags) {
    flags.thousandsGroup && |DigitsOf(Magnitude(l), 10)| > 3
  }

  lemma PrintedIs(loc: Locale, l: int, precision: int, width: int, flags: Flags)
    ensures Printed(loc, l, precision, width, flags)
         == Sign(loc, l, flags) + Number(loc, Pad(loc, l, precision, width, flags), DigitsOf(Magnitude(l), 10), flags.thousandsGroup)
  {
  }

  /** Printed and read again a number is itself, unless no digit was asked for, or it has
      separators and these are rejected, or zeros were padded in front of a group so that more
      than three digits precede the first separator: then it is refused. */
  lemma RoundTripIff(loc: Locale, options: Options, l: int, precision: int, width: int, flags: Flags)
    requires Distinct(loc) && -TWO_63 < l < TWO_63
    ensures var pad, n := Pad(loc, l, precision, width, flags), |DigitsOf(Magnitude(l), 10)|;
      StringToLongLong(loc, Printed(loc, l, precision, width, flags), options)
      == if pad + n > 0 && (Separated(l, flags) ==> !options.rejectGroupSeparator && pad + FirstGroup(n) <= 3) then Some(l) else None
  {
    var pad, digits := Pad(loc, l, precision, width, flags), DigitsOf(Magnitude(l), 10);
    PrintedIs(loc, l, precision, width, flags);
    if pad + |digits| == 0 {
      NoDigits(l);
      NothingRead(loc, options, flags);
    } else if Separated(l, flags) && options.rejectGroupSeparator {
      SeparatedRefused(loc, options, l, flags, pad, digits);
      var text := ToCLocale(loc, Sign(loc, l, flags) + Number(loc, pad, digits, true), options);
      if text.Some? {
        NoComma(text.value);
      }
    } else {
      NumberRead(loc, options, l, flags, pad, digits);
    }
  }

  /** The refusal happens: 1234 in groups, filled up with zeros to eight characters. */
  lemma PaddedGroupRefused(loc: Locale, options: Options)
    requires Distinct(loc)
    ensures var flags := Flags(true, false, false, false, true);
      StringToLongLong(loc, Printed(loc, 1234, -1, 8, flags), options) == None
  {
    var flags := Flags(true, false, false, false, true);
    var digits := DigitsOf(1234, 10);
    assert DigitsOf(1, 10) == [1] && DigitsOf(12, 10) == [1, 2] && DigitsOf(123, 10) == [1, 2, 3] && digits == [1, 2, 3, 4];
    var d := Chars(digits, 10, loc.zero);
    assert GroupFrom(d, 4, loc.group) == [] && |GroupFrom(d, 1, loc.group)| == 4 && |Grouped(d, loc.group)| == 5;
    assert Pad(loc, 1234, -1, 8, flags) == 3;
    RoundTripIff(loc, options, 1234, -1, 8, flags);
  }

  lemma NumberRead(loc: Locale, options: Options, l: int, flags: Flags, pad: nat, digits: seq<nat>)
    requires Distinct(loc) && -TWO_63 < l < TWO_63 && digits == DigitsOf(Magnitude(l), 10) && pad + |digits| > 0
    requires flags.thousandsGroup && |digits| > 3 ==> !options.rejectGroupSeparator
    ensures StringToLongLong(loc, Sign(loc, l, flags) + Number(loc, pad, digits, flags.thousandsGroup), options)
         == if Readable(pad, digits, flags.thousandsGroup) then Some(l) else None
  {
    PrintedNormalised(loc, options, l, flags, pad, digits, flags.thousandsGroup);
    FiguresRead(l, flags, pad, digits);
  }

  lemma NoDigits(l: int)
    requires DigitsOf(Magnitude(l), 10) == []
    ensures l == 0
  {
  }

  /** A sign alone, a blank or nothing is no number. */
  lemma NothingRead(loc: Locale, options: Options, flags: Flags)
    requires Distinct(loc)
    ensures StringToLongLong(loc, Sign(loc, 0, flags) + Number(loc, 0, [], flags.thousandsGroup), options) == None
  {
    SymbolsNormalised(loc, 0);
    var s := Sign(loc, 0, flags);
    assert s + Number(loc, 0, [], flags.thousandsGroup) == s;
  }

  /** Without padding every 64-bit number above the smallest comes back. */
  lemma RoundTrip(loc: Locale, options: Options, l: int, flags: Flags)
    requires Distinct(loc) && -TWO_63 < l < TWO_63 && !flags.zeroPadded
    requires flags.thousandsGroup ==> !options.rejectGroupSeparator
    ensures StringToLongLong(loc, Printed(loc, l, -1, -1, flags), options) == Some(l)
  {
    RoundTripIff(loc, options, l, -1, -1, flags);
    var digits := DigitsOf(Magnitude(l), 10);
    if flags.thousandsGroup && |digits| > 0 {
      var k := GroupCount(|digits|, FirstGroup(|digits|));
    }
  }
}
