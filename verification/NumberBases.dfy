/** Integers as text in bases other than ten (`longLongToString` and `unsLongLongToString` of
    src/utils/Locale.cpp): no groups, ASCII digits, and a prefix if asked for.  Only the
    unsigned form may still write a sign. */
module NumberBases {
  import opened Arithmetic
  import opened LocaleNumbers

  datatype BaseFlags = BaseFlags(zeroPadded: bool, leftAdjusted: bool, showBase: bool, capital: bool, uppercaseBase: bool)

  predicate OtherBase(base: nat) {
    2 <= base <= 36 && base != 10
  }

  /** What C makes of a signed number passed as an unsigned one. */
  function Unsigned(l: int): (u: nat)
    requires -TWO_63 <= l < TWO_63
    ensures u < TWO_64
  {
    if l < 0 then l + TWO_64 else l
  }

  function Upper(text: Text): (after: Text)
    ensures |after| == |text|
  {
    seq(|text|, k requires 0 <= k < |text| => if 0x61 <= text[k] <= 0x7A then text[k] - 0x20 else text[k])
  }

  function Cased(text: Text, flags: BaseFlags): Text {
    if flags.capital then Upper(text) else text
  }

  /** 0x, 0X, 0b or 0B; the zero in front of an octal number is among its digits. */
  function Prefix(base: nat, flags: BaseFlags): Text {
    if !flags.showBase then []
    else if base == 16 then [ZERO, if flags.uppercaseBase then 0x58 else 0x78]
    else if base == 2 then [ZERO, if flags.uppercaseBase then 0x42 else 0x62]
    else []
  }

  // ----- what a text denotes -------------------------------------------------------------

  /** The value of a digit in either case; `36` for other characters. */
  function DigitValue(c: nat): nat {
    if ZERO <= c <= NINE then c - ZERO
    else if 0x61 <= c <= 0x7A then c - 0x61 + 10
    else if 0x41 <= c <= 0x5A then c - 0x41 + 10
    else 36
  }

  function ValueIn(text: Text, base: nat): nat {
    if text == [] then 0 else base * ValueIn(text[..|text| - 1], base) + DigitValue(text[|text| - 1])
  }

  /** Every character is a digit of the base. */
  predicate InBase(text: Text, base: nat) {
    forall k :: 0 <= k < |text| ==> DigitValue(text[k]) < base
  }

  lemma CharOf(c: nat, base: nat, zero: nat)
    requires OtherBase(base) && c < base
    ensures DigitValue(DigitChar(c, base, zero)) == c
  {
  }

  lemma OneMoreDigit(init: Text, c: nat, base: nat)
    requires InBase(init, base) && DigitValue(c) < base
    ensures InBase(init + [c], base) && ValueIn(init + [c], base) == base * ValueIn(init, base) + DigitValue(c)
  {
    assert (init + [c])[..|init|] == init;
  }

  lemma {:induction false} CharsDenote(u: nat, base: nat, zero: nat)
    requires OtherBase(base)
    ensures var text := Chars(DigitsOf(u, base), base, zero);
      InBase(text, base) && ValueIn(text, base) == u
  {
    if u > 0 {
      DivShrinks(u, base);
      var rest, digit := u / base, u % base;
      DivModSplit(u, base);
      CharsDenote(rest, base, zero);
      CharOf(digit, base, zero);
      assert DigitsOf(u, base) == DigitsOf(rest, base) + [digit];
      hide DigitsOf, DigitChar, InBase, ValueIn;
      OneMoreDigit(Chars(DigitsOf(rest, base), base, zero), DigitChar(digit, base, zero), base);
      assert Chars(DigitsOf(rest, base) + [digit], base, zero)
          == Chars(DigitsOf(rest, base), base, zero) + [DigitChar(digit, base, zero)];
      Recombine(u, rest, digit, base);
    }
  }

  lemma Recombine(u: nat, rest: nat, digit: nat, base: nat)
    requires u == digit + rest * base
    ensures base * rest + digit == u
  {
  }

  lemma {:induction false} ZerosDenote(n: nat, text: Text, base: nat)
    requires InBase(text, base) && base > 0
    ensures InBase(Repeat(ZERO, n) + text, base) && ValueIn(Repeat(ZERO, n) + text, base) == ValueIn(text, base)
    decreases n + |text|
  {
    var all := Repeat(ZERO, n) + text;
    if text != [] {
      ZerosDenote(n, text[..|text| - 1], base);
      assert all[..|all| - 1] == Repeat(ZERO, n) + text[..|text| - 1];
    } else if n > 0 {
      ZerosDenote(n - 1, [], base);
      assert all[..|all| - 1] == Repeat(ZERO, n - 1) + [];
    }
  }

  lemma {:induction false} UpperDenotes(text: Text, base: nat)
    requires InBase(text, base) && base <= 36
    ensures InBase(Upper(text), base) && ValueIn(Upper(text), base) == ValueIn(text, base)
  {
    if text != [] {
      UpperDenotes(text[..|text| - 1], base);
      assert Upper(text)[..|text| - 1] == Upper(text[..|text| - 1]);
    }
  }

  // ----- printing ------------------------------------------------------------------------

  /** The zeros in front of `size` digits, the first of which is a zero or not. */
  function ZerosFor(base: nat, size: nat, zeroFirst: bool, precision: int, width: int, flags: BaseFlags): nat {
    var p := AtLeastZero((if precision == -1 then 1 else precision) - size);
    var octal := if flags.showBase && base == 8 && p == 0 && !zeroFirst then 1 else 0;
    if flags.zeroPadded && !flags.leftAdjusted && precision == -1
    then p + octal + AtLeastZero(width - (p + octal + size) - |Prefix(base, flags)|)
    else p + octal
  }

  function PrintedIn(base: nat, digits: Text, precision: int, width: int, flags: BaseFlags): Text {
    Prefix(base, flags)
    + Cased(Repeat(ZERO, ZerosFor(base, |digits|, digits != [] && digits[0] == ZERO, precision, width, flags)) + digits, flags)
  }

  /** The text that is printed: the prefix of the base in the case asked for, zeros up to the precision
      or, if none is given and padding with zeros is asked for and the text is not aligned left, up
      to the width, and the digits in the case asked for.  An octal number with its base shown begins
      with a zero. */
  lemma PrintedMeans(base: nat, digits: Text, precision: int, width: int, flags: BaseFlags)
    requires OtherBase(base)
    ensures var text := PrintedIn(base, digits, precision, width, flags);
      var prefix := if flags.showBase && (base == 16 || base == 2) then 2 else 0;
      var least := Larger(|digits|, if precision == -1 then 1 else precision);
      var least' :=
        if flags.showBase && base == 8 && least == |digits| && !(|digits| > 0 && digits[0] == 0x30) then least + 1 else least;
      && |text| == prefix + (if precision == -1 && flags.zeroPadded && !flags.leftAdjusted then Larger(least', width - prefix) else least')
      && (prefix == 2 ==> text[0] == 0x30 && text[1] == (if base == 16 then 0x78 else 0x62) - (if flags.uppercaseBase then 0x20 else 0))
      && (flags.showBase && base == 8 ==> text[0] == 0x30)
      && (forall k :: prefix <= k < |text| - |digits| ==> text[k] == 0x30)
      && (forall k :: |text| - |digits| <= k < |text| ==>
            var c := digits[k - (|text| - |digits|)];
            text[k] == if flags.capital && 0x61 <= c <= 0x7A then c - 0x20 else c)
  {
    var text := PrintedIn(base, digits, precision, width, flags);
    var zeros := ZerosFor(base, |digits|, digits != [] && digits[0] == ZERO, precision, width, flags);
    assert text == Prefix(base, flags) + Cased(Repeat(ZERO, zeros) + digits, flags);
  }

  /** What both functions do with the digits. */
  method Dress(base: nat, digits: Text, precision: int, width: int, flags: BaseFlags) returns (num: Text)
    requires OtherBase(base)
    ensures num == PrintedIn(base, digits, precision, width, flags)
  {
    hide Upper;
    num := PadIn(base, digits, precision, width, flags);
    if flags.capital {
      num := Upper(num);
    }
    num := Prefix(base, flags) + num;
  }

  /** Precision, the zero of an octal number, and width. */
  method PadIn(base: nat, digits: Text, precision: int, width: int, flags: BaseFlags) returns (num: Text)
    requires OtherBase(base)
    ensures num == Repeat(ZERO, ZerosFor(base, |digits|, digits != [] && digits[0] == ZERO, precision, width, flags)) + digits
  {
    var precisionNotSpecified := precision == -1;
    var least := if precisionNotSpecified then 1 else precision;
    num := PadZeros(ZERO, digits, least - |digits|);
    ghost var zeros := AtLeastZero(least - |digits|);
    if flags.showBase && base == 8 && (num == [] || num[0] != ZERO) {
      num := [ZERO] + num;
      zeros := zeros + 1;
    }
    assert num == Repeat(ZERO, zeros) + digits;
    if flags.zeroPadded && !flags.leftAdjusted && precisionNotSpecified {
      var numPadChars := width - |num|;
      if (base == 16 || base == 2) && flags.showBase {
        numPadChars := numPadChars - 2;
      }
      PadTwice(ZERO, AtLeastZero(numPadChars), zeros, digits);
      num := PadZeros(ZERO, num, numPadChars);
    }
  }

  /** `longLongToString`. */
  method LongLongToString(base: nat, l: int, zero: nat, precision: int, width: int, flags: BaseFlags) returns (num: Text)
    requires OtherBase(base) && -TWO_63 <= l < TWO_63
    ensures num == PrintedIn(base, Chars(DigitsOf(Unsigned(l), base), base, zero), precision, width, flags)
  {
    num := Ulltoa(Unsigned(l), base, zero);
    num := Dress(base, num, precision, width, flags);
  }

  /** The sign in front of the prefix. */
  function PlusSign(plus: nat, alwaysShowSign: bool, blankBeforePositive: bool): Text {
    if alwaysShowSign then [plus] else if blankBeforePositive then [BLANK] else []
  }

  /** `unsLongLongToString`, which has a digit for zero. */
  method UnsLongLongToString(base: nat, l: nat, zero: nat, plus: nat, precision: int, width: int, flags: BaseFlags,
                             alwaysShowSign: bool, blankBeforePositive: bool) returns (num: Text)
    requires OtherBase(base) && l < TWO_64
    ensures num == PlusSign(plus, alwaysShowSign, blankBeforePositive)
                 + PrintedIn(base, if l == 0 then [ZERO] else Chars(DigitsOf(l, base), base, zero), precision, width, flags)
  {
    if l != 0 {
      num := Ulltoa(l, base, zero);
    } else {
      num := [ZERO];
    }
    if precision == -1 && flags == BaseFlags(false, false, false, false, false) && !alwaysShowSign && !blankBeforePositive {
      assert Prefix(base, flags) + num == num && Repeat(ZERO, 0) + num == num && [] + num == num;
      return;
    }
    num := Dress(base, num, precision, width, flags);
    num := PlusSign(plus, alwaysShowSign, blankBeforePositive) + num;
  }

  /** Behind its prefix a printed number is written in digits of the base, and denotes the number
      modulo 2^64, whatever the padding and the case. */
  lemma PrintedDenotes(base: nat, u: nat, zero: nat, precision: int, width: int, flags: BaseFlags)
    requires OtherBase(base)
    ensures forall digits | digits == Chars(DigitsOf(u, base), base, zero) || (u == 0 && digits == [ZERO]) ::
      var text := PrintedIn(base, digits, precision, width, flags);
      && Prefix(base, flags) <= text
      && InBase(text[|Prefix(base, flags)|..], base) && ValueIn(text[|Prefix(base, flags)|..], base) == u
  {
    forall digits | digits == Chars(DigitsOf(u, base), base, zero) || (u == 0 && digits == [ZERO])
      ensures var text := PrintedIn(base, digits, precision, width, flags);
        && Prefix(base, flags) <= text
        && InBase(text[|Prefix(base, flags)|..], base) && ValueIn(text[|Prefix(base, flags)|..], base) == u
    {
      CharsDenote(u, base, zero);
      assert u == 0 && digits == [ZERO] ==> InBase(digits, base) && digits[..0] == [] && ValueIn(digits, base) == 0;
      var n := ZerosFor(base, |digits|, digits != [] && digits[0] == ZERO, precision, width, flags);
      ZerosDenote(n, digits, base);
      UpperDenotes(Repeat(ZERO, n) + digits, base);
      var text := PrintedIn(base, digits, precision, width, flags);
      assert text[|Prefix(base, flags)|..] == Cased(Repeat(ZERO, n) + digits, flags);
    }
  }
}
