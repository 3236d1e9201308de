/** Unsigned integers as text in a locale: `unsLongLongToString` and `stringToUnsLongLong` of
    src/utils/Locale.cpp.  They differ from the signed forms in how zero is written, in what
    zero padding leaves room for, and in the range. */
module UnsignedNumbers {
  import opened Wrappers
  import opened LocaleNumbers

  /** Zero has a digit of its own. */
  function Written(loc: Locale, l: nat, flags: Flags): Text {
    if l == 0 then [loc.zero] else Body(loc, l, flags)
  }

  /** No room is left for the sign. */
  function PadUnsigned(loc: Locale, l: nat, precision: int, width: int, flags: Flags): nat {
    var size := |Written(loc, l, flags)|;
    var p := AtLeastZero((if precision == -1 then 1 else precision) - size);
    if flags.zeroPadded && !flags.leftAdjusted && precision == -1 then p + AtLeastZero(width - (p + size)) else p
  }

  function PrintedUnsigned(loc: Locale, l: nat, precision: int, width: int, flags: Flags): Text {
    Sign(loc, l, flags) + (Repeat(loc.zero, PadUnsigned(loc, l, precision, width, flags)) + Written(loc, l, flags))
  }

  /** What is printed: the sign asked for, then zeros up to the precision or, if no precision is given
      and padding with zeros is asked for and the text is not aligned left, up to the width, from
      which the sign is not taken off, then the digits in groups or not, of which zero has one. */
  lemma PrintedUnsignedMeans(loc: Locale, l: nat, precision: int, width: int, flags: Flags)
    ensures var text := PrintedUnsigned(loc, l, precision, width, flags);
      var digits := Chars(DigitsOf(l, 10), 10, loc.zero);
      var body := if l == 0 then [loc.zero] else if flags.thousandsGroup then Grouped(digits, loc.group) else digits;
      var signs := if flags.alwaysShowSign || flags.blankBeforePositive then 1 else 0;
      var wanted :=
        if precision != -1 then precision
        else if flags.zeroPadded && !flags.leftAdjusted then Larger(1, width)
        else 1;
      && |text| == signs + Larger(|body|, wanted)
      && (flags.alwaysShowSign ==> text[0] == loc.plus)
      && (!flags.alwaysShowSign && flags.blankBeforePositive ==> text[0] == 0x20)
      && (forall k :: signs <= k < |text| - |body| ==> text[k] == loc.zero)
      && text[|text| - |body|..] == body
  {
    hide DigitsOf, Grouped, Chars;
    var body, zeros := Written(loc, l, flags), Repeat(loc.zero, PadUnsigned(loc, l, precision, width, flags));
    BehindAll(Sign(loc, l, flags), zeros, body);
  }

  lemma BehindAll(sign: Text, zeros: Text, body: Text)
    ensures var text := sign + (zeros + body);
      text[|text| - |body|..] == body && forall k :: |sign| <= k < |sign| + |zeros| ==> text[k] == zeros[k - |sign|]
  {
  }

  /** `unsLongLongToString` in base 10. */
  method UnsLongLongToString(loc: Locale, l: nat, precision: int, width: int, flags: Flags) returns (num: Text)
    requires l < TWO_64
    ensures num == PrintedUnsigned(loc, l, precision, width, flags)
  {
    if l == 0 {
      num := [loc.zero];
    } else {
      num := Ulltoa(l, 10, loc.zero);
    }
    ghost var plain := num;
    var digits := precision;
    var precisionNotSpecified := false;
    if precision == -1 {
      if flags == Flags(false, false, false, false, false) {
        return;
      }
      precisionNotSpecified := true;
      digits := 1;
    }
    if flags.thousandsGroup {
      num := InsertGroups(num, loc.group);
    }
    assert num == Written(loc, l, flags);
    ghost var written := num;
    num := PadZeros(loc.zero, num, digits - |num|);
    if flags.zeroPadded && !flags.leftAdjusted && precisionNotSpecified {
      var numPadChars := width - |num|;
      PadTwice(loc.zero, AtLeastZero(numPadChars), AtLeastZero(digits - |written|), written);
      num := PadZeros(loc.zero, num, numPadChars);
    }
    num := Sign(loc, l, flags) + num;
  }

  /** `strtoull` in base 10 on a whole string, which refuses a minus sign here. */
  function ReadUnsigned(text: Text): Option<nat> {
    var rest := if text != [] && text[0] == PLUS then text[1..] else text;
    if rest == [] || !AllDigits(rest) then None
    else if ValueOf(Figures(rest)) < TWO_64 then Some(ValueOf(Figures(rest)))
    else None
  }

  /** `stringToUnsLongLong` in base 10. */
  function StringToUnsLongLong(loc: Locale, s: Text, options: Options): Option<nat> {
    match ToCLocale(loc, s, options)
    case None => None
    case Some(text) => ReadUnsigned(text)
  }

  lemma UnsignedRead(sign: Text, head: seq<nat>)
    requires Figured(head) && head != [] && (sign == [] || sign == [PLUS]) && ValueOf(head) < TWO_64
    ensures ReadUnsigned(sign + Ascii(head)) == Some(ValueOf(head))
  {
    hide ValueOf;
    assert Figures(Ascii(head)) == head;
    var text := sign + Ascii(head);
    if sign == [] {
      assert text == Ascii(head) && IsDigit(text[0]);
    } else {
      assert text[0] == sign[0] && text[1..] == Ascii(head);
    }
  }

  /** The zero of zero counts among the zeros in front. */
  lemma WrittenIs(loc: Locale, l: nat, pad: nat, flags: Flags) returns (zeros: nat, digits: seq<nat>)
    ensures digits == DigitsOf(l, 10) && zeros == (if l == 0 then pad + 1 else pad)
    ensures Repeat(loc.zero, pad) + Written(loc, l, flags) == Number(loc, zeros, digits, flags.thousandsGroup)
    ensures zeros + |digits| > 0
  {
    digits := DigitsOf(l, 10);
    zeros := if l == 0 then pad + 1 else pad;
  }

  lemma NoCommaUnsigned(text: Text)
    requires COMMA in text
    ensures ReadUnsigned(text) == None
  {
    if text[0] == PLUS {
      assert COMMA in text[1..];
    }
  }

  lemma PrintedUnsignedIs(loc: Locale, l: nat, precision: int, width: int, flags: Flags) returns (zeros: nat, digits: seq<nat>)
    ensures digits == DigitsOf(l, 10) && zeros == PadUnsigned(loc, l, precision, width, flags) + (if l == 0 then 1 else 0)
    ensures l == 0 ==> digits == []
    ensures PrintedUnsigned(loc, l, precision, width, flags) == Sign(loc, l, flags) + Number(loc, zeros, digits, flags.thousandsGroup)
    ensures zeros + |digits| > 0
  {
    zeros, digits := WrittenIs(loc, l, PadUnsigned(loc, l, precision, width, flags), flags);
  }

  lemma UnsignedNumberRead(loc: Locale, options: Options, l: nat, flags: Flags, zeros: nat, digits: seq<nat>)
    requires Distinct(loc) && l < TWO_64 && digits == DigitsOf(l, 10) && zeros + |digits| > 0
    requires flags.thousandsGroup && |digits| > 3 ==> !options.rejectGroupSeparator
    ensures StringToUnsLongLong(loc, Sign(loc, l, flags) + Number(loc, zeros, digits, flags.thousandsGroup), options)
         == if Readable(zeros, digits, flags.thousandsGroup) then Some(l) else None
  {
    hide Distinct, ValueOf, DigitsOf, ToCLocale, Number;
    PrintedNormalised(loc, options, l, flags, zeros, digits, flags.thousandsGroup);
    assert digits[..|digits|] == digits;
    LeadingZeros(seq(zeros, _ => 0), digits);
    DigitsValue(l);
    UnsignedRead(CSign(l, flags), Head(zeros, digits, |digits|));
  }

  /** Every unsigned 64-bit number, printed and read again, is itself, unless it has separators
      and these are rejected, or zeros were padded in front of a group so that more than three
      digits precede the first separator. */
  lemma UnsignedRoundTripIff(loc: Locale, options: Options, l: nat, precision: int, width: int, flags: Flags)
    requires Distinct(loc) && l < TWO_64
    ensures var pad := PadUnsigned(loc, l, precision, width, flags);
      StringToUnsLongLong(loc, PrintedUnsigned(loc, l, precision, width, flags), options)
      == if Separated(l, flags) ==> !options.rejectGroupSeparator && pad + FirstGroup(|DigitsOf(l, 10)|) <= 3 then Some(l) else None
  {
    var zeros, digits := PrintedUnsignedIs(loc, l, precision, width, flags);
    hide PrintedUnsigned, PadUnsigned, DigitsOf, ToCLocale, Number, Distinct, Figured;
    if Separated(l, flags) && options.rejectGroupSeparator {
      SeparatedRefused(loc, options, l, flags, zeros, digits);
      var text := ToCLocale(loc, Sign(loc, l, flags) + Number(loc, zeros, digits, true), options);
      if text.Some? {
        NoCommaUnsigned(text.value);
      }
    } else {
      UnsignedNumberRead(loc, options, l, flags, zeros, digits);
      assert Readable(zeros, digits, flags.thousandsGroup)
        <==> (Separated(l, flags) ==> PadUnsigned(loc, l, precision, width, flags) + FirstGroup(|digits|) <= 3);
    }
  }
}
