/** Fixed and exponent form of a floating-point number (`decimal_form` and `exponent_form` of
    src/utils/LocaleTools.cpp, the choice between them in `doubleToString` of
    src/utils/Locale.cpp), from its decimal digits and the place of the decimal point. */
module NumberForms {
  import opened Arithmetic
  import opened LocaleNumbers

  /** Symbols of a text: 0 to 9 are digits, whatever the locale writes for them. */
  const POINT_SIGN := 10
  const GROUP_SIGN := 11
  const EXPONENT_SIGN := 12
  const PLUS_SIGN := 13
  const MINUS_SIGN := 14

  datatype PrecisionMode = PMDecimalDigits | PMSignificantDigits | PMChopTrailingZeros

  const FLOATING_POINT_SHORTEST := -128

  function Zeros(n: int): (zeros: seq<nat>)
    ensures |zeros| == AtLeastZero(n) && forall k :: 0 <= k < |zeros| ==> zeros[k] == 0
  {
    seq(AtLeastZero(n), _ => 0)
  }

  // ----- what a text denotes -------------------------------------------------------------

  /** `mantissa` times ten to the power `exponent`. */
  datatype Decimal = Decimal(mantissa: nat, exponent: int)

  function Pow10(n: nat): (p: nat)
    ensures p > 0
  {
    if n == 0 then 1 else 10 * Pow10(n - 1)
  }

  /** Two decimals are one rational number. */
  predicate Same(a: Decimal, b: Decimal) {
    if a.exponent >= b.exponent then a.mantissa * Pow10(a.exponent - b.exponent) == b.mantissa
    else a.mantissa == b.mantissa * Pow10(b.exponent - a.exponent)
  }

  /** The digits of a text, without points and separators. */
  function Figures(text: Text): (digits: seq<nat>)
    ensures forall k :: 0 <= k < |digits| ==> digits[k] < 10
  {
    if text == [] then [] else Figures(text[..|text| - 1]) + (if text[|text| - 1] < 10 then [text[|text| - 1]] else [])
  }

  /** Where a symbol first stands. */
  function Find(text: Text, symbol: nat): (k: nat)
    ensures k <= |text| && (k < |text| ==> text[k] == symbol) && forall j :: 0 <= j < k ==> text[j] != symbol
  {
    if text == [] || text[0] == symbol then 0 else 1 + Find(text[1..], symbol)
  }

  /** The digits behind the point. */
  function Fraction(text: Text): nat {
    var k := Find(text, POINT_SIGN);
    if k == |text| then 0 else |Figures(text[k + 1..])|
  }

  function ReadExponent(text: Text): int {
    if text == [] then 0
    else if text[0] == MINUS_SIGN then -(ValueOf(Figures(text)) as int)
    else ValueOf(Figures(text))
  }

  /** Reading a text: its digits, shifted by the point and the exponent. */
  function Denoted(text: Text): Decimal {
    var k := Find(text, EXPONENT_SIGN);
    var exponent := if k == |text| then 0 else ReadExponent(text[k + 1..]);
    Decimal(ValueOf(Figures(text[..k])), exponent - Fraction(text[..k]))
  }

  /** The number that digits and a decimal point stand for: 0.DIGITS shifted by `decpt`. */
  function Given(digits: seq<nat>, decpt: int): Decimal {
    Decimal(ValueOf(digits), decpt - |digits|)
  }

  // ----- the two forms -------------------------------------------------------------------

  /** Digits with the zeros that the place of the point asks for, and the place after that. */
  function Placed(digits: seq<nat>, decpt: int): (seq<nat>, nat) {
    if decpt < 0 then (Zeros(-decpt) + digits, 0) else (digits + Zeros(decpt - |digits|), decpt as nat)
  }

  /** The zeros that the precision asks for. */
  function Wanted(size: nat, point: nat, precision: int, pm: PrecisionMode): nat {
    match pm
    case PMDecimalDigits => AtLeastZero(precision - (size - point))
    case PMSignificantDigits => AtLeastZero(precision - size)
    case PMChopTrailingZeros => 0
  }

  function Filled(digits: seq<nat>, decpt: int, precision: int, pm: PrecisionMode): (seq<nat>, nat) {
    var (d, point) := Placed(digits, decpt);
    (d + Zeros(Wanted(|d|, point, precision, pm)), point)
  }

  lemma PointInside(digits: seq<nat>, decpt: int, precision: int, pm: PrecisionMode)
    ensures Filled(digits, decpt, precision, pm).1 <= |Filled(digits, decpt, precision, pm).0|
  {
  }

  /** The digits in front of the point, in groups if asked for; a zero if there are none. */
  function Front(whole: seq<nat>, grouped: bool): Text {
    (if whole == [] then [0] else []) + (if grouped then Grouped(whole, GROUP_SIGN) else whole)
  }

  function DecimalText(digits: seq<nat>, decpt: int, precision: int, pm: PrecisionMode, always: bool, grouped: bool): Text {
    var (d, point) := Filled(digits, decpt, precision, pm);
    PointInside(digits, decpt, precision, pm);
    Front(d[..point], grouped) + (if always || point < |d| then [POINT_SIGN] else []) + d[point..]
  }

  /** The exponent, signed, of two digits at least or of one. */
  function ExponentDigits(exponent: int, leadingZero: bool): Text {
    var digits := DigitsOf(Magnitude(exponent), 10);
    [if exponent < 0 then MINUS_SIGN else PLUS_SIGN] + (Zeros((if leadingZero then 2 else 1) - |digits|) + digits)
  }

  function ExponentText(digits: seq<nat>, decpt: int, precision: int, pm: PrecisionMode, always: bool, leadingZero: bool): Text
    requires digits != []
  {
    var d := match pm
      case PMDecimalDigits => digits + Zeros(precision + 1 - |digits|)
      case PMSignificantDigits => digits + Zeros(precision - |digits|)
      case PMChopTrailingZeros => digits;
    d[..1] + (if always || |d| > 1 then [POINT_SIGN] else []) + d[1..] + [EXPONENT_SIGN] + ExponentDigits(decpt - 1, leadingZero)
  }

  method AppendZeros(digits: seq<nat>, from: int, to: int) returns (after: seq<nat>)
    ensures after == digits + Zeros(to - from)
  {
    after := digits;
    var i := from;
    while i < to
      invariant from <= i && (i == from || i <= to) && after == digits + Zeros(i - from)
    {
      after := after + [0];
      i := i + 1;
    }
  }

  method PrependZeros(digits: seq<nat>, n: int) returns (after: seq<nat>)
    ensures after == Zeros(n) + digits
  {
    after := digits;
    var i := 0;
    while i < n
      invariant 0 <= i && (i == 0 || i <= n) && after == Zeros(i) + digits
    {
      after := [0] + after;
      i := i + 1;
    }
  }

  /** Separators in front of the point only: the rest of the text is not touched. */
  method GroupBefore(text: Text, point: nat, ghost front: Text, ghost rest: Text) returns (after: Text)
    requires text == front + rest && |front| == point
    ensures after == Grouped(front, GROUP_SIGN) + rest
  {
    after := text;
    var i := point - 3;
    ghost var j: nat, k: nat, num: Text := point, 0, front;
    assert num == front[..j] + [];
    while i > 0
      invariant i == j - 3 && j + 3 * k == point && (k > 0 ==> j > 0)
      invariant Inserted(front, num, j, GROUP_SIGN) && after == num + rest
    {
      InsertOne(front, num, i, j, GROUP_SIGN);
      InsertInFront(num, rest, i);
      num := num[..i] + [GROUP_SIGN] + num[i..];
      after := after[..i] + [GROUP_SIGN] + after[i..];
      i, j, k := i - 3, j - 3, k + 1;
    }
    FirstGroupIs(point, j, k);
  }

  lemma InsertInFront(num: Text, rest: Text, i: nat)
    requires i <= |num|
    ensures (num + rest)[..i] + [GROUP_SIGN] + (num + rest)[i..] == (num[..i] + [GROUP_SIGN] + num[i..]) + rest
  {
  }

  /** The zeros of `decimal_form`. */
  method Fill(digits: seq<nat>, decpt: int, precision: int, pm: PrecisionMode) returns (text: seq<nat>, point: nat)
    ensures (text, point) == Filled(digits, decpt, precision, pm)
  {
    text := digits;
    if decpt < 0 {
      text := PrependZeros(text, -decpt);
      point := 0;
    } else {
      point := decpt;
      if decpt > |digits| {
        text := AppendZeros(text, |text|, decpt);
      } else {
        assert text == digits + Zeros(decpt - |digits|);
      }
    }
    ghost var d := text;
    if pm == PMDecimalDigits {
      text := AppendZeros(text, |text| - point, precision);
      assert Zeros(precision - (|d| - point)) == Zeros(AtLeastZero(precision - (|d| - point)));
    } else if pm == PMSignificantDigits {
      text := AppendZeros(text, |text|, precision);
      assert Zeros(precision - |d|) == Zeros(AtLeastZero(precision - |d|));
    } else {
      assert d + Zeros(0) == d;
    }
  }

  /** `decimal_form`. */
  method DecimalForm(digits: seq<nat>, decpt: int, precision: int, pm: PrecisionMode, always: bool, grouped: bool) returns (text: Text)
    ensures text == DecimalText(digits, decpt, precision, pm, always, grouped)
  {
    var d, point := Fill(digits, decpt, precision, pm);
    PointInside(digits, decpt, precision, pm);
    text := d;
    ghost var rest := (if always || point < |d| then [POINT_SIGN] else []) + d[point..];
    if always || point < |text| {
      text := text[..point] + [POINT_SIGN] + text[point..];
    }
    AroundPoint(d, point, always || point < |d|, text);
    if grouped {
      text := GroupBefore(text, point, d[..point], rest);
    }
    if point == 0 {
      text := [0] + text;
    }
    Together(d[..point], grouped, always || point < |d|, d[point..]);
  }

  lemma AroundPoint(d: seq<nat>, point: nat, shown: bool, text: Text)
    requires point <= |d| && text == if shown then d[..point] + [POINT_SIGN] + d[point..] else d
    ensures text == d[..point] + ((if shown then [POINT_SIGN] else []) + d[point..])
  {
  }

  lemma Together(whole: seq<nat>, grouped: bool, shown: bool, fraction: seq<nat>)
    ensures Front(whole, grouped) + (if shown then [POINT_SIGN] else []) + fraction
         == (if whole == [] then [0] else [])
            + ((if grouped then Grouped(whole, GROUP_SIGN) else whole) + ((if shown then [POINT_SIGN] else []) + fraction))
    ensures forall text: Text :: [] + text == text
  {
  }

  /** `exponent_form`. */
  method ExponentForm(digits: seq<nat>, decpt: int, precision: int, pm: PrecisionMode, always: bool, leadingZero: bool) returns (text: Text)
    requires digits != []
    ensures text == ExponentText(digits, decpt, precision, pm, always, leadingZero)
  {
    var exp := decpt - 1;
    text := digits;
    if pm == PMDecimalDigits {
      text := AppendZeros(text, |text|, precision + 1);
    } else if pm == PMSignificantDigits {
      text := AppendZeros(text, |text|, precision);
    }
    if always || |text| > 1 {
      text := text[..1] + [POINT_SIGN] + text[1..];
    }
    text := text + [EXPONENT_SIGN];
    text := text + ExponentDigits(exp, leadingZero);
  }

  // ----- the forms denote the number -----------------------------------------------------

  predicate Digital(digits: seq<nat>) {
    forall k :: 0 <= k < |digits| ==> digits[k] < 10
  }

  lemma {:induction false} FiguresConcat(a: Text, b: Text)
    ensures Figures(a + b) == Figures(a) + Figures(b)
  {
    hide Figures;
    FiguresOfNone();
    if b == [] {
      assert a + b == a;
    } else {
      var init, last := b[..|b| - 1], b[|b| - 1];
      FiguresConcat(a, init);
      FiguresSnoc(init, last);
      FiguresSnoc(a + init, last);
      assert b == init + [last] && a + b == a + init + [last];
    }
  }

  lemma FiguresOfNone()
    ensures Figures([]) == []
  {
  }

  lemma FiguresSnoc(init: Text, last: nat)
    ensures Figures(init + [last]) == Figures(init) + (if last < 10 then [last] else [])
  {
    assert (init + [last])[..|init|] == init;
  }

  lemma {:induction false} FiguresOfDigits(digits: seq<nat>)
    requires Digital(digits)
    ensures Figures(digits) == digits
  {
    if digits != [] {
      FiguresOfDigits(digits[..|digits| - 1]);
    }
  }

  lemma FiguresOfSign(sign: nat)
    requires sign >= 10
    ensures Figures([sign]) == []
  {
    assert [sign][..0] == [];
  }

  lemma {:induction false} FiguresOfGroups(d: seq<nat>, i: nat, k: nat)
    requires Digital(d) && i + 3 * k == |d|
    ensures Figures(GroupFrom(d, i, GROUP_SIGN)) == d[i..]
    ensures forall j :: 0 <= j < |GroupFrom(d, i, GROUP_SIGN)| ==> GroupFrom(d, i, GROUP_SIGN)[j] <= GROUP_SIGN != POINT_SIGN
    ensures POINT_SIGN !in GroupFrom(d, i, GROUP_SIGN) && EXPONENT_SIGN !in GroupFrom(d, i, GROUP_SIGN)
    decreases k
  {
    hide Figures;
    FiguresOfNone();
    if k > 0 {
      var rest := GroupFrom(d, i + 3, GROUP_SIGN);
      FiguresOfGroups(d, i + 3, k - 1);
      FiguresConcat([GROUP_SIGN] + d[i..i + 3], rest);
      FiguresConcat([GROUP_SIGN], d[i..i + 3]);
      FiguresOfSign(GROUP_SIGN);
      FiguresOfDigits(d[i..i + 3]);
      assert d[i..] == d[i..i + 3] + d[i + 3..];
    }
  }

  /** Grouping loses no digit and brings no sign but separators. */
  lemma GroupedFigures(d: seq<nat>)
    requires Digital(d)
    ensures Figures(Grouped(d, GROUP_SIGN)) == d
    ensures POINT_SIGN !in Grouped(d, GROUP_SIGN) && EXPONENT_SIGN !in Grouped(d, GROUP_SIGN)
  {
    var f := FirstGroup(|d|);
    var k := if |d| == 0 then 0 else (|d| - 1) / 3;
    assert f + 3 * k == |d|;
    FiguresOfGroups(d, f, k);
    FiguresConcat(d[..f], GroupFrom(d, f, GROUP_SIGN));
    FiguresOfDigits(d[..f]);
    assert d == d[..f] + d[f..];
  }

  lemma {:induction false} FindAbsent(text: Text, symbol: nat)
    requires symbol !in text
    ensures Find(text, symbol) == |text|
  {
    if text != [] {
      FindAbsent(text[1..], symbol);
    }
  }

  lemma FindFirst(a: Text, symbol: nat, b: Text)
    requires symbol !in a
    ensures Find(a + [symbol] + b, symbol) == |a|
  {
    var text := a + [symbol] + b;
    assert text[|a|] == symbol && forall j :: 0 <= j < |a| ==> text[j] == a[j] && text[j] in a;
  }

  /** A front of whole digits, perhaps a point, and a fraction. */
  lemma MantissaRead(front: Text, shown: bool, fraction: seq<nat>)
    requires POINT_SIGN !in front && Digital(fraction) && (shown || fraction == [])
    ensures var text := front + (if shown then [POINT_SIGN] else []) + fraction;
      Figures(text) == Figures(front) + fraction && Fraction(text) == |fraction|
  {
    hide Figures, Fraction;
    FiguresOfDigits(fraction);
    FiguresOfSign(POINT_SIGN);
    FiguresConcat(front + (if shown then [POINT_SIGN] else []), fraction);
    if shown {
      FiguresConcat(front, [POINT_SIGN]);
      FractionBehind(front, fraction);
    } else {
      assert front + [] + [] == front;
      NoFraction(front);
    }
  }

  lemma FractionBehind(front: Text, fraction: Text)
    requires POINT_SIGN !in front
    ensures Fraction(front + [POINT_SIGN] + fraction) == |Figures(fraction)|
  {
    FindFirst(front, POINT_SIGN, fraction);
    assert (front + [POINT_SIGN] + fraction)[|front| + 1..] == fraction;
  }

  lemma NoFraction(front: Text)
    requires POINT_SIGN !in front
    ensures Fraction(front) == 0
  {
    FindAbsent(front, POINT_SIGN);
  }

  lemma {:induction false} TrailingZeros(digits: seq<nat>, n: nat)
    ensures ValueOf(digits + Zeros(n)) == ValueOf(digits) * Pow10(n)
  {
    hide ValueOf, Pow10;
    if n == 0 {
      assert digits + Zeros(0) == digits && Pow10(0) == 1 by { PowZero(); }
    } else {
      TrailingZeros(digits, n - 1);
      OneMoreZero(digits + Zeros(n - 1));
      assert digits + Zeros(n) == digits + Zeros(n - 1) + [0];
      TenTimes(ValueOf(digits), n);
    }
  }

  lemma OneMoreZero(digits: seq<nat>)
    ensures ValueOf(digits + [0]) == 10 * ValueOf(digits)
  {
    assert (digits + [0])[..|digits|] == digits;
  }

  lemma PowZero()
    ensures Pow10(0) == 1
  {
  }

  lemma TenTimes(v: nat, n: nat)
    requires n > 0
    ensures v * Pow10(n) == 10 * (v * Pow10(n - 1))
  {
  }

  /** The number with `n` zeros more behind it. */
  function Scaled(digits: seq<nat>, decpt: int, n: nat): Decimal {
    Decimal(ValueOf(digits) * Pow10(n), decpt - |digits| - n)
  }

  lemma {:induction false} PowAdds(m: nat, n: nat)
    ensures Pow10(m + n) == Pow10(m) * Pow10(n)
  {
    if n > 0 {
      PowAdds(m, n - 1);
      assert Pow10(m) * Pow10(n) == 10 * (Pow10(m) * Pow10(n - 1));
    }
  }

  /** Zeros behind the last digit change nothing. */
  lemma ScaledSame(digits: seq<nat>, decpt: int, m: nat, n: nat)
    ensures Same(Scaled(digits, decpt, m), Scaled(digits, decpt, n))
    ensures Same(Scaled(digits, decpt, m), Given(digits, decpt))
  {
    if m <= n {
      ScaleTwice(ValueOf(digits), m, n - m);
    } else {
      ScaleTwice(ValueOf(digits), n, m - n);
    }
  }

  lemma PlacedIs(digits: seq<nat>, decpt: int) returns (m: nat)
    requires Digital(digits)
    ensures var (d, point) := Placed(digits, decpt);
      Digital(d) && ValueOf(d) == ValueOf(digits) * Pow10(m) && |d| - point == |digits| - decpt + m
  {
    m := AtLeastZero(decpt - |digits|);
    if decpt < 0 {
      LeadingZeros(Zeros(-decpt), digits);
    } else {
      TrailingZeros(digits, m);
      assert Zeros(decpt - |digits|) == Zeros(m);
    }
  }

  /** What filling does to the digits and to the point. */
  lemma FilledIs(digits: seq<nat>, decpt: int, precision: int, pm: PrecisionMode) returns (n: nat)
    requires Digital(digits)
    ensures var (d, point) := Filled(digits, decpt, precision, pm);
      Digital(d) && ValueOf(d) == ValueOf(digits) * Pow10(n) && |d| - point == |digits| - decpt + n
  {
    var m := PlacedIs(digits, decpt);
    var (start, point) := Placed(digits, decpt);
    var more := Wanted(|start|, point, precision, pm);
    TrailingZeros(start, more);
    ScaleTwice(ValueOf(digits), m, more);
    MoreZeros(start, more, start + Zeros(more));
    n := m + more;
  }

  lemma ScaleTwice(v: nat, m: nat, n: nat)
    ensures v * Pow10(m) * Pow10(n) == v * Pow10(m + n)
  {
    PowAdds(m, n);
    assert v * Pow10(m) * Pow10(n) == v * (Pow10(m) * Pow10(n));
  }

  lemma MoreZeros(start: seq<nat>, more: nat, d: seq<nat>)
    requires Digital(start) && d == start + Zeros(more)
    ensures Digital(d)
  {
  }

  /** `decimal_form` denotes the number. */
  lemma DecimalDenotes(digits: seq<nat>, decpt: int, precision: int, pm: PrecisionMode, always: bool, grouped: bool) returns (n: nat)
    requires Digital(digits)
    ensures Denoted(DecimalText(digits, decpt, precision, pm, always, grouped)) == Scaled(digits, decpt, n)
  {
    n := FilledIs(digits, decpt, precision, pm);
    PointInside(digits, decpt, precision, pm);
    var (d, point) := Filled(digits, decpt, precision, pm);
    DecimalRead(d, point, always || point < |d|, grouped);
  }

  lemma ReadWithoutExponent(text: Text)
    requires EXPONENT_SIGN !in text
    ensures Denoted(text) == Decimal(ValueOf(Figures(text)), 0 - Fraction(text))
  {
    FindAbsent(text, EXPONENT_SIGN);
    assert text[..|text|] == text;
  }

  lemma ReadWithExponent(mantissa: Text, exponent: Text)
    requires EXPONENT_SIGN !in mantissa
    ensures Denoted(mantissa + [EXPONENT_SIGN] + exponent)
         == Decimal(ValueOf(Figures(mantissa)), ReadExponent(exponent) - Fraction(mantissa))
  {
    var text := mantissa + [EXPONENT_SIGN] + exponent;
    FindFirst(mantissa, EXPONENT_SIGN, exponent);
    assert text[..|mantissa|] == mantissa && text[|mantissa| + 1..] == exponent;
  }

  lemma FrontRead(whole: seq<nat>, grouped: bool)
    requires Digital(whole)
    ensures Figures(Front(whole, grouped)) == (if whole == [] then [0] else []) + whole
    ensures POINT_SIGN !in Front(whole, grouped) && EXPONENT_SIGN !in Front(whole, grouped)
  {
    GroupedFigures(whole);
    FiguresOfDigits(whole);
    FiguresOfDigits([0]);
    FiguresConcat(if whole == [] then [0] else [], if grouped then Grouped(whole, GROUP_SIGN) else whole);
  }

  lemma NoExponent(front: Text, shown: bool, fraction: seq<nat>)
    requires EXPONENT_SIGN !in front && Digital(fraction)
    ensures EXPONENT_SIGN !in front + (if shown then [POINT_SIGN] else []) + fraction
  {
  }

  lemma DecimalRead(d: seq<nat>, point: nat, shown: bool, grouped: bool)
    requires Digital(d) && point <= |d| && (shown || point == |d|)
    ensures Denoted(Front(d[..point], grouped) + (if shown then [POINT_SIGN] else []) + d[point..]) == Decimal(ValueOf(d), point - |d|)
  {
    hide ValueOf, Figures, Denoted, Front;
    FrontRead(d[..point], grouped);
    LeadValue(d, point);
    FixedRead(Front(d[..point], grouped), (if d[..point] == [] then [0] else []) + d[..point], shown, d[point..]);
  }

  /** Front, point and fraction read together. */
  lemma FixedRead(front: Text, figures: seq<nat>, shown: bool, fraction: seq<nat>)
    requires Figures(front) == figures && POINT_SIGN !in front && EXPONENT_SIGN !in front
    requires Digital(fraction) && (shown || fraction == [])
    ensures Denoted(front + (if shown then [POINT_SIGN] else []) + fraction) == Decimal(ValueOf(figures + fraction), -|fraction|)
  {
    MantissaRead(front, shown, fraction);
    NoExponent(front, shown, fraction);
    ReadWithoutExponent(front + (if shown then [POINT_SIGN] else []) + fraction);
  }

  lemma LeadValue(d: seq<nat>, point: nat)
    requires point <= |d|
    ensures ValueOf((if d[..point] == [] then [0] else []) + d[..point] + d[point..]) == ValueOf(d)
  {
    hide ValueOf;
    var lead: seq<nat> := if d[..point] == [] then [0] else [];
    Rejoined(lead, d, point);
    LeadingZeros(lead, d);
  }

  lemma Rejoined(lead: seq<nat>, d: seq<nat>, point: nat)
    requires point <= |d|
    ensures lead + d[..point] + d[point..] == lead + d
  {
    assert d[..point] + d[point..] == d;
  }

  lemma ExponentRead(exponent: int, leadingZero: bool)
    ensures ReadExponent(ExponentDigits(exponent, leadingZero)) == exponent
  {
    var digits := DigitsOf(Magnitude(exponent), 10);
    var zeros := Zeros((if leadingZero then 2 else 1) - |digits|);
    SignRead(if exponent < 0 then MINUS_SIGN else PLUS_SIGN, zeros + digits);
    LeadingZeros(zeros, digits);
    DigitsValue(Magnitude(exponent));
  }

  lemma SignRead(sign: nat, figures: seq<nat>)
    requires (sign == MINUS_SIGN || sign == PLUS_SIGN) && Digital(figures)
    ensures ReadExponent([sign] + figures) == if sign == MINUS_SIGN then -(ValueOf(figures) as int) else ValueOf(figures)
  {
    FiguresConcat([sign], figures);
    FiguresOfSign(sign);
    FiguresOfDigits(figures);
    assert [] + figures == figures;
  }

  /** `exponent_form` denotes the number. */
  lemma ExponentDenotes(digits: seq<nat>, decpt: int, precision: int, pm: PrecisionMode, always: bool, leadingZero: bool) returns (n: nat)
    requires Digital(digits) && digits != []
    ensures Denoted(ExponentText(digits, decpt, precision, pm, always, leadingZero)) == Scaled(digits, decpt, n)
  {
    n := match pm
      case PMDecimalDigits => AtLeastZero(precision + 1 - |digits|)
      case PMSignificantDigits => AtLeastZero(precision - |digits|)
      case PMChopTrailingZeros => 0;
    var d := digits + Zeros(n);
    assert digits + Zeros(0) == digits;
    MoreZeros(digits, n, d);
    TrailingZeros(digits, n);
    MantissaAndExponent(d, always || |d| > 1, decpt - 1, leadingZero, ExponentText(digits, decpt, precision, pm, always, leadingZero));
  }

  lemma MantissaAndExponent(d: seq<nat>, shown: bool, exponent: int, leadingZero: bool, text: Text)
    requires Digital(d) && d != [] && (shown || |d| == 1)
    requires text == d[..1] + (if shown then [POINT_SIGN] else []) + d[1..] + [EXPONENT_SIGN] + ExponentDigits(exponent, leadingZero)
    ensures Denoted(text) == Decimal(ValueOf(d), exponent - (|d| - 1))
  {
    hide Figures, ReadExponent, ExponentDigits, Denoted, ValueOf;
    FiguresOfDigits(d[..1]);
    assert d[..1] + d[1..] == d;
    ExponentRead(exponent, leadingZero);
    ScientificRead(d[..1], shown, d[1..], ExponentDigits(exponent, leadingZero));
  }

  lemma ScientificRead(front: seq<nat>, shown: bool, fraction: seq<nat>, exponent: Text)
    requires Digital(front) && Digital(fraction) && (shown || fraction == []) && Figures(front) == front
    ensures Denoted(front + (if shown then [POINT_SIGN] else []) + fraction + [EXPONENT_SIGN] + exponent)
         == Decimal(ValueOf(front + fraction), ReadExponent(exponent) - |fraction|)
  {
    MantissaRead(front, shown, fraction);
    NoExponent(front, shown, fraction);
    ReadWithExponent(front + (if shown then [POINT_SIGN] else []) + fraction, exponent);
  }

  /** Whatever precision, point, separators and padding are asked for, both forms denote the
      number that was given, and so the same number. */
  lemma FormsAgree(digits: seq<nat>, decpt: int, precision: int, pm: PrecisionMode, always: bool, grouped: bool, leadingZero: bool)
    requires Digital(digits) && digits != []
    ensures var fixed := Denoted(DecimalText(digits, decpt, precision, pm, always, grouped));
      var scientific := Denoted(ExponentText(digits, decpt, precision, pm, always, leadingZero));
      Same(fixed, Given(digits, decpt)) && Same(scientific, Given(digits, decpt)) && Same(fixed, scientific)
  {
    var m := DecimalDenotes(digits, decpt, precision, pm, always, grouped);
    var n := ExponentDenotes(digits, decpt, precision, pm, always, leadingZero);
    ScaledSame(digits, decpt, m, n);
    ScaledSame(digits, decpt, n, m);
  }

  // ----- how much is shown ---------------------------------------------------------------

  /** How many digits stand in front of the point, and before an exponent if there is one. */
  function WholeDigits(text: Text): int {
    |Figures(Mantissa(text))| - Fraction(Mantissa(text))
  }

  /** What stands before the exponent. */
  function Mantissa(text: Text): Text {
    text[..Find(text, EXPONENT_SIGN)]
  }

  /** The exponent that a text shows. */
  function ShownExponent(text: Text): int {
    var k := Find(text, EXPONENT_SIGN);
    if k == |text| then 0 else ReadExponent(text[k + 1..])
  }

  /** What stands before the point, and the digits in it. */
  function FrontOf(text: Text): Text {
    Mantissa(text)[..Find(Mantissa(text), POINT_SIGN)]
  }

  function WholeFigures(text: Text): seq<nat> {
    Figures(FrontOf(text))
  }

  /** The signs of the exponent but its own. */
  function ExponentSize(text: Text): int {
    |text| - Find(text, EXPONENT_SIGN) - 2
  }

  /** The point is shown if it is asked for, or has digits behind it. */
  predicate PointShown(text: Text, always: bool) {
    POINT_SIGN in text <==> always || Fraction(Mantissa(text)) > 0
  }

  lemma WithoutExponent(text: Text)
    requires EXPONENT_SIGN !in text
    ensures Mantissa(text) == text
  {
    FindAbsent(text, EXPONENT_SIGN);
  }

  lemma FixedShape(front: Text, figures: seq<nat>, shown: bool, fraction: seq<nat>, always: bool)
    requires Figures(front) == figures && POINT_SIGN !in front && EXPONENT_SIGN !in front
    requires Digital(fraction) && shown == (always || fraction != [])
    ensures var text := front + (if shown then [POINT_SIGN] else []) + fraction;
      && EXPONENT_SIGN !in text && PointShown(text, always) && WholeDigits(text) == |figures| && Fraction(text) == |fraction|
      && FrontOf(text) == front
  {
    var text := front + (if shown then [POINT_SIGN] else []) + fraction;
    MantissaRead(front, shown, fraction);
    NoExponent(front, shown, fraction);
    WithoutExponent(text);
    FrontFound(front, shown, fraction);
  }

  lemma FrontFound(front: Text, shown: bool, fraction: seq<nat>)
    requires POINT_SIGN !in front && (shown || fraction == [])
    ensures var text := front + (if shown then [POINT_SIGN] else []) + fraction; text[..Find(text, POINT_SIGN)] == front
  {
    var text := front + (if shown then [POINT_SIGN] else []) + fraction;
    if shown {
      FindFirst(front, POINT_SIGN, fraction);
    } else {
      assert text == front;
      FindAbsent(front, POINT_SIGN);
    }
  }

  lemma PointIn(front: Text, shown: bool, fraction: seq<nat>)
    requires POINT_SIGN !in front && Digital(fraction)
    ensures POINT_SIGN in front + (if shown then [POINT_SIGN] else []) + fraction <==> shown
  {
    var text := front + (if shown then [POINT_SIGN] else []) + fraction;
    assert shown ==> text[|front|] == POINT_SIGN;
  }

  /** A text is taken apart at its exponent sign. */
  lemma ExponentApart(mantissa: Text, exponent: Text)
    requires EXPONENT_SIGN !in mantissa && POINT_SIGN !in exponent
    ensures var text := mantissa + [EXPONENT_SIGN] + exponent;
      && EXPONENT_SIGN in text && Mantissa(text) == mantissa && ShownExponent(text) == ReadExponent(exponent)
      && (POINT_SIGN in text <==> POINT_SIGN in mantissa) && ExponentSize(text) == |exponent| - 1
  {
    var text := mantissa + [EXPONENT_SIGN] + exponent;
    FindFirst(mantissa, EXPONENT_SIGN, exponent);
    assert text[|mantissa|] == EXPONENT_SIGN && text[..|mantissa|] == mantissa && text[|mantissa| + 1..] == exponent;
  }

  lemma ScientificShape(front: seq<nat>, shown: bool, fraction: seq<nat>, exponent: Text, always: bool)
    requires Digital(front) && Digital(fraction) && shown == (always || fraction != []) && Figures(front) == front
    requires POINT_SIGN !in exponent
    ensures var text := front + (if shown then [POINT_SIGN] else []) + fraction + [EXPONENT_SIGN] + exponent;
      && EXPONENT_SIGN in text && PointShown(text, always) && ShownExponent(text) == ReadExponent(exponent)
      && WholeDigits(text) == |front| && Fraction(Mantissa(text)) == |fraction|
      && FrontOf(text) == front && ExponentSize(text) == |exponent| - 1
  {
    hide Figures, Fraction, Mantissa, ShownExponent, ReadExponent;
    assert POINT_SIGN !in front && EXPONENT_SIGN !in front;
    MantissaRead(front, shown, fraction);
    NoExponent(front, shown, fraction);
    PointIn(front, shown, fraction);
    FrontFound(front, shown, fraction);
    ExponentApart(front + (if shown then [POINT_SIGN] else []) + fraction, exponent);
  }

  /** How many digits there are on either side of the point. */
  lemma FilledSize(digits: seq<nat>, decpt: int, precision: int, pm: PrecisionMode)
    ensures var (d, point) := Filled(digits, decpt, precision, pm);
      && point == Larger(0, decpt)
      && |d| - point == Larger(0, match pm
           case PMDecimalDigits => Larger(precision, |digits| - decpt)
           case PMSignificantDigits => if decpt < 0 then Larger(precision, |digits| - decpt) else Larger(precision, |digits|) - decpt
           case PMChopTrailingZeros => |digits| - decpt)
  {
  }

  /** `decimal_form` shows no exponent, and as many digits on either side of the point as the
      point and the precision ask for. */
  lemma DecimalShape(digits: seq<nat>, decpt: int, precision: int, pm: PrecisionMode, always: bool, grouped: bool)
    requires Digital(digits) && digits != []
    ensures var text := DecimalText(digits, decpt, precision, pm, always, grouped);
      && EXPONENT_SIGN !in text && PointShown(text, always)
      && WholeDigits(text) == Larger(1, decpt)
      && FrontOf(text) == (if grouped then Grouped(WholeFigures(text), GROUP_SIGN) else WholeFigures(text))
      && Fraction(text) == Larger(0, match pm
           case PMDecimalDigits => Larger(precision, |digits| - decpt)
           case PMSignificantDigits => if decpt < 0 then Larger(precision, |digits| - decpt) else Larger(precision, |digits|) - decpt
           case PMChopTrailingZeros => |digits| - decpt)
  {
    hide Filled, Front, Figures, Fraction, Mantissa, WholeDigits, PointShown;
    var n := FilledIs(digits, decpt, precision, pm);
    PointInside(digits, decpt, precision, pm);
    FilledSize(digits, decpt, precision, pm);
    var (d, point) := Filled(digits, decpt, precision, pm);
    FrontRead(d[..point], grouped);
    FixedShape(Front(d[..point], grouped), (if d[..point] == [] then [0] else []) + d[..point], always || point < |d|, d[point..], always);
    FrontIs(d[..point], grouped);
  }

  lemma FrontIs(whole: seq<nat>, grouped: bool)
    requires Digital(whole)
    ensures var front := Front(whole, grouped); front == if grouped then Grouped(Figures(front), GROUP_SIGN) else Figures(front)
  {
    hide Figures, Grouped;
    FrontRead(whole, grouped);
    ShortGroups();
    if whole == [] {
      assert [0] + Grouped(whole, GROUP_SIGN) == [0] && [0] + whole == [0];
    } else {
      assert [] + whole == whole && [] + Grouped(whole, GROUP_SIGN) == Grouped(whole, GROUP_SIGN);
    }
  }

  lemma ShortGroups()
    ensures Grouped([0], GROUP_SIGN) == [0] && Grouped([], GROUP_SIGN) == []
  {
  }

  lemma NoPointInExponent(exponent: int, leadingZero: bool)
    ensures POINT_SIGN !in ExponentDigits(exponent, leadingZero)
  {
    hide DigitsOf;
    var digits := DigitsOf(Magnitude(exponent), 10);
    NoPointIn(if exponent < 0 then MINUS_SIGN else PLUS_SIGN, Zeros((if leadingZero then 2 else 1) - |digits|), digits);
  }

  lemma NoPointIn(sign: nat, zeros: seq<nat>, digits: seq<nat>)
    requires sign != POINT_SIGN && Digital(zeros) && Digital(digits)
    ensures POINT_SIGN !in [sign] + (zeros + digits)
  {
  }

  lemma ExponentLength(decpt: int, leadingZero: bool)
    ensures |ExponentDigits(decpt - 1, leadingZero)| - 1
         == Larger(if leadingZero then 2 else 1, |DigitsOf(if decpt < 1 then 1 - decpt else decpt - 1, 10)|)
  {
    hide DigitsOf;
  }

  /** `exponent_form` shows one digit, the others behind the point, and the exponent. */
  lemma ExponentShape(digits: seq<nat>, decpt: int, precision: int, pm: PrecisionMode, always: bool, leadingZero: bool)
    requires Digital(digits) && digits != []
    ensures var text := ExponentText(digits, decpt, precision, pm, always, leadingZero);
      && EXPONENT_SIGN in text && PointShown(text, always) && ShownExponent(text) == decpt - 1
      && WholeDigits(text) == 1 && FrontOf(text) == WholeFigures(text)
      && ExponentSize(text) == Larger(if leadingZero then 2 else 1, |DigitsOf(if decpt < 1 then 1 - decpt else decpt - 1, 10)|)
      && Fraction(Mantissa(text)) == match pm
           case PMDecimalDigits => Larger(precision, |digits| - 1)
           case PMSignificantDigits => Larger(precision, |digits|) - 1
           case PMChopTrailingZeros => |digits| - 1
  {
    hide ExponentText, Fraction, Mantissa, WholeDigits, PointShown, ShownExponent, ExponentSize, FrontOf, Figures, ReadExponent, ExponentDigits, DigitsOf;
    var d := ExponentTextIs(digits, decpt, precision, pm, always, leadingZero);
    var front, fraction, exponent := d[..1], d[1..], ExponentDigits(decpt - 1, leadingZero);
    FiguresOfDigits(front);
    ExponentLength(decpt, leadingZero);
    ExponentRead(decpt - 1, leadingZero);
    NoPointInExponent(decpt - 1, leadingZero);
    assert (always || |d| > 1) == (always || fraction != []);
    ScientificShape(front, always || |d| > 1, fraction, exponent, always);
  }

  lemma ExponentTextIs(digits: seq<nat>, decpt: int, precision: int, pm: PrecisionMode, always: bool, leadingZero: bool) returns (d: seq<nat>)
    requires Digital(digits) && digits != []
    ensures Digital(d)
    ensures |d| == match pm
      case PMDecimalDigits => Larger(precision + 1, |digits|)
      case PMSignificantDigits => Larger(precision, |digits|)
      case PMChopTrailingZeros => |digits|
    ensures ExponentText(digits, decpt, precision, pm, always, leadingZero)
         == d[..1] + (if always || |d| > 1 then [POINT_SIGN] else []) + d[1..] + [EXPONENT_SIGN] + ExponentDigits(decpt - 1, leadingZero)
  {
    hide ExponentDigits;
    var more := match pm
      case PMDecimalDigits => AtLeastZero(precision + 1 - |digits|)
      case PMSignificantDigits => AtLeastZero(precision - |digits|)
      case PMChopTrailingZeros => 0;
    d := digits + Zeros(more);
    assert digits + Zeros(0) == digits;
    MoreZeros(digits, more, d);
  }

  datatype DoubleForm = DFExponent | DFDecimal | DFSignificantDigits

  /** The choice of form in `doubleToString`.  The number shown is the one given.
      - With a fixed number of decimals there is no exponent, and with an exponent one digit in
        front of the point; behind the point stand as many digits as there are or, if that is
        more, as the precision says.
      - By significant digits an exponent is shown if the point is far to the left, or so far to the
        right that the fixed form would be longer, or than the precision; zeros fill the digits up
        to the precision only if asked for. */
  method FormatDigits(digits: seq<nat>, decpt: int, form: DoubleForm, precision: int, always: bool, trailingZeroes: bool,
                      grouped: bool, leadingZero: bool) returns (text: Text)
    requires Digital(digits) && digits != []
    ensures Same(Denoted(text), Given(digits, decpt))
    ensures POINT_SIGN in text <==> always || Fraction(Mantissa(text)) > 0
    ensures WholeDigits(text) == if EXPONENT_SIGN in text then 1 else Larger(1, decpt)
    ensures FrontOf(text) ==
      if grouped && EXPONENT_SIGN !in text then Grouped(WholeFigures(text), GROUP_SIGN) else WholeFigures(text)
    ensures EXPONENT_SIGN in text ==>
      && ShownExponent(text) == decpt - 1
      && ExponentSize(text) == Larger(if leadingZero then 2 else 1, |DigitsOf(if decpt < 1 then 1 - decpt else decpt - 1, 10)|)
    ensures form == DFDecimal ==>
      EXPONENT_SIGN !in text && Fraction(text) == Larger(0, Larger(precision, |digits| - decpt))
    ensures form == DFExponent ==>
      EXPONENT_SIGN in text && Fraction(Mantissa(text)) == Larger(0, Larger(precision, |digits| - 1))
    ensures form == DFSignificantDigits ==>
      (EXPONENT_SIGN in text <==>
        && decpt != |digits|
        && (decpt <= -4 || decpt > (if precision == -128 && decpt > 0
                                    then |digits| + (if decpt <= 10 then 5 else if decpt <= 100 then 5 else 6)
                                         + (if !always && |digits| > decpt then 1 else 0)
                                    else if precision < 0 then 6 else precision)))
    ensures form == DFSignificantDigits ==>
      var asked := if trailingZeroes then Larger(precision, |digits|) else |digits|;
      Fraction(Mantissa(text)) ==
        if EXPONENT_SIGN in text then asked - 1
        else if decpt < 0 then (if trailingZeroes then Larger(precision, |digits| - decpt) else |digits| - decpt)
        else Larger(0, asked - decpt)
  {
    hide Denoted, DecimalText, ExponentText, Fraction, Mantissa, WholeDigits, WholeFigures, FrontOf, ShownExponent, ExponentSize, Same;
    match form {
      case DFExponent =>
        FormsAgree(digits, decpt, precision, PMDecimalDigits, always, grouped, leadingZero);
        ExponentShape(digits, decpt, precision, PMDecimalDigits, always, leadingZero);
        text := ExponentForm(digits, decpt, precision, PMDecimalDigits, always, leadingZero);
      case DFDecimal =>
        FormsAgree(digits, decpt, precision, PMDecimalDigits, always, grouped, leadingZero);
        DecimalShape(digits, decpt, precision, PMDecimalDigits, always, grouped);
        text := DecimalForm(digits, decpt, precision, PMDecimalDigits, always, grouped);
        WithoutExponent(text);
      case DFSignificantDigits =>
        var mode := if trailingZeroes then PMSignificantDigits else PMChopTrailingZeros;
        var cutoff := if precision < 0 then 6 else precision;
        if precision == FLOATING_POINT_SHORTEST && decpt > 0 {
          cutoff := |digits| + 4;
          if decpt <= 10 {
            cutoff := cutoff + 1;
          } else {
            cutoff := cutoff + if decpt > 100 then 2 else 1;
          }
          if !always && |digits| > decpt {
            cutoff := cutoff + 1;
          }
        }
        FormsAgree(digits, decpt, precision, mode, always, grouped, leadingZero);
        if decpt != |digits| && (decpt <= -4 || decpt > cutoff) {
          ExponentShape(digits, decpt, precision, mode, always, leadingZero);
          text := ExponentForm(digits, decpt, precision, mode, always, leadingZero);
        } else {
          DecimalShape(digits, decpt, precision, mode, always, grouped);
          text := DecimalForm(digits, decpt, precision, mode, always, grouped);
          WithoutExponent(text);
        }
    }
  }
}
