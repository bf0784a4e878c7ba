/**
 What the parser makes of a sign that is not in front. The scan lets it pass; the left
 substring then starts behind the first character, and digits end at the sign.
 */
module MisplacedSigns {
  import opened Amounts
  import opened AmountStrings
  import opened Options

  /** A string that passes the scan although its sign comes later. */
  ghost predicate SignInside(s: string) {
    Scannable(s) && 1 <= Find(s, '-') < |s|
  }

  // --- The value that is read -------------------------------------------------------------------

  /**
   Digits l, the sign, digits m, and possibly a point and digits r. Behind a single digit, m is
   read with a sign of its own, which cancels with that of the string while the fraction keeps
   it; otherwise m is ignored and the rest of l is read as a negative amount.
   */
  function ReadBeforePoint(l: string, m: string, r: string, precision: nat): Option<int>
    requires AllDigits(l) && AllDigits(m) && AllDigits(r) && l != ""
  {
    if |r| > precision then None
    else
      var fraction := Scaled(Value(r), precision - |r|);
      if |l| == 1 then
        var n := Scaled(Value(m), precision);
        if m == "" || n > -INT64_MIN || n - fraction > INT64_MAX then None else Some(n - fraction)
      else
        var n := Scaled(Value(l[1..]), precision) + fraction;
        if n > MAX_SHARE_SUPPLY then None else Some(-(n as int))
  }

  /**
   Digits l, the point, digits m, the sign, and digits r. The digits of m are read as the
   smallest units whatever their places; only without them is r read, with a sign that cancels.
   */
  function ReadAfterPoint(l: string, m: string, r: string, precision: nat): Option<int>
    requires AllDigits(l) && AllDigits(m) && AllDigits(r)
  {
    if |l| == 1 || |m| + 1 + |r| > precision || (m == "" && precision == 1) then None
    else
      var n := if l == "" then 0 else Scaled(Value(l[1..]), precision);
      var total := if m == "" then n - Scaled(Value(r), precision - 1 - |r|) else n + Value(m);
      if total > MAX_SHARE_SUPPLY then None else Some(-total)
  }

  ghost function Misread(s: string, precision: nat): Option<int>
    requires SignInside(s)
  {
    PartsAreDigits(s);
    var sign, point := Find(s, '-'), Find(s, '.');
    if point < sign then ReadAfterPoint(s[..point], s[point + 1..sign], s[sign + 1..], precision)
    else ReadBeforePoint(s[..sign], s[sign + 1..point], if point < |s| then s[point + 1..] else "", precision)
  }

  lemma PartsAreDigits(s: string)
    requires SignInside(s)
    ensures var sign, point := Find(s, '-'), Find(s, '.');
            && sign != point
            && forall i :: 0 <= i < |s| && i != sign && i != point ==> IsDigit(s[i])
  {
    var sign, point := Find(s, '-'), Find(s, '.');
    forall i | 0 <= i < |s| && i != sign && i != point
      ensures IsDigit(s[i])
    {
      assert s[i] != '-' by {
        assert i < sign || !(s[sign] == '-' && s[i] == '-');
      }
      assert s[i] != '.' by {
        assert i < point || !(s[point] == '.' && s[i] == '.');
      }
    }
  }

  // --- The two substrings -----------------------------------------------------------------------

  /** A left substring: an own sign, digits, and something that ends them. */
  lemma WholeSpan(s: string, negative: bool, l: string, precision: nat)
    requires s != "" && AllDigits(l) && (negative <==> s[0] == '-')
    requires var from := |Sign(negative)|;
             && from + |l| <= |s| && s[from..from + |l|] == l
             && (from + |l| < |s| ==> !IsDigit(s[from + |l|]))
    ensures Whole(s, precision) == if l == "" then None else Safe(Signed(negative, Scaled(Value(l), precision)))
  {
    StollSpan(s, negative, l);
    MulMono(1, Pow10(precision), Value(l));
    assert Signed(negative, Value(l)) * Pow10(precision) == Signed(negative, Scaled(Value(l), precision));
  }

  /** A right substring whose sign comes after digits: they are read as smallest units. */
  lemma DigitsFraction(whole: nat, m: string, r: string, precision: nat)
    requires AllDigits(m) && m != "" && |m| + 1 + |r| <= precision <= MAX_PRECISION
    ensures WithFraction(whole, m + "-" + r, precision) == Safe(whole + Value(m))
  {
    var padded := m + "-" + r + Zeros(precision - |m + "-" + r|);
    assert padded[0..0 + |m|] == m && padded[0] == m[0] && padded[|m|] == '-';
    StollSpan(padded, false, m);
    ValueBound(m, |m|);
    Pow10Bound(|m|);
  }

  /** A right substring that starts with the sign. */
  lemma SignedFraction(whole: nat, r: string, precision: nat)
    requires AllDigits(r) && 1 + |r| <= precision <= MAX_PRECISION && whole <= INT64_MAX
    ensures WithFraction(whole, "-" + r, precision)
            == if precision == 1 then None else Some(whole - Scaled(Value(r), precision - 1 - |r|))
  {
    var zeros := Zeros(precision - |"-" + r|);
    var padded := "-" + r + zeros;
    assert padded[1..1 + |r + zeros|] == r + zeros;
    StollSpan(padded, true, r + zeros);
    PaddedValue(r, precision - 1);
  }

  /** Zeros behind a fraction scale it, to less than a whole unit. */
  lemma PaddedValue(r: string, precision: nat)
    requires AllDigits(r) && |r| <= precision <= MAX_PRECISION
    ensures Value(r + Zeros(precision - |r|)) == Scaled(Value(r), precision - |r|) < 1_000_000_000_000
  {
    var zeros := Zeros(precision - |r|);
    ValueOfConcat(r, zeros, |zeros|);
    ValueOfZeros(zeros, |zeros|);
    ValueBound(r + zeros, precision);
    Pow10Bound(precision);
  }

  lemma FractionIsAdded(whole: int, decimal: bool, r: string, precision: nat)
    requires AllDigits(r) && (!decimal ==> r == "") && |r| <= precision <= MAX_PRECISION && INT64_MIN <= whole <= INT64_MAX
    ensures (if decimal then WithFraction(whole, r, precision) else Some(whole)) == Safe(whole + Scaled(Value(r), precision - |r|))
  {
    if decimal {
      FractionOfPlain(whole, r, precision);
    } else {
      ScaledEnds(0, precision);
    }
  }

  // --- The sign before the point, or without one ------------------------------------------------

  /** Behind a single digit, m has a sign of its own. */
  lemma SingleDigitCombined(m: string, decimal: bool, r: string, precision: nat)
    requires AllDigits(m) && AllDigits(r) && (!decimal ==> r == "") && |r| <= precision <= MAX_PRECISION
    ensures var n, fraction := Scaled(Value(m), precision), Scaled(Value(r), precision - |r|);
            Combined(true, "-" + m + (if decimal then "." else ""), if decimal then Some(r) else None, precision)
            == if m == "" || n > -INT64_MIN || n - fraction > INT64_MAX then None else Some(n - fraction)
  {
    var lhs := "-" + m + (if decimal then "." else "");
    assert lhs[1..1 + |m|] == m;
    WholeSpan(lhs, true, m, precision);
    PaddedValue(r, precision);
    var n := Scaled(Value(m), precision);
    if m != "" && n <= -INT64_MIN {
      FractionIsAdded(-(n as int), decimal, r, precision);
    }
  }

  /** Behind more digits, m is ignored. */
  lemma MoreDigitsCombined(l: string, m: string, decimal: bool, r: string, precision: nat)
    requires AllDigits(l) && l != "" && AllDigits(r) && (!decimal ==> r == "") && |r| <= precision <= MAX_PRECISION
    ensures var n := Scaled(Value(l), precision) + Scaled(Value(r), precision - |r|);
            Combined(true, l + "-" + m + (if decimal then "." else ""), if decimal then Some(r) else None, precision)
            == if n > MAX_SHARE_SUPPLY then None else Some(-(n as int))
  {
    var lhs := l + "-" + m + (if decimal then "." else "");
    assert lhs[0..0 + |l|] == l && lhs[0] == l[0] && lhs[|l|] == '-';
    WholeSpan(lhs, false, l, precision);
    PaddedValue(r, precision);
    var n := Scaled(Value(l), precision);
    if n <= INT64_MAX {
      FractionIsAdded(n, decimal, r, precision);
    }
  }

  lemma BeforePointCombined(l: string, m: string, decimal: bool, r: string, precision: nat)
    requires AllDigits(l) && AllDigits(m) && AllDigits(r) && l != "" && (!decimal ==> r == "") && precision <= MAX_PRECISION
    ensures Combined(true, l[1..] + "-" + m + (if decimal then "." else ""), if decimal then Some(r) else None, precision)
            == ReadBeforePoint(l, m, r, precision)
  {
    if |r| <= precision {
      if |l| == 1 {
        assert l[1..] + "-" + m == "-" + m;
        SingleDigitCombined(m, decimal, r, precision);
      } else {
        MoreDigitsCombined(l[1..], m, decimal, r, precision);
      }
    }
  }

  // --- The sign behind the point ----------------------------------------------------------------

  lemma LeftOfPoint(l: string, precision: nat)
    requires AllDigits(l)
    ensures Whole(if l == "" then "" else l[1..] + ".", precision)
            == if l == "" then Some(0) else if |l| == 1 then None else Safe(Scaled(Value(l[1..]), precision))
  {
    if l != "" {
      var lhs := l[1..] + ".";
      assert lhs[0..0 + |l[1..]|] == l[1..] && (|l| > 1 ==> lhs[0] == l[1]);
      WholeSpan(lhs, false, l[1..], precision);
    }
  }

  lemma AfterPointCombined(l: string, m: string, r: string, precision: nat)
    requires AllDigits(l) && AllDigits(m) && AllDigits(r) && precision <= MAX_PRECISION
    ensures Combined(true, if l == "" then "" else l[1..] + ".", Some(m + "-" + r), precision)
            == ReadAfterPoint(l, m, r, precision)
  {
    LeftOfPoint(l, precision);
    if |l| != 1 && |m| + 1 + |r| <= precision {
      RightOfPoint(if l == "" then 0 else Scaled(Value(l[1..]), precision), m, r, precision);
    }
  }

  /** The right substring added to what the left one gave, as far as the sum is accepted. */
  lemma RightOfPoint(n: nat, m: string, r: string, precision: nat)
    requires AllDigits(m) && AllDigits(r) && |m| + 1 + |r| <= precision <= MAX_PRECISION
    ensures var none := m == "" && precision == 1;
            var total := if m == "" then n - Scaled(Value(r), precision - 1 - |r|) else n + Value(m);
            && (n > INT64_MAX ==> total > MAX_SHARE_SUPPLY)
            && (n <= INT64_MAX ==>
                  WithFraction(n, m + "-" + r, precision) == (if none then None else Safe(total)))
            && Limited(true, total) == (if total > MAX_SHARE_SUPPLY then None else Some(-total))
            && (total > INT64_MAX ==> total > MAX_SHARE_SUPPLY)
  {
    if m == "" {
      assert m + "-" + r == "-" + r;
      PaddedValue(r, precision - 1);
      if n <= INT64_MAX {
        SignedFraction(n, r, precision);
      }
    } else if n <= INT64_MAX {
      DigitsFraction(n, m, r, precision);
    }
  }

  // --- The theorem ------------------------------------------------------------------------------

  /** Every string that passes the scan with its sign inside is read as this says, and refused exactly when this is None. */
  lemma SignInsideIsRead(s: string, precision: nat)
    requires SignInside(s) && precision <= MAX_PRECISION
    ensures Parsed(s, precision) == Misread(s, precision)
  {
    PartsAreDigits(s);
    assert s[Find(s, '-')] == '-';
    if Find(s, '.') < Find(s, '-') {
      PointFirst(s, precision);
    } else {
      SignFirst(s, precision);
    }
  }

  /** The substrings the parser works with when the point comes first. */
  lemma PartsBehindPoint(s: string, l: string, m: string, r: string)
    requires SignInside(s) && Find(s, '.') < Find(s, '-')
    requires var (sign, point) := (Find(s, '-'), Find(s, '.'));
             l == s[..point] && m == s[point + 1..sign] && r == s[sign + 1..]
    ensures AllDigits(l) && AllDigits(m) && AllDigits(r) && Right(s) == Some(m + "-" + r)
    ensures Substr(s, 1, Find(s, '.')) == if l == "" then "" else l[1..] + "."
  {
    PartsAreDigits(s);
    assert s[Find(s, '.') + 1..] == m + "-" + r;
  }

  lemma ParsedBehindPoint(s: string, l: string, m: string, r: string, precision: nat)
    requires SignInside(s) && Find(s, '.') < Find(s, '-')
    requires AllDigits(l) && AllDigits(m) && AllDigits(r) && Right(s) == Some(m + "-" + r)
    requires Substr(s, 1, Find(s, '.')) == if l == "" then "" else l[1..] + "."
    ensures Parsed(s, precision) == Combined(true, if l == "" then "" else l[1..] + ".", Some(m + "-" + r), precision)
  {
  }

  lemma MisreadBehindPoint(s: string, l: string, m: string, r: string, precision: nat)
    requires SignInside(s) && Find(s, '.') < Find(s, '-') && AllDigits(l) && AllDigits(m) && AllDigits(r)
    requires var (sign, point) := (Find(s, '-'), Find(s, '.'));
             l == s[..point] && m == s[point + 1..sign] && r == s[sign + 1..]
    ensures Misread(s, precision) == ReadAfterPoint(l, m, r, precision)
  {
  }

  lemma PointFirst(s: string, precision: nat)
    requires SignInside(s) && precision <= MAX_PRECISION && Find(s, '.') < Find(s, '-')
    ensures Parsed(s, precision) == Misread(s, precision)
  {
    var sign, point := Find(s, '-'), Find(s, '.');
    var l, m, r := s[..point], s[point + 1..sign], s[sign + 1..];
    PartsBehindPoint(s, l, m, r);
    ParsedBehindPoint(s, l, m, r, precision);
    MisreadBehindPoint(s, l, m, r, precision);
    AfterPointCombined(l, m, r, precision);
  }

  lemma SignFirst(s: string, precision: nat)
    requires SignInside(s) && precision <= MAX_PRECISION && Find(s, '-') < Find(s, '.')
    ensures Parsed(s, precision) == Misread(s, precision)
  {
    PartsAreDigits(s);
    var sign, point := Find(s, '-'), Find(s, '.');
    var l, m, decimal := s[..sign], s[sign + 1..point], point < |s|;
    assert Substr(s, 1, point) == l[1..] + "-" + m + (if decimal then "." else "");
    BeforePointCombined(l, m, decimal, if decimal then s[point + 1..] else "", precision);
  }

  /** "12-3" is read as minus 2. */
  lemma TwelveMinusThree()
    ensures Parsed("12-3", 0) == Some(-2)
  {
    var s := "12-3";
    OnlyAt(s, '-', 2);
    OnlyAt(s, '.', 4);
    FindIs(s, '-', 2);
    FindIs(s, '.', 4);
    SignInsideIsRead(s, 0);
    assert s[..2] == "12" && "12"[1..] == "2" && s[3..4] == "3";
    assert ValueTo("2", 0) == 0 && Value("2") == 2 && Value("") == 0;
    ScaledEnds(2, 0);
    ScaledEnds(0, 0);
  }

  /** "1-2.5" is read as plus 1.5. */
  lemma OneMinusTwoAndAHalf()
    ensures Parsed("1-2.5", 1) == Some(15)
  {
    var s := "1-2.5";
    OnlyAt(s, '-', 1);
    OnlyAt(s, '.', 3);
    FindIs(s, '-', 1);
    FindIs(s, '.', 3);
    SignInsideIsRead(s, 1);
    assert s[..1] == "1" && s[2..3] == "2" && s[4..] == "5";
    assert ValueTo("2", 0) == 0 && Value("2") == 2;
    assert ValueTo("5", 0) == 0 && Value("5") == 5;
    assert Pow10(0) == 1 && Pow10(1) == 10;
    assert Scaled(2, 1) == 20;
    ScaledEnds(5, 0);
  }

  /**
   Behind a single digit an amount is read as positive and escapes the check against the
   maximum supply: up to the largest 64-bit integer is accepted.
   */
  lemma MisplacedSignIsRead(d: char, r: string)
    requires IsDigit(d) && AllDigits(r) && r != ""
    ensures Parsed([d] + "-" + r, 0) == if Value(r) <= INT64_MAX then Some(Value(r) as int) else None
  {
    var s := [d] + "-" + r;
    assert s[0] == d && s[1] == '-' && forall i :: 2 <= i < |s| ==> s[i] == r[i - 2];
    OnlyAt(s, '-', 1);
    OnlyAt(s, '.', |s|);
    FindIs(s, '-', 1);
    FindIs(s, '.', |s|);
    SignInsideIsRead(s, 0);
    assert s[..1] == [d] && s[2..|s|] == r && Value("") == 0;
    ScaledEnds(Value(r), 0);
    ScaledEnds(0, 0);
  }
}
