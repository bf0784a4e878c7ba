/**
 Amounts as decimal strings: printing with an asset's precision, and parsing with the
 character scan, the two substrings and `stoll` of the original.
 */
module AmountStrings {
  import opened Amounts
  import opened Options

  const INT64_MAX: int := 0x7FFF_FFFF_FFFF_FFFF
  const INT64_MIN: int := -0x8000_0000_0000_0000
  const MAX_PRECISION: nat := 12

  function Pow10(p: nat): (r: nat)
    ensures r >= 1
  {
    if p == 0 then 1 else 10 * Pow10(p - 1)
  }

  function Scaled(n: nat, p: nat): nat {
    n * Pow10(p)
  }

  // --- Digits -----------------------------------------------------------------------------------

  predicate IsDigit(c: char) {
    '0' <= c <= '9'
  }

  predicate AllDigits(s: string) {
    forall i :: 0 <= i < |s| ==> IsDigit(s[i])
  }

  function DigitChar(d: nat): (c: char)
    requires d < 10
    ensures IsDigit(c) && DigitValue(c) == d
  {
    '0' + (d as char)
  }

  function DigitValue(c: char): (d: nat)
    requires IsDigit(c)
    ensures d < 10
  {
    (c - '0') as nat
  }

  /** Decimal representation without leading zeros. */
  function Digits(n: nat): (s: string)
    ensures s != [] && AllDigits(s)
  {
    if n < 10 then [DigitChar(n)] else Digits(n / 10) + [DigitChar(n % 10)]
  }

  function ValueTo(s: string, n: nat): nat
    requires AllDigits(s) && n <= |s|
  {
    if n == 0 then 0 else 10 * ValueTo(s, n - 1) + DigitValue(s[n - 1])
  }

  function Value(s: string): nat
    requires AllDigits(s)
  {
    ValueTo(s, |s|)
  }

  function Zeros(n: nat): (s: string)
    ensures |s| == n && AllDigits(s)
  {
    seq(n, _ => '0')
  }

  /** Only the first n digits count. */
  lemma {:induction false} SameDigits(s: string, t: string, n: nat)
    requires AllDigits(s) && AllDigits(t) && n <= |s| && n <= |t|
    requires forall i :: 0 <= i < n ==> s[i] == t[i]
    ensures ValueTo(s, n) == ValueTo(t, n)
  {
    if n > 0 {
      SameDigits(s, t, n - 1);
    }
  }

  lemma ValueOfMore(s: string, d: nat)
    requires AllDigits(s) && d < 10
    ensures Value(s + [DigitChar(d)]) == 10 * Value(s) + d
  {
    SameDigits(s, s + [DigitChar(d)], |s|);
  }

  lemma {:induction false} ValueOfDigits(n: nat)
    ensures Value(Digits(n)) == n
  {
    if n >= 10 {
      ValueOfDigits(n / 10);
      ValueOfMore(Digits(n / 10), n % 10);
    } else {
      assert ValueTo(Digits(n), 0) == 0;
    }
  }

  lemma {:induction false} ValueOfConcat(s: string, t: string, n: nat)
    requires AllDigits(s) && AllDigits(t) && n <= |t|
    ensures ValueTo(s + t, |s| + n) == Scaled(Value(s), n) + ValueTo(t, n)
  {
    if n == 0 {
      SameDigits(s, s + t, |s|);
    } else {
      ValueOfConcat(s, t, n - 1);
      Times10(Value(s), n);
    }
  }

  lemma Times10(x: nat, p: nat)
    requires p > 0
    ensures Scaled(x, p) == 10 * Scaled(x, p - 1)
  {
  }

  lemma ScaledEnds(n: nat, p: nat)
    ensures Scaled(n, 0) == n && Scaled(0, p) == 0
  {
  }

  lemma {:induction false} ValueBound(s: string, n: nat)
    requires AllDigits(s) && n <= |s|
    ensures ValueTo(s, n) < Pow10(n)
  {
    if n > 0 {
      ValueBound(s, n - 1);
    }
  }

  lemma {:induction false} ValueOfZeros(s: string, n: nat)
    requires AllDigits(s) && n <= |s| && forall i :: 0 <= i < n ==> s[i] == '0'
    ensures ValueTo(s, n) == 0
  {
    if n > 0 {
      ValueOfZeros(s, n - 1);
    }
  }

  /** Adding the power and dropping its leading 1 pads a fraction to exactly p digits. */
  lemma {:induction false} PaddedFraction(p: nat, d: nat)
    requires d < Pow10(p)
    ensures var f := Digits(Pow10(p) + d)[1..];
            |f| == p && AllDigits(f) && Value(f) == d
  {
    if p > 0 {
      PaddedFraction(p - 1, d / 10);
      var n := Pow10(p) + d;
      assert n / 10 == Pow10(p - 1) + d / 10 && n % 10 == d % 10;
      var f' := Digits(n / 10)[1..];
      assert Digits(n)[1..] == f' + [DigitChar(d % 10)];
      ValueOfMore(f', d % 10);
    } else {
      assert Digits(1)[1..] == "";
    }
  }

  // --- Machine integers -------------------------------------------------------------------------

  /** 64-bit arithmetic that throws on overflow. */
  function Safe(x: int): Option<int> {
    if INT64_MIN <= x <= INT64_MAX then Some(x) else None
  }

  /** Where the digits that start at a position end. */
  function DigitEnd(s: string, from: nat): (to: nat)
    requires from <= |s|
    ensures from <= to <= |s|
    ensures forall i :: from <= i < to ==> IsDigit(s[i])
    ensures to < |s| ==> !IsDigit(s[to])
    decreases |s| - from
  {
    if from < |s| && IsDigit(s[from]) then DigitEnd(s, from + 1) else from
  }

  /** An optional sign and the digits after it; what follows is ignored, no digits or too many throw. */
  function Stoll(s: string): Option<int> {
    var from := if s != "" && s[0] == '-' then 1 else 0;
    var to := DigitEnd(s, from);
    if to == from then None else Safe(Signed(from == 1, Value(s[from..to])))
  }

  function Signed(negative: bool, n: nat): int {
    if negative then -(n as int) else n
  }

  /** Digits up to the end, or up to anything else. */
  lemma StollSpan(s: string, negative: bool, l: string)
    requires AllDigits(l) && (negative <==> s != "" && s[0] == '-')
    requires var from := |Sign(negative)|;
             && from + |l| <= |s| && s[from..from + |l|] == l
             && (from + |l| < |s| ==> !IsDigit(s[from + |l|]))
    ensures Stoll(s) == if l == "" then None else Safe(Signed(negative, Value(l)))
  {
    var from := |Sign(negative)|;
    forall i | from <= i < from + |l|
      ensures IsDigit(s[i])
    {
      assert s[i] == s[from..from + |l|][i - from];
    }
  }

  lemma StollIs(l: string, tail: string)
    requires AllDigits(l) && (tail == "" || tail == ".")
    ensures Stoll(l + tail) == if l == "" then None else Safe(Value(l))
  {
    assert l != "" ==> (l + tail)[0] == l[0];
    assert (l + tail)[0..0 + |l|] == l;
    StollSpan(l + tail, false, l);
  }

  function Sign(negative: bool): string {
    if negative then "-" else ""
  }

  // --- Printing ---------------------------------------------------------------------------------

  function Abs(x: int): nat {
    if x < 0 then -x else x
  }

  function IntString(x: int): string {
    if x < 0 then "-" + Digits(-x) else Digits(x)
  }

  function Quotient(a: nat, d: nat): (q: nat)
    requires d > 0
  {
    a / d
  }

  function Remainder(a: nat, d: nat): (r: nat)
    requires d > 0
    ensures r < d && a == Quotient(a, d) * d + r
  {
    a % d
  }

  function Decimals(fraction: nat, scale: nat): string {
    if fraction == 0 then "" else "." + Digits(scale + fraction)[1..]
  }

  function Printed(amount: int, precision: nat): string {
    var scale := Pow10(precision);
    Sign(amount < 0) + Digits(Quotient(Abs(amount), scale)) + Decimals(Remainder(Abs(amount), scale), scale)
  }

  /**
   Division and remainder truncate towards zero, so the quotient of a negative amount below one
   unit loses its sign, which is put back.
   */
  method AmountToString(amount: int, precision: nat) returns (result: string)
    ensures result == Printed(amount, precision)
  {
    var scale := Pow10(precision);
    var quotient := if amount < 0 then -(Quotient(-amount, scale) as int) else Quotient(amount, scale);
    result := IntString(quotient);
    var decimals := Remainder(Abs(amount), scale);
    if decimals != 0 {
      if amount < 0 && quotient == 0 {
        result := "-0";
      }
      result := result + "." + Digits(scale + decimals)[1..];
    }
  }

  // --- Parsing ----------------------------------------------------------------------------------

  ghost predicate AtMostOnce(c: char, s: string) {
    forall i, j :: 0 <= i < j < |s| ==> !(s[i] == c && s[j] == c)
  }

  ghost predicate Scannable(s: string) {
    && (forall i :: 0 <= i < |s| ==> IsDigit(s[i]) || s[i] == '-' || s[i] == '.')
    && AtMostOnce('-', s) && AtMostOnce('.', s)
  }

  function FindFrom(s: string, c: char, from: nat): (i: nat)
    requires from <= |s|
    ensures from <= i <= |s| && (i < |s| ==> s[i] == c)
    ensures forall j :: from <= j < i ==> s[j] != c
    decreases |s| - from
  {
    if from == |s| || s[from] == c then from else FindFrom(s, c, from + 1)
  }

  function Find(s: string, c: char): nat {
    FindFrom(s, c, 0)
  }

  function Substr(s: string, from: nat, length: nat): string
    requires from <= |s|
  {
    s[from..Min(from + length, |s|)]
  }

  function Whole(lhs: string, precision: nat): Option<int> {
    if lhs == "" then Some(0)
    else
      var v :- Stoll(lhs);
      Safe(v * Pow10(precision))
  }

  function WithFraction(whole: int, rhs: string, precision: nat): Option<int> {
    if |rhs| > precision then None
    else
      Summed(whole, rhs + Zeros(precision - |rhs|))
  }

  function Summed(whole: int, padded: string): Option<int> {
    if padded == "" then Some(whole)
    else
      var f :- Stoll(padded);
      Safe(whole + f)
  }

  /** The amount of the two substrings; only the upper bound is checked, before the sign is applied. */
  function Combined(negative: bool, lhs: string, rhs: Option<string>, precision: nat): Option<int> {
    var whole :- Whole(lhs, precision);
    var total :- if rhs.Some? then WithFraction(whole, rhs.value, precision) else Some(whole);
    Limited(negative, total)
  }

  function Limited(negative: bool, total: int): Option<int> {
    if total > MAX_SHARE_SUPPLY then None else Safe(if negative then -total else total)
  }

  function Right(s: string): Option<string> {
    var point := Find(s, '.');
    if point < |s| then Some(s[point + 1..]) else None
  }

  ghost function Parsed(s: string, precision: nat): Option<int> {
    if !Scannable(s) then None
    else
      var negative := '-' in s;
      Combined(negative, Substr(s, if negative then 1 else 0, Find(s, '.')), Right(s), precision)
  }

  /** The flag scan: every character allowed, sign and point at most once. */
  method Scan(s: string) returns (ok: bool, negative: bool, decimal: bool)
    ensures ok <==> Scannable(s)
    ensures ok ==> (negative <==> '-' in s) && (decimal <==> '.' in s)
  {
    negative, decimal := false, false;
    for i := 0 to |s|
      invariant Scannable(s[..i])
      invariant negative <==> '-' in s[..i]
      invariant decimal <==> '.' in s[..i]
    {
      assert s[..i + 1] == s[..i] + [s[i]];
      if IsDigit(s[i]) {
      } else if s[i] == '-' && !negative {
        negative := true;
      } else if s[i] == '.' && !decimal {
        decimal := true;
      } else {
        if s[i] == '-' || s[i] == '.' {
          var j :| 0 <= j < i && s[j] == s[i];
        }
        return false, negative, decimal;
      }
    }
    assert s[..|s|] == s;
    ok := true;
  }

  method AmountFromString(s: string, precision: nat) returns (amount: Option<int>)
    ensures amount == Parsed(s, precision)
  {
    var ok, negative, decimal := Scan(s);
    if !ok {
      return None;
    }
    var point := Find(s, '.');
    var total := ParseWhole(Substr(s, if negative then 1 else 0, point), precision);
    if total.None? {
      return None;
    }
    if decimal {
      total := AddFraction(total.value, s[point + 1..], precision);
      if total.None? {
        return None;
      }
    }
    return Limited(negative, total.value);
  }

  method ParseWhole(lhs: string, precision: nat) returns (amount: Option<int>)
    ensures amount == Whole(lhs, precision)
  {
    if lhs == "" {
      return Some(0);
    }
    var v := Stoll(lhs);
    return if v.None? then None else Safe(v.value * Pow10(precision));
  }

  method AddFraction(whole: int, fraction: string, precision: nat) returns (total: Option<int>)
    ensures total == WithFraction(whole, fraction, precision)
  {
    if |fraction| > precision {
      return None;
    }
    var rhs := fraction;
    while |rhs| < precision
      invariant |fraction| <= |rhs| <= precision && rhs == fraction + Zeros(|rhs| - |fraction|)
    {
      rhs := rhs + "0";
    }
    if rhs == "" {
      return Some(whole);
    }
    var f := Stoll(rhs);
    return if f.None? then None else Safe(whole + f.value);
  }

  // --- What parsing means -----------------------------------------------------------------------

  /** A sign, digits, and possibly a point with more digits. */
  function Plain(negative: bool, l: string, decimal: bool, r: string): string {
    Sign(negative) + l + Point(decimal, r)
  }

  function Point(decimal: bool, r: string): string {
    if decimal then "." + r else ""
  }

  function PlainValue(l: string, r: string, precision: nat): nat
    requires AllDigits(l) && AllDigits(r) && |r| <= precision
  {
    Scaled(Value(l), precision) + Scaled(Value(r), precision - |r|)
  }

  lemma FindIs(s: string, c: char, i: nat)
    requires i <= |s| && (i < |s| ==> s[i] == c)
    requires forall j :: 0 <= j < i ==> s[j] != c
    ensures Find(s, c) == i
  {
  }

  lemma OnlyAt(s: string, c: char, k: nat)
    requires forall i :: 0 <= i < |s| && i != k ==> s[i] != c
    ensures AtMostOnce(c, s)
  {
  }

  lemma PlainChars(negative: bool, l: string, decimal: bool, r: string)
    ensures var s := Plain(negative, l, decimal, r);
            var from, n := |Sign(negative)|, |Sign(negative)| + |l|;
            && |s| == n + |Point(decimal, r)|
            && (negative ==> s[0] == '-')
            && (forall i :: from <= i < n ==> s[i] == l[i - from])
            && (decimal ==> s[n] == '.')
            && (forall i :: n < i < |s| ==> s[i] == r[i - n - 1])
            && (decimal ==> s[n + 1..] == r)
  {
  }

  lemma PlainScans(negative: bool, l: string, decimal: bool, r: string)
    requires AllDigits(l) && AllDigits(r)
    ensures var s := Plain(negative, l, decimal, r);
            && Scannable(s) && ('-' in s <==> negative)
            && Find(s, '.') == |Sign(negative)| + |l|
            && Right(s) == (if decimal then Some(r) else None)
  {
    var s := Plain(negative, l, decimal, r);
    PlainChars(negative, l, decimal, r);
    ScansAs(s, negative, |Sign(negative)| + |l|);
  }

  lemma ScansAs(s: string, negative: bool, n: nat)
    requires |Sign(negative)| <= n <= |s| && (negative ==> s[0] == '-') && (n < |s| ==> s[n] == '.')
    requires forall i :: |Sign(negative)| <= i < |s| && i != n ==> IsDigit(s[i])
    ensures Scannable(s) && ('-' in s <==> negative) && Find(s, '.') == n
  {
    OnlyAt(s, '-', 0);
    OnlyAt(s, '.', n);
    FindIs(s, '.', n);
  }

  /** The length passed to the left substring counts the sign, so behind a sign it takes the point along. */
  lemma LeftOfPlain(negative: bool, l: string, decimal: bool, r: string)
    requires AllDigits(l) && AllDigits(r)
    ensures Substr(Plain(negative, l, decimal, r), |Sign(negative)|, |Sign(negative)| + |l|)
            == l + (if negative && decimal then "." else "")
  {
  }

  lemma WholeOfPlain(l: string, tail: string, precision: nat)
    requires AllDigits(l) && (tail == "" || tail == ".")
    ensures Whole(l + tail, precision)
            == if l == "" && tail != "" then None
               else if Scaled(Value(l), precision) <= INT64_MAX then Some(Scaled(Value(l), precision)) else None
  {
    StollIs(l, tail);
    MulMono(1, Pow10(precision), Value(l));
  }

  lemma FractionOfPlain(whole: int, r: string, precision: nat)
    requires AllDigits(r) && |r| <= precision <= MAX_PRECISION && INT64_MIN <= whole <= INT64_MAX
    ensures WithFraction(whole, r, precision) == Safe(whole + Scaled(Value(r), precision - |r|))
  {
    var zeros := Zeros(precision - |r|);
    ValueOfConcat(r, zeros, |zeros|);
    ValueOfZeros(zeros, |zeros|);
    SummedIs(whole, r + zeros);
  }

  lemma SummedIs(whole: int, padded: string)
    requires AllDigits(padded) && |padded| <= MAX_PRECISION && INT64_MIN <= whole <= INT64_MAX
    ensures Summed(whole, padded) == Safe(whole + Value(padded))
  {
    ValueBound(padded, |padded|);
    Pow10Bound(|padded|);
    StollIs(padded, "");
    assert padded + "" == padded;
  }

  lemma {:induction false} Pow10Bound(p: nat)
    requires p <= MAX_PRECISION
    ensures Pow10(p) <= 1_000_000_000_000
    decreases MAX_PRECISION - p
  {
    if p < MAX_PRECISION {
      Pow10Bound(p + 1);
    } else {
      assert Pow10(12) == 1_000_000_000_000;
    }
  }

  lemma CombinedIs(negative: bool, l: string, tail: string, decimal: bool, r: string, precision: nat)
    requires AllDigits(l) && AllDigits(r) && (!decimal ==> r == "") && precision <= MAX_PRECISION
    requires tail == if negative && decimal then "." else ""
    ensures Combined(negative, l + tail, if decimal then Some(r) else None, precision)
            == if |r| > precision || (tail != "" && l == "") || PlainValue(l, r, precision) > MAX_SHARE_SUPPLY then None
               else Some(Signed(negative, PlainValue(l, r, precision)))
  {
    WholeOfPlain(l, tail, precision);
    var whole := Scaled(Value(l), precision);
    if |r| <= precision && (tail == "" || l != "") {
      var part := Scaled(Value(r), precision - |r|);
      if whole <= INT64_MAX {
        if decimal {
          FractionOfPlain(whole, r, precision);
        }
        LimitedIs(negative, whole + part);
      }
    }
  }

  lemma LimitedIs(negative: bool, n: nat)
    ensures Limited(negative, n) == if n > MAX_SHARE_SUPPLY then None else Some(Signed(negative, n))
    ensures n > INT64_MAX ==> Safe(n) == None
  {
  }

  /**
   A plain decimal is read as its value. It is refused exactly when it has too many decimals,
   when its value exceeds the maximum supply, or when nothing stands between sign and point.
   */
  lemma PlainIsRead(negative: bool, l: string, decimal: bool, r: string, precision: nat)
    requires AllDigits(l) && AllDigits(r) && (!decimal ==> r == "") && precision <= MAX_PRECISION
    ensures Parsed(Plain(negative, l, decimal, r), precision)
            == if |r| > precision || (negative && decimal && l == "") || PlainValue(l, r, precision) > MAX_SHARE_SUPPLY then None
               else Some(Signed(negative, PlainValue(l, r, precision)))
  {
    PlainIsCombined(negative, l, decimal, r, precision);
    CombinedIs(negative, l, if negative && decimal then "." else "", decimal, r, precision);
  }

  lemma PlainIsCombined(negative: bool, l: string, decimal: bool, r: string, precision: nat)
    requires AllDigits(l) && AllDigits(r)
    ensures Parsed(Plain(negative, l, decimal, r), precision)
            == Combined(negative, l + (if negative && decimal then "." else ""), if decimal then Some(r) else None, precision)
  {
    PlainScans(negative, l, decimal, r);
    LeftOfPlain(negative, l, decimal, r);
  }

  /** Reading back what was printed gives the amount, for every amount that can exist. */
  lemma RoundTrip(amount: int, precision: nat)
    requires -(MAX_SHARE_SUPPLY as int) <= amount <= MAX_SHARE_SUPPLY && precision <= MAX_PRECISION
    ensures Parsed(Printed(amount, precision), precision) == Some(amount)
  {
    var scale := Pow10(precision);
    var n, negative := Abs(amount), amount < 0;
    var l, fraction := Digits(Quotient(n, scale)), Remainder(n, scale);
    PrintedValue(n, precision);
    if fraction == 0 {
      assert Printed(amount, precision) == Plain(negative, l, false, "");
      PlainIsRead(negative, l, false, "", precision);
    } else {
      var r := Digits(scale + fraction)[1..];
      assert Printed(amount, precision) == Plain(negative, l, true, r);
      PlainIsRead(negative, l, true, r, precision);
    }
  }

  lemma PrintedValue(n: nat, precision: nat)
    ensures var scale := Pow10(precision);
            var l, fraction := Digits(Quotient(n, scale)), Remainder(n, scale);
            if fraction == 0 then PlainValue(l, "", precision) == n
            else
              var r := Digits(scale + fraction)[1..];
              AllDigits(r) && |r| == precision && PlainValue(l, r, precision) == n
  {
    var scale := Pow10(precision);
    var whole, fraction := Quotient(n, scale), Remainder(n, scale);
    if fraction == 0 {
      PrintedWhole(n, whole, precision);
    } else {
      PrintedFraction(n, whole, fraction, precision);
    }
  }

  lemma PrintedWhole(n: nat, whole: nat, precision: nat)
    requires n == whole * Pow10(precision)
    ensures PlainValue(Digits(whole), "", precision) == n
  {
    ValueOfDigits(whole);
    PlainValueIs(Digits(whole), "", precision);
  }

  lemma PrintedFraction(n: nat, whole: nat, fraction: nat, precision: nat)
    requires fraction < Pow10(precision) && n == whole * Pow10(precision) + fraction
    ensures var r := Digits(Pow10(precision) + fraction)[1..];
            && AllDigits(r) && |r| == precision
            && PlainValue(Digits(whole), r, precision) == n
  {
    ValueOfDigits(whole);
    PaddedFraction(precision, fraction);
    PlainValueIs(Digits(whole), Digits(Pow10(precision) + fraction)[1..], precision);
  }

  lemma PlainValueIs(l: string, r: string, precision: nat)
    requires AllDigits(l) && AllDigits(r) && (r == "" || |r| == precision)
    ensures PlainValue(l, r, precision) == Value(l) * Pow10(precision) + Value(r)
  {
  }

  /** Every string that passes the scan with its sign, if any, in front is plain. */
  lemma SignFirstIsPlain(s: string)
    requires Scannable(s) && forall i :: 1 <= i < |s| ==> s[i] != '-'
    ensures exists negative, l, decimal, r :: IsPlain(s, negative, l, decimal, r)
  {
    var negative := s != "" && s[0] == '-';
    var from, point := |Sign(negative)|, Find(s, '.');
    if point == |s| {
      SplitIsPlain(s, negative, point, false, "");
    } else {
      assert forall j :: point < j < |s| ==> s[j] != '.';
      SplitIsPlain(s, negative, point, true, s[point + 1..]);
    }
  }

  lemma SplitIsPlain(s: string, negative: bool, point: nat, decimal: bool, r: string)
    requires |Sign(negative)| <= point <= |s| && (negative ==> s[0] == '-')
    requires s[point..] == Point(decimal, r) && (!decimal ==> r == "")
    requires forall i :: |Sign(negative)| <= i < |s| && i != point ==> IsDigit(s[i])
    ensures IsPlain(s, negative, s[|Sign(negative)|..point], decimal, r)
  {
    var from := |Sign(negative)|;
    assert s[..from] == Sign(negative);
    assert s == s[..from] + s[from..point] + s[point..];
    assert forall i :: 0 <= i < |r| ==> r[i] == s[point..][i + 1];
  }

  predicate IsPlain(s: string, negative: bool, l: string, decimal: bool, r: string) {
    AllDigits(l) && AllDigits(r) && (!decimal ==> r == "") && s == Plain(negative, l, decimal, r)
  }
}
