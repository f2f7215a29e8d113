/** Decimal digit strings and their values. */
module Decimal {
  predicate IsDigit(c: char) { '0' <= c <= '9' }

  predicate AllDigits(s: string) { forall i :: 0 <= i < |s| ==> IsDigit(s[i]) }

  predicate AllZeros(s: string) { forall i :: 0 <= i < |s| ==> s[i] == '0' }

  function DigitOf(c: char): (d: nat)
    requires IsDigit(c)
    ensures d < 10
  {
    c as int - '0' as int
  }

  function CharOf(d: nat): (c: char)
    requires d < 10
    ensures IsDigit(c) && DigitOf(c) == d
  {
    ('0' as int + d) as char
  }

  function Pow10(n: nat): (p: nat)
    ensures p > 0
  {
    if n == 0 then 1 else 10 * Pow10(n - 1)
  }

  function Val(s: string): nat
    requires AllDigits(s)
    decreases |s|
  {
    if s == "" then 0 else 10 * Val(s[..|s| - 1]) + DigitOf(s[|s| - 1])
  }

  function Zeros(n: nat): (s: string)
    ensures |s| == n && AllZeros(s) && AllDigits(s)
  {
    seq(n, i => '0')
  }

  lemma PowSum(a: nat, b: nat)
    ensures Pow10(a + b) == Pow10(a) * Pow10(b)
  {
    if a > 0 {
      PowSum(a - 1, b);
      var p, q := Pow10(a - 1), Pow10(b);
      assert 10 * (p * q) == (10 * p) * q;
    }
  }

  lemma {:induction false} ValAppend(a: string, b: string)
    requires AllDigits(a) && AllDigits(b)
    ensures AllDigits(a + b) && Val(a + b) == Val(a) * Pow10(|b|) + Val(b)
    decreases |b|
  {
    var s := a + b;
    if b == "" {
      assert s == a;
    } else {
      var n := |b| - 1;
      assert s[..|s| - 1] == a + b[..n];
      ValAppend(a, b[..n]);
      Distribute(Val(a), Pow10(n), Val(b[..n]), DigitOf(b[n]));
    }
  }

  lemma Distribute(x: nat, p: nat, y: nat, d: nat)
    ensures 10 * (x * p + y) + d == x * (10 * p) + (10 * y + d)
  {
    assert 10 * (x * p) == x * (10 * p);
  }

  lemma {:induction false} ValZeros(s: string)
    requires AllZeros(s)
    ensures AllDigits(s) && Val(s) == 0
    decreases |s|
  {
    if s != "" { ValZeros(s[..|s| - 1]); }
  }

  lemma {:induction false} ValBound(s: string)
    requires AllDigits(s)
    ensures Val(s) < Pow10(|s|)
    decreases |s|
  {
    if s != "" { ValBound(s[..|s| - 1]); }
  }

  // Same length and same value: the same digits.
  lemma {:induction false} ValInjective(s: string, t: string)
    requires AllDigits(s) && AllDigits(t) && |s| == |t| && Val(s) == Val(t)
    ensures s == t
    decreases |s|
  {
    if s != "" {
      var n := |s| - 1;
      assert DigitOf(s[n]) == DigitOf(t[n]) && Val(s[..n]) == Val(t[..n]);
      ValInjective(s[..n], t[..n]);
      assert s == s[..n] + [s[n]] && t == t[..n] + [t[n]];
    }
  }

  // -- Cutting and padding to a length ----------------------------------------------------------------

  // `s.slice(0, n).padEnd(n, '0')`
  function Fit(s: string, n: nat): (t: string)
    ensures |t| == n
  {
    if n <= |s| then s[..n] else s + Zeros(n - |s|)
  }

  // The value of a cut or padded fraction, when only zeros are cut.
  lemma FitValue(s: string, n: nat)
    requires AllDigits(s) && (n < |s| ==> AllZeros(s[n..]))
    ensures AllDigits(Fit(s, n))
    ensures n >= |s| ==> Val(Fit(s, n)) == Val(s) * Pow10(n - |s|)
    ensures n < |s| ==> Val(s) == Val(Fit(s, n)) * Pow10(|s| - n)
  {
    if n <= |s| {
      assert s == s[..n] + s[n..];
      ValZerosIf(s[n..]);
      ValAppend(s[..n], s[n..]);
      if n == |s| { assert s[..n] == s; }
    } else {
      ValZeros(Zeros(n - |s|));
      ValAppend(s, Zeros(n - |s|));
    }
  }

  lemma ValZerosIf(s: string)
    requires AllDigits(s)
    ensures AllZeros(s) ==> Val(s) == 0
  {
    if AllZeros(s) { ValZeros(s); }
  }

  // `s.replace(/^0+(?=.)/, '')`
  function StripZeros(s: string): (t: string)
    decreases |s|
  {
    if |s| > 1 && s[0] == '0' then StripZeros(s[1..]) else s
  }

  predicate NoSurplusZeros(s: string) { s != "" && (|s| > 1 ==> s[0] != '0') }

  lemma {:induction false} StripKeepsValue(s: string)
    requires AllDigits(s) && s != ""
    ensures AllDigits(StripZeros(s)) && Val(StripZeros(s)) == Val(s) && NoSurplusZeros(StripZeros(s))
    decreases |s|
  {
    if |s| > 1 && s[0] == '0' {
      StripKeepsValue(s[1..]);
      assert s == [s[0]] + s[1..];
      ValZeros([s[0]]);
      ValAppend([s[0]], s[1..]);
    }
  }

  lemma {:induction false} PowMonotone(a: nat, b: nat)
    requires a <= b
    ensures Pow10(a) <= Pow10(b)
    decreases b - a
  {
    if a < b { PowMonotone(a, b - 1); }
  }

  // -- Numbers as text ------------------------------------------------------------------------------------

  function NatText(n: nat): (t: string)
    ensures AllDigits(t) && t != ""
  {
    if n < 10 then [CharOf(n)] else NatText(n / 10) + [CharOf(n % 10)]
  }

  function IntText(v: int): string
  {
    if v < 0 then "-" + NatText(0 - v) else NatText(v)
  }

  lemma {:induction false} NatTextValue(n: nat)
    ensures Val(NatText(n)) == n
  {
    if n < 10 {
      assert [CharOf(n)][..0] == "";
    } else {
      NatTextValue(n / 10);
      var front := NatText(n / 10);
      assert (front + [CharOf(n % 10)])[..|front|] == front;
    }
  }
}

/** numeric constants: PostgreSQL's base-10000 storage and its decimal text. */
module Numeric {
  import opened Bytes
  import opened Parts
  import opened Decimal

  datatype Stored =
    | NaN
    | Infinity
    | NegInfinity
    | Finite(negative: bool, scale: nat, weight: int, digits: seq<nat>)

  // -- From storage to digits ---------------------------------------------------------------------------

  // The varlena header in front of a value, by either of its forms; 0 when neither matches.
  function HeaderLength(order: ByteOrder, b: seq<byte>): (n: nat)
    ensures n <= |b|
  {
    if FullHeader(order, b) then 4
    else if 0 < |b| <= 127 && ShortHeader(order, b[0], |b|) then 1
    else 0
  }

  predicate ShortHeader(order: ByteOrder, first: byte, length: nat)
  {
    if order.Little? then first % 2 == 1 && first / 2 == length else first >= 128 && first % 128 == length
  }

  predicate Base10000(digits: seq<nat>) { forall i :: 0 <= i < |digits| ==> digits[i] < 10000 }

  predicate Canonical(digits: seq<nat>)
  {
    Base10000(digits) && (digits != [] ==> digits[0] != 0 && digits[|digits| - 1] != 0)
  }

  function ReadDigits(order: ByteOrder, body: seq<byte>, at: nat): (r: Option<seq<nat>>)
    requires |body| % 2 == 0 && at % 2 == 0
    ensures r.Some? ==> Base10000(r.value)
    decreases |body| - at
  {
    if at >= |body| then Some([])
    else
      var digit := U16(order, body, at);
      if digit > 9999 then None
      else match ReadDigits(order, body, at + 2)
        case None => None
        case Some(rest) => Some([digit] + rest)
  }

  function ReadSpecial(header: nat): Option<Stored>
  {
    if header == 0xC000 then Some(NaN)
    else if header == 0xD000 then Some(Infinity)
    else if header == 0xF000 then Some(NegInfinity)
    else None
  }

  // The short form keeps sign, scale and weight in the header word; the long form has a weight word.
  function ReadBody(order: ByteOrder, body: seq<byte>): Option<Stored>
  {
    if |body| < 2 || |body| % 2 != 0 then None
    else
      var header := U16(order, body, 0);
      var flags := header / 0x4000;
      if flags == 3 then
        if |body| != 2 && !(header == 0xC000 && |body| == 4) then None else ReadSpecial(header)
      else
        var short := flags == 2;
        var offset := if short then 2 else 4;
        if |body| < offset then None
        else
          var negative := if short then header / 0x2000 % 2 == 1 else header / 0x4000 % 2 == 1;
          var scale := if short then header / 0x80 % 0x40 else header % 0x4000;
          var weight := if short then header % 0x40 - (if header / 0x40 % 2 == 1 then 64 else 0) else I16(order, body,
              2);
          match ReadDigits(order, body, offset)
          case None => None
          case Some(digits) =>
            if !Canonical(digits) then None else Some(Finite(negative, scale, weight, digits))
  }

  function ReadNumeric(order: ByteOrder, b: seq<byte>): Option<Stored>
  {
    var start := HeaderLength(order, b);
    if start == 0 then None else ReadBody(order, b[start..])
  }

  // -- From digits to text --------------------------------------------------------------------------------

  function Pad4(d: nat): (s: string)
    requires d < 10000
    ensures |s| == 4 && AllDigits(s)
  {
    [CharOf(d / 1000), CharOf(d / 100 % 10), CharOf(d / 10 % 10), CharOf(d % 10)]
  }

  function Padded(digits: seq<nat>): (s: string)
    requires Base10000(digits)
    ensures |s| == 4 * |digits| && AllDigits(s)
    decreases |digits|
  {
    if digits == [] then "" else Padded(digits[..|digits| - 1]) + Pad4(digits[|digits| - 1])
  }

  function Whole(coefficient: string, point: int): string
  {
    if point <= 0 then "0" else Fit(coefficient, point)
  }

  function Fraction(coefficient: string, point: int): string
  {
    if point < 0 then Zeros(-point) + coefficient
    else if point <= |coefficient| then coefficient[point..]
    else ""
  }

  function Pointed(fraction: string): string
  {
    if fraction == "" then "" else "." + fraction
  }

  function FiniteText(n: Stored): Option<string>
    requires n.Finite? && Base10000(n.digits)
  {
    if n.digits == [] then Some("0" + Pointed(Zeros(n.scale)))
    else
      var coefficient := Padded(n.digits);
      var point := (n.weight + 1) * 4;
      var fraction := Fraction(coefficient, point);
      if |fraction| > n.scale && !AllZeros(fraction[n.scale..]) then None
      else Some((if n.negative then "-" else "") + StripZeros(Whole(coefficient, point)) +
                Pointed(Fit(fraction, n.scale)))
  }

  function TextOf(n: Stored): Option<string>
    requires n.Finite? ==> Base10000(n.digits)
  {
    match n
    case NaN => Some("NaN")
    case Infinity => Some("Infinity")
    case NegInfinity => Some("-Infinity")
    case Finite(_, _, _, _) => FiniteText(n)
  }

  lemma ReadIsBase10000(order: ByteOrder, b: seq<byte>)
    ensures ReadNumeric(order, b).Some? && ReadNumeric(order, b).value.Finite? ==> Canonical(ReadNumeric(order, b).value.digits)
  {
    hide U16, HeaderLength;
  }

  function StorageText(order: ByteOrder, b: seq<byte>): Option<string>
  {
    ReadIsBase10000(order, b);
    match ReadNumeric(order, b) case None => None case Some(n) => TextOf(n)
  }

  // -- Exactness --------------------------------------------------------------------------------------------

  // The sum of digits[i] * 10000^(|digits| - 1 - i).
  function Coefficient(digits: seq<nat>): nat
    decreases |digits|
  {
    if digits == [] then 0 else 10000 * Coefficient(digits[..|digits| - 1]) + digits[|digits| - 1]
  }

  // m / 10^s == c * 10^e
  predicate SameValue(m: nat, s: nat, c: nat, e: int)
  {
    if e + s >= 0 then m == c * Pow10(e + s) else c == m * Pow10(-(e + s))
  }

  // The text is a sign, an integer part without surplus zeros and `scale` fraction digits, and denotes
  // exactly the sum of digits[i] * 10000^(weight - i).
  ghost predicate Denotes(t: string, n: Stored, whole: string, fraction: string)
    requires n.Finite?
  {
    t == (if n.negative && n.digits != [] then "-" else "") + whole + Pointed(fraction) &&
    AllDigits(whole) && NoSurplusZeros(whole) && AllDigits(fraction) && |fraction| == n.scale &&
    SameValue(Val(whole) * Pow10(n.scale) + Val(fraction), n.scale, Coefficient(n.digits),
              4 * (n.weight + 1 - |n.digits|))
  }

  lemma OneDigit(d: nat)
    requires d < 10
    ensures Val([CharOf(d)]) == d
  {
    assert [CharOf(d)][..0] == "";
  }

  lemma Pad4Value(d: nat)
    requires d < 10000
    ensures Val(Pad4(d)) == d
  {
    var a, b, c := [CharOf(d / 1000)], [CharOf(d / 100 % 10)], [CharOf(d / 10 % 10)];
    var last := [CharOf(d % 10)];
    assert Pad4(d) == a + b + c + last;
    OneDigit(d / 1000);
    OneDigit(d / 100 % 10);
    OneDigit(d / 10 % 10);
    OneDigit(d % 10);
    assert Pow10(1) == 10;
    hide Val, Pow10, CharOf, Pad4;
    ValAppend(a, b);
    ValAppend(a + b, c);
    ValAppend(a + b + c, last);
    FourDigits(d);
  }

  lemma FourDigits(d: nat)
    requires d < 10000
    ensures ((d / 1000 * 10 + d / 100 % 10) * 10 + d / 10 % 10) * 10 + d % 10 == d
  {
    var h := d / 10;
    var k := h / 10;
    assert d / 100 == k && d / 1000 == k / 10;
    assert d == 10 * h + d % 10 && h == 10 * k + h % 10 && k == 10 * (k / 10) + k % 10;
  }

  lemma {:induction false} PaddedValue(digits: seq<nat>)
    requires Base10000(digits)
    ensures Val(Padded(digits)) == Coefficient(digits)
    decreases |digits|
  {
    if digits != [] {
      var n := |digits| - 1;
      PaddedValue(digits[..n]);
      Pad4Value(digits[n]);
      ValAppend(Padded(digits[..n]), Pad4(digits[n]));
      PowFour();
    }
  }

  // Integer part and fraction together are the coefficient cut or padded at the scale.
  lemma DigitsTogether(coefficient: string, point: int, scale: nat)
    requires AllDigits(coefficient)
    requires var fraction := Fraction(coefficient, point); |fraction| > scale ==> AllZeros(fraction[scale..])
    ensures var whole, fraction := Whole(coefficient, point), Fit(Fraction(coefficient, point), scale);
      AllDigits(whole) && whole != "" && AllDigits(fraction) && AllDigits(whole + fraction) &&
      SameValue(Val(whole + fraction), scale, Val(coefficient), point - |coefficient|)
  {
    var whole, fraction := Whole(coefficient, point), Fit(Fraction(coefficient, point), scale);
    hide Val, Pow10;
    if point >= |coefficient| && point > 0 {
      assert whole + fraction == Fit(coefficient, point + scale);
      FitValue(coefficient, point + scale);
    } else if point > 0 {
      assert whole + fraction == Fit(coefficient, point + scale) by { CutTogether(coefficient, point, scale); }
      CutZeros(coefficient, point, scale);
      FitValue(coefficient, point + scale);
    } else {
      var d := Zeros(-point) + coefficient;
      assert Fraction(coefficient, point) == d;
      ValZeros("0");
      ValZeros(Zeros(-point));
      ValAppend(Zeros(-point), coefficient);
      FitValue(d, scale);
      ValAppend("0", fraction);
    }
  }

  lemma CutTogether(c: string, point: nat, scale: nat)
    requires point < |c|
    ensures c[..point] + Fit(c[point..], scale) == Fit(c, point + scale)
  {
    if point + scale <= |c| {
      assert c[point..][..scale] == c[point..point + scale];
    }
  }

  lemma CutZeros(c: string, point: nat, scale: nat)
    requires point < |c| && (|c[point..]| > scale ==> AllZeros(c[point..][scale..]))
    ensures point + scale < |c| ==> AllZeros(c[point + scale..])
  {
    if point + scale < |c| {
      assert c[point..][scale..] == c[point + scale..];
    }
  }

  lemma ZeroText(n: Stored)
    requires n.Finite? && n.digits == []
    ensures Denotes(FiniteText(n).value, n, "0", Zeros(n.scale))
  {
    ValZeros("0");
    ValZeros(Zeros(n.scale));
    assert "0" + Pointed(Zeros(n.scale)) == "" + "0" + Pointed(Zeros(n.scale));
  }

  // Whatever text comes out denotes the stored number, at its display scale.
  lemma TextDenotes(n: Stored) returns (whole: string, fraction: string)
    requires n.Finite? && Canonical(n.digits) && FiniteText(n).Some?
    ensures Denotes(FiniteText(n).value, n, whole, fraction)
  {
    if n.digits == [] {
      ZeroText(n);
      return "0", Zeros(n.scale);
    }
    var coefficient, point := Padded(n.digits), (n.weight + 1) * 4;
    var padded := Whole(coefficient, point);
    whole, fraction := StripZeros(padded), Fit(Fraction(coefficient, point), n.scale);
    hide Whole, Fraction, Fit, Padded, Pointed, Coefficient, Val;
    DigitsTogether(coefficient, point, n.scale);
    PaddedValue(n.digits);
    StripKeepsValue(padded);
    ValAppend(padded, fraction);
  }

  // -- Exactly the exact ones ---------------------------------------------------------------------------

  lemma {:induction false} MultipleEndsInZeros(s: string, k: nat, m: nat)
    requires AllDigits(s) && k <= |s| && Val(s) == m * Pow10(k)
    ensures AllZeros(s[|s| - k..])
  {
    var cut := |s| - k;
    var front, tail := s[..cut], s[cut..];
    assert s == front + tail;
    ValAppend(front, tail);
    ValBound(tail);
    QuotientUnique(m, Val(front), Val(tail), Pow10(k));
    ZeroValue(tail);
  }

  lemma QuotientUnique(m: nat, q: nat, r: nat, p: nat)
    requires m * p == q * p + r && r < p
    ensures r == 0
  {
    if m > q {
      MulGap(m, q, p);
    } else {
      MulMonotone(m, q, p);
    }
  }

  lemma MulMonotone(x: nat, y: nat, p: nat)
    requires x <= y
    ensures x * p <= y * p
  {
    var d := y - x;
    assert y * p == x * p + d * p;
    assert d * p >= 0;
  }

  lemma MulGap(m: nat, q: nat, p: nat)
    requires m > q
    ensures m * p >= q * p + p
  {
    MulMonotone(q + 1, m, p);
    assert (q + 1) * p == q * p + p;
  }

  lemma MulAssoc(a: int, b: int, c: int)
    ensures (a * b) * c == a * (b * c)
  {
  }

  lemma {:induction false} ZeroValue(s: string)
    requires AllDigits(s) && Val(s) == 0
    ensures AllZeros(s)
    decreases |s|
  {
    if s != "" {
      ZeroValue(s[..|s| - 1]);
      assert forall i :: 0 <= i < |s| - 1 ==> s[i] == s[..|s| - 1][i];
    }
  }

  lemma TooSmall(c: nat, digits: nat, m: nat, k: nat)
    requires 0 < c < Pow10(digits) && digits <= k
    ensures c != m * Pow10(k)
  {
    PowMonotone(digits, k);
    hide Pow10;
    if m > 0 {
      MulGap(m, 0, Pow10(k));
    }
  }

  ghost predicate Exact(n: Stored)
    requires n.Finite?
  {
    exists m: nat :: Units(n, m)
  }

  // The number is m units of its display scale.
  predicate Units(n: Stored, m: nat)
    requires n.Finite?
  {
    SameValue(m, n.scale, Coefficient(n.digits), 4 * (n.weight + 1 - |n.digits|))
  }

  lemma TextIsExact(n: Stored)
    requires n.Finite? && Canonical(n.digits) && FiniteText(n).Some?
    ensures Exact(n)
  {
    hide SameValue, Coefficient, FiniteText, Val, Pow10, Canonical, Pointed, NoSurplusZeros, AllDigits;
    var whole, fraction := TextDenotes(n);
    assert Units(n, Val(whole) * Pow10(n.scale) + Val(fraction));
  }

  // A finite number has a text exactly when its value is a multiple of its display scale's unit.
  lemma TextIffExact(n: Stored)
    requires n.Finite? && Canonical(n.digits)
    ensures FiniteText(n).Some? <==> Exact(n)
  {
    hide SameValue, Coefficient, FiniteText;
    if FiniteText(n).Some? {
      TextIsExact(n);
    } else if Exact(n) {
      var m: nat :| Units(n, m);
      ExactHasText(n, m);
    }
  }

  lemma ExactHasText(n: Stored, m: nat)
    requires n.Finite? && Canonical(n.digits)
    requires SameValue(m, n.scale, Coefficient(n.digits), 4 * (n.weight + 1 - |n.digits|))
    ensures FiniteText(n).Some?
  {
    hide Coefficient, SameValue, Padded, Fraction, StripZeros, Fit, Whole;
    if n.digits != [] {
      PaddedValue(n.digits);
      PositiveCoefficient(n.digits);
      CutDigitsAreZeros(Padded(n.digits), (n.weight + 1) * 4, n.scale, m);
    }
  }

  lemma CutDigitsAreZeros(coefficient: string, point: int, scale: nat, m: nat)
    requires AllDigits(coefficient) && 0 < Val(coefficient)
    requires SameValue(m, scale, Val(coefficient), point - |coefficient|)
    ensures var fraction := Fraction(coefficient, point); |fraction| > scale ==> AllZeros(fraction[scale..])
  {
    var fraction := Fraction(coefficient, point);
    if |fraction| > scale {
      var k := |coefficient| - point - scale;
      assert k > 0 && Val(coefficient) == m * Pow10(k);
      if k >= |coefficient| {
        ValBound(coefficient);
        TooSmall(Val(coefficient), |coefficient|, m, k);
      }
      MultipleEndsInZeros(coefficient, k, m);
      if point >= 0 {
        assert fraction[scale..] == coefficient[point + scale..];
      } else {
        assert fraction[scale..] == coefficient[scale + point..];
      }
    }
  }

  lemma {:induction false} CoefficientBound(digits: seq<nat>)
    requires Base10000(digits)
    ensures digits != [] && digits[0] != 0 ==> Coefficient(digits) >= Pow10(4 * (|digits| - 1)) > 0
    ensures Coefficient(digits) < Pow10(4 * |digits|)
    decreases |digits|
  {
    PaddedValue(digits);
    ValBound(Padded(digits));
    if digits != [] && digits[0] != 0 {
      var n := |digits| - 1;
      if n > 0 {
        CoefficientBound(digits[..n]);
        assert digits[..n][0] == digits[0];
        PowSum(4, 4 * (n - 1));
        PowFour();
      }
    }
  }

  lemma PositiveCoefficient(digits: seq<nat>)
    requires Canonical(digits)
    ensures digits != [] ==> Coefficient(digits) > 0
  {
    CoefficientBound(digits);
  }

  // -- Equal texts, equal numbers ---------------------------------------------------------------------------

  lemma {:induction false} PointUnique(a: string, x: string, b: string, y: string)
    requires AllDigits(a) && AllDigits(b) && a + Pointed(x) == b + Pointed(y)
    ensures a == b && x == y
    decreases |a|
  {
    hide Pointed;
    var s := a + Pointed(x);
    if a == "" || b == "" {
      assert a == "" ==> s == Pointed(x);
      assert b == "" ==> s == Pointed(y);
      BothEmpty(a, x, b, y);
      PointedInjective(x, y);
    } else {
      assert s[0] == a[0] == b[0];
      assert s[1..] == a[1..] + Pointed(x) == b[1..] + Pointed(y);
      PointUnique(a[1..], x, b[1..], y);
      assert a == [a[0]] + a[1..] && b == [b[0]] + b[1..];
    }
  }

  lemma PointedInjective(x: string, y: string)
    requires Pointed(x) == Pointed(y)
    ensures x == y
  {
    assert x != "" ==> x == Pointed(x)[1..];
    assert y != "" ==> y == Pointed(y)[1..];
  }

  lemma DigitBeforePoint(a: string, x: string, y: string)
    requires AllDigits(a) && a != ""
    ensures a + Pointed(x) != "" + Pointed(y)
  {
    assert (a + Pointed(x))[0] == a[0] && IsDigit(a[0]);
    assert y != "" ==> ("" + Pointed(y))[0] == '.';
  }

  lemma BothEmpty(a: string, x: string, b: string, y: string)
    requires AllDigits(a) && AllDigits(b) && a + Pointed(x) == b + Pointed(y) && (a == "" || b == "")
    ensures a == "" && b == ""
  {
    hide Pointed;
    if a != "" { DigitBeforePoint(a, x, y); }
    if b != "" { DigitBeforePoint(b, y, x); }
  }

  // Both denote m / 10^s, and the second has the smaller exponent.
  lemma CommonValue(m: nat, s: nat, c: nat, e: int, d: nat, f: int)
    requires SameValue(m, s, c, e) && SameValue(m, s, d, f) && e >= f
    ensures d == c * Pow10(e - f)
  {
    hide Pow10;
    var p := Pow10(e - f);
    if f + s >= 0 {
      PowSum(e - f, f + s);
      MulAssoc(c, p, Pow10(f + s));
      CancelFactor(c * p, d, Pow10(f + s));
    } else if e + s >= 0 {
      PowSum(e + s, -(f + s));
      MulAssoc(c, Pow10(e + s), Pow10(-(f + s)));
    } else {
      PowSum(-(e + s), e - f);
      MulAssoc(m, Pow10(-(e + s)), p);
    }
  }

  lemma CancelFactor(x: int, y: int, p: nat)
    requires p > 0 && x * p == y * p && x >= 0 && y >= 0
    ensures x == y
  {
    if x > y { MulGap(x, y, p); }
    if y > x { MulGap(y, x, p); }
  }

  // Base-10000 digits without zeros at either end are fixed by value and exponent.
  lemma DigitsUnique(a: seq<nat>, b: seq<nat>, e: int, f: int)
    requires Canonical(a) && Canonical(b) && a != [] && b != [] && e >= f && (e - f) % 4 == 0
    requires Coefficient(b) == Coefficient(a) * Pow10(e - f)
    ensures a == b && e == f
  {
    if e > f {
      EndsInZero(a, b, e - f);
    }
    assert Pow10(0) == 1;
    SameLength(a, b);
    SameLength(b, a);
    PaddedValue(a);
    PaddedValue(b);
    ValInjective(Padded(a), Padded(b));
    PaddedInjective(a, b);
  }

  lemma EndsInZero(a: seq<nat>, b: seq<nat>, k: nat)
    requires b != [] && k >= 4 && Coefficient(b) == Coefficient(a) * Pow10(k)
    ensures b[|b| - 1] % 10000 == 0
  {
    PowSum(4, k - 4);
    PowFour();
    var front := Coefficient(b[..|b| - 1]);
    assert Coefficient(b) == 10000 * front + b[|b| - 1];
    hide Coefficient, Pow10;
    Multiple(Coefficient(a), Pow10(k - 4), front, b[|b| - 1]);
  }

  lemma Multiple(x: nat, p: nat, front: nat, last: nat)
    requires x * (10000 * p) == 10000 * front + last
    ensures last % 10000 == 0
  {
    var q := x * p;
    assert x * (10000 * p) == 10000 * q;
    assert last == 10000 * (q - front);
  }

  lemma PowFour()
    ensures Pow10(4) == 10000
  {
    assert Pow10(1) == 10 && Pow10(2) == 100 && Pow10(3) == 1000;
  }

  lemma SameLength(a: seq<nat>, b: seq<nat>)
    requires Canonical(a) && Canonical(b) && a != [] && b != [] && Coefficient(a) == Coefficient(b)
    ensures |a| <= |b|
  {
    CoefficientBound(a);
    CoefficientBound(b);
    if |a| > |b| { PowMonotone(4 * |b|, 4 * (|a| - 1)); }
  }

  lemma SamePieces(a: string, x: string, b: string, y: string)
    requires a + x == b + y && |a| == |b|
    ensures a == b && x == y
  {
    var s := a + x;
    assert a == s[..|a|] && x == s[|a|..];
    assert b == s[..|a|] && y == s[|a|..];
  }

  lemma {:induction false} PaddedInjective(a: seq<nat>, b: seq<nat>)
    requires Base10000(a) && Base10000(b) && |a| == |b| && Padded(a) == Padded(b)
    ensures a == b
    decreases |a|
  {
    if a != [] {
      var n := |a| - 1;
      SamePieces(Padded(a[..n]), Pad4(a[n]), Padded(b[..n]), Pad4(b[n]));
      hide Padded, Pad4, Val;
      Pad4Value(a[n]);
      Pad4Value(b[n]);
      PaddedInjective(a[..n], b[..n]);
      assert a == a[..n] + [a[n]] && b == b[..n] + [b[n]];
    }
  }

  // Nonzero numbers with the same text are the same in sign, scale, weight and digits.
  lemma TextInjective(a: Stored, b: Stored)
    requires a.Finite? && b.Finite? && Canonical(a.digits) && Canonical(b.digits) && a.digits != [] && b.digits != []
    requires FiniteText(a).Some? && FiniteText(a) == FiniteText(b)
    ensures a == b
  {
    hide FiniteText, Coefficient, Val, Pow10, StripZeros, Pointed, Canonical, SameValue;
    var wa, fa := TextDenotes(a);
    var wb, fb := TextDenotes(b);
    SameParts(wa, fa, a.negative, wb, fb, b.negative);
    var m := Val(wa) * Pow10(a.scale) + Val(fa);
    SameDigits(m, a, b);
  }

  lemma SameParts(wa: string, fa: string, na: bool, wb: string, fb: string, nb: bool)
    requires AllDigits(wa) && AllDigits(wb) && wa != "" && wb != ""
    requires (if na then "-" else "") + wa + Pointed(fa) == (if nb then "-" else "") + wb + Pointed(fb)
    ensures na == nb && wa == wb && fa == fb
  {
    hide Pointed;
    SignShows(wa, fa, na);
    SignShows(wb, fb, nb);
    var t := (if na then "-" else "") + wa + Pointed(fa);
    var cut := if na then 1 else 0;
    assert t[cut..] == wa + Pointed(fa) && t[cut..] == wb + Pointed(fb);
    PointUnique(wa, fa, wb, fb);
  }

  lemma SameDigits(m: nat, a: Stored, b: Stored)
    requires a.Finite? && b.Finite? && Canonical(a.digits) && Canonical(b.digits) && a.digits != [] && b.digits != []
    requires a.negative == b.negative && a.scale == b.scale
    requires SameValue(m, a.scale, Coefficient(a.digits), 4 * (a.weight + 1 - |a.digits|))
    requires SameValue(m, b.scale, Coefficient(b.digits), 4 * (b.weight + 1 - |b.digits|))
    ensures a == b
  {
    hide Coefficient, Pow10, Canonical, SameValue;
    var e, f := 4 * (a.weight + 1 - |a.digits|), 4 * (b.weight + 1 - |b.digits|);
    if e >= f {
      CommonValue(m, a.scale, Coefficient(a.digits), e, Coefficient(b.digits), f);
      DigitsUnique(a.digits, b.digits, e, f);
    } else {
      CommonValue(m, a.scale, Coefficient(b.digits), f, Coefficient(a.digits), e);
      DigitsUnique(b.digits, a.digits, f, e);
    }
  }

  lemma SignShows(whole: string, fraction: string, negative: bool)
    requires AllDigits(whole) && whole != ""
    ensures var t := (if negative then "-" else "") + whole + Pointed(fraction);
      t != "" && (t[0] == '-' <==> negative)
  {
    assert IsDigit(whole[0]);
  }

  // -- Storage forms ------------------------------------------------------------------------------------------

  ghost function PutDigits(order: ByteOrder, digits: seq<nat>): (b: seq<byte>)
    requires Base10000(digits)
    ensures |b| == 2 * |digits|
    decreases |digits|
  {
    if digits == [] then [] else PutU16(order, digits[0]) + PutDigits(order, digits[1..])
  }

  predicate FitsLong(n: Stored)
  {
    n.Finite? && Canonical(n.digits) && n.scale < 0x4000 && -0x8000 <= n.weight < 0x8000
  }

  predicate FitsShort(n: Stored)
  {
    n.Finite? && Canonical(n.digits) && n.scale < 0x40 && -0x40 <= n.weight < 0x40
  }

  ghost function PutLong(order: ByteOrder, n: Stored): seq<byte>
    requires FitsLong(n)
  {
    PutU16(order, (if n.negative then 0x4000 else 0) + n.scale) + PutI16(order, n.weight) + PutDigits(order, n.digits)
  }

  ghost function PutShort(order: ByteOrder, n: Stored): seq<byte>
    requires FitsShort(n)
  {
    PutU16(order, 0x8000 + (if n.negative then 0x2000 else 0) + n.scale * 0x80 +
                  (if n.weight < 0 then n.weight + 0x80 else n.weight)) +
    PutDigits(order, n.digits)
  }

  lemma {:induction false} ReadsDigits(order: ByteOrder, body: seq<byte>, at: nat, digits: seq<nat>)
    requires |body| % 2 == 0 && at % 2 == 0 && Base10000(digits)
    requires At(body, at, PutDigits(order, digits)) && at + 2 * |digits| == |body|
    ensures ReadDigits(order, body, at) == Some(digits)
    decreases |digits|
  {
    hide U16, PutU16, At;
    if digits != [] {
      AtSplit(body, at, PutU16(order, digits[0]), PutDigits(order, digits[1..]));
      U16At(order, body, at, digits[0]);
      ReadsDigits(order, body, at + 2, digits[1..]);
      assert digits == [digits[0]] + digits[1..];
    }
  }

  lemma LongReads(order: ByteOrder, n: Stored)
    requires FitsLong(n)
    ensures ReadBody(order, PutLong(order, n)) == Some(n)
  {
    hide U16, PutU16, I16, PutI16, At, ReadDigits, PutDigits;
    var body := PutLong(order, n);
    var header := (if n.negative then 0x4000 else 0) + n.scale;
    AtWhole(body);
    AtSplit(body, 0, PutU16(order, header) + PutI16(order, n.weight), PutDigits(order, n.digits));
    AtSplit(body, 0, PutU16(order, header), PutI16(order, n.weight));
    U16At(order, body, 0, header);
    I16At(order, body, 2, n.weight);
    ReadsDigits(order, body, 4, n.digits);
  }

  lemma ShortReads(order: ByteOrder, n: Stored)
    requires FitsShort(n)
    ensures ReadBody(order, PutShort(order, n)) == Some(n)
  {
    hide U16, PutU16, At, ReadDigits, PutDigits;
    var body := PutShort(order, n);
    var low := if n.weight < 0 then n.weight + 0x80 else n.weight;
    var header := 0x8000 + (if n.negative then 0x2000 else 0) + n.scale * 0x80 + low;
    AtWhole(body);
    AtSplit(body, 0, PutU16(order, header), PutDigits(order, n.digits));
    U16At(order, body, 0, header);
    ReadsDigits(order, body, 2, n.digits);
    ShortHeaderParts(n.negative, n.scale, n.weight, header);
  }

  lemma ShortHeaderParts(negative: bool, scale: nat, weight: int, header: nat)
    requires scale < 0x40 && -0x40 <= weight < 0x40
    requires header == 0x8000 + (if negative then 0x2000 else 0) + scale * 0x80 + if weight < 0 then weight +
      0x80 else weight
    ensures header / 0x4000 == 2 && (header / 0x2000 % 2 == 1 <==> negative) && header / 0x80 % 0x40 == scale
    ensures header % 0x40 - (if header / 0x40 % 2 == 1 then 64 else 0) == weight
  {
  }

  predicate FitsHeader(short: bool, body: seq<byte>) { |body| + 4 < 0x4000_0000 && (short ==> |body| < 127) }

  // A value behind either varlena header.
  ghost function Framed(order: ByteOrder, short: bool, body: seq<byte>): (b: seq<byte>)
    requires FitsHeader(short, body)
  {
    if short then [if order.Little? then 2 * (|body| + 1) + 1 else 0x80 + |body| + 1] + body
    else PutHeader(order, |body| + 4) + body
  }

  lemma FramedHeader(order: ByteOrder, short: bool, body: seq<byte>)
    requires FitsHeader(short, body)
    ensures var b := Framed(order, short, body);
      HeaderLength(order, b) == (if short then 1 else 4) && b[if short then 1 else 4..] == body
  {
    var b := Framed(order, short, body);
    if short {
      if |b| >= 4 { ShortIsNotFull(order, b); }
    } else {
      AtWhole(b);
      AtSplit(b, 0, PutHeader(order, |body| + 4), body);
      hide PutHeader, U32, FullHeader;
      HeaderAt(order, b);
    }
  }

  lemma ShortIsNotFull(order: ByteOrder, b: seq<byte>)
    requires |b| >= 4 && ShortHeader(order, b[0], |b|)
    ensures !FullHeader(order, b)
  {
  }

  // The bodies of a value. Behind the header of NaN a word may follow.
  ghost predicate StoredAs(order: ByteOrder, n: Stored, body: seq<byte>)
  {
    match n
    case NaN => (|body| == 2 || |body| == 4) && At(body, 0, PutU16(order, 0xC000))
    case Infinity => body == PutU16(order, 0xD000)
    case NegInfinity => body == PutU16(order, 0xF000)
    case Finite(_, _, _, _) =>
      (FitsLong(n) && body == PutLong(order, n)) || (FitsShort(n) && body == PutShort(order, n))
  }

  lemma SpecialReads(order: ByteOrder, n: Stored, body: seq<byte>)
    requires StoredAs(order, n, body) && !n.Finite?
    ensures ReadBody(order, body) == Some(n)
  {
    hide U16, PutU16, At;
    AtWhole(body);
    U16At(order, body, 0, if n.NaN? then 0xC000 else if n.Infinity? then 0xD000 else 0xF000);
  }

  // The words of a body are the ones it was read from.
  lemma WordAt(order: ByteOrder, body: seq<byte>, at: nat)
    requires at + 2 <= |body|
    ensures At(body, at, PutU16(order, U16(order, body, at)))
  {
    var word := body[at..at + 2];
    OneWord(order, word, U16(order, body, at));
  }

  lemma OneWord(order: ByteOrder, word: seq<byte>, v: int)
    requires |word| == 2 && U16(order, word, 0) == v
    ensures PutU16(order, v) == word
  {
    var other := PutU16(order, v);
    TwoByteWord(order, other);
    hide WordOf;
    assert other[0] == word[0] && other[1] == word[1];
  }

  lemma {:induction false} DigitsStored(order: ByteOrder, body: seq<byte>, at: nat)
    requires |body| % 2 == 0 && at % 2 == 0 && at <= |body| && ReadDigits(order, body, at).Some?
    ensures At(body, at, PutDigits(order, ReadDigits(order, body, at).value))
    ensures 2 * |ReadDigits(order, body, at).value| == |body| - at
    decreases |body| - at
  {
    hide U16, PutU16, At;
    if at < |body| {
      var digit := U16(order, body, at);
      var rest := ReadDigits(order, body, at + 2).value;
      DigitsStored(order, body, at + 2);
      WordAt(order, body, at);
      AtSplit(body, at, PutU16(order, digit), PutDigits(order, rest));
      assert ([digit] + rest)[1..] == rest;
    } else {
      AtSlice(body, at, []);
    }
  }

  lemma HeaderParts(header: nat)
    requires header < 0x1_0000
    ensures header / 0x4000 < 2 ==> header == (if header / 0x4000 % 2 == 1 then 0x4000 else 0) + header % 0x4000
    ensures header / 0x4000 == 2 ==>
      header == 0x8000 + (if header / 0x2000 % 2 == 1 then 0x2000 else 0) + header / 0x80 % 0x40 * 0x80 + header % 0x80
    ensures header % 0x80 == header % 0x40 + if header / 0x40 % 2 == 1 then 0x40 else 0
  {
    var q, r := header / 0x40, header % 0x40;
    assert header == q * 0x40 + r;
    var h := q / 2;
    assert q == 2 * h + q % 2 && header == h * 0x80 + header % 0x80 && h == header / 0x80;
    var m := h / 0x40;
    assert h == m * 0x40 + h % 0x40 && m == header / 0x2000;
  }

  lemma LongStored(order: ByteOrder, body: seq<byte>, n: Stored)
    requires ReadBody(order, body) == Some(n) && n.Finite? && U16(order, body, 0) < 0x8000
    ensures FitsLong(n) && body == PutLong(order, n)
  {
    hide U16, PutU16, At, ReadDigits, PutDigits, Canonical;
    var header := U16(order, body, 0);
    HeaderParts(header);
    assert header / 0x4000 < 2;
    WordAt(order, body, 0);
    WordAt(order, body, 2);
    DigitsStored(order, body, 4);
    AtSplit(body, 0, PutU16(order, header), PutI16(order, n.weight));
    AtSplit(body, 0, PutU16(order, header) + PutI16(order, n.weight), PutDigits(order, n.digits));
    assert |PutLong(order, n)| == |body|;
    AtWhole(body);
  }

  lemma ShortStored(order: ByteOrder, body: seq<byte>, n: Stored)
    requires ReadBody(order, body) == Some(n) && n.Finite? && U16(order, body, 0) >= 0x8000
    ensures FitsShort(n) && body == PutShort(order, n)
  {
    hide U16, PutU16, At, ReadDigits, PutDigits, Canonical;
    var header := U16(order, body, 0);
    HeaderParts(header);
    assert header / 0x4000 == 2;
    WordAt(order, body, 0);
    DigitsStored(order, body, 2);
    AtSplit(body, 0, PutU16(order, header), PutDigits(order, n.digits));
    assert |PutShort(order, n)| == |body|;
    AtWhole(body);
  }

  lemma SpecialStored(order: ByteOrder, body: seq<byte>, n: Stored)
    requires ReadBody(order, body) == Some(n) && !n.Finite?
    ensures StoredAs(order, n, body)
  {
    hide U16, PutU16, At;
    WordAt(order, body, 0);
    AtWhole(body);
  }

  // A body is read as a value exactly when it is one of its bodies.
  lemma ReadExactly(order: ByteOrder, body: seq<byte>, n: Stored)
    ensures ReadBody(order, body) == Some(n) <==> StoredAs(order, n, body)
  {
    hide ReadBody, PutLong, PutShort, FitsLong, FitsShort, U16, PutU16, At;
    if StoredAs(order, n, body) {
      if !n.Finite? {
        SpecialReads(order, n, body);
      } else if FitsLong(n) && body == PutLong(order, n) {
        LongReads(order, n);
      } else {
        ShortReads(order, n);
      }
    }
    if ReadBody(order, body) == Some(n) {
      BodyHasWord(order, body);
      if !n.Finite? {
        SpecialStored(order, body, n);
      } else if U16(order, body, 0) < 0x8000 {
        LongStored(order, body, n);
      } else {
        ShortStored(order, body, n);
      }
    }
  }

  lemma BodyHasWord(order: ByteOrder, body: seq<byte>)
    requires ReadBody(order, body).Some?
    ensures |body| >= 2
  {
    hide U16, ReadDigits, Canonical;
  }

  lemma HeaderStored(order: ByteOrder, b: seq<byte>)
    requires HeaderLength(order, b) > 0
    ensures var n := HeaderLength(order, b);
      FitsHeader(n == 1, b[n..]) && b == Framed(order, n == 1, b[n..])
  {
    if FullHeader(order, b) {
      FullHeaderStored(order, b);
    }
    hide PutHeader, U32;
  }

  lemma FullHeaderStored(order: ByteOrder, b: seq<byte>)
    requires FullHeader(order, b)
    ensures |b| < 0x4000_0000 && b == PutHeader(order, |b|) + b[4..]
  {
    var word, other := b[..4], PutHeader(order, |b|);
    FourByteWord(order, other);
    hide WordOf;
    assert U32(order, other, 0) == U32(order, b, 0);
    SameWord(order, b, other);
    assert b == b[..4] + b[4..];
  }

  lemma SameWord(order: ByteOrder, b: seq<byte>, c: seq<byte>)
    requires |b| >= 4 && |c| == 4 && U32(order, b, 0) == U32(order, c, 0)
    ensures b[..4] == c
  {
    if order.Little? {
      JoinInjective(b[0], b[1], b[2], b[3], c[0], c[1], c[2], c[3]);
    } else {
      JoinInjective(b[3], b[2], b[1], b[0], c[3], c[2], c[1], c[0]);
    }
  }

  lemma JoinInjective(a0: byte, a1: byte, a2: byte, a3: byte, b0: byte, b1: byte, b2: byte, b3: byte)
    requires Join4(a0, a1, a2, a3) == Join4(b0, b1, b2, b3)
    ensures a0 == b0 && a1 == b1 && a2 == b2 && a3 == b3
  {
  }

  // Bytes hold a number when they are one of its bodies behind either varlena header.
  ghost predicate NumericBytes(order: ByteOrder, b: seq<byte>, n: Stored)
  {
    exists short, body :: FitsHeader(short, body) && StoredAs(order, n, body) && b == Framed(order, short, body)
  }

  function Numeral(n: Stored): Option<string>
  {
    match n
    case Finite(_, _, _, digits) => if Base10000(digits) then FiniteText(n) else None
    case NaN => Some("NaN")
    case Infinity => Some("Infinity")
    case NegInfinity => Some("-Infinity")
  }

  // A text comes out exactly of the bytes of a number that has one, in either byte order, behind either varlena
  // header and in either numeric form: its own.
  lemma EveryForm(order: ByteOrder, b: seq<byte>)
    ensures forall n :: NumericBytes(order, b, n) ==> StorageText(order, b) == Numeral(n)
    ensures StorageText(order, b).Some? ==> exists n :: NumericBytes(order, b, n)
  {
    hide HeaderLength, Framed, FiniteText, ReadBody, StoredAs, FitsHeader;
    forall n | NumericBytes(order, b, n) ensures StorageText(order, b) == Numeral(n) {
      var short, body :| FitsHeader(short, body) && StoredAs(order, n, body) && b == Framed(order, short, body);
      FormReads(order, short, n, body);
    }
    if StorageText(order, b).Some? {
      var start := HeaderLength(order, b);
      var n := ReadNumeric(order, b).value;
      HeaderStored(order, b);
      ReadExactly(order, b[start..], n);
      assert NumericBytes(order, b, n);
    }
  }

  lemma FormReads(order: ByteOrder, short: bool, n: Stored, body: seq<byte>)
    requires StoredAs(order, n, body) && FitsHeader(short, body)
    ensures ReadNumeric(order, Framed(order, short, body)) == Some(n)
    ensures StorageText(order, Framed(order, short, body)) == Numeral(n)
  {
    hide HeaderLength, Framed, ReadBody, FiniteText, StoredAs, Canonical;
    FramedHeader(order, short, body);
    ReadExactly(order, body, n);
    ReadIsBase10000(order, Framed(order, short, body));
    if n.Finite? { CanonicalDigits(n); }
  }

  lemma CanonicalDigits(n: Stored)
    requires n.Finite?
    ensures Canonical(n.digits) ==> Base10000(n.digits)
  {
  }

  // -- The method ----------------------------------------------------------------------------------------------

  method NumericStorageText(b: seq<byte>, order: ByteOrder) returns (r: Option<string>)
    ensures r == StorageText(order, b)
  {
    hide FullHeader, FiniteText, U16;
    ReadIsBase10000(order, b);
    var start := HeaderLength(order, b);
    var body := b[start..];
    if start == 0 || |body| < 2 || |body| % 2 != 0 { return None; }
    var header := U16(order, body, 0);
    if header / 0x4000 == 3 {
      if |body| != 2 && !(header == 0xC000 && |body| == 4) { return None; }
      var special := ReadSpecial(header);
      return if special.None? then None else TextOf(special.value);
    }
    var short := header / 0x4000 == 2;
    var offset := if short then 2 else 4;
    if |body| < offset { return None; }
    var negative := if short then header / 0x2000 % 2 == 1 else header / 0x4000 % 2 == 1;
    var scale := if short then header / 0x80 % 0x40 else header % 0x4000;
    var weight := if short then header % 0x40 - (if header / 0x40 % 2 == 1 then 64 else 0) else I16(order, body, 2);
    var digits := CollectDigits(order, body, offset);
    if digits.None? || !Canonical(digits.value) { return None; }
    r := FiniteText(Finite(negative, scale, weight, digits.value));
  }

  method CollectDigits(order: ByteOrder, body: seq<byte>, offset: nat) returns (r: Option<seq<nat>>)
    requires |body| % 2 == 0 && offset % 2 == 0
    ensures r == ReadDigits(order, body, offset)
  {
    hide U16;
    var digits: seq<nat> := [];
    var at := offset;
    ghost var all := ReadDigits(order, body, offset);
    assert all.Some? ==> [] + all.value == all.value;
    while at < |body|
      invariant at % 2 == 0
      invariant ReadDigits(order, body, offset) ==
        var rest := ReadDigits(order, body, at);
        if rest.None? then None else Some(digits + rest.value)
      decreases |body| - at
    {
      var digit := U16(order, body, at);
      if digit > 9999 { return None; }
      ghost var rest := ReadDigits(order, body, at + 2);
      assert rest.Some? ==> digits + ([digit] + rest.value) == digits + [digit] + rest.value;
      digits := digits + [digit];
      at := at + 2;
    }
    assert digits + [] == digits;
    r := Some(digits);
  }
}
