/**
  Exact decimals: the two ways a money amount loses digits (truncation in the services,
  rounding in the NUMERIC(19,4) columns) and the canonical decimal text that stored
  repayment splits are written in.
 */
module Decimals {
  import opened Common

  /** Nanos per tick: the services count nanos (1e-9), the money columns keep 1e-4. */
  const TICK: int := 100_000
  const HALF: int := 50_000

  /** numericToScale(x, -4) of an amount in nanos: big.Int.Quo truncates toward zero. */
  function Ticks(nanos: int): int {
    if nanos >= 0 then nanos / TICK else -((-nanos) / TICK)
  }

  /** What a NUMERIC(19,4) column stores for an amount in nanos: ties round away from zero. */
  function Column(nanos: int): int {
    if nanos >= 0 then (nanos + HALF) / TICK else -((-nanos + HALF) / TICK)
  }

  function Nanos(ticks: int): int { ticks * TICK }

  /** Truncation and storage agree exactly when less than half a tick is discarded. */
  lemma ColumnAgainstTicks(nanos: int)
    requires 0 <= nanos
    ensures Column(nanos) == Ticks(nanos) + (if nanos % TICK >= HALF then 1 else 0)
    ensures Column(nanos) == Ticks(nanos) <==> nanos % TICK < HALF
    ensures Nanos(Column(nanos)) == nanos <==> nanos % TICK == 0
  {
    var t, d := nanos / TICK, nanos % TICK;
    assert nanos + HALF == t * TICK + (d + HALF);
    assert (nanos + HALF) / TICK == t + (d + HALF) / TICK;
    assert (d + HALF) / TICK == if d >= HALF then 1 else 0;
  }

  lemma ColumnOfTicks(t: int)
    ensures Column(Nanos(t)) == t && Ticks(Nanos(t)) == t
  {
    if t >= 0 {
      ColumnAgainstTicks(Nanos(t));
    } else {
      ColumnAgainstTicks(Nanos(-t));
      assert Nanos(-t) == -Nanos(t);
    }
  }

  lemma ColumnMonotone(x: int, y: int)
    requires x <= y
    ensures Column(x) <= Column(y)
  {
    if 0 <= x {
      assert (x + HALF) / TICK <= (y + HALF) / TICK;
    } else if y < 0 {
      assert (-y + HALF) / TICK <= (-x + HALF) / TICK;
    }
  }

  /** Adding to a stored balance: rounding the sum is adding the rounded amount. */
  lemma ColumnOfSum(balance: int, nanos: int)
    requires 0 <= balance && 0 <= nanos
    ensures Column(Nanos(balance) + nanos) == balance + Column(nanos)
  {
    assert Nanos(balance) + nanos + HALF == balance * TICK + (nanos + HALF);
  }

  /** Taking from a stored balance: the same, except when exactly half a tick is discarded. */
  lemma ColumnOfDifference(balance: int, nanos: int)
    requires 0 <= nanos <= Nanos(balance)
    ensures Column(Nanos(balance) - nanos) ==
            balance - Column(nanos) + (if nanos % TICK == HALF then 1 else 0)
  {
    var t, d := nanos / TICK, nanos % TICK;
    ColumnAgainstTicks(nanos);
    assert Nanos(balance) - nanos + HALF == (balance - t) * TICK + (HALF - d);
    if d <= HALF {
      assert (Nanos(balance) - nanos + HALF) / TICK == balance - t;
    } else {
      assert Nanos(balance) - nanos + HALF == (balance - t - 1) * TICK + (TICK + HALF - d);
      assert (Nanos(balance) - nanos + HALF) / TICK == balance - t - 1;
    }
  }

  // ----- Arbitrary decimals

  /** mant * 10^exp */
  datatype Numeric = Numeric(mant: int, exp: int)

  function Pow10(e: nat): (p: nat)
    ensures 1 <= p
  {
    if e == 0 then 1 else 10 * Pow10(e - 1)
  }

  /** n * 10^e, ten at a time. */
  function Shift(n: int, e: nat): (r: int)
    ensures 0 <= n ==> 0 <= r
    ensures n < 0 ==> r < 0
    ensures r == 0 ==> n == 0
  {
    if e == 0 then n else 10 * Shift(n, e - 1)
  }

  lemma {:induction false} ShiftIsProduct(n: int, e: nat)
    ensures Shift(n, e) == n * Pow10(e)
  {
    if e != 0 {
      ShiftIsProduct(n, e - 1);
      TenTimes(n, Pow10(e - 1));
    }
  }

  lemma TenTimes(x: int, p: int)
    ensures 10 * (x * p) == x * (10 * p)
  {
  }

  lemma {:induction false} ShiftTwice(n: int, a: nat, b: nat)
    ensures Shift(Shift(n, a), b) == Shift(n, a + b)
  {
    if b != 0 {
      ShiftTwice(n, a, b - 1);
    }
  }

  lemma {:induction false} ShiftInjective(m: int, n: int, k: nat)
    ensures Shift(m, k) == Shift(n, k) <==> m == n
  {
    if k != 0 {
      ShiftInjective(m, n, k - 1);
    }
  }

  lemma {:induction false} ShiftNegated(n: int, k: nat)
    ensures Shift(0 - n, k) == 0 - Shift(n, k)
  {
    if k != 0 {
      ShiftNegated(n, k - 1);
    }
  }

  method PowerOfTen(e: nat) returns (result: nat)
    ensures result == Pow10(e)
  {
    result := 1;
    for i := 0 to e
      invariant result == Pow10(i)
    {
      result := result * 10;
    }
  }

  function Quo(a: int, b: int): int
    requires 0 < b
  {
    if a >= 0 then a / b else -((-a) / b)
  }

  function NumericToScale(n: Numeric, scale: int): int {
    var diff := n.exp - scale;
    if diff > 0 then Shift(n.mant, diff)
    else if diff < 0 then Quo(n.mant, Pow10(-diff))
    else n.mant
  }

  /** m at scale s and n at scale t are the same number. */
  ghost predicate SameNumber(m: int, s: int, n: int, t: int) {
    Shift(m, if s > t then s - t else 0) == Shift(n, if t > s then t - s else 0)
  }

  /** Comparing at any common finer scale decides sameness. */
  lemma SameAtFinerScale(m: int, s: int, n: int, t: int, fine: int)
    requires fine <= s && fine <= t
    ensures SameNumber(m, s, n, t) <==> Shift(m, s - fine) == Shift(n, t - fine)
  {
    var low := if s < t then s else t;
    ShiftTwice(m, s - low, low - fine);
    ShiftTwice(n, t - low, low - fine);
    ShiftInjective(Shift(m, s - low), Shift(n, t - low), low - fine);
  }

  lemma SameNumberEuclidean(m: int, s: int, n: int, t: int, x: int, e: int)
    requires SameNumber(m, s, x, e) && SameNumber(n, t, x, e)
    ensures SameNumber(m, s, n, t)
  {
    var fine := if s < t then (if s < e then s else e) else (if t < e then t else e);
    SameAtFinerScale(m, s, x, e, fine);
    SameAtFinerScale(n, t, x, e, fine);
    SameAtFinerScale(m, s, n, t, fine);
  }

  // ----- Decimal text

  predicate IsDigit(c: char) { '0' <= c <= '9' }

  predicate AllDigits(s: string) { forall i | 0 <= i < |s| :: IsDigit(s[i]) }

  function DigitValue(c: char): nat { if IsDigit(c) then c as int - '0' as int else 0 }

  function Digits(n: nat): (s: string)
    ensures s != ""
  {
    var last := [('0' as int + n % 10) as char];
    if n < 10 then last else Digits(n / 10) + last
  }

  function Value(s: string): nat {
    if s == "" then 0 else 10 * Value(s[..|s| - 1]) + DigitValue(s[|s| - 1])
  }

  lemma {:induction false} ValueOfDigits(n: nat)
    ensures Value(Digits(n)) == n
  {
    var s := Digits(n);
    assert DigitValue(s[|s| - 1]) == n % 10;
    if n < 10 {
      assert s[..|s| - 1] == "";
    } else {
      assert s[..|s| - 1] == Digits(n / 10);
      ValueOfDigits(n / 10);
    }
  }

  lemma {:induction false} ValueOfConcat(a: string, b: string)
    ensures Value(a + b) == Shift(Value(a), |b|) + Value(b)
  {
    if b == "" {
      assert a + b == a;
    } else {
      var c := b[..|b| - 1];
      assert (a + b)[..|a + b| - 1] == a + c;
      ValueOfConcat(a, c);
    }
  }

  function Pad(digits: string, places: nat): (s: string)
    ensures |s| > places && |s| >= |digits|
    decreases places + 1 - |digits|
  {
    if |digits| <= places then Pad("0" + digits, places) else digits
  }

  lemma {:induction false} ValueOfPad(digits: string, places: nat)
    ensures Value(Pad(digits, places)) == Value(digits)
    decreases places + 1 - |digits|
  {
    if |digits| <= places {
      assert Value("0") == 10 * Value("0"[..0]) + DigitValue('0');
      ValueOfConcat("0", digits);
      ShiftNegated(0, |digits|);
      ValueOfPad("0" + digits, places);
    }
  }

  function TrimZeros(s: string): (t: string)
    ensures |t| <= |s|
  {
    if s != "" && s[|s| - 1] == '0' then TrimZeros(s[..|s| - 1]) else s
  }

  lemma {:induction false} ValueOfTrim(a: string, s: string)
    ensures Value(a + s) == Shift(Value(a + TrimZeros(s)), |s| - |TrimZeros(s)|)
  {
    if s != "" && s[|s| - 1] == '0' {
      var c := s[..|s| - 1];
      ValueOfTrim(a, c);
      assert (a + s)[..|a + s| - 1] == a + c;
    }
  }

  lemma {:induction false} DigitsAreDigits(n: nat)
    ensures AllDigits(Digits(n))
  {
    if n >= 10 {
      DigitsAreDigits(n / 10);
    }
  }

  lemma {:induction false} PaddedDigits(digits: string, places: nat)
    requires AllDigits(digits)
    ensures AllDigits(Pad(digits, places))
    decreases places + 1 - |digits|
  {
    if |digits| <= places {
      PaddedDigits("0" + digits, places);
    }
  }

  lemma {:induction false} TrimmedDigits(s: string)
    requires AllDigits(s)
    ensures AllDigits(TrimZeros(s))
  {
    if s != "" && s[|s| - 1] == '0' {
      TrimmedDigits(s[..|s| - 1]);
    }
  }

  function Sign(n: int): string { if n < 0 then "-" else "" }

  function Signed(negative: bool, magnitude: nat): int { if negative then 0 - magnitude else magnitude }

  function Abs(n: int): nat { if n < 0 then -n else n }

  function DecimalText(n: int, scale: int): string {
    if n == 0 then "0"
    else if scale >= 0 then WholeText(n, Shift(n, scale))
    else FractionText(n, -scale)
  }

  function WholeText(n: int, m: int): string { Sign(n) + Digits(Abs(m)) }

  function FractionText(n: int, places: nat): string {
    var digits := Pad(Digits(Abs(n)), places);
    WithFraction(Sign(n) + WholePart(digits, places), TrimZeros(FractionPart(digits, places)))
  }

  function WholePart(digits: string, places: nat): string
    requires places < |digits|
  {
    digits[..|digits| - places]
  }

  function FractionPart(digits: string, places: nat): string
    requires places < |digits|
  {
    digits[|digits| - places..]
  }

  function WithFraction(whole: string, frac: string): string { if frac == "" then whole else whole + "." + frac }

  method PadLeft(number: string, places: nat) returns (digits: string)
    ensures digits == Pad(number, places)
  {
    digits := number;
    while |digits| <= places
      invariant Pad(digits, places) == Pad(number, places)
      decreases places + 1 - |digits|
    {
      digits := "0" + digits;
    }
  }

  method TrimRight(text: string) returns (frac: string)
    ensures frac == TrimZeros(text)
  {
    frac := text;
    while frac != "" && frac[|frac| - 1] == '0'
      invariant TrimZeros(frac) == TrimZeros(text)
      decreases |frac|
    {
      frac := frac[..|frac| - 1];
    }
  }

  /** decimalStringFromScale. */
  method DecimalStringFromScale(n: int, scale: int) returns (text: string)
    ensures text == DecimalText(n, scale)
  {
    if n == 0 { return "0"; }
    if scale >= 0 {
      var factor := PowerOfTen(scale);
      ProductMagnitude(n, scale);
      return Sign(n) + Digits(Abs(n) * factor);
    }
    var places := -scale;
    var digits := PadLeft(Digits(Abs(n)), places);
    var frac := TrimRight(digits[|digits| - places..]);
    text := Sign(n) + digits[..|digits| - places];
    if frac != "" { text := text + "." + frac; }
  }

  lemma ProductMagnitude(n: int, e: nat)
    ensures Abs(n) * Pow10(e) == Abs(Shift(n, e))
  {
    ShiftIsProduct(n, e);
    var p := Pow10(e);
    assert Abs(n) * p == Abs(n * p);
  }

  function PointAt(s: string): (p: nat)
    ensures p <= |s|
  {
    if s == "" || s[0] == '.' then 0 else 1 + PointAt(s[1..])
  }

  lemma {:induction false} PointAfterDigits(whole: string, rest: string)
    requires AllDigits(whole)
    requires rest == "" || rest[0] == '.'
    ensures PointAt(whole + rest) == |whole|
  {
    if whole == "" {
      assert whole + rest == rest;
    } else {
      assert (whole + rest)[1..] == whole[1..] + rest;
      PointAfterDigits(whole[1..], rest);
    }
  }

  /** Reading decimal text: an optional sign, digits, and an optional fraction. */
  function Parse(s: string): Option<Numeric> {
    if s != "" && s[0] == '-' then ParseUnsigned(s[1..], true) else ParseUnsigned(s, false)
  }

  function ParseUnsigned(body: string, negative: bool): Option<Numeric> {
    var p := PointAt(body);
    var whole := body[..p];
    var frac := if p < |body| then body[p + 1..] else "";
    if whole == "" || !AllDigits(whole) || !AllDigits(frac) then None
    else Some(Numeric(Signed(negative, Value(whole + frac)), -|frac|))
  }

  lemma ParseSigned(n: int, body: string)
    requires body != "" && IsDigit(body[0])
    ensures Parse(Sign(n) + body) == ParseUnsigned(body, n < 0)
  {
    if n < 0 {
      assert (Sign(n) + body)[1..] == body;
    } else {
      assert Sign(n) + body == body;
    }
  }

  lemma ParseFraction(n: int, whole: string, frac: string)
    requires whole != "" && AllDigits(whole) && AllDigits(frac)
    ensures Parse(Sign(n) + whole + "." + frac) == Some(Numeric(Signed(n < 0, Value(whole + frac)), -|frac|))
  {
    var rest := "." + frac;
    var body := whole + rest;
    assert Sign(n) + whole + "." + frac == Sign(n) + body;
    ParseSigned(n, body);
    PointAfterDigits(whole, rest);
    assert body[..|whole|] == whole;
    assert body[|whole| + 1..] == rest[1..] == frac;
  }

  lemma ParseWhole(n: int, whole: string)
    requires whole != "" && AllDigits(whole)
    ensures Parse(Sign(n) + whole) == Some(Numeric(Signed(n < 0, Value(whole)), 0))
  {
    ParseSigned(n, whole);
    assert whole + "" == whole;
    PointAfterDigits(whole, "");
  }

  lemma ParseParts(n: int, whole: string, frac: string)
    requires whole != "" && AllDigits(whole) && AllDigits(frac)
    ensures Parse(WithFraction(Sign(n) + whole, frac)) == Some(Numeric(Signed(n < 0, Value(whole + frac)), -|frac|))
  {
    if frac == "" {
      assert whole + frac == whole;
      ParseWhole(n, whole);
    } else {
      ParseFraction(n, whole, frac);
    }
  }

  ghost predicate Denotes(x: Option<Numeric>, n: int, scale: int) {
    x.Some? && SameNumber(n, scale, x.value.mant, x.value.exp) && NumericToScale(x.value, scale) == n
  }

  /** Reading a written decimal gives back the number, at every scale. */
  lemma TextDenotes(n: int, scale: int)
    ensures Denotes(Parse(DecimalText(n, scale)), n, scale)
  {
    if n == 0 {
      TextDenotesZero(scale);
    } else if scale >= 0 {
      TextDenotesWhole(n, Shift(n, scale));
      WholeAtScale(n, scale);
    } else {
      TextDenotesFraction(n, -scale);
      FractionAtScale(n, scale, Parse(FractionText(n, -scale)));
    }
  }

  lemma FractionAtScale(n: int, scale: int, x: Option<Numeric>)
    requires x.Some? && scale <= x.value.exp && n == Shift(x.value.mant, x.value.exp - scale)
    ensures Denotes(x, n, scale)
  {
  }

  lemma TextDenotesZero(scale: int)
    ensures Parse(DecimalText(0, scale)) == Some(Numeric(0, 0))
    ensures Denotes(Some(Numeric(0, 0)), 0, scale)
  {
    assert Digits(0) == "0" && Sign(0) + "0" == "0";
    ParseWhole(0, "0");
    ValueOfDigits(0);
    ShiftNegated(0, if scale > 0 then scale else -scale);
  }

  lemma TextDenotesWhole(n: int, m: int)
    requires n < 0 <==> m < 0
    ensures Parse(WholeText(n, m)) == Some(Numeric(m, 0))
  {
    DigitsAreDigits(Abs(m));
    ParseWhole(n, Digits(Abs(m)));
    ValueOfDigits(Abs(m));
  }

  lemma WholeAtScale(n: int, scale: nat)
    ensures Denotes(Some(Numeric(Shift(n, scale), 0)), n, scale)
  {
    ShiftIsProduct(n, scale);
    ScaledUp(n, Pow10(scale));
  }

  lemma MulDiv(a: nat, p: int)
    requires 1 <= p
    ensures (a * p) / p == a
  {
    var q, r := (a * p) / p, (a * p) % p;
    assert (a - q) * p == r;
    assert a - q >= 1 ==> (a - q) * p >= p;
    assert a - q <= -1 ==> (a - q) * p <= -p;
  }

  lemma ScaledUp(n: int, p: int)
    requires 1 <= p
    ensures Quo(n * p, p) == n
  {
    MulDiv(Abs(n), p);
    if n < 0 {
      assert -(n * p) == Abs(n) * p;
    }
  }

  lemma PartsAreDigits(a: nat, places: nat)
    ensures var digits := Pad(Digits(a), places);
            AllDigits(WholePart(digits, places)) && AllDigits(TrimZeros(FractionPart(digits, places)))
  {
    DigitsAreDigits(a);
    PaddedDigits(Digits(a), places);
    TrimmedDigits(FractionPart(Pad(Digits(a), places), places));
  }

  lemma PartsDenote(a: nat, places: nat)
    ensures var digits := Pad(Digits(a), places);
            var frac := TrimZeros(FractionPart(digits, places));
            |frac| <= places && Shift(Value(WholePart(digits, places) + frac), places - |frac|) == a
  {
    var digits := Pad(Digits(a), places);
    var whole, frac := WholePart(digits, places), FractionPart(digits, places);
    assert Value(whole + frac) == a by {
      assert digits == whole + frac;
      ValueOfDigits(a);
      ValueOfPad(Digits(a), places);
    }
    ValueOfTrim(whole, frac);
  }

  lemma TextDenotesFraction(n: int, places: nat)
    requires n != 0 && places != 0
    ensures DenotesFraction(Parse(FractionText(n, places)), n, places)
  {
    var digits := Pad(Digits(Abs(n)), places);
    var whole, frac := WholePart(digits, places), TrimZeros(FractionPart(digits, places));
    PartsAreDigits(Abs(n), places);
    PartsDenote(Abs(n), places);
    ParseParts(n, whole, frac);
    SignedParts(n, places, Value(whole + frac), |frac|);
  }

  predicate DenotesFraction(x: Option<Numeric>, n: int, places: nat) {
    x.Some? && x.value.exp <= 0 <= x.value.exp + places && n == Shift(x.value.mant, x.value.exp + places)
  }

  lemma SignedParts(n: int, places: nat, v: nat, len: nat)
    requires len <= places && Shift(v, places - len) == Abs(n)
    ensures DenotesFraction(Some(Numeric(Signed(n < 0, v), 0 - len)), n, places)
  {
    ShiftNegated(v, places - len);
  }

  /** Writing at a finer scale writes the same text. */
  lemma TextAtFinerScale(n: int, scale: int)
    ensures DecimalText(10 * n, scale - 1) == DecimalText(n, scale)
  {
    if n != 0 && scale > 0 {
      ShiftTwice(n, 1, scale - 1);
      assert Shift(n, 1) == 10 * Shift(n, 0);
    } else if n != 0 {
      TextAtFinerFraction(n, -scale);
      TextWithoutFraction(n);
    }
  }

  lemma DigitsTenfold(a: nat)
    requires a != 0
    ensures Digits(10 * a) == Digits(a) + "0"
  {
    assert (10 * a) / 10 == a && (10 * a) % 10 == 0;
  }

  lemma TextAtFinerFraction(n: int, places: nat)
    requires n != 0
    ensures FractionText(10 * n, places + 1) == FractionText(n, places)
  {
    DigitsTenfold(Abs(n));
    PadShift(Digits(Abs(n)), places);
    PartsAtFinerScale(Pad(Digits(Abs(n)), places), places);
  }

  lemma TextWithoutFraction(n: int)
    ensures FractionText(n, 0) == Sign(n) + Digits(Abs(n))
  {
    var digits := Digits(Abs(n));
    assert WholePart(digits, 0) == digits && FractionPart(digits, 0) == "";
  }

  lemma PartsAtFinerScale(digits: string, places: nat)
    requires places < |digits|
    ensures WholePart(digits + "0", places + 1) == WholePart(digits, places)
    ensures TrimZeros(FractionPart(digits + "0", places + 1)) == TrimZeros(FractionPart(digits, places))
  {
    var frac := FractionPart(digits, places);
    assert FractionPart(digits + "0", places + 1) == frac + "0";
    assert (frac + "0")[..places] == frac;
  }

  lemma {:induction false} PadShift(digits: string, places: nat)
    ensures Pad(digits + "0", places + 1) == Pad(digits, places) + "0"
    decreases places + 1 - |digits|
  {
    if |digits| <= places {
      assert "0" + (digits + "0") == ("0" + digits) + "0";
      PadShift("0" + digits, places);
    }
  }

  /** What one finer scale leaves alone, any number of finer scales does. */
  lemma {:induction false} AtFinerScales(text: (int, int) -> string, n: int, scale: int, k: nat)
    requires forall m, s, m', s' | m' == 10 * m && s' == s - 1 :: text(m', s') == text(m, s)
    ensures text(Shift(n, k), scale - k) == text(n, scale)
  {
    if k != 0 {
      AtFinerScales(text, n, scale, k - 1);
    }
  }

  lemma TextAtFinerScales(n: int, scale: int, k: nat)
    ensures DecimalText(Shift(n, k), scale - k) == DecimalText(n, scale)
  {
    forall m, s, m', s' | m' == 10 * m && s' == s - 1 ensures DecimalText(m', s') == DecimalText(m, s) {
      TextAtFinerScale(m, s);
    }
    AtFinerScales(DecimalText, n, scale, k);
  }

  /** The text is canonical: two amounts are written alike exactly when they are equal. */
  lemma CanonicalText(m: int, s: int, n: int, t: int)
    ensures DecimalText(m, s) == DecimalText(n, t) <==> SameNumber(m, s, n, t)
  {
    if SameNumber(m, s, n, t) {
      if s >= t {
        TextAtFinerScales(m, s, s - t);
      } else {
        TextAtFinerScales(n, t, t - s);
      }
    }
    if DecimalText(m, s) == DecimalText(n, t) {
      TextDenotes(m, s);
      TextDenotes(n, t);
      var x := Parse(DecimalText(m, s)).value;
      SameNumberEuclidean(m, s, n, t, x.mant, x.exp);
    }
  }
}
