/** The real numbers of the library: Python int, fractions.Fraction and float. */
module Numbers {
  import opened Base
  import opened Text

  /** An int, a Fraction kept as Python keeps it (lowest terms, positive denominator; a Fraction
      whose denominator is 1 is still a Fraction), or a float, which is carried as its token text. */
  datatype Num = Int(i: int) | Frac(num: int, den: int) | Float(text: string)

  /** An exact number: an int or a Fraction with a positive denominator. */
  predicate IsExact(n: Num) { n.Int? || (n.Frac? && n.den >= 1) }

  type Rat = n: Num | IsExact(n) witness Int(0)

  /** The number a float token denotes, read as an exact decimal (binary rounding is not modelled). */
  function DecimalValue(t: string): real
  {
    var neg := |t| > 0 && t[0] == '-';
    var body := if |t| > 0 && (t[0] == '+' || t[0] == '-') then t[1..] else t;
    var e := ExponentStart(body, 0);
    var mant := body[..e];
    var p := DotIndex(mant, 0);
    var whole := DigitsValue(mant[..p], 10) as real;
    var fracDigits := if p < |mant| then mant[p + 1..] else [];
    var magnitude := (whole + DigitsValue(fracDigits, 10) as real / Pow10(|fracDigits|)) * Scale(ExponentValue(body, e));
    if neg then -magnitude else magnitude
  }

  function ExponentStart(s: string, i: nat): (e: nat)
    requires i <= |s|
    ensures i <= e <= |s|
    decreases |s| - i
  {
    if i == |s| || Lower(s[i]) in "defs" then i else ExponentStart(s, i + 1)
  }

  function DotIndex(s: string, i: nat): (p: nat)
    requires i <= |s|
    ensures i <= p <= |s|
    decreases |s| - i
  {
    if i == |s| || s[i] == '.' then i else DotIndex(s, i + 1)
  }

  /** The signed exponent after the exponent letter at index e, 0 when there is none. */
  function ExponentValue(s: string, e: nat): int
    requires e <= |s|
  {
    if e + 1 >= |s| then 0
    else if s[e + 1] == '-' then -(DigitsValue(s[e + 2..], 10) as int)
    else if s[e + 1] == '+' then DigitsValue(s[e + 2..], 10)
    else DigitsValue(s[e + 1..], 10)
  }

  function Pow10(k: nat): (r: real)
    ensures r >= 1.0
  {
    if k == 0 then 1.0 else 10.0 * Pow10(k - 1)
  }

  function Scale(x: int): real
  {
    if x >= 0 then Pow10(x) else 1.0 / Pow10(-x)
  }

  /** The mathematical value of a number. */
  function Value(n: Num): real
  {
    match n
    case Int(i) => i as real
    case Frac(a, b) => if b == 0 then 0.0 else a as real / b as real
    case Float(t) => DecimalValue(t)
  }

  /** Python `==` between two real numbers: equality of values. */
  predicate NumEq(a: Num, b: Num) { Value(a) == Value(b) }

  // ---------------------------------------------------------------- greatest common divisor

  function Gcd(a: nat, b: nat): nat
    decreases b
  {
    if b == 0 then a else Gcd(b, a % b)
  }

  lemma MultipleMod(k: int, g: nat)
    requires g > 0
    ensures (k * g) % g == 0
  {
    var x := k * g;
    var q, r := x / g, x % g;
    assert x == g * q + r;
    var m := k - q;
    assert g * m == r by { assert g * m == g * k - g * q; }
  }

  /** A divisor of b and of a % b divides a. */
  lemma DividesThroughRemainder(a: nat, b: nat, g: nat)
    requires b > 0 && g > 0 && b % g == 0 && (a % b) % g == 0
    ensures a % g == 0
  {
    var s, t := b / g, (a % b) / g;
    assert b == s * g;
    assert a % b == t * g;
    var k := (a / b) * s + t;
    calc {
      a;
      (a / b) * b + a % b;
      (a / b) * (s * g) + t * g;
      { assert (a / b) * (s * g) == ((a / b) * s) * g; }
      ((a / b) * s) * g + t * g;
      k * g;
    }
    MultipleMod(k, g);
  }

  lemma {:induction false} GcdDivides(a: nat, b: nat)
    requires a > 0 || b > 0
    ensures Gcd(a, b) > 0 && a % Gcd(a, b) == 0 && b % Gcd(a, b) == 0
    decreases b
  {
    if b > 0 {
      GcdDivides(b, a % b);
      DividesThroughRemainder(a, b, Gcd(b, a % b));
    }
  }

  /** When b divides a, their greatest common divisor is b. */
  lemma GcdOfMultiple(a: nat, b: nat)
    requires b > 0 && a % b == 0
    ensures Gcd(a, b) == b
  {
    assert Gcd(a, b) == Gcd(b, 0);
  }

  // ---------------------------------------------------------------- Fraction construction

  /** `Fraction(a, b)` for ints: ZeroDivisionError for b == 0, otherwise a/b in lowest terms with a
      positive denominator. */
  function MakeFraction(a: int, b: int): (r: Result<Num>)
    ensures b == 0 <==> r.Err?
    ensures r.Err? ==> r.error == ZeroDivisionError
    ensures r.Ok? ==> r.value.Frac? && r.value.den >= 1 && Value(r.value) == a as real / b as real
    ensures r.Ok? ==> (r.value.den == 1 <==> Abs(a) % Abs(b) == 0)
  {
    if b == 0 then Err(ZeroDivisionError)
    else
      var g := Gcd(Abs(a), Abs(b));
      GcdDivides(Abs(a), Abs(b));
      var n := Abs(a) / g;
      var d := Abs(b) / g;
      var sign := if (a < 0) == (b < 0) then 1 else -1;
      LowestTermsValue(a, b, g, n, d, sign);
      LowestTermsUnit(a, b, g);
      Ok(Frac(sign * n, d))
  }

  function Abs(x: int): nat { if x < 0 then -x else x }

  lemma LowestTermsValue(a: int, b: int, g: nat, n: nat, d: nat, sign: int)
    requires b != 0 && g > 0 && Abs(a) % g == 0 && Abs(b) % g == 0
    requires n == Abs(a) / g && d == Abs(b) / g
    requires sign == if (a < 0) == (b < 0) then 1 else -1
    ensures d >= 1
    ensures (sign * n) as real / d as real == a as real / b as real
  {
    assert Abs(a) == n * g;
    assert Abs(b) == d * g;
    assert d >= 1;
    var nr, dr, gr := n as real, d as real, g as real;
    assert Abs(a) as real == nr * gr;
    assert Abs(b) as real == dr * gr;
    assert (Abs(a) as real) / (Abs(b) as real) == nr / dr;
    if a < 0 { assert a as real == -(Abs(a) as real); }
    if b < 0 { assert b as real == -(Abs(b) as real); }
  }

  lemma LowestTermsUnit(a: int, b: int, g: nat)
    requires b != 0 && g == Gcd(Abs(a), Abs(b)) && g > 0 && Abs(a) % g == 0 && Abs(b) % g == 0
    ensures Abs(b) / g == 1 <==> Abs(a) % Abs(b) == 0
  {
    if Abs(a) % Abs(b) == 0 {
      GcdOfMultiple(Abs(a), Abs(b));
    }
    if Abs(b) / g == 1 {
      assert Abs(b) == (Abs(b) / g) * g;
    }
  }

  /** `__reduce_frac`: a Fraction whose denominator is 1 becomes the int it equals; anything else is kept. */
  function ReduceFrac(x: Num): (r: Num)
    ensures x.Frac? && x.den == 1 ==> r == Int(x.num)
    ensures !(x.Frac? && x.den == 1) ==> r == x
  {
    if x.Frac? && x.den == 1 then Int(x.num) else x
  }

  /** A reduced number has the value it had, and a Fraction survives only with a denominator above 1. */
  lemma ReduceFracKeepsValue(x: Num)
    ensures Value(ReduceFrac(x)) == Value(x)
    ensures ReduceFrac(x).Frac? ==> ReduceFrac(x).den != 1
    ensures IsExact(x) ==> IsExact(ReduceFrac(x))
  {
  }

  // ---------------------------------------------------------------- exact arithmetic

  /** Numerator and denominator of an exact number, as Fraction arithmetic sees an int. */
  function NumOf(x: Rat): int { if x.Int? then x.i else x.num }
  function DenOf(x: Rat): (d: int) ensures d >= 1 { if x.Int? then 1 else x.den }

  lemma RatValue(x: Rat)
    ensures Value(x) == NumOf(x) as real / DenOf(x) as real
  {
  }

  /** Python `+`: int + int stays an int, anything involving a Fraction is a Fraction. */
  function Add(x: Rat, y: Rat): (r: Rat)
    ensures Value(r) == Value(x) + Value(y)
    ensures r.Int? <==> x.Int? && y.Int?
  {
    if x.Int? && y.Int? then Int(x.i + y.i)
    else
      var f := MakeFraction(NumOf(x) * DenOf(y) + NumOf(y) * DenOf(x), DenOf(x) * DenOf(y));
      RatValue(x); RatValue(y);
      SumOfQuotients(NumOf(x), DenOf(x), NumOf(y), DenOf(y));
      f.value
  }

  /** Python unary `-`. */
  function Neg(x: Rat): (r: Rat)
    ensures Value(r) == -Value(x)
    ensures r.Int? <==> x.Int?
  {
    if x.Int? then Int(-x.i) else Frac(-x.num, x.den)
  }

  /** Python binary `-`. */
  function Sub(x: Rat, y: Rat): (r: Rat)
    ensures Value(r) == Value(x) - Value(y)
    ensures r.Int? <==> x.Int? && y.Int?
  {
    Add(x, Neg(y))
  }

  /** Python `*`. */
  function Mul(x: Rat, y: Rat): (r: Rat)
    ensures Value(r) == Value(x) * Value(y)
    ensures r.Int? <==> x.Int? && y.Int?
  {
    if x.Int? && y.Int? then Int(x.i * y.i)
    else
      var f := MakeFraction(NumOf(x) * NumOf(y), DenOf(x) * DenOf(y));
      RatValue(x); RatValue(y);
      ProductOfQuotients(NumOf(x), DenOf(x), NumOf(y), DenOf(y));
      f.value
  }

  lemma SumOfQuotients(a: int, b: int, c: int, d: int)
    requires b >= 1 && d >= 1
    ensures b * d >= 1
    ensures (a * d + c * b) as real / (b * d) as real == a as real / b as real + c as real / d as real
  {
    var ar, br, cr, dr := a as real, b as real, c as real, d as real;
    assert (a * d + c * b) as real == ar * dr + cr * br;
    assert (b * d) as real == br * dr;
    assert b * d >= 1 by { MultipleAtLeastOne(b, d); }
  }

  lemma ProductOfQuotients(a: int, b: int, c: int, d: int)
    requires b >= 1 && d >= 1
    ensures b * d >= 1
    ensures (a * c) as real / (b * d) as real == (a as real / b as real) * (c as real / d as real)
  {
    assert (a * c) as real == (a as real) * (c as real);
    assert (b * d) as real == (b as real) * (d as real);
    assert b * d >= 1 by { MultipleAtLeastOne(b, d); }
  }

  lemma MultipleAtLeastOne(b: int, d: int)
    requires b >= 1 && d >= 1
    ensures b * d >= 1
  {
    assert b * d == (b - 1) * d + d;
    assert (b - 1) * d >= 0;
  }

  // ---------------------------------------------------------------- text

  /** `str()` of a number; a float keeps its token text (Python's float repr is not modelled). */
  function NumToString(x: Num): (s: string)
    ensures |s| >= 1 || x.Float?
  {
    match x
    case Int(i) => IntToString(i)
    case Frac(a, b) => if b == 1 then IntToString(a) else IntToString(a) + "/" + IntToString(b)
    case Float(t) => t
  }

  /** `str(abs(x))`. */
  function AbsToString(x: Num): string
  {
    match x
    case Int(i) => IntToString(Abs(i))
    case Frac(a, b) => NumToString(Frac(Abs(a), b))
    case Float(t) => if |t| > 0 && (t[0] == '+' || t[0] == '-') then t[1..] else t
  }

  /** Python `int(s, base)` on a string of ASCII letters and digits with an optional sign: ValueError for
      a base other than 0 and 2..36, an empty digit string or a digit too large for the base; the prefixes
      0b/0o/0x are accepted for bases 2, 8 and 16. Base 0 reads the base off that prefix (10 without one),
      and then refuses a decimal text with a leading zero unless its value is zero. */
  function ParseInt(s: string, base: int): (r: Result<int>)
    ensures r.Err? ==> r.error == ValueError
    ensures !(base == 0 || 2 <= base <= 36) ==> r.Err?
  {
    if !(base == 0 || 2 <= base <= 36) then Err(ValueError)
    else
      var neg := |s| > 0 && s[0] == '-';
      var body := Unsign(s);
      var b := if base == 0 then PrefixBase(body) else base;
      var digits := if HasBasePrefix(body, b) then body[2..] else body;
      if digits == [] || !DigitsFit(digits, b) then Err(ValueError)
      else
        var v: int := DigitsValue(digits, b);
        if base == 0 && b == 10 && digits[0] == '0' && v != 0 then Err(ValueError)
        else Ok(if neg then -v else v)
  }

  /** The text after an optional sign. */
  function Unsign(s: string): (body: string)
    ensures |s| > 0 && (s[0] == '+' || s[0] == '-') ==> body == s[1..]
    ensures !(|s| > 0 && (s[0] == '+' || s[0] == '-')) ==> body == s
  {
    if |s| > 0 && (s[0] == '+' || s[0] == '-') then s[1..] else s
  }

  /** The base `int(s, 0)` reads `body` in: the one its 0b/0o/0x prefix names, else 10. */
  function PrefixBase(body: string): (b: int)
    ensures b == 2 || b == 8 || b == 10 || b == 16
    ensures b != 10 <==> HasBasePrefix(body, b)
  {
    if HasBasePrefix(body, 2) then 2 else if HasBasePrefix(body, 8) then 8
    else if HasBasePrefix(body, 16) then 16 else 10
  }

  /** Base 0 is the base the prefix names: `int("0x1f", 0) == int("0x1f", 16)`, and a text without a
      prefix or a leading zero reads as decimal. */
  lemma BaseZero(s: string)
    ensures var body := Unsign(s);
      && (HasBasePrefix(body, 2) ==> ParseInt(s, 0) == ParseInt(s, 2))
      && (HasBasePrefix(body, 8) ==> ParseInt(s, 0) == ParseInt(s, 8))
      && (HasBasePrefix(body, 16) ==> ParseInt(s, 0) == ParseInt(s, 16))
      && (body != [] && body[0] != '0' ==> ParseInt(s, 0) == ParseInt(s, 10))
  {
  }

  /** Base 0 refuses a decimal text with a leading zero, as `int("010", 0)` does, but reads one of zeros. */
  lemma BaseZeroLeadingZero(s: string)
    requires var body := Unsign(s); |body| >= 2 && body[0] == '0' && '0' <= body[1] <= '9'
    ensures ParseInt(s, 0) == if ParseInt(s, 10) == Ok(0) then Ok(0) else Err(ValueError)
  {
  }

  /** Every character of `digits` is a digit of the base. */
  predicate DigitsFit(digits: string, base: int)
  {
    forall i :: 0 <= i < |digits| ==> DigitValue(digits[i]) < base
  }

  predicate HasBasePrefix(s: string, base: int)
  {
    |s| >= 2 && s[0] == '0' &&
    ((base == 2 && Lower(s[1]) == 'b') || (base == 8 && Lower(s[1]) == 'o') || (base == 16 && Lower(s[1]) == 'x'))
  }

  /** Reading the decimal text of an int with int(s, 10) gives the int back. */
  lemma {:induction false} IntTextRoundTrip(i: int)
    ensures ParseInt(IntToString(i), 10) == Ok(i)
  {
    var s := IntToString(i);
    var m := if i < 0 then -i else i;
    DigitsRoundTrip(m, 10);
    var digits := NatToDigits(m, 10);
    if i < 0 {
      assert s[1..] == digits;
    } else {
      assert s == digits;
      assert digits[0] != '-' && digits[0] != '+' by { assert DigitValue(digits[0]) < 10; }
    }
  }
}
