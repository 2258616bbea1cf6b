/** Character classes and digit conversions shared by the lexer, the printers and the numbers.
    Every class here is the ASCII one, as the library's regular expressions are compiled with re.ASCII. */
module Text {

  predicate IsDigit(c: char) { '0' <= c <= '9' }
  predicate IsBinDigit(c: char) { c == '0' || c == '1' }
  predicate IsOctDigit(c: char) { '0' <= c <= '7' }
  predicate IsHexDigit(c: char) { IsDigit(c) || 'a' <= c <= 'f' || 'A' <= c <= 'F' }
  predicate IsAlnum(c: char) { IsDigit(c) || 'a' <= c <= 'z' || 'A' <= c <= 'Z' }

  /** The tokenizer's WHITESPACES set. */
  predicate IsWhitespace(c: char) { c == ' ' || c == '\t' || c == '\r' || c == '\n' }
  /** The tokenizer's DELIMITERS set: the parentheses, the double quote and the whitespace. */
  predicate IsDelimiter(c: char) { c == '(' || c == ')' || c == '"' || IsWhitespace(c) }
  /** The characters after which the streamer starts a new line. */
  predicate IsNewline(c: char) { c == '\r' || c == '\n' }

  predicate All(s: string, p: char -> bool) { forall i :: 0 <= i < |s| ==> p(s[i]) }

  /** The value of a digit in bases up to 36, as int() reads it; 36 for anything else. */
  function DigitValue(c: char): (d: nat)
    ensures d <= 36
    ensures d < 10 <==> IsDigit(c)
    ensures d < 36 <==> IsAlnum(c)
    ensures d < 2 <==> IsBinDigit(c)
    ensures d < 8 <==> IsOctDigit(c)
    ensures d < 16 <==> IsHexDigit(c)
  {
    if IsDigit(c) then c as int - '0' as int
    else if 'a' <= c <= 'z' then c as int - 'a' as int + 10
    else if 'A' <= c <= 'Z' then c as int - 'A' as int + 10
    else 36
  }

  /** The number a string of digits denotes in the given base, most significant digit first. */
  function DigitsValue(s: string, base: nat): nat
  {
    if s == [] then 0 else DigitsValue(s[..|s| - 1], base) * base + DigitValue(s[|s| - 1])
  }

  /** The lower-case digit for a value below 36. */
  function DigitChar(d: nat): (c: char)
    requires d < 36
    ensures DigitValue(c) == d
  {
    if d < 10 then ('0' as int + d) as char else ('a' as int + d - 10) as char
  }

  /** Python's `format(n, 'x')`-style rendering of a natural number in a base, without leading zeros. */
  function NatToDigits(n: nat, base: nat): (s: string)
    requires 2 <= base <= 36
    ensures |s| >= 1
    ensures forall i :: 0 <= i < |s| ==> DigitValue(s[i]) < base
    decreases n
  {
    if n < base then [DigitChar(n)]
    else
      DivisionShrinks(n, base);
      NatToDigits(n / base, base) + [DigitChar(n % base)]
  }

  lemma DivisionShrinks(n: nat, base: nat)
    requires 2 <= base <= n
    ensures n / base < n && n % base < base
    ensures n == (n / base) * base + n % base
  {
    MultipleAtLeastDouble(n / base, base);
  }

  lemma MultipleAtLeastDouble(q: nat, base: nat)
    requires 2 <= base
    ensures q * base >= 2 * q
  {
    var extra := (base - 2) * q;
    assert q * base == extra + 2 * q;
  }

  /** Reading back the digits of a natural number gives the number. */
  lemma {:induction false} DigitsRoundTrip(n: nat, base: nat)
    requires 2 <= base <= 36
    ensures DigitsValue(NatToDigits(n, base), base) == n
    decreases n
  {
    var s := NatToDigits(n, base);
    if n >= base {
      DivisionShrinks(n, base);
      DigitsRoundTrip(n / base, base);
      assert s[..|s| - 1] == NatToDigits(n / base, base);
      assert DigitValue(s[|s| - 1]) == n % base;
    }
  }

  /** `str(i)` for a Python int. */
  function IntToString(i: int): (s: string)
    ensures |s| >= 1
  {
    if i < 0 then "-" + NatToDigits(-i, 10) else NatToDigits(i, 10)
  }

  /** Lower-case hexadecimal with at least `width` digits, as `"{:0Nx}".format(n)`. */
  function Hex(n: nat, width: nat): (s: string)
    ensures |s| >= width
    ensures DigitsValue(s, 16) == n
    ensures All(s, IsHexDigit)
  {
    var d := NatToDigits(n, 16);
    DigitsRoundTrip(n, 16);
    if |d| >= width then d
    else
      ZeroPaddedValue(d, width - |d|, 16);
      Zeros(width - |d|) + d
  }

  function Zeros(k: nat): (z: string)
    ensures |z| == k && forall i :: 0 <= i < k ==> z[i] == '0'
  {
    if k == 0 then [] else ['0'] + Zeros(k - 1)
  }

  /** Leading zeros do not change the value of a digit string. */
  lemma {:induction false} ZeroPaddedValue(d: string, k: nat, base: nat)
    ensures DigitsValue(Zeros(k) + d, base) == DigitsValue(d, base)
    decreases |d|
  {
    if d == [] {
      assert Zeros(k) + d == Zeros(k);
      AllZerosValue(k, base);
    } else {
      var s := Zeros(k) + d;
      assert s[..|s| - 1] == Zeros(k) + d[..|d| - 1];
      ZeroPaddedValue(d[..|d| - 1], k, base);
    }
  }

  lemma {:induction false} AllZerosValue(k: nat, base: nat)
    ensures DigitsValue(Zeros(k), base) == 0
  {
    if k > 0 {
      var z := Zeros(k);
      assert z[..k - 1] == Zeros(k - 1);
      AllZerosValue(k - 1, base);
    }
  }

  /** ASCII `str.lower()` on one character. */
  function Lower(c: char): char
  {
    if 'A' <= c <= 'Z' then (c as int + 32) as char else c
  }

  /** ASCII `str.upper()` on one character. */
  function Upper(c: char): char
  {
    if 'a' <= c <= 'z' then (c as int - 32) as char else c
  }

  function LowerString(s: string): (r: string)
    ensures |r| == |s| && forall i :: 0 <= i < |s| ==> r[i] == Lower(s[i])
  {
    if s == [] then [] else [Lower(s[0])] + LowerString(s[1..])
  }

  /** ASCII `str.capitalize()`: the first character upper case, the rest lower case. */
  function Capitalize(s: string): (r: string)
    ensures |r| == |s|
  {
    if s == [] then [] else [Upper(s[0])] + LowerString(s[1..])
  }
}
