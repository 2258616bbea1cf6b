/** The token classifiers: each predicate holds exactly when the library's ASCII regular expression
    matches the whole text (`fullmatch`). */
module Classify {
  import opened Text
  import opened Numbers

  /** The text after an optional leading `+` or `-`. */
  function Unsigned(s: string): (r: string)
    ensures |r| <= |s|
    ensures |r| < |s| <==> |s| > 0 && (s[0] == '+' || s[0] == '-')
  {
    if |s| > 0 && (s[0] == '+' || s[0] == '-') then s[1..] else s
  }

  /** One or more characters, each satisfying `p`. */
  predicate OneOrMore(s: string, p: char -> bool) { |s| >= 1 && All(s, p) }

  /** The index of the first `/`, or the length when there is none. */
  function SlashIndex(s: string, i: nat): (k: nat)
    requires i <= |s|
    ensures i <= k <= |s|
    ensures k < |s| ==> s[k] == '/'
    ensures forall j :: i <= j < k ==> s[j] != '/'
    decreases |s| - i
  {
    if i == |s| || s[i] == '/' then i else SlashIndex(s, i + 1)
  }

  /** `D+(/D+)?` for the digit class `p`, which never holds for `/`. */
  predicate Ratio(s: string, p: char -> bool)
  {
    var k := SlashIndex(s, 0);
    OneOrMore(s[..k], p) && (k == |s| || OneOrMore(s[k + 1..], p))
  }

  /** `[+-]?\d+` */
  predicate IsInteger(s: string) { OneOrMore(Unsigned(s), IsDigit) }

  /** `[+-]?#[L][D]+(/[D]+)?` for the prefix letter `letter` (either case) and digit class `p`. */
  predicate IsPrefixed(s: string, letter: char, p: char -> bool)
  {
    var b := Unsigned(s);
    |b| >= 2 && b[0] == '#' && Lower(b[1]) == letter && Ratio(b[2..], p)
  }

  /** `[+-]?#[bB][01]+(/[01]+)?` */
  predicate IsBin(s: string) { IsPrefixed(s, 'b', IsBinDigit) }

  /** `[+-]?#[oO][0-7]+(/[0-7]+)?` */
  predicate IsOct(s: string) { IsPrefixed(s, 'o', IsOctDigit) }

  /** `[+-]?#[xX][0-9a-fA-F]+(/[0-9a-fA-F]+)?` */
  predicate IsHex(s: string) { IsPrefixed(s, 'x', IsHexDigit) }

  /** The length of the base in a radix token `#B[B]r...` (1 or 2), 0 when the text has no such base. */
  function RadixBaseLength(b: string): (n: nat)
    ensures n <= 2
    ensures n > 0 ==> |b| >= n + 2
  {
    if |b| >= 3 && b[0] == '#' && '1' <= b[1] <= '9' && Lower(b[2]) == 'r' then 1
    else if |b| >= 4 && b[0] == '#' && '1' <= b[1] <= '9' && IsDigit(b[2]) && Lower(b[3]) == 'r' then 2
    else 0
  }

  /** `[+-]?#[1-9][0-9]?[rR][0-9a-zA-Z]+(/[0-9a-zA-Z]+)?` */
  predicate IsRadix(s: string)
  {
    var b := Unsigned(s);
    var n := RadixBaseLength(b);
    n > 0 && Ratio(b[n + 2..], IsAlnum)
  }

  /** `\d+(\.\d*)?|\d*\.\d+`: digits with at most one dot and at least one digit. */
  predicate IsMantissa(m: string)
  {
    var p := DotIndex(m, 0);
    All(m[..p], IsDigit) && (p == |m| || All(m[p + 1..], IsDigit)) && (p >= 1 || p + 1 < |m|)
  }

  /** `[+-]?(\d+(\.\d*)?|\d*\.\d+)([defsDEFS][+-]?\d+)?`; the exponent marker is the first letter. */
  predicate IsNumber(s: string)
  {
    var b := Unsigned(s);
    var e := ExponentStart(b, 0);
    IsMantissa(b[..e]) && (e == |b| || IsInteger(b[e + 1..]))
  }

  /** `[+-]?\d+/\d+` */
  predicate IsFraction(s: string)
  {
    var b := Unsigned(s);
    var k := SlashIndex(b, 0);
    k < |b| && OneOrMore(b[..k], IsDigit) && OneOrMore(b[k + 1..], IsDigit)
  }

  /** `#[0-9]+[aA]` */
  predicate IsArrayPrefix(s: string)
  {
    |s| >= 3 && s[0] == '#' && Lower(s[|s| - 1]) == 'a' && OneOrMore(s[1..|s| - 1], IsDigit)
  }

  /** `#\\[uxUX][0-9a-fA-F]+` */
  predicate IsCharHex(s: string)
  {
    |s| >= 4 && s[0] == '#' && s[1] == '\\' && Lower(s[2]) in "ux" && OneOrMore(s[3..], IsHexDigit)
  }

  // ------------------------------------------------------------------ properties

  lemma {:induction false} NoExponentInDigits(s: string, i: nat)
    requires i <= |s| && All(s, IsDigit)
    ensures ExponentStart(s, i) == |s|
    decreases |s| - i
  {
    if i < |s| {
      assert IsDigit(s[i]);
      NoExponentInDigits(s, i + 1);
    }
  }

  lemma {:induction false} NoDotInDigits(s: string, i: nat)
    requires i <= |s| && All(s, IsDigit)
    ensures DotIndex(s, i) == |s|
    decreases |s| - i
  {
    if i < |s| {
      assert IsDigit(s[i]);
      NoDotInDigits(s, i + 1);
    }
  }

  /** Every integer token also matches the float pattern, so the tokenizer must test for integers first. */
  lemma IntegerIsNumber(s: string)
    requires IsInteger(s)
    ensures IsNumber(s)
  {
    var b := Unsigned(s);
    NoExponentInDigits(b, 0);
    assert b[..|b|] == b;
    NoDotInDigits(b, 0);
  }

  /** An integer token, a float token and a fraction token never begin with `#`, while the prefixed
      and radix forms always do (after the sign): the two groups never overlap. */
  lemma SharpFormsAreNotDecimal(s: string)
    requires IsBin(s) || IsOct(s) || IsHex(s) || IsRadix(s)
    ensures !IsInteger(s) && !IsNumber(s) && !IsFraction(s)
  {
    var b := Unsigned(s);
    assert |b| >= 1 && b[0] == '#';
    assert !IsDigit(b[0]);
    var e := ExponentStart(b, 0);
    if e > 0 {
      var m := b[..e];
      assert m[0] == '#';
      var p := DotIndex(m, 0);
      assert p >= 1;
      assert !IsDigit(m[..p][0]);
    }
    var k := SlashIndex(b, 0);
    assert k >= 1 ==> b[..k][0] == '#';
  }
}
