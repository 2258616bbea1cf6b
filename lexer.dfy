/** The character streamer and the tokenizer of the reader, as functions of where the streamer stands
    in the text: `read()`, `_sxpr_tokenizer` and `_next_token`. */
module Lexer {
  import opened Base
  import opened Text
  import opened Numbers
  import opened Classify
  import opened Intern

  /** The text being read, which characters are East Asian wide (they take two columns), and the flags. */
  datatype Input = Input(text: string, wide: char -> bool, cfg: Config)

  /** Where the character streamer stands: `pos` characters consumed, so that the lookahead character is
      `text[pos]`, and `lookahead_line` / `lookahead_col` after them. */
  datatype Cursor = Cursor(pos: nat, line: int, col: int)

  /** The lookahead character; `None` is Python's `""` at the end of the text. */
  function Lookahead(inp: Input, c: Cursor): (r: Option<char>)
    ensures r.Some? <==> c.pos < |inp.text|
  {
    if c.pos < |inp.text| then Some(inp.text[c.pos]) else None
  }

  /** The columns a character takes: 2 for the East Asian widths W, F and A, 1 otherwise. */
  function Width(inp: Input, ch: char): (w: nat)
    ensures w == 1 || w == 2
  {
    if inp.wide(ch) then 2 else 1
  }

  /** `read()`: hand out the lookahead character and move past it; a line break starts a new line at
      column 0. At the end of the text nothing moves. */
  function Read(inp: Input, c: Cursor): (r: (Option<char>, Cursor))
    requires c.pos <= |inp.text|
    ensures r.0 == Lookahead(inp, c)
    ensures r.0.None? ==> r.1 == c
    ensures r.0.Some? ==> r.1.pos == c.pos + 1
    ensures r.0.Some? && IsNewline(r.0.value) ==> r.1.line == c.line + 1 && r.1.col == 0
    ensures r.0.Some? && !IsNewline(r.0.value) ==> r.1.line == c.line && r.1.col == c.col + Width(inp, r.0.value)
  {
    if c.pos == |inp.text| then (None, c)
    else
      var v := inp.text[c.pos];
      if IsNewline(v) then (Some(v), Cursor(c.pos + 1, c.line + 1, 0))
      else (Some(v), Cursor(c.pos + 1, c.line, c.col + Width(inp, v)))
  }

  predicate IsSpace(d: Option<char>) { d.Some? && IsWhitespace(d.value) }
  predicate IsDelim(d: Option<char>) { d.Some? && IsDelimiter(d.value) }

  // ------------------------------------------------------------------ line and column

  /** The number of line breaks in `s`. */
  function Breaks(s: string): nat
  {
    if s == [] then 0 else Breaks(s[..|s| - 1]) + (if IsNewline(s[|s| - 1]) then 1 else 0)
  }

  /** The columns taken by the characters after the last line break of `s`. */
  function Columns(inp: Input, s: string): nat
  {
    if s == [] then 0
    else if IsNewline(s[|s| - 1]) then 0
    else Columns(inp, s[..|s| - 1]) + Width(inp, s[|s| - 1])
  }

  /** Where the streamer stands after consuming the first `k` characters from the start. */
  function Place(inp: Input, k: nat): (c: Cursor)
    requires k <= |inp.text|
    ensures c.pos == k && c.line >= 1 && c.col >= 0
  {
    Cursor(k, 1 + Breaks(inp.text[..k]), Columns(inp, inp.text[..k]))
  }

  /** `read()` keeps the line one more than the line breaks read so far and the column the width of
      what follows the last of them. */
  lemma ReadKeepsPlace(inp: Input, k: nat)
    requires k <= |inp.text|
    ensures Read(inp, Place(inp, k)).1 == Place(inp, if k < |inp.text| then k + 1 else k)
  {
    if k < |inp.text| {
      assert inp.text[..k + 1][..k] == inp.text[..k];
    }
  }

  // ------------------------------------------------------------------ tokens

  /** What `_sxpr_tokenizer` hands back. Symbols, strings and characters carry what the parser makes
      the object from; an array prefix carries its dimension. */
  datatype Token =
    | LPar | RPar | Dot | Quote | FuncRef | ComplexStart
    | ArrayStart(dim: int)
    | SymTok(name: string)
    | StrTok(s: string)
    | ChrTok(c: char)
    | NumTok(n: Num)

  /** A Symbol token always has a name: `Symbol("")` would be a ValueError, and the tokenizer never asks
      for one. */
  predicate Named(t: Option<Token>) { t.Some? && t.value.SymTok? ==> t.value.name != [] }

  // ------------------------------------------------------------------ skipping

  /** `while d in WHITESPACES: d = read()` */
  function SkipSpace(inp: Input, d: Option<char>, c: Cursor): (r: (Option<char>, Cursor))
    requires c.pos <= |inp.text|
    ensures !IsSpace(r.0) && c.pos <= r.1.pos <= |inp.text|
    ensures r.0.Some? ==> d.Some?
    ensures !IsSpace(d) ==> r == (d, c)
    decreases |inp.text| - c.pos + (if d.Some? then 1 else 0)
  {
    if IsSpace(d) then
      var (d', c') := Read(inp, c);
      SkipSpace(inp, d', c')
    else (d, c)
  }

  /** A line comment: `while not d in {"\r", "\n", ""}: d = read()`, so the line break is consumed. */
  function SkipLine(inp: Input, d: Option<char>, c: Cursor): (r: Cursor)
    requires c.pos <= |inp.text|
    ensures c.pos <= r.pos <= |inp.text|
    decreases |inp.text| - c.pos + (if d.Some? then 1 else 0)
  {
    if d.Some? && !IsNewline(d.value) then
      var (d', c') := Read(inp, c);
      SkipLine(inp, d', c')
    else c
  }

  /** The rest of a block comment, `d` being the character just read: up to and including the `#` of
      the first `|#`. Running out of text is an EOFError at the position the parser last reported. */
  function SkipBlock(inp: Input, d: Option<char>, c: Cursor, line: int, col: int): (r: Result<Cursor>)
    requires c.pos <= |inp.text|
    ensures r.Err? ==> r.error == EOFError(line, col)
    ensures r.Ok? ==> c.pos < r.value.pos <= |inp.text|
    decreases |inp.text| - c.pos
  {
    if d == Some('|') && Lookahead(inp, c) == Some('#') then Ok(Read(inp, c).1)
    else
      var (d', c') := Read(inp, c);
      if d'.None? then Err(EOFError(line, col)) else SkipBlock(inp, d', c', line, col)
  }

  /** The character at `i` is the `#` of a `|#` that ends a block comment, `d` being the character read
      just before `text[c.pos]`. */
  predicate ClosesAt(inp: Input, d: Option<char>, c: Cursor, i: nat)
    requires c.pos <= i < |inp.text|
  {
    inp.text[i] == '#' && (if i == c.pos then d == Some('|') else inp.text[i - 1] == '|')
  }

  /** A block comment ends just after the first `|#`, and it is an EOFError exactly when no `|#` follows. */
  lemma {:induction false} BlockCommentEnd(inp: Input, d: Option<char>, c: Cursor, line: int, col: int)
    requires c.pos <= |inp.text|
    ensures var r := SkipBlock(inp, d, c, line, col);
      && (r.Err? <==> forall i | c.pos <= i < |inp.text| :: !ClosesAt(inp, d, c, i))
      && (r.Ok? ==> c.pos < r.value.pos && ClosesAt(inp, d, c, r.value.pos - 1))
      && (r.Ok? ==> forall i | c.pos <= i < r.value.pos - 1 :: !ClosesAt(inp, d, c, i))
    decreases |inp.text| - c.pos
  {
    if d == Some('|') && Lookahead(inp, c) == Some('#') {
      assert ClosesAt(inp, d, c, c.pos);
    } else if c.pos < |inp.text| {
      var (d', c') := Read(inp, c);
      assert !ClosesAt(inp, d, c, c.pos);
      forall i | c'.pos <= i < |inp.text|
        ensures ClosesAt(inp, d', c', i) == ClosesAt(inp, d, c, i)
      {
      }
      BlockCommentEnd(inp, d', c', line, col);
    }
  }

  /** Where a line comment whose text starts at `k` stops: just after its line break, or at the end. */
  function LineEnd(text: string, k: nat): (e: nat)
    requires k <= |text|
    ensures k <= e <= |text|
    decreases |text| - k
  {
    if k == |text| then k else if IsNewline(text[k]) then k + 1 else LineEnd(text, k + 1)
  }

  /** Skipping a line comment stops where `LineEnd` says. */
  lemma {:induction false} SkipLineEnd(inp: Input, d: Option<char>, c: Cursor)
    requires c.pos <= |inp.text| && d.Some? && !IsNewline(d.value)
    ensures SkipLine(inp, d, c).pos == LineEnd(inp.text, c.pos)
    decreases |inp.text| - c.pos
  {
    if c.pos < |inp.text| {
      var (d', c') := Read(inp, c);
      if !IsNewline(d'.value) {
        SkipLineEnd(inp, d', c');
      }
    }
  }

  /** From `k` on the text holds nothing but whitespace and, when they are enabled, line comments. */
  predicate Blank(inp: Input, k: nat)
    requires k <= |inp.text|
    decreases |inp.text| - k
  {
    || k == |inp.text|
    || (IsWhitespace(inp.text[k]) && Blank(inp, k + 1))
    || (inp.cfg.lineComment && inp.text[k] == ';' && Blank(inp, LineEnd(inp.text, k + 1)))
  }

  /** `while streamer.lookahead_char in WHITESPACES: read()` */
  function SkipLookSpace(inp: Input, c: Cursor): (r: Cursor)
    requires c.pos <= |inp.text|
    ensures c.pos <= r.pos <= |inp.text| && !IsSpace(Lookahead(inp, r))
    decreases |inp.text| - c.pos
  {
    if IsSpace(Lookahead(inp, c)) then SkipLookSpace(inp, Read(inp, c).1) else c
  }

  // ------------------------------------------------------------------ string literals

  predicate IsBaseDigit(d: Option<char>, base: nat)
  {
    d.Some? && if base == 8 then IsOctDigit(d.value) else IsHexDigit(d.value)
  }

  /** The digits of a numeric escape: `acc` extended by at most `more` further digits of the base, read
      while the lookahead is one (`for _ in ...: if not digit(lookahead): break`). */
  function EscapeDigits(inp: Input, c: Cursor, acc: string, more: nat, base: nat): (r: (string, Cursor))
    requires c.pos <= |inp.text|
    ensures |acc| <= |r.0| <= |acc| + more && r.0[..|acc|] == acc
    ensures c.pos <= r.1.pos <= |inp.text| && r.1.pos - c.pos == |r.0| - |acc|
    ensures |r.0| < |acc| + more ==> !IsBaseDigit(Lookahead(inp, r.1), base)
    ensures forall i | |acc| <= i < |r.0| :: IsBaseDigit(Some(r.0[i]), base)
    decreases more
  {
    if more == 0 || !IsBaseDigit(Lookahead(inp, c), base) then (acc, c)
    else
      var (d, c') := Read(inp, c);
      var r := EscapeDigits(inp, c', acc + [d.value], more - 1, base);
      assert (acc + [d.value])[..|acc|] == acc;
      assert r.0[..|acc|] == r.0[..|acc| + 1][..|acc|];
      r
  }

  /** `"{:c}".format(n)`: OverflowError beyond the last code point; a surrogate is a character this model
      cannot hold. */
  function CodeOf(n: nat): (r: Result<char>)
    ensures r.Ok? <==> n <= 0x10FFFF && !IsSurrogate(n)
    ensures r.Ok? ==> r.value as int == n
    ensures n > 0x10FFFF ==> r == Err(OverflowError)
  {
    if n > 0x10FFFF then Err(OverflowError)
    else if IsSurrogate(n) then Err(Unrepresentable)
    else Ok(n as char)
  }

  /** The one-letter escapes; any other character stands for itself. */
  function NamedEscape(ch: char): char
  {
    match ch
    case 'a' => 7 as char
    case 'b' => 8 as char
    case 'e' => 27 as char
    case 'f' => 12 as char
    case 'n' => '\n'
    case 'r' => '\r'
    case 't' => '\t'
    case 'v' => 11 as char
    case _ => ch
  }

  /** A numeric escape: `first` and up to `more` further digits of `base`, as one character. */
  function NumericEscape(inp: Input, c: Cursor, first: char, more: nat, base: nat): (r: Result<(string, Cursor)>)
    requires c.pos <= |inp.text|
    ensures r.Ok? ==> |r.value.0| == 1 && c.pos <= r.value.1.pos <= |inp.text|
    ensures r.Err? ==> r.error == OverflowError || r.error == Unrepresentable
  {
    var (digits, c') := EscapeDigits(inp, c, [first], more, base);
    var code :- CodeOf(DigitsValue(digits, base));
    Ok(([code], c'))
  }

  /** What follows a backslash in a string when escapes are enabled: up to three octal digits, `x` or `X`
      with up to two hex digits, `u` with up to four, `U` with up to eight, a one-letter escape, or any
      other character, which stands for itself. A backslash at the end of the text stands for nothing. */
  function Escape(inp: Input, c: Cursor): (r: Result<(string, Cursor)>)
    requires c.pos <= |inp.text|
    ensures r.Ok? ==> |r.value.0| <= 1 && c.pos <= r.value.1.pos <= |inp.text|
    ensures r.Err? ==> r.error == OverflowError || r.error == Unrepresentable
  {
    var (d, c1) := Read(inp, c);
    if d.None? then Ok(([], c1))
    else if IsOctDigit(d.value) then NumericEscape(inp, c1, d.value, 2, 8)
    else if Lower(d.value) == 'x' && IsBaseDigit(Lookahead(inp, c1), 16) then HexEscape(inp, c1, 1)
    else if d.value == 'u' && IsBaseDigit(Lookahead(inp, c1), 16) then HexEscape(inp, c1, 3)
    else if d.value == 'U' && IsBaseDigit(Lookahead(inp, c1), 16) then HexEscape(inp, c1, 7)
    else Ok(([NamedEscape(d.value)], c1))
  }

  /** A hex escape whose first digit is the lookahead character. */
  function HexEscape(inp: Input, c: Cursor, more: nat): (r: Result<(string, Cursor)>)
    requires c.pos < |inp.text|
    ensures r.Ok? ==> |r.value.0| == 1 && c.pos < r.value.1.pos <= |inp.text|
    ensures r.Err? ==> r.error == OverflowError || r.error == Unrepresentable
  {
    var (d, c1) := Read(inp, c);
    NumericEscape(inp, c1, d.value, more, 16)
  }

  /** The body of a string literal after its opening `"`, appended to `s`, and the position after the
      closing `"`. Running out of text is an EOFError. */
  function StringBody(inp: Input, c: Cursor, s: string, line: int, col: int): (r: Result<(string, Cursor)>)
    requires c.pos <= |inp.text|
    ensures r.Err? && Lookahead(inp, c).None? ==> r.error == EOFError(line, col)
    ensures r.Ok? ==> c.pos < r.value.1.pos <= |inp.text| && |r.value.0| >= |s| && r.value.0[..|s|] == s
    decreases |inp.text| - c.pos
  {
    var la := Lookahead(inp, c);
    if la.None? then Err(EOFError(line, col))
    else if la == Some('"') then Ok((s, Read(inp, c).1))
    else
      var (d, c1) := Read(inp, c);
      if inp.cfg.escape && d == Some('\\') then
        var (piece, c2) :- Escape(inp, c1);
        Suffix(s, piece, StringBody(inp, c2, s + piece, line, col))
      else
        Suffix(s, [d.value], StringBody(inp, c1, s + [d.value], line, col))
  }

  /** Without escapes a string literal is the text up to the first `"`, and it is an EOFError exactly when
      no `"` follows. */
  lemma {:induction false} PlainString(inp: Input, c: Cursor, s: string, line: int, col: int)
    requires c.pos <= |inp.text| && !inp.cfg.escape
    ensures var r := StringBody(inp, c, s, line, col);
      && (r.Err? <==> forall i | c.pos <= i < |inp.text| :: inp.text[i] != '"')
      && (r.Err? ==> r.error == EOFError(line, col))
      && (r.Ok? ==> var q := r.value.1.pos - 1;
                    && c.pos <= q && inp.text[q] == '"' && r.value.0 == s + inp.text[c.pos..q]
                    && forall i | c.pos <= i < q :: inp.text[i] != '"')
    decreases |inp.text| - c.pos
  {
    var la := Lookahead(inp, c);
    if la.Some? && la != Some('"') {
      var (d, c1) := Read(inp, c);
      PlainString(inp, c1, s + [d.value], line, col);
      var r := StringBody(inp, c1, s + [d.value], line, col);
      if r.Ok? {
        var q := r.value.1.pos - 1;
        assert inp.text[c.pos..q] == [d.value] + inp.text[c1.pos..q];
      }
    }
  }

  /** With or without escapes, a string literal with no `"` after it fails: with an EOFError, or earlier
      with the error of a numeric escape. */
  lemma {:induction false} UnterminatedString(inp: Input, c: Cursor, s: string, line: int, col: int)
    requires c.pos <= |inp.text|
    requires forall i | c.pos <= i < |inp.text| :: inp.text[i] != '"'
    ensures var r := StringBody(inp, c, s, line, col);
      r.Err? && (r.error == EOFError(line, col) || r.error == OverflowError || r.error == Unrepresentable)
    decreases |inp.text| - c.pos
  {
    var la := Lookahead(inp, c);
    if la.Some? {
      var (d, c1) := Read(inp, c);
      if inp.cfg.escape && d == Some('\\') {
        var e := Escape(inp, c1);
        if e.Ok? {
          var (piece, c2) := e.value;
          UnterminatedString(inp, c2, s + piece, line, col);
        }
      } else {
        UnterminatedString(inp, c1, s + [d.value], line, col);
      }
    }
  }

  /** A result whose text extends `s + p` also extends `s`. */
  function Suffix(s: string, p: string, r: Result<(string, Cursor)>): (r': Result<(string, Cursor)>)
    requires r.Ok? ==> |r.value.0| >= |s + p| && r.value.0[..|s + p|] == s + p
    ensures r' == r
    ensures r'.Ok? ==> |r'.value.0| >= |s| && r'.value.0[..|s|] == s
  {
    if r.Ok? then
      assert r.value.0[..|s|] == r.value.0[..|s + p|][..|s|] == (s + p)[..|s|] == s;
      r
    else r
  }

  // ------------------------------------------------------------------ bare tokens

  /** A bare token: `s` extended by the characters up to the next delimiter or the end of the text. */
  function Word(inp: Input, c: Cursor, s: string): (r: (string, Cursor))
    requires c.pos <= |inp.text|
    ensures c.pos <= r.1.pos <= |inp.text|
    ensures r.0 == s + inp.text[c.pos..r.1.pos]
    ensures forall i | c.pos <= i < r.1.pos :: !IsDelimiter(inp.text[i])
    ensures Lookahead(inp, r.1).None? || IsDelim(Lookahead(inp, r.1))
    decreases |inp.text| - c.pos
  {
    var la := Lookahead(inp, c);
    if la.None? || IsDelim(la) then (s, c)
    else
      var (d, c1) := Read(inp, c);
      var r := Word(inp, c1, s + [d.value]);
      assert inp.text[c.pos..r.1.pos] == [d.value] + inp.text[c1.pos..r.1.pos];
      r
  }

  /** The sign of a token: -1 after a leading `-`, 1 otherwise. */
  function Sign(s: string): int
  {
    if |s| > 0 && s[0] == '-' then -1 else 1
  }

  /** `int(s)` for a text matching `[+-]?\d+`. */
  function IntegerValue(s: string): int
  {
    Sign(s) * DigitsValue(Unsigned(s), 10)
  }

  /** A Fraction `Fraction(a, b)` reduced to an int when its denominator is 1. */
  function Ratio(a: int, b: int): (r: Result<Num>)
    ensures r.Err? <==> b == 0
    ensures r.Err? ==> r.error == ZeroDivisionError
    ensures r.Ok? ==> Value(r.value) == a as real / b as real
    ensures r.Ok? ==> (r.value.Int? <==> Abs(a) % Abs(b) == 0) && IsExact(r.value)
  {
    var f :- MakeFraction(a, b);
    ReduceFracKeepsValue(f);
    Ok(ReduceFrac(f))
  }

  /** `#b`, `#o` or `#x` numbers: `int(val[0].lower().replace("#b", ""), 2)` and, after a `/`, a
      Fraction with the second part; a zero denominator is a ZeroDivisionError. */
  function PrefixedValue(s: string, base: nat): (r: Result<Num>)
    requires IsPrefixed(s, if base == 2 then 'b' else if base == 8 then 'o' else 'x',
                        if base == 2 then IsBinDigit else if base == 8 then IsOctDigit else IsHexDigit)
  {
    var b := Unsigned(s);
    var k := SlashIndex(b[2..], 0);
    var n := Sign(s) * DigitsValue(b[2..][..k], base);
    if k == |b[2..]| then Ok(Int(n)) else Ratio(n, DigitsValue(b[2..][k + 1..], base))
  }

  /** The base of a radix token, `int(valstr[0], 10)`. */
  function RadixBase(s: string): (base: nat)
    requires IsRadix(s)
    ensures 1 <= base <= 99
  {
    var b := Unsigned(s);
    var d := b[1..1 + RadixBaseLength(b)];
    assert 1 <= DigitValue(d[0]) <= 9 && DigitsValue(d[..1], 10) == DigitValue(d[0]) by {
      assert d[..1][..0] == [];
    }
    assert |d| == 2 ==> d[..|d| - 1] == d[..1] && DigitValue(d[1]) <= 9;
    DigitsValue(d, 10)
  }

  /** The digits of a radix token after its `r`, lower-cased. */
  function RadixDigits(s: string): string
    requires IsRadix(s)
  {
    var b := Unsigned(s);
    LowerString(b[RadixBaseLength(b) + 2..])
  }

  /** A radix token `[+-]#BBrNNN[/NNN]`: `int(NNN, BB)`, and a Fraction after a `/`. Whatever Python's
      `int` or `Fraction` refuses (a base outside 2..36, a digit too large for the base, a zero
      denominator) is caught, and the token becomes a Symbol. */
  function RadixToken(s: string): (t: Token)
    requires IsRadix(s)
    ensures t.SymTok? ==> t.name == s
    ensures t.NumTok? ==> IsExact(t.n)
    ensures !(2 <= RadixBase(s) <= 36) ==> t == SymTok(s)
    ensures t.SymTok? || t.NumTok?
    ensures var digits := RadixDigits(s); var k := SlashIndex(digits, 0); var base := RadixBase(s);
      && (t.SymTok? <==>
            || ParseInt(digits[..k], base).Err?
            || (k < |digits| && (ParseInt(digits[k + 1..], base).Err? || ParseInt(digits[k + 1..], base).value == 0)))
      && (t.NumTok? && k == |digits| ==> t.n == Int(Sign(s) * ParseInt(digits[..k], base).value))
      && (t.NumTok? && k < |digits| ==>
            Value(t.n) == (Sign(s) * ParseInt(digits[..k], base).value) as real / ParseInt(digits[k + 1..], base).value as real)
  {
    var digits := RadixDigits(s);
    var base := RadixBase(s);
    var k := SlashIndex(digits, 0);
    match ParseInt(digits[..k], base)
    case Err(_) => SymTok(s)
    case Ok(v) =>
      if k == |digits| then NumTok(Int(Sign(s) * v))
      else
        match ParseInt(digits[k + 1..], base)
        case Err(_) => SymTok(s)
        case Ok(x) =>
          match Ratio(Sign(s) * v, x)
          case Err(_) => SymTok(s)
          case Ok(q) => NumTok(q)
  }

  /** `Fraction(s)` for a text matching `[+-]?\d+/\d+`, reduced to an int when it is whole. */
  function FractionValue(s: string): (r: Result<Num>)
    requires IsFraction(s)
  {
    var b := Unsigned(s);
    var k := SlashIndex(b, 0);
    Ratio(Sign(s) * DigitsValue(b[..k], 10), DigitsValue(b[k + 1..], 10))
  }

  /** The numeric readings of a bare token, tried in the tokenizer's order: integer, float, then `#b`,
      `#o`, `#x`, radix and fraction when their flags are on. `None` when none applies. */
  function NumberToken(s: string, cfg: Config): (r: Option<Result<Token>>)
    ensures IsInteger(s) ==> r == Some(Ok(NumTok(Int(IntegerValue(s)))))
    ensures !IsInteger(s) && IsNumber(s) ==> r == Some(Ok(NumTok(Float(s))))
    ensures r.None? <==>
      && !IsInteger(s) && !IsNumber(s) && !(IsBin(s) && cfg.bin) && !(IsOct(s) && cfg.oct)
      && !(IsHex(s) && cfg.hex) && !(IsRadix(s) && cfg.radix) && !(IsFraction(s) && cfg.frac)
  {
    if IsInteger(s) then Some(Ok(NumTok(Int(IntegerValue(s)))))
    else if IsNumber(s) then Some(Ok(NumTok(Float(s))))
    else if IsBin(s) && cfg.bin then Some(Tok(PrefixedValue(s, 2)))
    else if IsOct(s) && cfg.oct then Some(Tok(PrefixedValue(s, 8)))
    else if IsHex(s) && cfg.hex then Some(Tok(PrefixedValue(s, 16)))
    else if IsRadix(s) && cfg.radix then Some(Ok(RadixToken(s)))
    else if IsFraction(s) && cfg.frac then Some(Tok(FractionValue(s)))
    else None
  }

  function Tok(r: Result<Num>): (t: Result<Token>)
    ensures t.Ok? <==> r.Ok?
    ensures t.Ok? ==> t.value == NumTok(r.value)
    ensures t.Err? ==> t.error == r.error
  {
    if r.Ok? then Ok(NumTok(r.value)) else Err(r.error)
  }

  /** A bare token beginning with `#` that is no number: a `#\` character, the array prefixes `#(` and
      `#nA(`, the complex prefix `#C(`, or else a Symbol. Before the last three are recognised the
      whitespace after the token is skipped. */
  function SharpToken(inp: Input, s: string, c: Cursor): (r: Result<(Token, Cursor)>)
    requires c.pos <= |inp.text| && |s| >= 1 && s[0] == '#'
    ensures r.Ok? ==> c.pos <= r.value.1.pos <= |inp.text| && Named(Some(r.value.0))
    ensures r.Err? ==> r.error == Unrepresentable
  {
    var cfg := inp.cfg;
    if cfg.chars && StartsWithMarker(s) then
      if IsChar(s) then
        var ch :- ResolveChar(s);
        Ok((ChrTok(ch), c))
      else Ok((SymTok(s), c))
    else if cfg.arrays && s == "#" && Lookahead(inp, c) == Some('(') then Ok((ArrayStart(1), c))
    else
      var c' := SkipLookSpace(inp, c);
      var open := Lookahead(inp, c') == Some('(');
      if cfg.complex && |s| == 2 && Upper(s[1]) == 'C' && open then Ok((ComplexStart, c'))
      else if cfg.arrays && IsArrayPrefix(s) && open then Ok((ArrayStart(DigitsValue(s[1..|s| - 1], 10)), c'))
      else Ok((SymTok(s), c'))
  }

  /** What a bare token stands for. */
  function BareToken(inp: Input, s: string, c: Cursor): (r: Result<(Token, Cursor)>)
    requires c.pos <= |inp.text| && |s| >= 1
    ensures r.Ok? ==> c.pos <= r.value.1.pos <= |inp.text| && Named(Some(r.value.0))
  {
    match NumberToken(s, inp.cfg)
    case Some(Ok(t)) => Ok((t, c))
    case Some(Err(e)) => Err(e)
    case None => if s[0] == '#' then SharpToken(inp, s, c) else Ok((SymTok(s), c))
  }

  // ------------------------------------------------------------------ the tokenizer

  /** `_sxpr_tokenizer`: skip whitespace and comments, then scan one token; `None` at the end of the text.
      `line` and `col` are where the parser last stood, which an EOFError reports. */
  function Scan(inp: Input, c: Cursor, line: int, col: int): (r: Result<(Option<Token>, Cursor)>)
    requires c.pos <= |inp.text|
    ensures r.Ok? ==> c.pos <= r.value.1.pos <= |inp.text| && Named(r.value.0)
    ensures r.Ok? && r.value.0.Some? ==> c.pos < r.value.1.pos
    decreases |inp.text| - c.pos + 1, 0
  {
    var (d, c1) := Read(inp, c);
    Dispatch(inp, d, c1, line, col)
  }

  /** The character just read: whitespace is passed over, a comment is skipped and scanning starts over,
      anything else begins a token. */
  function Dispatch(inp: Input, d: Option<char>, c: Cursor, line: int, col: int): (r: Result<(Option<Token>, Cursor)>)
    requires c.pos <= |inp.text|
    ensures r.Ok? ==> c.pos <= r.value.1.pos <= |inp.text| && Named(r.value.0)
    ensures r.Ok? && r.value.0.Some? ==> d.Some?
    decreases |inp.text| - c.pos + (if d.Some? then 1 else 0), 1
  {
    if IsSpace(d) then Scan(inp, c, line, col)
    else if inp.cfg.lineComment && d == Some(';') then
      Scan(inp, SkipLine(inp, d, c), line, col)
    else if inp.cfg.blockComment && d == Some('#') && Lookahead(inp, c) == Some('|') then
      var (d2, c2) := Read(inp, Read(inp, c).1);
      var c3 :- SkipBlock(inp, d2, c2, line, col);
      Scan(inp, c3, line, col)
    else ScanToken(inp, d, c, line, col)
  }

  /** Skipping the whole run of whitespace first, as `_sxpr_tokenizer` does with its loop, leads to the
      same token. */
  lemma {:induction false} SkipSpaceDispatch(inp: Input, d: Option<char>, c: Cursor, line: int, col: int)
    requires c.pos <= |inp.text|
    ensures var (d', c') := SkipSpace(inp, d, c); Dispatch(inp, d, c, line, col) == Dispatch(inp, d', c', line, col)
    decreases |inp.text| - c.pos + (if d.Some? then 1 else 0)
  {
    if IsSpace(d) {
      var (d1, c1) := Read(inp, c);
      SkipSpaceDispatch(inp, d1, c1, line, col);
    }
  }

  /** Over a blank rest of the text the tokenizer finds no token and stops at the end. */
  lemma {:induction false} BlankScan(inp: Input, c: Cursor, line: int, col: int)
    requires c.pos <= |inp.text| && Blank(inp, c.pos)
    ensures var r := Scan(inp, c, line, col); r.Ok? && r.value.0.None? && r.value.1.pos == |inp.text|
    decreases |inp.text| - c.pos
  {
    if c.pos < |inp.text| {
      var (d, c1) := Read(inp, c);
      if IsWhitespace(d.value) {
        BlankScan(inp, c1, line, col);
      } else {
        SkipLineEnd(inp, d, c1);
        BlankScan(inp, SkipLine(inp, d, c1), line, col);
      }
    }
  }

  /** The token that starts with `d`, the first character after whitespace and comments. */
  function ScanToken(inp: Input, d: Option<char>, c: Cursor, line: int, col: int): (r: Result<(Option<Token>, Cursor)>)
    requires c.pos <= |inp.text|
    ensures r.Ok? ==> c.pos <= r.value.1.pos <= |inp.text| && Named(r.value.0)
    ensures r.Ok? ==> (r.value.0.None? <==> d.None?)
  {
    if d.None? then Ok((None, c))
    else
      var ch := d.value;
      var la := Lookahead(inp, c);
      if inp.cfg.quote && ch == '\'' then Ok((Some(if IsSpace(la) then SymTok("'") else Quote), c))
      else if inp.cfg.funcRef && ch == '#' && la == Some('\'') then
        var c' := Read(inp, c).1;
        Ok((Some(if IsDelim(Lookahead(inp, c')) then SymTok("#'") else FuncRef), c'))
      else if ch == '(' then Ok((Some(LPar), c))
      else if ch == ')' then Ok((Some(RPar), c))
      else if ch == '.' && IsDelim(la) then Ok((Some(Dot), c))
      else if ch == '"' then
        var (s, c') :- StringBody(inp, c, "", line, col);
        Ok((Some(StrTok(s)), c'))
      else
        var (w, c') := Word(inp, c, [ch]);
        var (t, c'') :- BareToken(inp, w, c');
        Ok((Some(t), c''))
  }

  // ------------------------------------------------------------------ one-token lookahead

  /** `lookahead_token`: not yet scanned (`_Undef`), or the next token (`None` at the end). */
  datatype Slot = Undef | Ready(tok: Option<Token>)

  /** The reader's state: the character streamer, the position the parser last reported
      (`streamer.line`, `streamer.col`) and the lookahead token. */
  datatype LexState = LexState(at: Cursor, line: int, col: int, look: Slot)

  predicate Valid(inp: Input, st: LexState) { st.at.pos <= |inp.text| && (st.look.Ready? ==> Named(st.look.tok)) }

  /** A fresh streamer: line 1, column 0, nothing scanned. */
  const Start: LexState := LexState(Cursor(0, 1, 0), 1, 0, Undef)

  /** What is left to read: twice the characters left, plus one for a pending token, plus two when no
      token has been scanned yet. Consuming a token always lowers it. */
  function Measure(inp: Input, st: LexState): nat
    requires Valid(inp, st)
  {
    2 * (|inp.text| - st.at.pos) + (match st.look case Undef => 2 case Ready(t) => if t.Some? then 1 else 0)
  }

  /** Scan the lookahead token into the state. */
  function Refill(inp: Input, st: LexState): (r: Result<LexState>)
    requires Valid(inp, st)
    ensures r.Ok? ==> Valid(inp, r.value) && r.value.look.Ready? && r.value.line == st.line && r.value.col == st.col
    ensures r.Ok? ==> st.at.pos <= r.value.at.pos
    ensures r.Ok? && r.value.look.tok.Some? ==> st.at.pos < r.value.at.pos
  {
    var (t, c) :- Scan(inp, st.at, st.line, st.col);
    Ok(st.(at := c, look := Ready(t)))
  }

  /** `_next_token`: hand out the lookahead token (scanning it first if need be), report the position
      after it, and scan the next one unless the text has ended. */
  function NextToken(inp: Input, st: LexState): (r: Result<(Option<Token>, LexState)>)
    requires Valid(inp, st)
    ensures r.Ok? ==> Valid(inp, r.value.1) && r.value.1.look.Ready? && Named(r.value.0)
    ensures r.Ok? ==> Measure(inp, r.value.1) <= Measure(inp, st)
    ensures r.Ok? && st.look != Ready(None) ==> Measure(inp, r.value.1) < Measure(inp, st)
    ensures r.Ok? && r.value.0.None? ==> r.value.1.look == Ready(None)
    ensures st.look == Ready(None) ==> r == Ok((None, st.(line := st.at.line, col := st.at.col)))
    ensures r.Ok? && st.look.Ready? ==> r.value.0 == st.look.tok
  {
    var st1 :- if st.look.Undef? then Refill(inp, st) else Ok(st);
    var t := st1.look.tok;
    var st2 := st1.(line := st1.at.line, col := st1.at.col);
    if t.None? then Ok((None, st2))
    else
      var st3 :- Refill(inp, st2);
      Ok((t, st3))
  }
}
