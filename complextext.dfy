/** The text `str()` gives a Complex under sxprlib, `#C(re im)`, read back by the reader: with complex
    literals and fractions enabled it is a complex literal whose parts have the values of the original's. */
module ComplexText {
  import opened Base
  import opened Text
  import opened Numbers
  import opened Classify
  import opened RatComplex
  import opened Lexer
  import opened Reader

  // ------------------------------------------------------------------ the text of one part

  /** The characters the text of an int or a Fraction is made of. */
  predicate NumberChar(ch: char) { IsDigit(ch) || ch == '-' || ch == '/' }

  /** The token the text of an exact number reads as: an int, or the reduced Fraction. */
  function PartToken(x: Num): Token
  {
    match x
    case Frac(a, b) =>
      if b == 1 then NumTok(Int(a))
      else if b == 0 then NumTok(Int(0))
      else NumTok(Lexer.Ratio(a, b).value)
    case _ => NumTok(x)
  }

  /** The token has the value of the number. */
  lemma PartTokenValue(x: Num)
    requires IsExact(x)
    ensures PartToken(x).NumTok? && Value(PartToken(x).n) == Value(x) && IsExact(PartToken(x).n)
  {
  }

  /** `str(i)`: an optional `-` followed by decimal digits whose value is |i|. */
  lemma {:induction false} IntChars(i: int)
    ensures var w := IntToString(i);
      && (i < 0 <==> w[0] == '-') && (i >= 0 ==> Unsigned(w) == w) && |Unsigned(w)| >= 1
      && Sign(w) * DigitsValue(Unsigned(w), 10) == i
      && (forall j | 0 <= j < |w| :: NumberChar(w[j]))
      && (forall j | 0 <= j < |Unsigned(w)| :: IsDigit(Unsigned(w)[j]))
  {
    var w := IntToString(i);
    var m := if i < 0 then -i else i;
    DigitsRoundTrip(m, 10);
    var digits := NatToDigits(m, 10);
    assert forall j | 0 <= j < |digits| :: IsDigit(digits[j]);
    if i < 0 {
      assert w[1..] == digits;
    } else {
      assert w == digits;
      assert IsDigit(w[0]);
    }
  }

  /** `str(i)` is read by the tokenizer as the int i. */
  lemma IntText(i: int)
    ensures IsInteger(IntToString(i)) && IntegerValue(IntToString(i)) == i
  {
    IntChars(i);
  }

  /** Neither an exponent letter nor a dot occurs in a text of digits and slashes. */
  lemma {:induction false} NoLetterOrDot(s: string, i: nat)
    requires i <= |s| && forall j | 0 <= j < |s| :: IsDigit(s[j]) || s[j] == '/'
    ensures ExponentStart(s, i) == |s| && DotIndex(s, i) == |s|
    decreases |s| - i
  {
    if i < |s| {
      assert Lower(s[i]) !in "defs";
      NoLetterOrDot(s, i + 1);
    }
  }

  /** Digits, one `/` at k and digits again, after an optional sign. */
  predicate Slashed(w: string, k: nat)
  {
    var u := Unsigned(w);
    && 1 <= k && k + 1 < |u| && u[k] == '/'
    && forall j | 0 <= j < |u| && j != k :: IsDigit(u[j])
  }

  /** A slashed text is no integer, no float and none of the `#` forms. */
  lemma SlashedIsNoOtherNumber(w: string, k: nat)
    requires Slashed(w, k)
    ensures !IsInteger(w) && !IsNumber(w) && !IsBin(w) && !IsOct(w) && !IsHex(w) && !IsRadix(w)
  {
    var u := Unsigned(w);
    assert !IsDigit(u[k]);
    assert IsDigit(u[0]);
    NoLetterOrDot(u, 0);
    assert u[..|u|] == u;
  }

  /** A slashed text is a fraction whose `/` is at k. */
  lemma SlashedIsFraction(w: string, k: nat)
    requires Slashed(w, k)
    ensures SlashIndex(Unsigned(w), 0) == k && IsFraction(w)
  {
  }

  /** `str(Fraction(a, b))` is made of digits, signs and slashes. */
  lemma FractionChars(a: int, b: int)
    requires b >= 2
    ensures var w := IntToString(a) + "/" + IntToString(b); forall j | 0 <= j < |w| :: NumberChar(w[j])
  {
    var A := IntToString(a);
    var B := IntToString(b);
    var w := A + "/" + B;
    IntChars(a);
    IntChars(b);
    forall j | 0 <= j < |w|
      ensures NumberChar(w[j])
    {
      if j < |A| {
        assert w[j] == A[j];
      } else if j > |A| {
        assert w[j] == B[j - |A| - 1];
      }
    }
  }

  /** `str(Fraction(a, b))` for a denominator of at least 2 is `a/b`: a slashed text whose sign is a's,
      with the digits of |a| before the slash and those of b after it. */
  lemma FractionForm(a: int, b: int)
    requires b >= 2
    ensures var A := IntToString(a);
      var w := A + "/" + IntToString(b);
      var k := |Unsigned(A)|;
      && Slashed(w, k) && Sign(w) == Sign(A)
      && Unsigned(w)[..k] == Unsigned(A) && Unsigned(w)[k + 1..] == IntToString(b)
  {
    var A := IntToString(a);
    var B := IntToString(b);
    var w := A + "/" + B;
    IntChars(a);
    IntChars(b);
    var k := |Unsigned(A)|;
    var u := Unsigned(w);
    assert u == Unsigned(A) + "/" + B;
    forall j | 0 <= j < |u| && j != k
      ensures IsDigit(u[j])
    {
      if j < k {
        assert u[j] == Unsigned(A)[j];
      } else {
        assert u[j] == B[j - k - 1];
      }
    }
    assert u[..k] == Unsigned(A) && u[k + 1..] == B;
  }

  /** A text that is a fraction and nothing else the tokenizer tries first reads as its Fraction. */
  lemma FractionToken(w: string, cfg: Config)
    requires cfg.frac && IsFraction(w)
    requires !IsInteger(w) && !IsNumber(w) && !IsBin(w) && !IsOct(w) && !IsHex(w) && !IsRadix(w)
    ensures NumberToken(w, cfg) == Some(Tok(FractionValue(w)))
  {
  }

  /** The fraction text `a/b` has the value a/b. */
  lemma FractionTextValue(a: int, b: int)
    requires b >= 2
    ensures var w := IntToString(a) + "/" + IntToString(b); IsFraction(w) && FractionValue(w) == Lexer.Ratio(a, b)
  {
    var A := IntToString(a);
    var w := A + "/" + IntToString(b);
    IntChars(a);
    IntChars(b);
    FractionForm(a, b);
    SlashedIsFraction(w, |Unsigned(A)|);
  }

  /** The fraction text `a/b` reads, with fractions enabled, as the Fraction a/b. */
  lemma FractionText(a: int, b: int, cfg: Config)
    requires b >= 2 && cfg.frac
    ensures NumberToken(IntToString(a) + "/" + IntToString(b), cfg) == Some(Ok(NumTok(Lexer.Ratio(a, b).value)))
  {
    var A := IntToString(a);
    var w := A + "/" + IntToString(b);
    FractionForm(a, b);
    SlashedIsNoOtherNumber(w, |Unsigned(A)|);
    FractionTextValue(a, b);
    FractionToken(w, cfg);
  }

  /** The text of an int or a Fraction is made of digits, signs and slashes. */
  lemma PartText(x: Num)
    requires IsExact(x)
    ensures var w := NumToString(x); |w| >= 1 && forall j | 0 <= j < |w| :: NumberChar(w[j])
  {
    match x
    case Int(i) =>
      IntChars(i);
    case Frac(a, b) =>
      IntChars(a);
      if b != 1 {
        FractionChars(a, b);
      }
  }

  /** The text of an int or a Fraction reads back as a number token of the same value when fractions are
      enabled. */
  lemma PartReadsBack(x: Num, cfg: Config)
    requires IsExact(x) && cfg.frac
    ensures NumberToken(NumToString(x), cfg) == Some(Ok(PartToken(x)))
  {
    match x
    case Int(i) =>
      IntText(i);
    case Frac(a, b) =>
      if b == 1 {
        IntText(a);
      } else {
        FractionText(a, b, cfg);
      }
  }

  // ------------------------------------------------------------------ the tokens of the text

  /** `#C` is no number under any flags. */
  lemma SharpCIsNoNumber(cfg: Config)
    ensures NumberToken("#C", cfg).None?
  {
    assert ExponentStart("#C", 1) == 2;
    assert DotIndex("#C", 0) == 2;
    assert !IsNumber("#C");
  }

  /** The bare word that begins with `#C(` is `#C`. */
  lemma SharpWord(inp: Input, c: Cursor)
    requires c.pos + 3 <= |inp.text| && inp.text[c.pos..c.pos + 3] == "#C("
    ensures var c1 := Read(inp, c).1;
      var c2 := Read(inp, c1).1;
      c2.pos == c.pos + 2 && Word(inp, c1, "#") == ("#C", c2)
  {
    assert inp.text[c.pos + 1] == 'C' && inp.text[c.pos + 2] == '(';
    var c1 := Read(inp, c).1;
    var c2 := Read(inp, c1).1;
    assert "#" + ['C'] == "#C";
    assert Word(inp, c2, "#C") == ("#C", c2);
    assert Word(inp, c1, "#") == Word(inp, c2, "#C");
  }

  /** `#C` before `(` stands for the complex prefix when complex literals are enabled. */
  lemma SharpBare(inp: Input, c: Cursor)
    requires c.pos < |inp.text| && inp.text[c.pos] == '(' && inp.cfg.complex
    ensures BareToken(inp, "#C", c) == Ok((ComplexStart, c))
  {
    SharpCIsNoNumber(inp.cfg);
  }

  /** `#C` right before `(` is the complex prefix when complex literals are enabled. */
  lemma HeadScan(inp: Input, c: Cursor, line: int, col: int)
    requires c.pos + 3 <= |inp.text| && inp.text[c.pos..c.pos + 3] == "#C(" && inp.cfg.complex
    ensures var r := Scan(inp, c, line, col);
      r.Ok? && r.value.0 == Some(ComplexStart) && r.value.1.pos == c.pos + 2
  {
    assert inp.text[c.pos] == '#' && inp.text[c.pos + 1] == 'C' && inp.text[c.pos + 2] == '(';
    SharpWord(inp, c);
    var c2 := Read(inp, Read(inp, c).1).1;
    assert c2.pos == c.pos + 2;
    SharpBare(inp, c2);
  }

  /** A parenthesis is a token of its own. */
  lemma ParenScan(inp: Input, c: Cursor, line: int, col: int)
    requires c.pos < |inp.text| && (inp.text[c.pos] == '(' || inp.text[c.pos] == ')')
    ensures var r := Scan(inp, c, line, col);
      r.Ok? && r.value.0 == Some(if inp.text[c.pos] == '(' then LPar else RPar) && r.value.1.pos == c.pos + 1
  {
  }

  /** A token with the cursor after it, as the tokenizer hands it on. */
  function Found(r: Result<(Token, Cursor)>): Result<(Option<Token>, Cursor)>
  {
    match r
    case Ok((t, c)) => Ok((Some(t), c))
    case Err(e) => Err(e)
  }

  /** A digit, a sign or a slash begins a bare token. */
  lemma BareStart(inp: Input, c: Cursor, line: int, col: int)
    requires c.pos < |inp.text| && NumberChar(inp.text[c.pos])
    ensures var c1 := Read(inp, c).1;
      var (w, c2) := Word(inp, c1, [inp.text[c.pos]]);
      Scan(inp, c, line, col) == Found(BareToken(inp, w, c2))
  {
    var ch := inp.text[c.pos];
    var (d, c1) := Read(inp, c);
    assert d == Some(ch) && !IsSpace(d) && ch != ';' && ch != '#' && ch != '\'' && ch != '(' && ch != ')' && ch != '.' && ch != '"';
    assert Scan(inp, c, line, col) == Dispatch(inp, d, c1, line, col) == ScanToken(inp, d, c1, line, col);
  }

  /** A bare word is read up to the first delimiter. */
  lemma {:induction false} WordRun(inp: Input, c: Cursor, s: string, e: nat)
    requires c.pos <= e <= |inp.text|
    requires forall i | c.pos <= i < e :: !IsDelimiter(inp.text[i])
    requires e < |inp.text| ==> IsDelimiter(inp.text[e])
    ensures Word(inp, c, s).1.pos == e && Word(inp, c, s).0 == s + inp.text[c.pos..e]
    decreases e - c.pos
  {
    if c.pos < e {
      var (d, c1) := Read(inp, c);
      WordRun(inp, c1, s + [d.value], e);
      assert s + [d.value] + inp.text[c1.pos..e] == s + inp.text[c.pos..e];
    }
  }

  /** The word `w` of digits, signs and slashes lies in the text at `p`, up to a delimiter or the end. */
  predicate WordAt(inp: Input, w: string, p: nat)
  {
    && p + |w| <= |inp.text| && |w| >= 1
    && (forall i | 0 <= i < |w| :: inp.text[p + i] == w[i] && NumberChar(w[i]))
    && (p + |w| < |inp.text| ==> IsDelimiter(inp.text[p + |w|]))
  }

  /** Such a word is read whole. */
  lemma WordIs(inp: Input, c: Cursor, w: string)
    requires WordAt(inp, w, c.pos)
    ensures inp.text[c.pos] == w[0]
    ensures var r := Word(inp, Read(inp, c).1, [w[0]]); r.0 == w && r.1.pos == c.pos + |w|
  {
    var e := c.pos + |w|;
    assert inp.text[c.pos] == w[0];
    var c1 := Read(inp, c).1;
    assert forall i | c1.pos <= i < e :: !IsDelimiter(inp.text[i]) by {
      forall i | c1.pos <= i < e
        ensures !IsDelimiter(inp.text[i])
      {
        assert inp.text[c.pos + (i - c.pos)] == w[i - c.pos];
      }
    }
    WordRun(inp, c1, [w[0]], e);
    assert inp.text[c1.pos..e] == w[1..];
  }

  /** A bare token that is a number stands for that number. */
  lemma NumberBare(inp: Input, w: string, c: Cursor, t: Token)
    requires c.pos <= |inp.text| && |w| >= 1 && NumberToken(w, inp.cfg) == Some(Ok(t))
    ensures BareToken(inp, w, c) == Ok((t, c))
  {
  }

  /** The tokenizer finds `t` from where `c` stands and stops at `q`. */
  predicate ScansTo(inp: Input, c: Cursor, line: int, col: int, t: Option<Token>, q: nat)
    requires c.pos <= |inp.text|
  {
    var r := Scan(inp, c, line, col);
    r.Ok? && r.value.0 == t && r.value.1.pos == q
  }

  /** The text of an exact part, lying in the text where `c` stands, is scanned as its token. */
  lemma PartScan(inp: Input, x: Num, c: Cursor, line: int, col: int)
    requires IsExact(x) && inp.cfg.frac && WordAt(inp, NumToString(x), c.pos)
    ensures ScansTo(inp, c, line, col, Some(PartToken(x)), c.pos + |NumToString(x)|)
  {
    var w := NumToString(x);
    PartReadsBack(x, inp.cfg);
    WordIs(inp, c, w);
    BareStart(inp, c, line, col);
    var c2 := Word(inp, Read(inp, c).1, [w[0]]).1;
    NumberBare(inp, w, c2, PartToken(x));
  }

  /** The same after a space. */
  lemma SpacedPartScan(inp: Input, x: Num, c: Cursor, line: int, col: int)
    requires c.pos < |inp.text| && IsWhitespace(inp.text[c.pos])
    requires IsExact(x) && inp.cfg.frac && WordAt(inp, NumToString(x), c.pos + 1)
    ensures ScansTo(inp, c, line, col, Some(PartToken(x)), c.pos + 1 + |NumToString(x)|)
  {
    PartScan(inp, x, Read(inp, c).1, line, col);
  }

  // ------------------------------------------------------------------ the reader over the text

  /** With a token pending, the reader hands it out and scans the next one from where it stands. */
  lemma Advance(inp: Input, st: LexState, t: Option<Token>, q: nat)
    requires Valid(inp, st) && st.look.Ready? && st.look.tok.Some?
    requires ScansTo(inp, st.at, st.at.line, st.at.col, t, q)
    ensures var r := NextToken(inp, st);
      r.Ok? && r.value.0 == st.look.tok && r.value.1.look == Ready(t) && r.value.1.at.pos == q
  {
  }

  /** A fresh reader over a text beginning with `#C(` hands out the complex prefix, with `(` pending. */
  lemma ComplexOpens(inp: Input)
    requires 3 <= |inp.text| && inp.text[..3] == "#C(" && inp.cfg.complex
    ensures var r := NextToken(inp, Start);
      r.Ok? && r.value.0 == Some(ComplexStart) && r.value.1.look == Ready(Some(LPar)) && r.value.1.at.pos == 3
  {
    assert inp.text[0..0 + 3] == inp.text[..3];
    HeadScan(inp, Start.at, Start.line, Start.col);
    var c := Scan(inp, Start.at, Start.line, Start.col).value.1;
    assert inp.text[c.pos] == '(';
    ParenScan(inp, c, c.line, c.col);
  }

  /** The text of a complex literal after its prefix: `(`, a part, a space, a part and `)`, at `p`, with
      nothing but blanks after it. */
  predicate ComplexBodyAt(inp: Input, p: nat, a: string, b: string)
  {
    && p + |a| + |b| + 2 <= |inp.text|
    && WordAt(inp, a, p) && inp.text[p + |a|] == ' '
    && WordAt(inp, b, p + |a| + 1) && inp.text[p + |a| + |b| + 1] == ')'
    && Blank(inp, p + |a| + |b| + 2)
  }

  /** The parenthesis of a complex literal is pending: it is consumed and the next token scanned. */
  lemma DelimStep(inp: Input, st: LexState, p: Token, t: Option<Token>, q: nat)
    requires Valid(inp, st) && st.look == Ready(Some(p))
    requires ScansTo(inp, st.at, st.at.line, st.at.col, t, q)
    ensures var r := ComplexDelim(inp, st, p); r.Ok? && r.value.look == Ready(t) && r.value.at.pos == q
  {
    Advance(inp, st, t, q);
  }

  /** A number is pending: it is a part of the complex literal, and the next token is scanned. */
  lemma NumStep(inp: Input, st: LexState, x: Num, t: Option<Token>, q: nat)
    requires Valid(inp, st) && st.look == Ready(Some(NumTok(x)))
    requires ScansTo(inp, st.at, st.at.line, st.at.col, t, q)
    ensures var r := ComplexNum(inp, st); r.Ok? && r.value.0 == x && r.value.1.look == Ready(t) && r.value.1.at.pos == q
  {
    Advance(inp, st, t, q);
  }

  /** With `(` pending before such a body, the rest of the complex literal reads as the two parts' tokens. */
  lemma ComplexBody(inp: Input, st: LexState, re: Num, im: Num)
    requires IsExact(re) && IsExact(im) && inp.cfg.frac
    requires Valid(inp, st) && st.look == Ready(Some(LPar))
    requires ComplexBodyAt(inp, st.at.pos, NumToString(re), NumToString(im))
    ensures var r := ParseComplex(inp, st);
      r.Ok? && r.value.0 == TComplex(PartToken(re).n, PartToken(im).n)
  {
    var n := |NumToString(re)|;
    var m := |NumToString(im)|;
    var p := st.at.pos;
    PartTokenValue(re);
    PartTokenValue(im);
    PartScan(inp, re, st.at, st.at.line, st.at.col);
    DelimStep(inp, st, LPar, Some(PartToken(re)), p + n);
    var s1 := ComplexDelim(inp, st, LPar).value;
    SpacedPartScan(inp, im, s1.at, s1.at.line, s1.at.col);
    NumStep(inp, s1, PartToken(re).n, Some(PartToken(im)), p + n + 1 + m);
    var s2 := ComplexNum(inp, s1).value.1;
    ParenScan(inp, s2.at, s2.at.line, s2.at.col);
    NumStep(inp, s2, PartToken(im).n, Some(RPar), p + n + m + 2);
    var s3 := ComplexNum(inp, s2).value.1;
    BlankScan(inp, s3.at, s3.at.line, s3.at.col);
    DelimStep(inp, s3, RPar, None, |inp.text|);
  }

  /** The layout of `#C(re im)`. */
  lemma SharpCLayout(inp: Input, a: string, b: string)
    requires inp.text == "#C(" + a + " " + b + ")"
    requires |a| >= 1 && |b| >= 1
    requires forall j | 0 <= j < |a| :: NumberChar(a[j])
    requires forall j | 0 <= j < |b| :: NumberChar(b[j])
    ensures inp.text[..3] == "#C(" && ComplexBodyAt(inp, 3, a, b)
  {
    var t := inp.text;
    assert forall i | 0 <= i < |a| :: t[3 + i] == a[i];
    assert forall i | 0 <= i < |b| :: t[3 + |a| + 1 + i] == b[i];
    assert t[3 + |a|] == ' ' && t[3 + |a| + |b| + 1] == ')';
    assert t[..3] == "#C(";
  }

  /** After the complex prefix the reader reads a complex literal. */
  lemma ComplexObject(inp: Input, st: LexState, s1: LexState)
    requires Valid(inp, st) && NextToken(inp, st) == Ok((Some(ComplexStart), s1))
    ensures Valid(inp, s1) && ParseObj(inp, st) == ParseComplex(inp, s1)
  {
  }

  /** A text that begins with `#C(` followed by such a body reads as the complex literal of the two parts'
      tokens. */
  lemma SharpCReads(inp: Input, re: Num, im: Num)
    requires IsExact(re) && IsExact(im) && inp.cfg.complex && inp.cfg.frac
    requires 3 <= |inp.text| && inp.text[..3] == "#C(" && ComplexBodyAt(inp, 3, NumToString(re), NumToString(im))
    ensures ParseText(inp) == Ok(TComplex(PartToken(re).n, PartToken(im).n))
  {
    ComplexOpens(inp);
    var s1 := NextToken(inp, Start).value.1;
    ComplexBody(inp, s1, re, im);
    ComplexObject(inp, Start, s1);
  }

  /** `#C(re im)` with exact parts reads back, with complex literals and fractions enabled, as a complex
      literal whose parts are exact and have the values of re and im. */
  lemma SharpCTextReadsBack(re: Num, im: Num, wide: char -> bool, cfg: Config)
    requires IsExact(re) && IsExact(im) && cfg.complex && cfg.frac
    ensures var r := ParseText(Input("#C(" + NumToString(re) + " " + NumToString(im) + ")", wide, cfg));
      && r.Ok? && r.value.TComplex?
      && IsExact(r.value.re) && Value(r.value.re) == Value(re)
      && IsExact(r.value.im) && Value(r.value.im) == Value(im)
  {
    var inp := Input("#C(" + NumToString(re) + " " + NumToString(im) + ")", wide, cfg);
    PartText(re);
    PartText(im);
    SharpCLayout(inp, NumToString(re), NumToString(im));
    SharpCReads(inp, re, im);
    PartTokenValue(re);
    PartTokenValue(im);
  }

  /** `str(c)` in the `#C` form reads back as a complex literal with c's parts. */
  lemma ComplexTextReadsBack(c: Complex, wide: char -> bool, cfg: Config)
    requires IsExact(c.realPart) && IsExact(c.imagPart) && cfg.complex && cfg.frac
    ensures var r := ParseText(Input(ToString(c, SharpC), wide, cfg));
      && r.Ok? && r.value.TComplex?
      && Value(r.value.re) == Value(c.realPart) && Value(r.value.im) == Value(c.imagPart)
  {
    SharpCTextReadsBack(c.realPart, c.imagPart, wide, cfg);
  }
}
