/** What the reader makes of a few small texts, and how the tokenizer classifies a few bare tokens. The
    texts use characters one column wide. */
module Samples {
  import opened Base
  import opened Numbers
  import opened Text
  import opened Classify
  import opened Lexer
  import opened Reader

  function Narrow(ch: char): bool { false }

  /** `()` reads as NIL. */
  lemma EmptyList()
    ensures ParseText(Input("()", Narrow, Defaults)) == Ok(Empty)
  {
    var inp := Input("()", Narrow, Defaults);
    assert Scan(inp, Cursor(0, 1, 0), 1, 0) == Ok((Some(LPar), Cursor(1, 1, 1)));
    assert Scan(inp, Cursor(1, 1, 1), 1, 1) == Ok((Some(RPar), Cursor(2, 1, 2)));
    assert Scan(inp, Cursor(2, 1, 2), 1, 2) == Ok((None, Cursor(2, 1, 2)));
    var s1 := LexState(Cursor(2, 1, 2), 1, 1, Ready(Some(RPar)));
    var s2 := LexState(Cursor(2, 1, 2), 1, 2, Ready(None));
    assert NextToken(inp, Start) == Ok((Some(LPar), s1));
    assert NextToken(inp, s1) == Ok((Some(RPar), s2));
    assert ParseList(inp, s1) == Ok((Empty, s2));
  }

  /** An empty text, and one holding only a comment, read as nothing (`None`). */
  lemma NothingToRead()
    ensures ParseText(Input("", Narrow, Defaults)) == Ok(Absent)
    ensures ParseText(Input("; c", Narrow, Defaults)) == Ok(Absent)
  {
    var none := Input("", Narrow, Defaults);
    assert Scan(none, Cursor(0, 1, 0), 1, 0) == Ok((None, Cursor(0, 1, 0)));
    var inp := Input("; c", Narrow, Defaults);
    assert SkipLine(inp, None, Cursor(3, 1, 3)) == Cursor(3, 1, 3);
    assert SkipLine(inp, Some('c'), Cursor(3, 1, 3)) == Cursor(3, 1, 3);
    assert SkipLine(inp, Some(' '), Cursor(2, 1, 2)) == Cursor(3, 1, 3);
    assert SkipLine(inp, Some(';'), Cursor(1, 1, 1)) == Cursor(3, 1, 3);
    assert Scan(inp, Cursor(3, 1, 3), 1, 0) == Ok((None, Cursor(3, 1, 3)));
    assert Scan(inp, Cursor(0, 1, 0), 1, 0) == Ok((None, Cursor(3, 1, 3)));
  }

  /** A stray `)` is a SyntaxError at the position after it. */
  lemma StrayClose()
    ensures ParseText(Input(")", Narrow, Defaults)) == Err(SyntaxError(UnexpectedToken(")"), 1, 1))
  {
    var inp := Input(")", Narrow, Defaults);
    assert Scan(inp, Cursor(0, 1, 0), 1, 0) == Ok((Some(RPar), Cursor(1, 1, 1)));
    assert Scan(inp, Cursor(1, 1, 1), 1, 1) == Ok((None, Cursor(1, 1, 1)));
  }

  const PairText := Input("(a . b)", Narrow, Defaults)

  lemma PairScanA()
    ensures Scan(PairText, Cursor(1, 1, 1), 1, 1) == Ok((Some(SymTok("a")), Cursor(2, 1, 2)))
  {
    assert Word(PairText, Cursor(2, 1, 2), "a") == ("a", Cursor(2, 1, 2));
  }

  lemma PairScanDot()
    ensures Scan(PairText, Cursor(2, 1, 2), 1, 2) == Ok((Some(Dot), Cursor(4, 1, 4)))
  {
    assert Scan(PairText, Cursor(3, 1, 3), 1, 2) == Ok((Some(Dot), Cursor(4, 1, 4)));
  }

  lemma PairScanB()
    ensures Scan(PairText, Cursor(4, 1, 4), 1, 4) == Ok((Some(SymTok("b")), Cursor(6, 1, 6)))
  {
    assert Word(PairText, Cursor(6, 1, 6), "b") == ("b", Cursor(6, 1, 6));
    assert Scan(PairText, Cursor(5, 1, 5), 1, 4) == Ok((Some(SymTok("b")), Cursor(6, 1, 6)));
  }

  /** The tokens of `(a . b)`, one scan at a time. */
  lemma PairScans()
    ensures Scan(PairText, Cursor(0, 1, 0), 1, 0) == Ok((Some(LPar), Cursor(1, 1, 1)))
    ensures Scan(PairText, Cursor(1, 1, 1), 1, 1) == Ok((Some(SymTok("a")), Cursor(2, 1, 2)))
    ensures Scan(PairText, Cursor(2, 1, 2), 1, 2) == Ok((Some(Dot), Cursor(4, 1, 4)))
    ensures Scan(PairText, Cursor(4, 1, 4), 1, 4) == Ok((Some(SymTok("b")), Cursor(6, 1, 6)))
    ensures Scan(PairText, Cursor(6, 1, 6), 1, 6) == Ok((Some(RPar), Cursor(7, 1, 7)))
    ensures Scan(PairText, Cursor(7, 1, 7), 1, 7) == Ok((None, Cursor(7, 1, 7)))
  {
    PairScanA();
    PairScanDot();
    PairScanB();
  }

  /** `(a . b)` reads as one Cons whose `car` is the Symbol `a` and whose `cdr` is the Symbol `b`. */
  lemma DottedPair()
    ensures ParseText(PairText) == Ok(TCons(TSym("a"), TSym("b")))
  {
    var inp := PairText;
    PairScans();
    var s1 := LexState(Cursor(2, 1, 2), 1, 1, Ready(Some(SymTok("a"))));
    var s2 := LexState(Cursor(4, 1, 4), 1, 2, Ready(Some(Dot)));
    var s3 := LexState(Cursor(6, 1, 6), 1, 4, Ready(Some(SymTok("b"))));
    var s4 := LexState(Cursor(7, 1, 7), 1, 6, Ready(Some(RPar)));
    var s5 := LexState(Cursor(7, 1, 7), 1, 7, Ready(None));
    assert NextToken(inp, Start) == Ok((Some(LPar), s1));
    assert ParseObj(inp, s1) == Ok((TSym("a"), s2));
    assert NextToken(inp, s2) == Ok((Some(Dot), s3));
    assert ParseObj(inp, s3) == Ok((TSym("b"), s4));
    assert NextToken(inp, s4) == Ok((Some(RPar), s5));
    assert ParseRest(inp, s2) == Ok((TSym("b"), s5));
    assert ParseList(inp, s1) == Ok((TCons(TSym("a"), TSym("b")), s5));
  }

  const QuoteText := Input("'x", Narrow, Defaults.(quote := true))

  /** The tokens of `'x`. */
  lemma QuoteScans()
    ensures Scan(QuoteText, Cursor(0, 1, 0), 1, 0) == Ok((Some(Quote), Cursor(1, 1, 1)))
    ensures Scan(QuoteText, Cursor(1, 1, 1), 1, 1) == Ok((Some(SymTok("x")), Cursor(2, 1, 2)))
    ensures Scan(QuoteText, Cursor(2, 1, 2), 1, 2) == Ok((None, Cursor(2, 1, 2)))
  {
    assert Word(QuoteText, Cursor(2, 1, 2), "x") == ("x", Cursor(2, 1, 2));
  }

  /** With quoting on, `'x` reads as `(quote x)`. */
  lemma QuotedSymbol()
    ensures ParseText(QuoteText) == Ok(QuoteForm("quote", TSym("x")))
  {
    var inp := QuoteText;
    QuoteScans();
    var s1 := LexState(Cursor(2, 1, 2), 1, 1, Ready(Some(SymTok("x"))));
    var s2 := LexState(Cursor(2, 1, 2), 1, 2, Ready(None));
    assert NextToken(inp, Start) == Ok((Some(Quote), s1));
    assert ParseObj(inp, s1) == Ok((TSym("x"), s2));
  }

  const OpenText := Input("(a", Narrow, Defaults)

  /** A list the text ends inside is a SyntaxError at the end of the text. */
  lemma EndInsideList()
    ensures ParseText(OpenText) == Err(SyntaxError(UnexpectedEOF, 1, 2))
  {
    var inp := OpenText;
    assert Scan(inp, Cursor(0, 1, 0), 1, 0) == Ok((Some(LPar), Cursor(1, 1, 1)));
    assert Word(inp, Cursor(2, 1, 2), "a") == ("a", Cursor(2, 1, 2));
    assert Scan(inp, Cursor(1, 1, 1), 1, 1) == Ok((Some(SymTok("a")), Cursor(2, 1, 2)));
    assert Scan(inp, Cursor(2, 1, 2), 1, 2) == Ok((None, Cursor(2, 1, 2)));
    var s1 := LexState(Cursor(2, 1, 2), 1, 1, Ready(Some(SymTok("a"))));
    var s2 := LexState(Cursor(2, 1, 2), 1, 2, Ready(None));
    assert NextToken(inp, Start) == Ok((Some(LPar), s1));
    assert ParseObj(inp, s1) == Ok((TSym("a"), s2));
    assert ParseRest(inp, s2) == Err(SyntaxError(UnexpectedEOF, 1, 2));
    assert ParseList(inp, s1) == Err(SyntaxError(UnexpectedEOF, 1, 2));
  }

  const DotFirstText := Input("(. a)", Narrow, Defaults)

  /** The first three tokens of `(. a)`. */
  lemma DotFirstScans()
    ensures Scan(DotFirstText, Cursor(0, 1, 0), 1, 0) == Ok((Some(LPar), Cursor(1, 1, 1)))
    ensures Scan(DotFirstText, Cursor(1, 1, 1), 1, 1) == Ok((Some(Dot), Cursor(2, 1, 2)))
    ensures Scan(DotFirstText, Cursor(2, 1, 2), 1, 2) == Ok((Some(SymTok("a")), Cursor(4, 1, 4)))
  {
    var inp := DotFirstText;
    assert Word(inp, Cursor(4, 1, 4), "a") == ("a", Cursor(4, 1, 4));
    assert Scan(inp, Cursor(3, 1, 3), 1, 2) == Ok((Some(SymTok("a")), Cursor(4, 1, 4)));
  }

  /** A dot where an object should start is a SyntaxError at the position after it. */
  lemma DotAsObject()
    ensures ParseText(DotFirstText) == Err(SyntaxError(UnexpectedToken("."), 1, 2))
  {
    var inp := DotFirstText;
    DotFirstScans();
    var s1 := LexState(Cursor(2, 1, 2), 1, 1, Ready(Some(Dot)));
    var s2 := LexState(Cursor(4, 1, 4), 1, 2, Ready(Some(SymTok("a"))));
    assert NextToken(inp, Start) == Ok((Some(LPar), s1));
    assert NextToken(inp, s1) == Ok((Some(Dot), s2));
    assert ParseList(inp, s1) == Err(SyntaxError(UnexpectedToken("."), 1, 2));
  }

  const StringText := Input("\"ab", Narrow, Defaults)

  /** A string literal the text ends inside is an EOFError at the position the reader last reported. */
  lemma EndInsideString()
    ensures ParseText(StringText) == Err(EOFError(1, 0))
  {
    var inp := StringText;
    assert StringBody(inp, Cursor(3, 1, 3), "ab", 1, 0) == Err(EOFError(1, 0));
    assert StringBody(inp, Cursor(2, 1, 2), "a", 1, 0) == Err(EOFError(1, 0));
    assert StringBody(inp, Cursor(1, 1, 1), "", 1, 0) == Err(EOFError(1, 0));
    assert Scan(inp, Cursor(0, 1, 0), 1, 0) == Err(EOFError(1, 0));
  }

  const CommentText := Input("#| x", Narrow, Defaults.(blockComment := true))

  /** So is a block comment the text ends inside. */
  lemma EndInsideComment()
    ensures ParseText(CommentText) == Err(EOFError(1, 0))
  {
    var inp := CommentText;
    assert SkipBlock(inp, Some('x'), Cursor(4, 1, 4), 1, 0) == Err(EOFError(1, 0));
    assert SkipBlock(inp, Some(' '), Cursor(3, 1, 3), 1, 0) == Err(EOFError(1, 0));
    assert Scan(inp, Cursor(0, 1, 0), 1, 0) == Err(EOFError(1, 0));
  }

  const TailText := Input("(a . b c)", Narrow, Defaults)

  lemma TailScanA()
    ensures Scan(TailText, Cursor(1, 1, 1), 1, 1) == Ok((Some(SymTok("a")), Cursor(2, 1, 2)))
  {
    assert Word(TailText, Cursor(2, 1, 2), "a") == ("a", Cursor(2, 1, 2));
  }

  lemma TailScanDot()
    ensures Scan(TailText, Cursor(2, 1, 2), 1, 2) == Ok((Some(Dot), Cursor(4, 1, 4)))
  {
    assert Scan(TailText, Cursor(3, 1, 3), 1, 2) == Ok((Some(Dot), Cursor(4, 1, 4)));
  }

  lemma TailScanB()
    ensures Scan(TailText, Cursor(4, 1, 4), 1, 4) == Ok((Some(SymTok("b")), Cursor(6, 1, 6)))
  {
    assert Word(TailText, Cursor(6, 1, 6), "b") == ("b", Cursor(6, 1, 6));
    assert Scan(TailText, Cursor(5, 1, 5), 1, 4) == Ok((Some(SymTok("b")), Cursor(6, 1, 6)));
  }

  lemma TailScanC()
    ensures Scan(TailText, Cursor(6, 1, 6), 1, 6) == Ok((Some(SymTok("c")), Cursor(8, 1, 8)))
  {
    assert Word(TailText, Cursor(8, 1, 8), "c") == ("c", Cursor(8, 1, 8));
    assert Scan(TailText, Cursor(7, 1, 7), 1, 6) == Ok((Some(SymTok("c")), Cursor(8, 1, 8)));
  }

  /** The reader's states along `(a . b c)`. */
  lemma TailTokens()
    ensures NextToken(TailText, Start) == Ok((Some(LPar), LexState(Cursor(2, 1, 2), 1, 1, Ready(Some(SymTok("a"))))))
    ensures NextToken(TailText, LexState(Cursor(2, 1, 2), 1, 1, Ready(Some(SymTok("a")))))
         == Ok((Some(SymTok("a")), LexState(Cursor(4, 1, 4), 1, 2, Ready(Some(Dot)))))
    ensures NextToken(TailText, LexState(Cursor(4, 1, 4), 1, 2, Ready(Some(Dot))))
         == Ok((Some(Dot), LexState(Cursor(6, 1, 6), 1, 4, Ready(Some(SymTok("b"))))))
    ensures NextToken(TailText, LexState(Cursor(6, 1, 6), 1, 4, Ready(Some(SymTok("b")))))
         == Ok((Some(SymTok("b")), LexState(Cursor(8, 1, 8), 1, 6, Ready(Some(SymTok("c"))))))
    ensures NextToken(TailText, LexState(Cursor(8, 1, 8), 1, 6, Ready(Some(SymTok("c")))))
         == Ok((Some(SymTok("c")), LexState(Cursor(9, 1, 9), 1, 8, Ready(Some(RPar)))))
  {
    assert Scan(TailText, Cursor(0, 1, 0), 1, 0) == Ok((Some(LPar), Cursor(1, 1, 1)));
    TailScanA();
    TailScanDot();
    TailScanB();
    TailScanC();
    assert Scan(TailText, Cursor(8, 1, 8), 1, 8) == Ok((Some(RPar), Cursor(9, 1, 9)));
  }

  /** A dotted tail followed by anything but `)` is a SyntaxError at the position after that token. */
  lemma TailNotClosed()
    ensures ParseText(TailText) == Err(SyntaxError(CloseExpected, 1, 8))
  {
    var inp := TailText;
    TailTokens();
    var s1 := LexState(Cursor(2, 1, 2), 1, 1, Ready(Some(SymTok("a"))));
    var s2 := LexState(Cursor(4, 1, 4), 1, 2, Ready(Some(Dot)));
    var s3 := LexState(Cursor(6, 1, 6), 1, 4, Ready(Some(SymTok("b"))));
    var s4 := LexState(Cursor(8, 1, 8), 1, 6, Ready(Some(SymTok("c"))));
    assert ParseObj(inp, s1) == Ok((TSym("a"), s2));
    assert ParseObj(inp, s3) == Ok((TSym("b"), s4));
    assert ParseRest(inp, s2) == Err(SyntaxError(CloseExpected, 1, 8));
    assert ParseList(inp, s1) == Err(SyntaxError(CloseExpected, 1, 8));
  }

  // ------------------------------------------------------------------ token classification

  /** A decimal integer is an int whatever the flags are. */
  lemma NegativeInteger(cfg: Config)
    ensures NumberToken("-12", cfg) == Some(Ok(NumTok(Int(-12))))
  {
    assert Unsigned("-12") == "12";
    assert IsInteger("-12");
    assert "12"[..1] == "1" && "1"[..0] == [];
    assert DigitsValue("12", 10) == 12;
  }

  /** `#x` digits stay a Symbol while the hex flag is off. */
  lemma HexNeedsFlag()
    ensures NumberToken("#x1f", Defaults) == None
  {
    assert Unsigned("#x1f") == "#x1f";
    assert !IsDigit('#');
    assert ExponentStart("#x1f", 0) == 3;
    assert "#x1f"[..3] == "#x1";
    assert !IsMantissa("#x1");
  }

  /** With the hex flag on they are a number. */
  lemma HexWithFlag()
    ensures NumberToken("#x1f", Defaults.(hex := true)) == Some(Ok(NumTok(Int(31))))
  {
    HexNeedsFlag();
    assert "#x1f"[2..] == "1f" && "1f"[..1] == "1";
    assert SlashIndex("1f", 0) == 2;
    assert "1f"[..2] == "1f";
    assert IsHex("#x1f");
    assert DigitsValue("1f", 16) == 31;
  }

  /** `#3r12` is a radix token and nothing before it in the order. */
  lemma RadixShapeFits()
    ensures IsRadix("#3r12") && !IsInteger("#3r12") && !IsNumber("#3r12")
  {
    assert Unsigned("#3r12") == "#3r12";
    assert !IsDigit('#');
    assert ExponentStart("#3r12", 0) == 5;
    assert "#3r12"[..5] == "#3r12";
    assert RadixBaseLength("#3r12") == 1;
    assert "#3r12"[3..] == "12";
    assert SlashIndex("12", 0) == 2 && "12"[..2] == "12";
  }

  /** So is `#2r102`. */
  lemma RadixShapeDoesNotFit()
    ensures IsRadix("#2r102") && !IsInteger("#2r102") && !IsNumber("#2r102")
  {
    assert Unsigned("#2r102") == "#2r102";
    assert !IsDigit('#');
    assert ExponentStart("#2r102", 0) == 6;
    assert "#2r102"[..6] == "#2r102";
    assert RadixBaseLength("#2r102") == 1;
    assert "#2r102"[3..] == "102";
    assert SlashIndex("102", 0) == 3 && "102"[..3] == "102";
  }

  /** `int("12", 3)` is 5. */
  lemma Base3Digits()
    ensures ParseInt("12", 3) == Ok(5)
  {
    var s := "12";
    assert !HasBasePrefix(s, 3) && s[0] == '1' && s[1] == '2';
    assert DigitValue('1') == 1 && DigitValue('2') == 2;
    assert DigitsFit(s, 3);
    assert DigitsValue(s, 3) == 5 by {
      assert s[..1] == "1" && "1"[..0] == [];
    }
  }

  /** `int("102", 2)` is refused. */
  lemma Base2Digits()
    ensures ParseInt("102", 2).Err?
  {
    var s := "102";
    assert s[0] == '1' && s[2] == '2' && !HasBasePrefix(s, 2);
    assert !DigitsFit(s, 2) by {
      assert !(DigitValue(s[2]) < 2);
    }
  }

  /** The base and the digits of `#3r12`. */
  lemma RadixPartsFit()
    ensures IsRadix("#3r12") && RadixBase("#3r12") == 3 && RadixDigits("#3r12") == "12"
  {
    RadixShapeFits();
    assert "#3r12"[3..] == "12" && "#3r12"[1..2] == "3";
    assert LowerString("12") == "12";
  }

  /** The base and the digits of `#2r102`. */
  lemma RadixPartsDoNotFit()
    ensures IsRadix("#2r102") && RadixBase("#2r102") == 2 && RadixDigits("#2r102") == "102"
  {
    RadixShapeDoesNotFit();
    assert "#2r102"[3..] == "102" && "#2r102"[1..2] == "2";
    assert LowerString("102") == "102";
  }

  /** `#3r12` has digits that fit base 3: the int 5. */
  lemma RadixFits()
    ensures RadixToken("#3r12") == NumTok(Int(5))
  {
    RadixPartsFit();
    Base3Digits();
    assert SlashIndex("12", 0) == 2 && "12"[..2] == "12";
  }

  /** `#2r102` has the digit 2, too large for base 2: the token is a Symbol. */
  lemma RadixDoesNotFit()
    ensures RadixToken("#2r102") == SymTok("#2r102")
  {
    RadixPartsDoNotFit();
    Base2Digits();
    assert SlashIndex("102", 0) == 3 && "102"[..3] == "102";
  }

  /** With the radix flag on, the two tokens read as a number and as a Symbol. */
  lemma RadixTokens()
    ensures NumberToken("#3r12", Defaults.(radix := true)) == Some(Ok(NumTok(Int(5))))
    ensures NumberToken("#2r102", Defaults.(radix := true)) == Some(Ok(SymTok("#2r102")))
  {
    RadixShapeFits();
    RadixShapeDoesNotFit();
    RadixFits();
    RadixDoesNotFit();
  }

  /** A fraction whose denominator divides its numerator is an int. */
  lemma WholeFraction()
    ensures NumberToken("4/2", Defaults.(frac := true)) == Some(Ok(NumTok(Int(2))))
  {
    FractionShape();
    assert "4/2"[..1] == "4" && "4/2"[2..] == "2";
    assert FractionValue("4/2") == Lexer.Ratio(4, 2);
  }

  /** `4/2` is a fraction and nothing before it in the order. */
  lemma FractionShape()
    ensures IsFraction("4/2") && !IsInteger("4/2") && !IsNumber("4/2") && SlashIndex("4/2", 0) == 1
  {
    assert Unsigned("4/2") == "4/2";
    assert !IsDigit('/');
    assert ExponentStart("4/2", 0) == 3;
    assert "4/2"[..3] == "4/2";
    assert DotIndex("4/2", 0) == 3;
    assert !IsMantissa("4/2");
    assert "4/2"[..1] == "4" && "4/2"[2..] == "2";
  }
}
