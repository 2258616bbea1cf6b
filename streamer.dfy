/** `SxprStreamerBaseClass` fed by `_StringStreamer`: the character streamer with its lookahead
    character, line and column, the tokenizer that reads from it, and the one-token lookahead. */
module Streaming {
  import opened Base
  import opened Text
  import opened Classify
  import opened Intern
  import opened Lexer

  /** A result paired with where the streamer ended up; an error carries no position. */
  function Pack<T, S>(r: Result<T>, s: S): (p: Result<(T, S)>)
    ensures p.Ok? <==> r.Ok?
    ensures p.Ok? ==> p.value == (r.value, s)
    ensures p.Err? ==> p.error == r.error
  {
    if r.Ok? then Ok((r.value, s)) else Err(r.error)
  }

  class Streamer {
    /** The text (`__text`), the character widths and the reader flags. */
    const inp: Input
    /** How many characters `read()` has handed out; the lookahead character is the next one. */
    var pos: nat
    var lookLine: int
    var lookCol: int
    /** `line` and `col`: where the parser last stood, set by `_next_token`. */
    var line: int
    var col: int
    var look: Slot

    ghost predicate Valid()
      reads this
    {
      Lexer.Valid(inp, State())
    }

    function Cur(): Cursor
      reads this
    {
      Cursor(pos, lookLine, lookCol)
    }

    function State(): LexState
      reads this
    {
      LexState(Cur(), line, col, look)
    }

    /** `_StringStreamer(text)`: line 1, column 0, nothing scanned yet. */
    constructor (text: string, wide: char -> bool, cfg: Config)
      ensures Valid() && inp == Input(text, wide, cfg) && State() == Start
    {
      inp := Input(text, wide, cfg);
      pos := 0;
      lookLine := 1;
      lookCol := 0;
      line := 1;
      col := 0;
      look := Undef;
    }

    /** `read()` */
    method Read() returns (d: Option<char>)
      requires Valid()
      modifies this
      ensures Valid() && (d, Cur()) == Lexer.Read(inp, old(Cur()))
      ensures line == old(line) && col == old(col) && look == old(look)
    {
      d := Lookahead(inp, Cur());
      if pos < |inp.text| {
        var v := inp.text[pos];
        pos := pos + 1;
        if IsNewline(v) {
          lookCol := 0;
          lookLine := lookLine + 1;
        } else {
          lookCol := lookCol + Width(inp, v);
        }
      }
    }

    /** The whitespace loop at the start of `_sxpr_tokenizer`. */
    method SkipSpaces(d0: Option<char>) returns (d: Option<char>)
      requires Valid()
      modifies this
      ensures Valid() && (d, Cur()) == SkipSpace(inp, d0, old(Cur()))
      ensures line == old(line) && col == old(col) && look == old(look)
    {
      d := d0;
      while IsSpace(d)
        invariant Valid() && SkipSpace(inp, d, Cur()) == SkipSpace(inp, d0, old(Cur()))
        invariant line == old(line) && col == old(col) && look == old(look)
        decreases |inp.text| - pos + (if d.Some? then 1 else 0)
      {
        d := Read();
      }
    }

    /** A line comment, `d0` being its `;`. */
    method SkipLineComment(d0: Option<char>)
      requires Valid()
      modifies this
      ensures Valid() && Cur() == SkipLine(inp, d0, old(Cur()))
      ensures line == old(line) && col == old(col) && look == old(look)
    {
      var d := d0;
      while d.Some? && !IsNewline(d.value)
        invariant Valid() && SkipLine(inp, d, Cur()) == SkipLine(inp, d0, old(Cur()))
        invariant line == old(line) && col == old(col) && look == old(look)
        decreases |inp.text| - pos + (if d.Some? then 1 else 0)
      {
        d := Read();
      }
    }

    /** The rest of a block comment, `d0` being the character after `#|`; false when the text ends first. */
    method SkipBlockComment(d0: Option<char>) returns (ok: bool)
      requires Valid()
      modifies this
      ensures Valid() && SkipBlock(inp, d0, old(Cur()), line, col) == if ok then Ok(Cur()) else Err(EOFError(line, col))
      ensures line == old(line) && col == old(col) && look == old(look)
    {
      var d := d0;
      while d != Some('|') || Lookahead(inp, Cur()) != Some('#')
        invariant Valid() && SkipBlock(inp, d, Cur(), line, col) == SkipBlock(inp, d0, old(Cur()), line, col)
        invariant line == old(line) && col == old(col) && look == old(look)
        decreases |inp.text| - pos
      {
        d := Read();
        if d.None? {
          return false;
        }
      }
      var _ := Read();
      ok := true;
    }

    /** `while streamer.lookahead_char in WHITESPACES: read()` */
    method SkipLookSpaces()
      requires Valid()
      modifies this
      ensures Valid() && Cur() == SkipLookSpace(inp, old(Cur()))
      ensures line == old(line) && col == old(col) && look == old(look)
    {
      while IsSpace(Lookahead(inp, Cur()))
        invariant Valid() && SkipLookSpace(inp, Cur()) == SkipLookSpace(inp, old(Cur()))
        invariant line == old(line) && col == old(col) && look == old(look)
        decreases |inp.text| - pos
      {
        var _ := Read();
      }
    }

    /** The digits of a numeric escape after `first`: `for _ in (1, ..., more): if not digit: break`. */
    method ReadDigits(first: char, more: nat, base: nat) returns (digits: string)
      requires Valid()
      modifies this
      ensures Valid() && (digits, Cur()) == EscapeDigits(inp, old(Cur()), [first], more, base)
      ensures line == old(line) && col == old(col) && look == old(look)
    {
      digits := [first];
      var k := 0;
      while k < more && IsBaseDigit(Lookahead(inp, Cur()), base)
        invariant Valid() && k <= more
        invariant EscapeDigits(inp, Cur(), digits, more - k, base) == EscapeDigits(inp, old(Cur()), [first], more, base)
        invariant line == old(line) && col == old(col) && look == old(look)
      {
        var d := Read();
        digits := digits + [d.value];
        k := k + 1;
      }
    }

    /** A numeric escape as one character. */
    method ReadNumeric(first: char, more: nat, base: nat) returns (r: Result<string>)
      requires Valid()
      modifies this
      ensures Valid() && Pack(r, Cur()) == NumericEscape(inp, old(Cur()), first, more, base)
      ensures line == old(line) && col == old(col) && look == old(look)
    {
      var digits := ReadDigits(first, more, base);
      var code := CodeOf(DigitsValue(digits, base));
      if code.Err? {
        return Err(code.error);
      }
      r := Ok([code.value]);
    }

    /** What follows a backslash inside a string literal. */
    method ReadEscape() returns (r: Result<string>)
      requires Valid()
      modifies this
      ensures Valid() && Pack(r, Cur()) == Escape(inp, old(Cur()))
      ensures line == old(line) && col == old(col) && look == old(look)
    {
      var d := Read();
      if d.None? {
        return Ok([]);
      }
      var hex := IsBaseDigit(Lookahead(inp, Cur()), 16);
      if IsOctDigit(d.value) {
        r := ReadNumeric(d.value, 2, 8);
      } else if Lower(d.value) == 'x' && hex {
        r := ReadHex(1);
      } else if d.value == 'u' && hex {
        r := ReadHex(3);
      } else if d.value == 'U' && hex {
        r := ReadHex(7);
      } else {
        r := Ok([NamedEscape(d.value)]);
      }
    }

    method ReadHex(more: nat) returns (r: Result<string>)
      requires Valid() && pos < |inp.text|
      modifies this
      ensures Valid() && Pack(r, Cur()) == HexEscape(inp, old(Cur()), more)
      ensures line == old(line) && col == old(col) && look == old(look)
    {
      var d := Read();
      r := ReadNumeric(d.value, more, 16);
    }

    /** A string literal after its opening `"`: the loop that decodes escapes, then the closing `"`. */
    method ReadString() returns (r: Result<string>)
      requires Valid()
      modifies this
      ensures Valid() && Pack(r, Cur()) == StringBody(inp, old(Cur()), "", line, col)
      ensures line == old(line) && col == old(col) && look == old(look)
    {
      var s := "";
      while Lookahead(inp, Cur()).Some? && Lookahead(inp, Cur()) != Some('"')
        invariant Valid() && StringBody(inp, Cur(), s, line, col) == StringBody(inp, old(Cur()), "", line, col)
        invariant line == old(line) && col == old(col) && look == old(look)
        decreases |inp.text| - pos
      {
        var d := Read();
        if inp.cfg.escape && d == Some('\\') {
          var piece := ReadEscape();
          if piece.Err? {
            return Err(piece.error);
          }
          s := s + piece.value;
        } else {
          s := s + [d.value];
        }
      }
      if Lookahead(inp, Cur()).None? {
        return Err(EOFError(line, col));
      }
      var _ := Read();
      r := Ok(s);
    }

    /** A bare token from its first character on: the loop up to the next delimiter, then its reading. */
    method ReadBare(first: char) returns (r: Result<Token>)
      requires Valid()
      modifies this
      ensures Valid() && Pack(r, Cur()) == var (w, c) := Word(inp, old(Cur()), [first]); BareToken(inp, w, c)
      ensures line == old(line) && col == old(col) && look == old(look)
    {
      var s := [first];
      while Lookahead(inp, Cur()).Some? && !IsDelim(Lookahead(inp, Cur()))
        invariant Valid() && Word(inp, Cur(), s) == Word(inp, old(Cur()), [first])
        invariant line == old(line) && col == old(col) && look == old(look)
        decreases |inp.text| - pos
      {
        var d := Read();
        s := s + [d.value];
      }
      assert |s| >= 1;
      match NumberToken(s, inp.cfg)
      case Some(t) =>
        r := t;
      case None =>
        if s[0] == '#' {
          r := ReadSharp(s);
        } else {
          r := Ok(SymTok(s));
        }
    }

    /** A bare token starting with `#` that is no number. */
    method ReadSharp(s: string) returns (r: Result<Token>)
      requires Valid() && |s| >= 1 && s[0] == '#'
      modifies this
      ensures Valid() && Pack(r, Cur()) == SharpToken(inp, s, old(Cur()))
      ensures line == old(line) && col == old(col) && look == old(look)
    {
      var cfg := inp.cfg;
      if cfg.chars && StartsWithMarker(s) {
        if IsChar(s) {
          var ch := ResolveChar(s);
          if ch.Err? {
            return Err(ch.error);
          }
          return Ok(ChrTok(ch.value));
        }
        return Ok(SymTok(s));
      }
      if cfg.arrays && s == "#" && Lookahead(inp, Cur()) == Some('(') {
        return Ok(ArrayStart(1));
      }
      SkipLookSpaces();
      var open := Lookahead(inp, Cur()) == Some('(');
      if cfg.complex && |s| == 2 && Upper(s[1]) == 'C' && open {
        r := Ok(ComplexStart);
      } else if cfg.arrays && IsArrayPrefix(s) && open {
        r := Ok(ArrayStart(DigitsValue(s[1..|s| - 1], 10)));
      } else {
        r := Ok(SymTok(s));
      }
    }

    /** The token that starts with `d`. */
    method ReadToken(d: Option<char>) returns (r: Result<Option<Token>>)
      requires Valid()
      modifies this
      ensures Valid() && Pack(r, Cur()) == ScanToken(inp, d, old(Cur()), line, col)
      ensures line == old(line) && col == old(col) && look == old(look)
    {
      if d.None? {
        return Ok(None);
      }
      var ch := d.value;
      var la := Lookahead(inp, Cur());
      if inp.cfg.quote && ch == '\'' {
        r := Ok(Some(if IsSpace(la) then SymTok("'") else Quote));
      } else if inp.cfg.funcRef && ch == '#' && la == Some('\'') {
        var _ := Read();
        r := Ok(Some(if IsDelim(Lookahead(inp, Cur())) then SymTok("#'") else FuncRef));
      } else if ch == '(' {
        r := Ok(Some(LPar));
      } else if ch == ')' {
        r := Ok(Some(RPar));
      } else if ch == '.' && IsDelim(la) {
        r := Ok(Some(Dot));
      } else if ch == '"' {
        var s := ReadString();
        r := if s.Ok? then Ok(Some(StrTok(s.value))) else Err(s.error);
      } else {
        var t := ReadBare(ch);
        r := if t.Ok? then Ok(Some(t.value)) else Err(t.error);
      }
    }

    /** `_sxpr_tokenizer(streamer)` */
    method Tokenize() returns (r: Result<Option<Token>>)
      requires Valid()
      modifies this
      ensures Valid() && Pack(r, Cur()) == Scan(inp, old(Cur()), line, col)
      ensures line == old(line) && col == old(col) && look == old(look)
      decreases |inp.text| - pos
    {
      var d := Read();
      ghost var (d0, c0) := (d, Cur());
      d := SkipSpaces(d);
      SkipSpaceDispatch(inp, d0, c0, line, col);
      if inp.cfg.lineComment && d == Some(';') {
        SkipLineComment(d);
        r := Tokenize();
      } else if inp.cfg.blockComment && d == Some('#') && Lookahead(inp, Cur()) == Some('|') {
        var _ := Read();
        var d2 := Read();
        var ok := SkipBlockComment(d2);
        if !ok {
          return Err(EOFError(line, col));
        }
        r := Tokenize();
      } else {
        r := ReadToken(d);
      }
    }

    /** `_next_token(streamer)` */
    method NextToken() returns (r: Result<Option<Token>>)
      requires Valid()
      modifies this
      ensures Valid() && Pack(r, State()) == Lexer.NextToken(inp, old(State()))
    {
      if look.Undef? {
        var t := Tokenize();
        if t.Err? {
          return Err(t.error);
        }
        look := Ready(t.value);
      }
      var tok := look.tok;
      col := lookCol;
      line := lookLine;
      if tok.Some? {
        var t := Tokenize();
        if t.Err? {
          return Err(t.error);
        }
        look := Ready(t.value);
      }
      r := Ok(tok);
    }
  }
}
