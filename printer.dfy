/** The compact printer: `str()` of every S-expression object, with `Cons.__Sxpr2Str` and
    `Cons.__Cons2SeqStr` cutting cycles through cons cells with `...`. */
module Printer {
  import opened Base
  import opened Text
  import opened Numbers
  import opened RatComplex
  import opened Classify
  import opened Sexpr
  import opened Intern
  import opened ConsList

  // ------------------------------------------------------------------ JSON string escaping

  /** How `json.dumps(..., ensure_ascii=False)` writes one character inside a string literal. */
  function JsonChar(c: char): (r: string)
    ensures |r| >= 1
    ensures r[0] == '\\' <==> c == '"' || c == '\\' || (c as int) < 0x20
    ensures |r| == 1 ==> r == [c]
  {
    if c == '"' then "\\\""
    else if c == '\\' then "\\\\"
    else if c == '\n' then "\\n"
    else if c == '\r' then "\\r"
    else if c == '\t' then "\\t"
    else if c as int == 8 then "\\b"
    else if c as int == 12 then "\\f"
    else if (c as int) < 0x20 then "\\u" + Hex(c as int, 4)
    else [c]
  }

  function JsonBody(s: string): string
  {
    if s == [] then [] else JsonChar(s[0]) + JsonBody(s[1..])
  }

  /** `json.dumps(s, ensure_ascii=False)` for a str. */
  function JsonString(s: string): string { "\"" + JsonBody(s) + "\"" }

  /** `t.replace("\\\\", "\\")`: every pair of backslashes, taken left to right, becomes one. */
  function CollapseBackslashes(t: string): (r: string)
    ensures |r| <= |t|
  {
    if |t| >= 2 && t[0] == '\\' && t[1] == '\\' then "\\" + CollapseBackslashes(t[2..])
    else if t == [] then []
    else [t[0]] + CollapseBackslashes(t[1..])
  }

  /** `String.__str__`: the JSON literal; with escapes disabled a doubled backslash is written once. */
  function StringText(s: string, escape: bool): string
  {
    var j := JsonString(s);
    if escape then j else CollapseBackslashes(j)
  }

  /** The JSON escape of a character with its backslash undoubled, as the escape-free form writes it. */
  function RawChar(c: char): string { if c == '\\' then "\\" else JsonChar(c) }

  function RawBody(s: string): string
  {
    if s == [] then [] else RawChar(s[0]) + RawBody(s[1..])
  }

  predicate NoBackslash(s: string) { forall i :: 0 <= i < |s| ==> s[i] != '\\' }

  lemma {:induction false} CollapsePlain(p: string, rest: string)
    requires NoBackslash(p)
    ensures CollapseBackslashes(p + rest) == p + CollapseBackslashes(rest)
  {
    if p != [] {
      var t := p + rest;
      assert t[0] == p[0] && t[0] != '\\' && t[1..] == p[1..] + rest;
      CollapsePlain(p[1..], rest);
      calc {
        CollapseBackslashes(t);
        [t[0]] + CollapseBackslashes(t[1..]);
        [p[0]] + (p[1..] + CollapseBackslashes(rest));
        { assert p == [p[0]] + p[1..]; }
        p + CollapseBackslashes(rest);
      }
    } else {
      assert p + rest == rest;
    }
  }

  /** A JSON escape is a doubled backslash, a backslash followed by characters that are not
      backslashes, or the character itself. */
  lemma JsonCharShape(c: char)
    ensures c == '\\' ==> JsonChar(c) == "\\\\"
    ensures c != '\\' ==> JsonChar(c) == [c] || (|JsonChar(c)| >= 2 && JsonChar(c)[0] == '\\' && NoBackslash(JsonChar(c)[1..]))
  {
    if c == '\\' || (c as int) >= 0x20 {
    } else if c == '\n' || c == '\r' || c == '\t' || c as int == 8 || c as int == 12 {
      assert |JsonChar(c)| == 2 && JsonChar(c)[1] != '\\';
    } else {
      HexEscapeShape(Hex(c as int, 4));
    }
  }

  lemma HexEscapeShape(h: string)
    requires All(h, IsHexDigit)
    ensures var e := "\\u" + h; |e| >= 2 && e[0] == '\\' && NoBackslash(e[1..])
  {
    var e := "\\u" + h;
    assert e[1..] == "u" + h;
  }

  lemma CollapsePair(rest: string)
    ensures CollapseBackslashes("\\\\" + rest) == "\\" + CollapseBackslashes(rest)
  {
    var t := "\\\\" + rest;
    assert t[0] == '\\' && t[1] == '\\' && t[2..] == rest;
  }

  lemma CollapseEscape(j: string, rest: string)
    requires |j| >= 2 && j[0] == '\\' && NoBackslash(j[1..])
    ensures CollapseBackslashes(j + rest) == j + CollapseBackslashes(rest)
  {
    var t := j + rest;
    assert t[0] == '\\' && t[1] == j[1] && t[1..] == j[1..] + rest;
    CollapsePlain(j[1..], rest);
    assert j == [j[0]] + j[1..];
  }

  lemma CollapseChar(c: char, rest: string)
    ensures CollapseBackslashes(JsonChar(c) + rest) == RawChar(c) + CollapseBackslashes(rest)
  {
    JsonCharShape(c);
    var j := JsonChar(c);
    if c == '\\' {
      CollapsePair(rest);
    } else if j == [c] {
      CollapsePlain(j, rest);
    } else {
      CollapseEscape(j, rest);
    }
  }

  lemma Associative(x: string, y: string, z: string)
    ensures (x + y) + z == x + (y + z)
  {
  }

  lemma BodyUnfold(s: string, rest: string)
    ensures s == [] ==> JsonBody(s) + rest == rest && RawBody(s) == []
    ensures s != [] ==> JsonBody(s) + rest == JsonChar(s[0]) + (JsonBody(s[1..]) + rest)
    ensures s != [] ==> RawBody(s) == RawChar(s[0]) + RawBody(s[1..])
  {
    if s != [] {
      Associative(JsonChar(s[0]), JsonBody(s[1..]), rest);
    } else {
      assert JsonBody(s) + rest == rest;
    }
  }

  lemma {:induction false} CollapseBody(s: string, rest: string)
    ensures CollapseBackslashes(JsonBody(s) + rest) == RawBody(s) + CollapseBackslashes(rest)
  {
    if s != [] {
      var a := JsonBody(s[1..]) + rest;
      var b := RawBody(s[1..]);
      BodyUnfold(s, rest);
      CollapseChar(s[0], a);
      CollapseBody(s[1..], rest);
      Associative(RawChar(s[0]), b, CollapseBackslashes(rest));
    } else {
      BodyUnfold(s, rest);
    }
  }

  /** With escapes disabled a string prints as JSON with only its backslashes left unescaped: the
      replacement never joins the backslash of one escape to the next. */
  lemma UnescapedStringText(s: string)
    ensures StringText(s, false) == "\"" + RawBody(s) + "\""
  {
    CollapseBody(s, "\"");
    assert JsonString(s) == "\"" + (JsonBody(s) + "\"");
    assert CollapseBackslashes("\"") == "\"";
  }

  // ------------------------------------------------------------------ Char

  /** `Char.__str__`: a control or Latin-1 character by name or as `#\xHH`; any other character after
      `#\`, through its JSON escape with doubled backslashes collapsed. */
  function CharText(c: char): string
  {
    if IsLowChar(c) then "#\\" + LowCharName(c) else EscapedCharText(c)
  }

  /** The control characters, space, DEL and the Latin-1 range, which print by name or code. */
  predicate IsLowChar(c: char) { c as int <= 32 || 127 <= c as int <= 255 }

  function LowCharName(c: char): string
  {
    if c in CharToName then CharToName[c] else "x" + Hex(c as int, 2)
  }

  /** Any other character: its JSON escape after `#\`, or `#\U` and eight hex digits when that is long. */
  function EscapedCharText(c: char): string
  {
    var v := JsonString([c]);
    var w := CollapseBackslashes("#\\" + v[1..|v| - 1]);
    if |w| >= 12 then "#\\U" + Hex(c as int, 8) else w
  }

  /** Outside the named and `#\xHH` range a Char prints as `#\` followed by the character itself. */
  lemma PlainCharText(c: char)
    requires !IsLowChar(c)
    ensures CharText(c) == "#\\" + [c]
  {
    var v := JsonString([c]);
    assert JsonBody([c]) == JsonChar(c) + JsonBody([]);
    assert v[1..|v| - 1] == JsonChar(c);
    var w := "#\\" + JsonChar(c);
    assert w == "#" + ("\\" + JsonChar(c));
    CollapsePlain("#", "\\" + JsonChar(c));
    var t := "\\" + JsonChar(c);
    if c == '\\' {
      assert t == "\\\\" + "\\";
      assert t[2..] == "\\";
    } else if c == '"' {
      assert t == "\\\\" + "\"";
      assert t[2..] == "\"";
    } else {
      assert t[0] == '\\' && t[1] == c && t[1..] == [c];
    }
  }

  /** A word of one capital letter followed by small letters is its own capitalized form. */
  lemma CapitalizedWord(k: string)
    requires |k| >= 1 && 'A' <= k[0] <= 'Z' && forall i :: 1 <= i < |k| ==> 'a' <= k[i] <= 'z'
    ensures Capitalize(k) == k
  {
    assert LowerString(k[1..]) == k[1..];
    assert k == [k[0]] + k[1..];
  }

  lemma NameCapitalized(c: char)
    requires c in CharToName
    ensures Capitalize(CharToName[c]) == CharToName[c]
  {
    var k := CharToName[c];
    assert k in {"Backspace", "Tab", "Linefeed", "Page", "Return", "Escape", "Rubout", "Space"};
    CapitalizedWord(k);
  }

  lemma NamedCharReadsBack(c: char)
    requires IsLowChar(c) && c in CharToName
    ensures ResolveChar(CharText(c)) == Ok(c)
  {
    var w := CharToName[c];
    NameCapitalized(c);
    NamesReadBack(c);
    NamedChar(w);
    assert ResolveChar("#\\" + w) == Ok(NameToChar[w]);
  }

  lemma HexCharReadsBack(c: char)
    requires IsLowChar(c) && c !in CharToName
    ensures ResolveChar(CharText(c)) == Ok(c)
  {
    var h := Hex(c as int, 2);
    assert LowCharName(c) == "x" + h;
    assert "#\\" + ("x" + h) == "#\\x" + h;
    HexCodeChar(h, c);
  }

  /** Reading back what a Char prints gives the same character, so `Char(str(ch)) is ch`. */
  lemma CharTextReadsBack(c: char)
    ensures ResolveChar(CharText(c)) == Ok(c)
  {
    if IsLowChar(c) {
      if c in CharToName {
        NamedCharReadsBack(c);
      } else {
        HexCharReadsBack(c);
      }
    } else {
      PlainCharText(c);
      SingleCharForms(c);
    }
  }

  // ------------------------------------------------------------------ Symbol

  /** The escapes `Symbol.__str__` applies to one character. */
  function SymbolChar(c: char): (r: string)
    ensures |r| >= 1
  {
    if c == '(' then "\\("
    else if c == ')' then "\\)"
    else if c == ' ' then "_"
    else if c == '|' then "\\|"
    else if c == '"' then "\\\""
    else if c as int == 7 then "\\a"
    else if c as int == 8 then "\\b"
    else if c as int == 12 then "\\f"
    else if c == '\n' then "\\n"
    else if c == '\r' then "\\r"
    else if c == '\t' then "\\t"
    else if c as int == 11 then "\\v"
    else [c]
  }

  function Translate(s: string): (r: string)
    ensures |r| >= |s|
  {
    if s == [] then [] else SymbolChar(s[0]) + Translate(s[1..])
  }

  /** The translated text would be read as a number under the given switches. */
  predicate LooksNumeric(s: string, cfg: Config)
  {
    || IsInteger(s)
    || (cfg.bin && IsBin(s)) || (cfg.oct && IsOct(s)) || (cfg.hex && IsHex(s))
    || (cfg.radix && IsRadix(s)) || (cfg.frac && IsFraction(s))
    || IsNumber(s)
  }

  /** `Symbol.__str__`. */
  function SymbolText(v: string, cfg: Config): (r: string)
  {
    if v == "." then "\\."
    else
      var s := Translate(v);
      if LooksNumeric(s, cfg) then "|" + s + "|" else s
  }

  /** Whatever its text, a printed Symbol never has the form of a number the reader would accept: a
      numeric-looking text is wrapped in bars, which no number pattern admits. */
  lemma SymbolTextNotNumeric(v: string, cfg: Config)
    ensures !LooksNumeric(SymbolText(v, cfg), cfg)
  {
    var r := SymbolText(v, cfg);
    if |r| >= 1 && (r[0] == '|' || r[0] == '\\') {
      NotNumericFirst(r, cfg);
    }
  }

  lemma NotNumericFirst(r: string, cfg: Config)
    requires |r| >= 1 && (r[0] == '|' || r[0] == '\\')
    ensures !LooksNumeric(r, cfg)
  {
    assert Unsigned(r) == r;
    var e := ExponentStart(r, 0);
    if e > 0 {
      assert r[..e][0] == r[0];
      var p := DotIndex(r[..e], 0);
      if p > 0 {
        assert r[..e][..p][0] == r[0];
      } else {
        assert r[..e][0] != '.';
      }
    }
    var k := SlashIndex(r, 0);
    if k > 0 {
      assert r[..k][0] == r[0];
    }
  }

  /** A symbol whose characters need no escape and which does not look like a number prints as its text. */
  lemma {:induction false} PlainTranslate(s: string)
    requires forall i :: 0 <= i < |s| ==> SymbolChar(s[i]) == [s[i]]
    ensures Translate(s) == s
  {
    if s != [] {
      PlainTranslate(s[1..]);
    }
  }

  // ------------------------------------------------------------------ atoms and arrays

  /** `str()` of an object that is neither a Cons nor an Array. */
  function AtomText(v: Value, cfg: Config): string
    requires !v.Pair? && !v.Arr?
  {
    match v
    case Nil => "()"
    case Sym(o) => SymbolText(o.value, cfg)
    case Chr(o) => CharText(o.value)
    case Str(o) => StringText(o.value, cfg.escape)
    case Number(n) => NumToString(n)
    case Cplx(c) => ToString(c, SharpC)
    case Nothing => "None"
  }

  /** What `Array.__str__` writes before the text of its list. */
  function ArrayPrefix(dim: int): string
  {
    if dim == 1 then "#" else "#" + IntToString(dim) + "A"
  }

  function Prefix(p: string, o: Option<string>): (r: Option<string>)
    ensures r.Some? <==> o.Some?
  {
    if o.Some? then Some(p + o.value) else None
  }

  function Joined(a: Option<string>, sep: string, b: Option<string>): (r: Option<string>)
    ensures r.Some? <==> a.Some? && b.Some?
  {
    if a.Some? && b.Some? then Some(a.value + sep + b.value) else None
  }

  predicate IsSymbolNamed(v: Value, name: string) { v.Sym? && v.sym.value == name }

  /** `(quote x)` with the quote abbreviation on. */
  predicate IsQuoteForm(c: Cons, cfg: Config)
    reads c, if c.cdr.Pair? then {c.cdr.cell} else {}
  {
    cfg.quote && IsSymbolNamed(c.car, "quote") && c.cdr.Pair? && c.cdr.cell.cdr.Nil?
  }

  /** `(function s)` for a symbol s, with the function-reference abbreviation on. */
  predicate IsFunctionForm(c: Cons, cfg: Config)
    reads c, if c.cdr.Pair? then {c.cdr.cell} else {}
  {
    cfg.funcRef && IsSymbolNamed(c.car, "function") && c.cdr.Pair? && c.cdr.cell.cdr.Nil? && c.cdr.cell.car.Sym?
  }

  // ------------------------------------------------------------------ the compact text

  /** The text `str(v)` produces, or None where Python recurses without end.

      `visited` is every cell the enclosing list loops have already passed (the union of the sets on
      the `occurence` stack, which is all `_inany` consults). Two things can make the recursion endless,
      and each is detected exactly: a chain of quote forms that comes back to a quote form already being
      printed with the same `visited` (`qseen`), and an Array met again while its own text is being
      printed, since `Array.__str__` starts afresh with an empty stack (`apath`). */
  function Show(v: Value, visited: set<Cons>, qseen: set<Cons>, apath: set<Array>, cfg: Config,
                ghost cells: set<Cons>, ghost arrays: set<Array>): (r: Option<string>)
    requires Closed(cells, arrays) && Inside(v, cells, arrays)
    requires visited <= cells && qseen <= cells && apath <= arrays
    reads cells, arrays
    ensures r.Some? && v.Pair? && !IsQuoteForm(v.cell, cfg) && !IsFunctionForm(v.cell, cfg) ==>
              |r.value| >= 2 && r.value[0] == '(' && r.value[|r.value| - 1] == ')'
    decreases arrays - apath, 1, cells - visited, 1, cells - qseen, cells
  {
    match v
    case Pair(c) =>
      if IsQuoteForm(c, cfg) then
        if c in qseen then None
        else Prefix("'", Show(c.cdr.cell.car, visited, qseen + {c}, apath, cfg, cells, arrays))
      else if IsFunctionForm(c, cfg) then
        Some("#'" + SymbolText(c.cdr.cell.car.sym.value, cfg))
      else
        var body := ShowFrom(v, visited, {}, apath, cfg, cells, arrays);
        if body.Some? then Some("(" + body.value + ")") else None
    case Arr(a) => if a in apath then None else ShowArray(a, apath, cfg, cells, arrays)
    case _ => Some(AtomText(v, cfg))
  }

  /** `Array.__str__`: the prefix, then the text of the element list on a fresh occurrence stack. */
  function ShowArray(a: Array, apath: set<Array>, cfg: Config, ghost cells: set<Cons>, ghost arrays: set<Array>)
    : (r: Option<string>)
    requires Closed(cells, arrays) && a in arrays && a !in apath && apath <= arrays
    reads cells, arrays
    decreases arrays - apath - {a}, 2, cells, 0, cells, cells
  {
    Prefix(ArrayPrefix(a.dim), Show(a.value, {}, {}, apath + {a}, cfg, cells, arrays))
  }

  /** The text `__Cons2SeqStr` appends from the loop position `v` on, `local` being the cells of this
      list already passed. */
  function ShowFrom(v: Value, visited: set<Cons>, local: set<Cons>, apath: set<Array>, cfg: Config,
                    ghost cells: set<Cons>, ghost arrays: set<Array>): (r: Option<string>)
    requires Closed(cells, arrays) && Inside(v, cells, arrays)
    requires visited <= cells && local <= cells && apath <= arrays
    reads cells, arrays
    decreases arrays - apath, 1, cells - visited, 0, cells, cells - local
  {
    match v
    case Pair(c) =>
      if c in visited || c in local then Some("...")
      else
        var first := Show(c.car, visited + local + {c}, {}, apath, cfg, cells, arrays);
        if c.cdr.Nil? then first
        else Joined(first, " ", ShowFrom(c.cdr, visited, local + {c}, apath, cfg, cells, arrays))
    case Arr(a) => if a in apath then None else Prefix(". ", ShowArray(a, apath, cfg, cells, arrays))
    case _ => Some(". " + AtomText(v, cfg))
  }

  /** `str(v)` of an object: a fresh occurrence stack and no enclosing array. */
  function Str(v: Value, cfg: Config, ghost cells: set<Cons>, ghost arrays: set<Array>): Option<string>
    requires Closed(cells, arrays) && Inside(v, cells, arrays)
    reads cells, arrays
  {
    Show(v, {}, {}, {}, cfg, cells, arrays)
  }

  // ------------------------------------------------------------------ the printing methods

  /** `Cons.__Sxpr2Str(ex, occurence)`, the occurrence stack given by the union of its sets. */
  method Sxpr2Str(ex: Value, visited: set<Cons>, cfg: Config, ghost qseen: set<Cons>, ghost apath: set<Array>,
                  ghost cells: set<Cons>, ghost arrays: set<Array>) returns (s: string)
    requires Closed(cells, arrays) && Inside(ex, cells, arrays)
    requires visited <= cells && qseen <= cells && apath <= arrays
    requires Show(ex, visited, qseen, apath, cfg, cells, arrays).Some?
    ensures s == Show(ex, visited, qseen, apath, cfg, cells, arrays).value
    decreases arrays - apath, 1, cells - visited, 1, cells - qseen, cells
  {
    match ex
    case Pair(c) =>
      if IsQuoteForm(c, cfg) {
        var inner := Sxpr2Str(c.cdr.cell.car, visited, cfg, qseen + {c}, apath, cells, arrays);
        return "'" + inner;
      }
      if IsFunctionForm(c, cfg) {
        return "#'" + SymbolText(c.cdr.cell.car.sym.value, cfg);
      }
      var body := Cons2SeqStr(c, visited, cfg, apath, cells, arrays);
      return "(" + body + ")";
    case Arr(a) =>
      s := ArrayStr(a, cfg, apath, cells, arrays);
    case _ =>
      s := AtomText(ex, cfg);
  }

  /** `Array.__str__`. */
  method ArrayStr(a: Array, cfg: Config, ghost apath: set<Array>, ghost cells: set<Cons>, ghost arrays: set<Array>)
    returns (s: string)
    requires Closed(cells, arrays) && a in arrays && a !in apath && apath <= arrays
    requires ShowArray(a, apath, cfg, cells, arrays).Some?
    ensures s == ShowArray(a, apath, cfg, cells, arrays).value
    decreases arrays - apath - {a}, 2, cells, 0, cells, cells
  {
    var inner := Sxpr2Str(a.value, {}, cfg, {}, apath + {a}, cells, arrays);
    s := ArrayPrefix(a.dim) + inner;
  }

  /** The state of the `__Cons2SeqStr` loop: `s` followed by the text still due from `cur` is the whole text. */
  ghost predicate Printing(s: string, cur: Value, visited: set<Cons>, local: set<Cons>, apath: set<Array>,
                           cfg: Config, cells: set<Cons>, arrays: set<Array>, whole: string)
    reads cells, arrays
  {
    && Closed(cells, arrays) && Inside(cur, cells, arrays)
    && visited <= cells && local <= cells && apath <= arrays && local !! visited
    && (!cur.Pair? ==> local != {})
    && ShowFrom(cur, visited, local, apath, cfg, cells, arrays).Some?
    && s + ShowFrom(cur, visited, local, apath, cfg, cells, arrays).value == whole
  }

  /** One turn of the loop over a cell not passed before: its car is printable, and either the list
      ends there or the loop goes on from the cdr with the cell passed. */
  lemma PrintingStep(s: string, cell: Cons, visited: set<Cons>, local: set<Cons>, apath: set<Array>,
                     cfg: Config, cells: set<Cons>, arrays: set<Array>, whole: string)
    requires Printing(s, Pair(cell), visited, local, apath, cfg, cells, arrays, whole)
    requires cell !in visited && cell !in local
    ensures var first := Show(cell.car, visited + (local + {cell}), {}, apath, cfg, cells, arrays);
      && first.Some?
      && cells - (visited + (local + {cell})) < cells - visited
      && (cell.cdr.Nil? ==> s + first.value == whole)
      && (!cell.cdr.Nil? ==>
            Printing(s + first.value + " ", cell.cdr, visited, local + {cell}, apath, cfg, cells, arrays, whole))
  {
    assert visited + (local + {cell}) == visited + local + {cell};
    assert cell in cells - visited && cell !in cells - (visited + (local + {cell}));
  }

  /** The loop stops at an atom tail, printed after `. `, or at a cell passed before, printed as `...`. */
  lemma PrintingStops(s: string, cur: Value, visited: set<Cons>, local: set<Cons>, apath: set<Array>,
                      cfg: Config, cells: set<Cons>, arrays: set<Array>, whole: string)
    requires Printing(s, cur, visited, local, apath, cfg, cells, arrays, whole)
    ensures !cur.Pair? ==> var tail := Show(cur, visited + local, {}, apath, cfg, cells, arrays);
      tail.Some? && s + ". " + tail.value == whole && cells - (visited + local) < cells - visited
    ensures cur.Pair? && (cur.cell in visited || cur.cell in local) ==> s + "..." == whole
  {
    if !cur.Pair? {
      var x :| x in local;
      assert x in cells - visited && x !in cells - (visited + local);
    }
  }

  /** The body of the `__Cons2SeqStr` loop for a cell not passed before: print its car with the cell
      passed, then a separating space unless the list ends here. */
  method PrintCell(s: string, cell: Cons, visited: set<Cons>, local: set<Cons>, cfg: Config, ghost apath: set<Array>,
                   ghost cells: set<Cons>, ghost arrays: set<Array>, ghost whole: string) returns (s': string)
    requires Printing(s, Pair(cell), visited, local, apath, cfg, cells, arrays, whole)
    requires cell !in visited && cell !in local
    ensures cell.cdr.Nil? ==> s' == whole
    ensures !cell.cdr.Nil? ==> Printing(s', cell.cdr, visited, local + {cell}, apath, cfg, cells, arrays, whole)
    decreases arrays - apath, 1, cells - visited, 0, cells, cells - {cell}
  {
    PrintingStep(s, cell, visited, local, apath, cfg, cells, arrays, whole);
    var first := Sxpr2Str(cell.car, visited + (local + {cell}), cfg, {}, apath, cells, arrays);
    s' := s + first;
    if !cell.cdr.Nil? {
      s' := s' + " ";
    }
  }

  /** `Cons.__Cons2SeqStr(c, occurence)`: walks the cdr chain, printing each car with the cells passed
      so far added to the stack, and stops at the end of the list, at an atom tail or at a cell met before. */
  method Cons2SeqStr(c: Cons, visited: set<Cons>, cfg: Config, ghost apath: set<Array>,
                     ghost cells: set<Cons>, ghost arrays: set<Array>) returns (s: string)
    requires Closed(cells, arrays) && c in cells && visited <= cells && apath <= arrays
    requires ShowFrom(Pair(c), visited, {}, apath, cfg, cells, arrays).Some?
    ensures s == ShowFrom(Pair(c), visited, {}, apath, cfg, cells, arrays).value
    decreases arrays - apath, 1, cells - visited, 0, cells, cells
  {
    ghost var whole := ShowFrom(Pair(c), visited, {}, apath, cfg, cells, arrays).value;
    var local: set<Cons> := {};
    var cur: Value := Pair(c);
    s := "";
    while true
      invariant Printing(s, cur, visited, local, apath, cfg, cells, arrays, whole)
      decreases cells - local
    {
      PrintingStops(s, cur, visited, local, apath, cfg, cells, arrays, whole);
      if !cur.Pair? {
        var tail := Sxpr2Str(cur, visited + local, cfg, {}, apath, cells, arrays);
        s := s + ". " + tail;
        return;
      }
      var cell := cur.cell;
      if cell in visited || cell in local {
        s := s + "...";
        return;
      }
      s := PrintCell(s, cell, visited, local, cfg, apath, cells, arrays, whole);
      local := local + {cell};
      cur := cell.cdr;
      if cur.Nil? {
        return;
      }
    }
  }

  /** `Cons.__str__`. */
  method ConsStr(c: Cons, cfg: Config, ghost cells: set<Cons>, ghost arrays: set<Array>) returns (s: string)
    requires Closed(cells, arrays) && c in cells
    requires Str(Pair(c), cfg, cells, arrays).Some?
    ensures s == Str(Pair(c), cfg, cells, arrays).value
  {
    s := Sxpr2Str(Pair(c), {}, cfg, {}, {}, cells, arrays);
  }

  // ------------------------------------------------------------------ properties of the compact text

  /** Every car of the cells `cs` is an atom. */
  ghost predicate AtomCars(cs: seq<Cons>)
    reads cs`car
  {
    forall i | 0 <= i < |cs| :: !cs[i].car.Pair? && !cs[i].car.Arr?
  }

  /** The texts of the cars of `cs`, one space between each two. */
  ghost function ItemsText(cs: seq<Cons>, cfg: Config): string
    requires AtomCars(cs)
    reads cs`car
  {
    if cs == [] then ""
    else if |cs| == 1 then AtomText(cs[0].car, cfg)
    else AtomText(cs[0].car, cfg) + " " + ItemsText(cs[1..], cfg)
  }

  /** What closes the text of a list before its `)`: nothing after NIL, otherwise a space and the
      tail's text. */
  function EndText(end: Value, cfg: Config): string
    requires !end.Arr?
  {
    if end.Nil? then "" else " " + TailText(end, cfg)
  }

  /** `...` where the list turns back on itself, `. x` for an atom tail `x`. */
  function TailText(end: Value, cfg: Config): string
    requires !end.Arr? && !end.Nil?
  {
    if end.Pair? then "..." else ". " + AtomText(end, cfg)
  }

  ghost function CellsBefore(cs: seq<Cons>, k: nat): set<Cons>
    requires k <= |cs|
  {
    set i | 0 <= i < k :: cs[i]
  }

  /** Cell `k` of a list of atoms, met with the cells before it passed: its car's text, then the rest. */
  lemma AtomCell(cs: seq<Cons>, k: nat, end: Value, visited: set<Cons>, apath: set<Array>,
                 cfg: Config, cells: set<Cons>, arrays: set<Array>)
    requires Closed(cells, arrays) && visited <= cells && apath <= arrays
    requires forall i | 0 <= i < |cs| :: cs[i] in cells && cs[i] !in visited
    requires k < |cs| && ListOf(Pair(cs[0]), cs, end) && AtomCars(cs)
    ensures var t := Some(AtomText(cs[k].car, cfg));
      && CellsBefore(cs, k + 1) == CellsBefore(cs, k) + {cs[k]}
      && ShowFrom(Pair(cs[k]), visited, CellsBefore(cs, k), apath, cfg, cells, arrays)
         == if cs[k].cdr.Nil? then t else Joined(t, " ", ShowFrom(cs[k].cdr, visited, CellsBefore(cs, k + 1), apath, cfg, cells, arrays))
  {
    var c := cs[k];
    assert c !in CellsBefore(cs, k);
    assert CellsBefore(cs, k + 1) == CellsBefore(cs, k) + {c};
    assert Show(c.car, visited + CellsBefore(cs, k) + {c}, {}, apath, cfg, cells, arrays) == Some(AtomText(c.car, cfg));
  }

  lemma ItemsStep(cs: seq<Cons>, k: nat, cfg: Config)
    requires k < |cs| && AtomCars(cs)
    ensures AtomCars(cs[k..]) && AtomCars(cs[k + 1..])
    ensures ItemsText(cs[k..], cfg)
         == if k + 1 == |cs| then AtomText(cs[k].car, cfg) else AtomText(cs[k].car, cfg) + " " + ItemsText(cs[k + 1..], cfg)
  {
    assert cs[k..][1..] == cs[k + 1..];
  }

  /** Where the last cell's cdr leads: NIL ends the text, a cell of the list prints `...`, an atom `. x`. */
  lemma ListEnd(cs: seq<Cons>, end: Value, visited: set<Cons>, apath: set<Array>,
                cfg: Config, cells: set<Cons>, arrays: set<Array>)
    requires Closed(cells, arrays) && visited <= cells && apath <= arrays
    requires forall i | 0 <= i < |cs| :: cs[i] in cells && cs[i] !in visited
    requires cs != [] && ListOf(Pair(cs[0]), cs, end) && Closes(end, cs) && !end.Arr? && !end.Nil?
    ensures ShowFrom(end, visited, CellsBefore(cs, |cs|), apath, cfg, cells, arrays) == Some(TailText(end, cfg))
  {
    if end.Pair? {
      var j :| 0 <= j < |cs| && cs[j] == end.cell;
      assert end.cell in CellsBefore(cs, |cs|);
    }
  }

  /** The loop of `__Cons2SeqStr` over a list of atoms, from its `k`-th cell on. */
  lemma {:induction false} AtomListFrom(cs: seq<Cons>, k: nat, end: Value, visited: set<Cons>, apath: set<Array>,
                                        cfg: Config, cells: set<Cons>, arrays: set<Array>)
    requires Closed(cells, arrays) && visited <= cells && apath <= arrays
    requires forall i | 0 <= i < |cs| :: cs[i] in cells && cs[i] !in visited
    requires k < |cs| && ListOf(Pair(cs[0]), cs, end) && Closes(end, cs) && !end.Arr? && AtomCars(cs)
    ensures AtomCars(cs[k..])
    ensures ShowFrom(Pair(cs[k]), visited, CellsBefore(cs, k), apath, cfg, cells, arrays)
         == Some(ItemsText(cs[k..], cfg) + EndText(end, cfg))
    decreases |cs| - k
  {
    AtomCell(cs, k, end, visited, apath, cfg, cells, arrays);
    ItemsStep(cs, k, cfg);
    var t := AtomText(cs[k].car, cfg);
    if k + 1 < |cs| {
      AtomListFrom(cs, k + 1, end, visited, apath, cfg, cells, arrays);
      Associative(t + " ", ItemsText(cs[k + 1..], cfg), EndText(end, cfg));
    } else if !end.Nil? {
      ListEnd(cs, end, visited, apath, cfg, cells, arrays);
      Associative(t, " ", TailText(end, cfg));
    } else {
      assert cs[k].cdr == end && t + "" == t;
    }
  }

  /** `str()` of a list of atoms whose head is neither a quote nor a function form: `(`, each element
      once with a space between, the end marker, `)`. */
  lemma AtomListText(cs: seq<Cons>, end: Value, visited: set<Cons>, qseen: set<Cons>, apath: set<Array>,
                     cfg: Config, cells: set<Cons>, arrays: set<Array>)
    requires Closed(cells, arrays) && visited <= cells && qseen <= cells && apath <= arrays
    requires forall i | 0 <= i < |cs| :: cs[i] in cells && cs[i] !in visited
    requires cs != [] && ListOf(Pair(cs[0]), cs, end) && Closes(end, cs) && !end.Arr? && AtomCars(cs)
    requires !IsQuoteForm(cs[0], cfg) && !IsFunctionForm(cs[0], cfg)
    ensures Show(Pair(cs[0]), visited, qseen, apath, cfg, cells, arrays)
         == Some("(" + ItemsText(cs, cfg) + EndText(end, cfg) + ")")
  {
    AtomListFrom(cs, 0, end, visited, apath, cfg, cells, arrays);
    assert CellsBefore(cs, 0) == {} && cs[0..] == cs;
    ListShow(cs[0], visited, qseen, apath, cfg, cells, arrays);
    Associative("(", ItemsText(cs, cfg), EndText(end, cfg));
  }

  lemma ListShow(c: Cons, visited: set<Cons>, qseen: set<Cons>, apath: set<Array>,
                 cfg: Config, cells: set<Cons>, arrays: set<Array>)
    requires Closed(cells, arrays) && c in cells && visited <= cells && qseen <= cells && apath <= arrays
    requires !IsQuoteForm(c, cfg) && !IsFunctionForm(c, cfg)
    ensures var body := ShowFrom(Pair(c), visited, {}, apath, cfg, cells, arrays);
      Show(Pair(c), visited, qseen, apath, cfg, cells, arrays) == if body.Some? then Some("(" + body.value + ")") else None
  {
  }

  /** `(quote x)` prints as `'x` when the abbreviation is on. */
  lemma QuotedAtomText(c: Cons, visited: set<Cons>, qseen: set<Cons>, apath: set<Array>,
                       cfg: Config, cells: set<Cons>, arrays: set<Array>)
    requires Closed(cells, arrays) && c in cells && visited <= cells && qseen <= cells && apath <= arrays
    requires IsQuoteForm(c, cfg) && c !in qseen
    requires !c.cdr.cell.car.Pair? && !c.cdr.cell.car.Arr?
    ensures Show(Pair(c), visited, qseen, apath, cfg, cells, arrays) == Some("'" + AtomText(c.cdr.cell.car, cfg))
  {
  }
}
