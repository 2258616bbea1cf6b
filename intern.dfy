/** Interning of Symbols and Chars: the class-level tables that make `Symbol(t)` and `Char(t)` return
    one object per text or per character, and the rules that turn a Char argument into a character. */
module Intern {
  import opened Base
  import opened Text
  import opened Classify
  import opened Sexpr

  /** `__NameToCharDic`: the names a Char may be given by, keyed in capitalized form. */
  const NameToChar: map<string, char> := map[
    "Backspace" := 8 as char, "Escape" := 27 as char, "Linefeed" := '\n', "Newline" := '\n',
    "Page" := 12 as char, "Return" := '\r', "Rubout" := 31 as char, "Space" := ' ', "Tab" := '\t']

  /** `__CharToNameDic`: the name a Char prints with. */
  const CharToName: map<char, string> := map[
    8 as char := "Backspace", '\t' := "Tab", '\n' := "Linefeed", 12 as char := "Page",
    '\r' := "Return", 27 as char := "Escape", 31 as char := "Rubout", ' ' := "Space"]

  /** Every printed name reads back as the character it names. */
  lemma NamesReadBack(c: char)
    requires c in CharToName
    ensures CharToName[c] in NameToChar && NameToChar[CharToName[c]] == c
  {
  }

  predicate StartsWithMarker(s: string) { |s| >= 2 && s[0] == '#' && s[1] == '\\' }

  /** `s.replace("#\\", "")`: every occurrence of the two characters `#\` removed, left to right. */
  function RemoveMarkers(s: string): (r: string)
    ensures |r| <= |s|
  {
    if |s| == 0 then []
    else if StartsWithMarker(s) then RemoveMarkers(s[2..])
    else [s[0]] + RemoveMarkers(s[1..])
  }

  /** The text a Char name is looked up by: with every `#\` removed when it starts with one. */
  function CharWord(s: string): (w: string)
    ensures |w| <= |s|
  {
    if StartsWithMarker(s) then RemoveMarkers(s) else s
  }

  /** `Char.IsChar`: a `#\x`/`#\u` code within Unicode, or after removing every `#\` a single character
      or one of the names in any letter case. */
  predicate IsChar(s: string)
  {
    if IsCharHex(s) then DigitsValue(s[3..], 16) <= 0x10FFFF
    else
      var w := CharWord(s);
      |w| == 1 || Capitalize(w) in NameToChar
  }

  predicate IsSurrogate(x: int) { 0xD800 <= x < 0xE000 }

  /** The character with code `x`: beyond Unicode is a ValueError; a surrogate code, which Python
      keeps in a str, is a character this model cannot hold. */
  function CodeChar(x: nat): (r: Result<char>)
    ensures r.Ok? <==> x <= 0x10FFFF && !IsSurrogate(x)
    ensures r.Err? ==> (r.error == ValueError <==> x > 0x10FFFF)
    ensures r.Ok? ==> r.value as int == x
  {
    if x > 0x10FFFF then Err(ValueError)
    else if IsSurrogate(x) then Err(Unrepresentable)
    else Ok(x as char)
  }

  /** The character a name in any letter case, or a single character, stands for. */
  function WordChar(w: string): (r: Result<char>)
    ensures r.Ok? <==> |w| == 1 || Capitalize(w) in NameToChar
    ensures r.Err? ==> r.error == ValueError
  {
    if Capitalize(w) in NameToChar then Ok(NameToChar[Capitalize(w)])
    else if |w| == 1 then Ok(w[0])
    else Err(ValueError)
  }

  /** The character `Char(s)` stands for: ValueError exactly when `IsChar` rejects the text. */
  function ResolveChar(s: string): (r: Result<char>)
    ensures r.Err? ==> r.error == ValueError || r.error == Unrepresentable
    ensures r == Err(ValueError) <==> !IsChar(s)
  {
    if IsCharHex(s) then CodeChar(DigitsValue(s[3..], 16)) else WordChar(CharWord(s))
  }

  lemma HexForm(h: string)
    requires |h| >= 1 && All(h, IsHexDigit)
    ensures IsCharHex("#\\x" + h) && ("#\\x" + h)[3..] == h
  {
    var s := "#\\x" + h;
    assert s[3..] == h;
    assert s[0] == '#' && s[1] == '\\' && Lower(s[2]) == 'x';
  }

  /** `#\x` followed by hex digits of a character's code gives that character. */
  lemma HexCodeChar(h: string, c: char)
    requires |h| >= 1 && All(h, IsHexDigit) && DigitsValue(h, 16) == c as int
    ensures ResolveChar("#\\x" + h) == Ok(c)
  {
    HexForm(h);
    assert CodeChar(c as int) == Ok(c);
  }

  /** The key `Symbol(v)` is interned under: lower-cased when the reader ignores case. */
  function SymbolKey(v: string, ignoreCase: bool): (k: string)
    ensures |k| == |v|
  {
    if ignoreCase then LowerString(v) else v
  }

  // ------------------------------------------------------------------ properties of the char rules

  lemma {:induction false} RemoveMarkersKeeps(s: string)
    requires forall i :: 0 <= i < |s| ==> s[i] != '#'
    ensures RemoveMarkers(s) == s
  {
    if |s| > 0 {
      RemoveMarkersKeeps(s[1..]);
    }
  }

  /** A character written after `#\` denotes itself, exactly as the bare character does: so
      `Char("#\\a")` and `Char("a")` resolve to the same key. */
  lemma SingleCharForms(c: char)
    ensures ResolveChar("#\\" + [c]) == Ok(c)
    ensures ResolveChar([c]) == Ok(c)
  {
    var s := "#\\" + [c];
    assert !IsCharHex(s);
    assert RemoveMarkers(s) == RemoveMarkers([c]);
    assert |Capitalize([c])| == 1;
    assert forall k | k in NameToChar :: |k| > 1;
  }

  lemma {:induction false} CapitalizeKeepsSharp(w: string, i: nat)
    requires i < |w| && w[i] == '#'
    ensures Capitalize(w)[i] == '#'
  {
    if i > 0 {
      assert Capitalize(w)[i] == LowerString(w[1..])[i - 1];
    }
  }

  /** What every name in the table looks like: at least three letters, none of them `#`, and not
      starting with the letters that introduce a hex code. */
  lemma NameShape(k: string)
    requires k in NameToChar
    ensures '#' !in k && |k| >= 3 && Lower(k[0]) != 'u' && Lower(k[0]) != 'x'
  {
  }

  lemma NoSharpInName(w: string)
    requires Capitalize(w) in NameToChar
    ensures forall i :: 0 <= i < |w| ==> w[i] != '#'
  {
    NameShape(Capitalize(w));
    forall i | 0 <= i < |w|
      ensures w[i] != '#'
    {
      if w[i] == '#' {
        CapitalizeKeepsSharp(w, i);
      }
    }
  }

  /** A name after `#\` may be written in any letter case: `#\SPACE`, `#\space` and `Space` all give
      the space character. */
  lemma NamedChar(w: string)
    requires Capitalize(w) in NameToChar
    ensures ResolveChar("#\\" + w) == Ok(NameToChar[Capitalize(w)])
    ensures ResolveChar(w) == Ok(NameToChar[Capitalize(w)])
  {
    NameShape(Capitalize(w));
    NoSharpInName(w);
    RemoveMarkersKeeps(w);
    var s := "#\\" + w;
    assert s[2..] == w;
    assert Capitalize(w)[0] == Upper(w[0]);
    assert !IsCharHex(s);
    assert RemoveMarkers(s) == w;
    assert w[0] != '#';
  }

  /** The name `Space` is already in capitalized form. */
  lemma SpaceName()
    ensures Capitalize("Space") == "Space"
  {
    assert LowerString("") == "";
    assert LowerString("e") == "e";
    assert LowerString("ce") == "ce";
    assert LowerString("ace") == "ace";
    assert LowerString("pace") == "pace";
    assert "Space"[1..] == "pace";
  }

  // ------------------------------------------------------------------ the intern tables

  /** The two class-level intern tables; each object is stored under its own value. */
  class Registry {
    var symbols: map<string, Symbol>
    var chars: map<char, Char>

    ghost predicate Valid()
      reads this
    {
      && (forall k | k in symbols :: symbols[k].value == k)
      && (forall k | k in chars :: chars[k].value == k)
    }

    constructor ()
      ensures Valid() && symbols == map[] && chars == map[]
    {
      symbols := map[];
      chars := map[];
    }

    /** `Symbol(v)`: ValueError for an empty text, otherwise the one Symbol with this key. */
    method MakeSymbol(v: string, ignoreCase: bool) returns (r: Result<Symbol>)
      requires Valid()
      modifies this
      ensures Valid() && chars == old(chars)
      ensures var k := SymbolKey(v, ignoreCase);
        && (r.Err? <==> k == []) && (r.Err? ==> r.error == ValueError && symbols == old(symbols))
        && (r.Ok? ==> r.value.value == k && symbols == old(symbols)[k := r.value])
        && (r.Ok? && k in old(symbols) ==> r.value == old(symbols)[k])
        && (r.Ok? && k !in old(symbols) ==> fresh(r.value))
    {
      var k := SymbolKey(v, ignoreCase);
      if k == [] {
        return Err(ValueError);
      }
      if k in symbols {
        r := Ok(symbols[k]);
      } else {
        var o := new Symbol(k);
        symbols := symbols[k := o];
        r := Ok(o);
      }
    }

    /** `Char(s)` for a text argument: the one Char holding the character the text resolves to. */
    method MakeChar(s: string) returns (r: Result<Char>)
      requires Valid()
      modifies this
      ensures Valid() && symbols == old(symbols)
      ensures var c := ResolveChar(s);
        && (r.Err? <==> c.Err?) && (r.Err? ==> r.error == c.error && chars == old(chars))
        && (r.Ok? ==> r.value.value == c.value && chars == old(chars)[c.value := r.value])
        && (r.Ok? && c.value in old(chars) ==> r.value == old(chars)[c.value])
        && (r.Ok? && c.value !in old(chars) ==> fresh(r.value))
    {
      var c := ResolveChar(s);
      if c.Err? {
        return Err(c.error);
      }
      if c.value in chars {
        r := Ok(chars[c.value]);
      } else {
        var o := new Char(c.value);
        chars := chars[c.value := o];
        r := Ok(o);
      }
    }

    /** Asking twice for the same non-empty symbol text gives the identical object. */
    method SymbolTwice(v: string, ignoreCase: bool) returns (r1: Result<Symbol>, r2: Result<Symbol>)
      requires Valid() && v != []
      modifies this
      ensures Valid()
      ensures r1.Ok? && r2.Ok? && r1.value == r2.value
    {
      r1 := MakeSymbol(v, ignoreCase);
      r2 := MakeSymbol(v, ignoreCase);
    }

    /** `Char("#\\Space")` is the very object `Char(" ")` returns. */
    method SpaceIsOneChar() returns (r1: Result<Char>, r2: Result<Char>)
      requires Valid()
      modifies this
      ensures Valid()
      ensures r1.Ok? && r2.Ok? && r1.value == r2.value && r1.value.value == ' '
    {
      SpaceName();
      NamedChar("Space");
      assert "#\\" + "Space" == "#\\Space";
      SingleCharForms(' ');
      r1 := MakeChar("#\\Space");
      r2 := MakeChar(" ");
    }
  }
}
