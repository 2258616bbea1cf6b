/** The indenting printer `sxpprint`: each nested list or array starts on a new line, indented two
    columns deeper than its parent. It writes into a string buffer rather than a file. */
module PrettyPrint {
  import opened Base
  import opened Sexpr
  import opened ConsList
  import opened Printer

  /** The text sink the printer writes to. */
  class Sink {
    var text: string

    constructor ()
      ensures text == ""
    {
      text := "";
    }

    method Write(s: string)
      modifies this
      ensures text == old(text) + s
    {
      text := text + s;
    }
  }

  function Spaces(n: nat): (r: string)
    ensures |r| == n && forall i | 0 <= i < n :: r[i] == ' '
  {
    if n == 0 then "" else Spaces(n - 1) + " "
  }

  /** What comes before the `(` of a list or array printed at indentation `n`: nothing at the top
      level, otherwise a line break and `n` spaces. */
  function Indent(n: nat): (r: string)
    ensures n == 0 <==> r == ""
    ensures n > 0 ==> r[0] == '\n' && r[1..] == Spaces(n)
  {
    if n > 0 then "\n" + Spaces(n) else ""
  }

  function Both(a: Option<string>, b: Option<string>): (r: Option<string>)
    ensures r.Some? <==> a.Some? && b.Some?
  {
    if a.Some? && b.Some? then Some(a.value + b.value) else None
  }

  /** The quote loop at the head of `__sxpprint_sub`: while the object is a quote form `(quote x)`
      (abbreviation on), one `'` is added and printing moves to `x`. The result is the accumulated
      prefix and the object the loop stops at; None when the chain of quote forms comes back to a
      form already peeled (`seen`), where the loop never ends. */
  function Peel(v: Value, seen: set<Cons>, cfg: Config, ghost cells: set<Cons>, ghost arrays: set<Array>)
    : (r: Option<(string, Value)>)
    requires Closed(cells, arrays) && Inside(v, cells, arrays) && seen <= cells
    reads cells, arrays
    ensures r.Some? ==> var (q, w) := r.value;
      && Inside(w, cells, arrays)
      && !(w.Pair? && IsQuoteForm(w.cell, cfg))
      && (forall i | 0 <= i < |q| :: q[i] == '\'')
      && (q == "" <==> w == v)
    decreases cells - seen
  {
    if v.Pair? && IsQuoteForm(v.cell, cfg) then
      if v.cell in seen then None
      else
        var inner := Peel(v.cell.cdr.cell.car, seen + {v.cell}, cfg, cells, arrays);
        if inner.Some? then Some(("'" + inner.value.0, inner.value.1)) else None
    else Some(("", v))
  }

  /** After the quote loop, a function form `(function s)` (abbreviation on) adds `#'` and leaves
      the symbol `s` to print. */
  function FunctionRef(q: string, w: Value, cfg: Config): (r: (string, Value))
    reads if w.Pair? then {w.cell} else {}, if w.Pair? && w.cell.cdr.Pair? then {w.cell.cdr.cell} else {}
    ensures r.1 != w ==> r.1.Sym? && r.0 == q + "#'"
    ensures r.1 == w ==> r.0 == q
  {
    if w.Pair? && IsFunctionForm(w.cell, cfg) then (q + "#'", w.cell.cdr.cell.car) else (q, w)
  }

  /** The text `__sxpprint_sub(v, n, occurence, out)` writes, or None where Python never returns.

      `visited` is the union of the sets on the `occurence` stack, which is all `_inany` consults.
      A list or an array starts with `Indent(n)`, the quote prefix and its opening bracket; any other
      object is written as a space, the prefix and its `str()`. */
  function Pretty(v: Value, n: nat, visited: set<Cons>, cfg: Config, ghost cells: set<Cons>, ghost arrays: set<Array>)
    : (r: Option<string>)
    requires Closed(cells, arrays) && Inside(v, cells, arrays) && visited <= cells
    reads cells, arrays
    ensures r.Some? && !v.Pair? && !v.Arr? ==> r.value == " " + AtomText(v, cfg)
    decreases cells - visited, 3
  {
    var p := Peel(v, {}, cfg, cells, arrays);
    if p.None? then None
    else
      var (q, w) := FunctionRef(p.value.0, p.value.1, cfg);
      Layout(q, w, n, visited, cfg, cells, arrays)
  }

  /** The object left after the quote loop and the function-form check, with its prefix `q`. */
  function Layout(q: string, w: Value, n: nat, visited: set<Cons>, cfg: Config,
                  ghost cells: set<Cons>, ghost arrays: set<Array>): (r: Option<string>)
    requires Closed(cells, arrays) && Inside(w, cells, arrays) && visited <= cells
    reads cells, arrays
    decreases cells - visited, 2
  {
    if w.Pair? then Prefix(Indent(n) + q + "(", Block(w, n, visited, cfg, cells, arrays))
    else if w.Arr? then Prefix(Indent(n) + q + ArrayPrefix(w.arr.dim) + "(", Block(w.arr.value, n, visited, cfg, cells, arrays))
    else Some(" " + q + AtomText(w, cfg))
  }

  /** What follows the opening bracket of a list or array whose element list is `h`. A first cell
      already on the stack prints `...)`. Otherwise the first element is printed by a nested call
      when it is a Cons and by its compact `str()` when it is not, and the rest follows. NIL, the
      element list of an empty array, has NIL as its car, printed `()`, and NIL as its cdr. */
  function Block(h: Value, n: nat, visited: set<Cons>, cfg: Config, ghost cells: set<Cons>, ghost arrays: set<Array>)
    : (r: Option<string>)
    requires Closed(cells, arrays) && IsList(h) && Inside(h, cells, arrays) && visited <= cells
    reads cells, arrays
    ensures r.Some? ==> |r.value| >= 1 && r.value[|r.value| - 1] == ')'
    decreases cells - visited, 1
  {
    if h.Nil? then Some("()" + ")")
    else if h.cell in visited then Some("...)")
    else
      Both(First(h.cell, n, visited, cfg, cells, arrays), Rest(h.cell.cdr, n, visited, {h.cell}, cfg, cells, arrays))
  }

  /** The first element of a list: a nested call with the first cell on the stack when it is a Cons,
      its compact `str()` otherwise. */
  function First(c: Cons, n: nat, visited: set<Cons>, cfg: Config, ghost cells: set<Cons>, ghost arrays: set<Array>)
    : (r: Option<string>)
    requires Closed(cells, arrays) && c in cells && visited <= cells
    reads cells, arrays
    decreases cells - (visited + {c}), 4
  {
    if c.car.Pair? then Pretty(c.car, n + 2, visited + {c}, cfg, cells, arrays) else Printer.Str(c.car, cfg, cells, arrays)
  }

  /** The loop over the cdr chain of a list whose cells `local` are passed. Each car is printed by a
      nested call first, and only then is its cell checked against the stack: a cell met before closes
      the list with ` ...)`. The list ends with `)` at NIL and with ` . ` and the `str()` of an atom
      or array tail. */
  function Rest(s: Value, n: nat, visited: set<Cons>, local: set<Cons>, cfg: Config,
                ghost cells: set<Cons>, ghost arrays: set<Array>): (r: Option<string>)
    requires Closed(cells, arrays) && Inside(s, cells, arrays)
    requires visited <= cells && local <= cells && local !! visited && local != {}
    reads cells, arrays
    ensures r.Some? ==> |r.value| >= 1 && r.value[|r.value| - 1] == ')'
    decreases cells - visited, 0, cells - local
  {
    match s
    case Pair(c) =>
      var item := Pretty(c.car, n + 2, visited + local, cfg, cells, arrays);
      if c in visited || c in local then Both(item, Some(" ...)"))
      else Both(item, Rest(c.cdr, n, visited, local + {c}, cfg, cells, arrays))
    case Nil => Some(")")
    case _ => Prefix(" . ", Both(Printer.Str(s, cfg, cells, arrays), Some(")")))
  }

  // ------------------------------------------------------------------ the printing methods

  /** The state of the quote loop: the prefix `quote` gathered so far, followed by what peeling
      the current object gives, is what peeling the whole object gives. */
  ghost predicate Peeling(v: Value, quote: string, s: Value, seen: set<Cons>, cfg: Config,
                          cells: set<Cons>, arrays: set<Array>)
    reads cells, arrays
  {
    && Closed(cells, arrays) && Inside(v, cells, arrays) && Inside(s, cells, arrays) && seen <= cells
    && var p := Peel(s, seen, cfg, cells, arrays);
       p.Some? && Peel(v, {}, cfg, cells, arrays) == Some((quote + p.value.0, p.value.1))
  }

  lemma PeelStart(v: Value, cfg: Config, cells: set<Cons>, arrays: set<Array>)
    requires Closed(cells, arrays) && Inside(v, cells, arrays) && Peel(v, {}, cfg, cells, arrays).Some?
    ensures Peeling(v, "", v, {}, cfg, cells, arrays)
  {
    var q := Peel(v, {}, cfg, cells, arrays).value.0;
    assert "" + q == q;
  }

  lemma PeelStep(v: Value, quote: string, s: Value, seen: set<Cons>, cfg: Config,
                 cells: set<Cons>, arrays: set<Array>)
    requires Peeling(v, quote, s, seen, cfg, cells, arrays) && s.Pair? && IsQuoteForm(s.cell, cfg)
    ensures s.cell in cells - seen
    ensures Peeling(v, quote + "'", s.cell.cdr.cell.car, seen + {s.cell}, cfg, cells, arrays)
  {
    var inner := Peel(s.cell.cdr.cell.car, seen + {s.cell}, cfg, cells, arrays).value;
    Associative(quote, "'", inner.0);
  }

  lemma PeelDone(v: Value, quote: string, s: Value, seen: set<Cons>, cfg: Config,
                 cells: set<Cons>, arrays: set<Array>)
    requires Peeling(v, quote, s, seen, cfg, cells, arrays) && !(s.Pair? && IsQuoteForm(s.cell, cfg))
    ensures Peel(v, {}, cfg, cells, arrays) == Some((quote, s))
  {
    assert quote + "" == quote;
  }

  /** The quote loop of `__sxpprint_sub`. */
  method PeelQuotes(v: Value, cfg: Config, ghost cells: set<Cons>, ghost arrays: set<Array>)
    returns (quote: string, s: Value)
    requires Closed(cells, arrays) && Inside(v, cells, arrays) && Peel(v, {}, cfg, cells, arrays).Some?
    ensures Peel(v, {}, cfg, cells, arrays) == Some((quote, s))
  {
    quote := "";
    s := v;
    ghost var seen: set<Cons> := {};
    PeelStart(v, cfg, cells, arrays);
    while s.Pair? && IsQuoteForm(s.cell, cfg)
      invariant Peeling(v, quote, s, seen, cfg, cells, arrays)
      decreases cells - seen
    {
      PeelStep(v, quote, s, seen, cfg, cells, arrays);
      quote := quote + "'";
      seen := seen + {s.cell};
      s := s.cell.cdr.cell.car;
    }
    PeelDone(v, quote, s, seen, cfg, cells, arrays);
  }

  /** `v` prints at indentation `n` with the cells `visited` on the stack. */
  ghost predicate Prints(v: Value, n: nat, visited: set<Cons>, cfg: Config, cells: set<Cons>, arrays: set<Array>)
    reads cells, arrays
  {
    Closed(cells, arrays) && Inside(v, cells, arrays) && visited <= cells && Pretty(v, n, visited, cfg, cells, arrays).Some?
  }

  ghost predicate LaysOut(q: string, w: Value, n: nat, visited: set<Cons>, cfg: Config, cells: set<Cons>, arrays: set<Array>)
    reads cells, arrays
  {
    Closed(cells, arrays) && Inside(w, cells, arrays) && visited <= cells && Layout(q, w, n, visited, cfg, cells, arrays).Some?
  }

  ghost predicate BlockPrints(h: Value, n: nat, visited: set<Cons>, cfg: Config, cells: set<Cons>, arrays: set<Array>)
    reads cells, arrays
  {
    Closed(cells, arrays) && IsList(h) && Inside(h, cells, arrays) && visited <= cells && Block(h, n, visited, cfg, cells, arrays).Some?
  }

  ghost predicate FirstPrints(c: Cons, n: nat, visited: set<Cons>, cfg: Config, cells: set<Cons>, arrays: set<Array>)
    reads cells, arrays
  {
    Closed(cells, arrays) && c in cells && visited <= cells && First(c, n, visited, cfg, cells, arrays).Some?
  }

  /** `str(v)` terminates. */
  ghost predicate HasStr(v: Value, cfg: Config, cells: set<Cons>, arrays: set<Array>)
    reads cells, arrays
  {
    Closed(cells, arrays) && Inside(v, cells, arrays) && Printer.Str(v, cfg, cells, arrays).Some?
  }

  /** Python's `str(v)`, which calls the object's `__str__`. */
  method StrOf(v: Value, cfg: Config, ghost cells: set<Cons>, ghost arrays: set<Array>) returns (t: string)
    requires HasStr(v, cfg, cells, arrays)
    ensures t == Printer.Str(v, cfg, cells, arrays).value
  {
    t := Sxpr2Str(v, {}, cfg, {}, {}, cells, arrays);
  }

  /** After the quote loop and the function-form check, `Pretty` is the layout of what is left. */
  lemma PrettyLayout(v: Value, n: nat, visited: set<Cons>, cfg: Config, cells: set<Cons>, arrays: set<Array>,
                     peeled: (string, Value), q: string, w: Value)
    requires Prints(v, n, visited, cfg, cells, arrays)
    requires Peel(v, {}, cfg, cells, arrays) == Some(peeled) && (q, w) == FunctionRef(peeled.0, peeled.1, cfg)
    ensures LaysOut(q, w, n, visited, cfg, cells, arrays)
    ensures Pretty(v, n, visited, cfg, cells, arrays) == Layout(q, w, n, visited, cfg, cells, arrays)
  {
  }

  /** `__sxpprint_sub(v, n, occurence, out)`, the stack given by the union of its sets. `text` is what
      the buffer holds before the call and `text'` what it holds after. */
  method PrettySub(v: Value, n: nat, visited: set<Cons>, cfg: Config, text: string,
                   ghost cells: set<Cons>, ghost arrays: set<Array>) returns (text': string)
    requires Prints(v, n, visited, cfg, cells, arrays)
    ensures text' == text + Pretty(v, n, visited, cfg, cells, arrays).value
    decreases cells - visited, 3
  {
    var quote, s := PeelQuotes(v, cfg, cells, arrays);
    var (q, w) := FunctionRef(quote, s, cfg);
    PrettyLayout(v, n, visited, cfg, cells, arrays, (quote, s), q, w);
    text' := WriteLayout(q, w, n, visited, cfg, text, cells, arrays);
  }

  /** The writes of `__sxpprint_sub` once the prefix is known: the opening of a list or an array
      followed by its contents, or a space, the prefix and the `str()` of any other object. */
  method WriteLayout(q: string, w: Value, n: nat, visited: set<Cons>, cfg: Config, text: string,
                     ghost cells: set<Cons>, ghost arrays: set<Array>) returns (text': string)
    requires LaysOut(q, w, n, visited, cfg, cells, arrays)
    ensures text' == text + Layout(q, w, n, visited, cfg, cells, arrays).value
    decreases cells - visited, 2
  {
    if w.Pair? {
      Associative(text, Indent(n) + q + "(", Block(w, n, visited, cfg, cells, arrays).value);
      text' := text + (Indent(n) + q + "(");
      text' := WriteBlock(w, n, visited, cfg, text', cells, arrays);
    } else if w.Arr? {
      Associative(text, Indent(n) + q + ArrayPrefix(w.arr.dim) + "(", Block(w.arr.value, n, visited, cfg, cells, arrays).value);
      text' := text + (Indent(n) + q + ArrayPrefix(w.arr.dim) + "(");
      text' := WriteBlock(w.arr.value, n, visited, cfg, text', cells, arrays);
    } else {
      text' := text + (" " + q + AtomText(w, cfg));
    }
  }

  /** The state of the loop over the cdr chain: the text written so far, followed by what `Rest`
      gives from the current position, is the whole text of the list. */
  ghost predicate Writing(text: string, cur: Value, n: nat, visited: set<Cons>, local: set<Cons>, cfg: Config,
                          cells: set<Cons>, arrays: set<Array>, whole: string)
    reads cells, arrays
  {
    && Closed(cells, arrays) && Inside(cur, cells, arrays)
    && visited <= cells && local <= cells && local !! visited && local != {}
    && Rest(cur, n, visited, local, cfg, cells, arrays).Some?
    && text + Rest(cur, n, visited, local, cfg, cells, arrays).value == whole
  }

  /** After the first element: the loop starts at the first cell's cdr with that cell passed. */
  lemma BlockStart(text: string, c: Cons, n: nat, visited: set<Cons>, cfg: Config,
                   cells: set<Cons>, arrays: set<Array>, whole: string)
    requires BlockPrints(Pair(c), n, visited, cfg, cells, arrays) && c !in visited
    requires whole == text + Block(Pair(c), n, visited, cfg, cells, arrays).value
    ensures cells - (visited + {c}) < cells - visited
    ensures FirstPrints(c, n, visited, cfg, cells, arrays)
    ensures Writing(text + First(c, n, visited, cfg, cells, arrays).value, c.cdr, n, visited, {c}, cfg, cells, arrays, whole)
  {
    var first := First(c, n, visited, cfg, cells, arrays);
    Associative(text, first.value, Rest(c.cdr, n, visited, {c}, cfg, cells, arrays).value);
    assert c in cells - visited && c !in cells - (visited + {c});
  }

  /** One turn of the loop: the car prints with the passed cells on the stack, and either the cell
      was met before and ` ...)` closes the text, or the loop goes on from its cdr. */
  lemma WritingStep(text: string, cell: Cons, n: nat, visited: set<Cons>, local: set<Cons>, cfg: Config,
                    cells: set<Cons>, arrays: set<Array>, whole: string)
    requires Writing(text, Pair(cell), n, visited, local, cfg, cells, arrays, whole)
    ensures Prints(cell.car, n + 2, visited + local, cfg, cells, arrays)
    ensures cells - (visited + local) < cells - visited
    ensures var item := Pretty(cell.car, n + 2, visited + local, cfg, cells, arrays).value;
      && (cell in visited || cell in local ==> text + item + " ...)" == whole)
      && (cell !in visited && cell !in local ==>
            Writing(text + item, cell.cdr, n, visited, local + {cell}, cfg, cells, arrays, whole))
  {
    var item := Pretty(cell.car, n + 2, visited + local, cfg, cells, arrays);
    var x :| x in local;
    assert x in cells - visited && x !in cells - (visited + local);
    if cell in visited || cell in local {
      Associative(text, item.value, " ...)");
    } else {
      Associative(text, item.value, Rest(cell.cdr, n, visited, local + {cell}, cfg, cells, arrays).value);
    }
  }

  /** The loop stops at NIL, which closes the text with `)`, or at another atom or an array, written
      after ` . ` and followed by `)`. */
  lemma WritingEnd(text: string, cur: Value, n: nat, visited: set<Cons>, local: set<Cons>, cfg: Config,
                   cells: set<Cons>, arrays: set<Array>, whole: string)
    requires Writing(text, cur, n, visited, local, cfg, cells, arrays, whole) && !cur.Pair?
    ensures cur.Nil? ==> text + ")" == whole
    ensures !cur.Nil? ==> HasStr(cur, cfg, cells, arrays)
    ensures !cur.Nil? ==> text + (" . " + Printer.Str(cur, cfg, cells, arrays).value + ")") == whole
  {
    if !cur.Nil? {
      var t := Printer.Str(cur, cfg, cells, arrays).value;
      assert " . " + (t + ")") == " . " + t + ")";
    }
  }

  /** The part of `__sxpprint_sub` after the opening bracket: the stack check on the first cell, the
      first element, then the rest of the list. */
  method WriteBlock(h: Value, n: nat, visited: set<Cons>, cfg: Config, text: string,
                    ghost cells: set<Cons>, ghost arrays: set<Array>) returns (text': string)
    requires BlockPrints(h, n, visited, cfg, cells, arrays)
    ensures text' == text + Block(h, n, visited, cfg, cells, arrays).value
    decreases cells - visited, 1
  {
    if h.Nil? {
      return text + ("()" + ")");
    }
    var c := h.cell;
    if c in visited {
      return text + "...)";
    }
    ghost var whole := text + Block(h, n, visited, cfg, cells, arrays).value;
    BlockStart(text, c, n, visited, cfg, cells, arrays, whole);
    text' := WriteFirst(c, n, visited, cfg, text, cells, arrays);
    text' := WriteRest(c.cdr, n, visited, {c}, cfg, text', cells, arrays, whole);
  }

  /** The first element of a list, printed by a nested call when it is a Cons and by `str()` when not. */
  method WriteFirst(c: Cons, n: nat, visited: set<Cons>, cfg: Config, text: string,
                    ghost cells: set<Cons>, ghost arrays: set<Array>) returns (text': string)
    requires FirstPrints(c, n, visited, cfg, cells, arrays)
    ensures text' == text + First(c, n, visited, cfg, cells, arrays).value
    decreases cells - (visited + {c}), 4
  {
    if c.car.Pair? {
      text' := PrettySub(c.car, n + 2, visited + {c}, cfg, text, cells, arrays);
    } else {
      var t := StrOf(c.car, cfg, cells, arrays);
      text' := text + t;
    }
  }

  /** The loop over the cdr chain: each car printed by a nested call, then the stack check on its
      cell, and at the end `)` or ` . ` with the tail's `str()`. */
  method WriteRest(s: Value, n: nat, visited: set<Cons>, local: set<Cons>, cfg: Config, text: string,
                   ghost cells: set<Cons>, ghost arrays: set<Array>, ghost whole: string) returns (text': string)
    requires Writing(text, s, n, visited, local, cfg, cells, arrays, whole)
    ensures text' == whole
    decreases cells - visited, 0
  {
    var local := local;
    var cur := s;
    text' := text;
    while cur.Pair?
      invariant Writing(text', cur, n, visited, local, cfg, cells, arrays, whole)
      decreases cells - local
    {
      var cell := cur.cell;
      WritingStep(text', cell, n, visited, local, cfg, cells, arrays, whole);
      text' := PrettySub(cell.car, n + 2, visited + local, cfg, text', cells, arrays);
      if cell in visited || cell in local {
        return text' + " ...)";
      }
      local := local + {cell};
      cur := cell.cdr;
    }
    text' := WriteEnd(cur, n, visited, local, cfg, text', cells, arrays, whole);
  }

  /** The close of a list: `)` after NIL, ` . `, the tail's `str()` and `)` after any other atom
      or an array. */
  method WriteEnd(cur: Value, n: nat, visited: set<Cons>, local: set<Cons>, cfg: Config, text: string,
                  ghost cells: set<Cons>, ghost arrays: set<Array>, ghost whole: string) returns (text': string)
    requires Writing(text, cur, n, visited, local, cfg, cells, arrays, whole) && !cur.Pair?
    ensures text' == whole
  {
    WritingEnd(text, cur, n, visited, local, cfg, cells, arrays, whole);
    if cur.Nil? {
      text' := text + ")";
    } else {
      var t := StrOf(cur, cfg, cells, arrays);
      text' := text + (" . " + t + ")");
    }
  }

  /** `sxpprint(v, file)`: the indented text from depth 0 on an empty stack, then a line break,
      written to `sink`. */
  method SxPPrint(v: Value, cfg: Config, sink: Sink, ghost cells: set<Cons>, ghost arrays: set<Array>)
    requires Prints(v, 0, {}, cfg, cells, arrays)
    modifies sink
    ensures sink.text == old(sink.text) + Pretty(v, 0, {}, cfg, cells, arrays).value + "\n"
  {
    var text := PrettySub(v, 0, {}, cfg, "", cells, arrays);
    assert text == Pretty(v, 0, {}, cfg, cells, arrays).value;
    sink.Write(text);
    sink.Write("\n");
  }

  // ------------------------------------------------------------------ properties of the indented text

  /** Where the quote loop and the function-form check leave an object that is neither a list nor an array. */
  ghost predicate PeelsToAtom(v: Value, cfg: Config, cells: set<Cons>, arrays: set<Array>)
    reads cells, arrays
  {
    && Closed(cells, arrays) && Inside(v, cells, arrays)
    && var p := Peel(v, {}, cfg, cells, arrays);
       p.Some? && var w := FunctionRef(p.value.0, p.value.1, cfg).1; !w.Pair? && !w.Arr?
  }

  /** A chain of quote forms reads the same in the compact printer: with `seen` as the forms already
      being printed, the compact text is the prefix the quote loop gathers followed by the text of the
      atom it stops at, and there is none when the chain comes back on itself. */
  lemma {:induction false} PeelShow(v: Value, seen: set<Cons>, visited: set<Cons>, apath: set<Array>, cfg: Config,
                                    cells: set<Cons>, arrays: set<Array>)
    requires Closed(cells, arrays) && Inside(v, cells, arrays) && seen <= cells && visited <= cells && apath <= arrays
    ensures Peel(v, seen, cfg, cells, arrays).None? ==> Show(v, visited, seen, apath, cfg, cells, arrays).None?
    ensures Peel(v, seen, cfg, cells, arrays).Some? ==>
      var p := Peel(v, seen, cfg, cells, arrays).value;
      var (q, w) := FunctionRef(p.0, p.1, cfg);
      !w.Pair? && !w.Arr? ==> Show(v, visited, seen, apath, cfg, cells, arrays) == Some(q + AtomText(w, cfg))
    decreases cells - seen
  {
    if v.Pair? && IsQuoteForm(v.cell, cfg) {
      if v.cell !in seen {
        var inner := v.cell.cdr.cell.car;
        PeelShow(inner, seen + {v.cell}, visited, apath, cfg, cells, arrays);
        var p := Peel(inner, seen + {v.cell}, cfg, cells, arrays);
        if p.Some? {
          var (q, w) := FunctionRef(p.value.0, p.value.1, cfg);
          if !w.Pair? && !w.Arr? {
            if w != p.value.1 {
              Associative("'", p.value.0, "#'");
            }
            Associative("'", q, AtomText(w, cfg));
          }
        }
      }
    } else if v.Pair? && IsFunctionForm(v.cell, cfg) {
      assert "" + "#'" == "#'";
    } else if !v.Pair? && !v.Arr? {
      assert "" + AtomText(v, cfg) == AtomText(v, cfg);
    }
  }

  /** Anything the quote loop and the function-form check reduce to an atom is written as a space
      followed by its compact `str()` text (`'x`, `#'f` and plain atoms alike), and an object whose
      quote chain turns back on itself has no text in either printer. */
  lemma AtomPretty(v: Value, n: nat, visited: set<Cons>, cfg: Config, cells: set<Cons>, arrays: set<Array>)
    requires Closed(cells, arrays) && Inside(v, cells, arrays) && visited <= cells
    ensures Peel(v, {}, cfg, cells, arrays).None? ==>
      Pretty(v, n, visited, cfg, cells, arrays).None? && Printer.Str(v, cfg, cells, arrays).None?
    ensures PeelsToAtom(v, cfg, cells, arrays) ==>
      Pretty(v, n, visited, cfg, cells, arrays) == Prefix(" ", Printer.Str(v, cfg, cells, arrays))
  {
    PeelShow(v, {}, {}, {}, cfg, cells, arrays);
    var p := Peel(v, {}, cfg, cells, arrays);
    if p.Some? {
      var (q, w) := FunctionRef(p.value.0, p.value.1, cfg);
      if !w.Pair? && !w.Arr? {
        Associative(" ", q, AtomText(w, cfg));
      }
    }
  }

  /** `(quote . (x))` where `x` is the form itself: the quote loop of `__sxpprint_sub` never ends. */
  lemma SelfQuoteDiverges(c: Cons, n: nat, visited: set<Cons>, cfg: Config, cells: set<Cons>, arrays: set<Array>)
    requires Closed(cells, arrays) && c in cells && visited <= cells
    requires IsQuoteForm(c, cfg) && c.cdr.cell.car == Pair(c)
    ensures Pretty(Pair(c), n, visited, cfg, cells, arrays).None?
  {
    assert Peel(Pair(c), {c}, cfg, cells, arrays).None?;
    assert Peel(Pair(c), {}, cfg, cells, arrays).None?;
  }

  /** The tail of a list of atoms may only be NIL, an atom or, for a cyclic list, a cell whose car
      is an atom. */
  ghost predicate AtomEnd(end: Value)
    reads if end.Pair? then {end.cell} else {}
  {
    !end.Arr? && (end.Pair? ==> !end.cell.car.Pair? && !end.cell.car.Arr?)
  }

  /** What the indented text of a list of atoms has after its element texts: nothing after NIL,
      ` . x` for an atom tail `x`, and, for a list that turns back on itself, the element it returns
      to printed once more before ` ...`. */
  function PrettyEnd(end: Value, cfg: Config): (r: string)
    requires AtomEnd(end)
    reads if end.Pair? then {end.cell} else {}
  {
    if end.Pair? then " " + AtomText(end.cell.car, cfg) + EndText(end, cfg) else EndText(end, cfg)
  }

  /** A car that is an atom is written as a space and its text. */
  lemma AtomItem(x: Value, n: nat, visited: set<Cons>, cfg: Config, cells: set<Cons>, arrays: set<Array>)
    requires Closed(cells, arrays) && visited <= cells && !x.Pair? && !x.Arr?
    ensures Pretty(x, n, visited, cfg, cells, arrays) == Some(" " + AtomText(x, cfg))
  {
    assert " " + "" + AtomText(x, cfg) == " " + AtomText(x, cfg);
  }

  lemma Regroup(a: string, i: string, e: string)
    ensures (" " + a) + (" " + i + e + ")") == " " + (a + " " + i) + e + ")"
  {
  }

  /** The loop of `__sxpprint_sub` reaching the end of a list of atoms. */
  lemma RestEnd(cs: seq<Cons>, end: Value, n: nat, visited: set<Cons>, cfg: Config, cells: set<Cons>, arrays: set<Array>)
    requires Closed(cells, arrays) && visited <= cells
    requires forall i | 0 <= i < |cs| :: cs[i] in cells && cs[i] !in visited
    requires cs != [] && ListOf(Pair(cs[0]), cs, end) && Closes(end, cs) && AtomEnd(end)
    ensures CellsBefore(cs, |cs|) != {} && CellsBefore(cs, |cs|) !! visited
    ensures Rest(end, n, visited, CellsBefore(cs, |cs|), cfg, cells, arrays) == Some(PrettyEnd(end, cfg) + ")")
  {
    var local := CellsBefore(cs, |cs|);
    assert cs[0] in local;
    if end.Pair? {
      assert end.cell in local;
      RestCycle(end.cell, n, visited, local, cfg, cells, arrays);
    } else if !end.Nil? {
      TailClose(AtomText(end, cfg));
    } else {
      assert "" + ")" == ")";
    }
  }

  /** A cell met before: its car is printed once more, then ` ...)`. */
  lemma RestCycle(c: Cons, n: nat, visited: set<Cons>, local: set<Cons>, cfg: Config, cells: set<Cons>, arrays: set<Array>)
    requires Closed(cells, arrays) && visited <= cells && local <= cells && local !! visited && c in local
    requires !c.car.Pair? && !c.car.Arr?
    ensures Rest(Pair(c), n, visited, local, cfg, cells, arrays) == Some(PrettyEnd(Pair(c), cfg) + ")")
  {
    AtomItem(c.car, n + 2, visited + local, cfg, cells, arrays);
    CycleClose(AtomText(c.car, cfg));
  }

  lemma CycleClose(a: string)
    ensures (" " + a) + " ...)" == (" " + a + (" " + "...")) + ")"
  {
  }

  lemma TailClose(a: string)
    ensures " . " + (a + ")") == (" " + (". " + a)) + ")"
  {
  }

  /** `cs` are the cells of a list of atoms, none of them visited yet, ending in `end`. */
  ghost predicate AtomList(cs: seq<Cons>, end: Value, visited: set<Cons>, cells: set<Cons>, arrays: set<Array>)
    reads cells, arrays, cs, if end.Pair? then {end.cell} else {}
  {
    && Closed(cells, arrays) && visited <= cells
    && (forall i | 0 <= i < |cs| :: cs[i] in cells && cs[i] !in visited)
    && cs != [] && ListOf(Pair(cs[0]), cs, end) && Closes(end, cs) && AtomCars(cs) && AtomEnd(end)
  }

  /** What the loop of `__sxpprint_sub` prints from the `k`-th cell of a list of atoms on. */
  ghost predicate RestPrints(cs: seq<Cons>, k: nat, end: Value, n: nat, visited: set<Cons>, cfg: Config,
                 cells: set<Cons>, arrays: set<Array>)
    reads cells, arrays, cs, if end.Pair? then {end.cell} else {}
  {
    && AtomList(cs, end, visited, cells, arrays) && 1 <= k < |cs|
    && CellsBefore(cs, k) != {} && CellsBefore(cs, k) !! visited && AtomCars(cs[k..])
    && Rest(Pair(cs[k]), n, visited, CellsBefore(cs, k), cfg, cells, arrays)
       == Some(" " + ItemsText(cs[k..], cfg) + PrettyEnd(end, cfg) + ")")
  }

  /** The loop of `__sxpprint_sub` over a list of atoms from its `k`-th cell on. */
  lemma {:induction false} RestAtoms(cs: seq<Cons>, k: nat, end: Value, n: nat, visited: set<Cons>, cfg: Config,
                 cells: set<Cons>, arrays: set<Array>)
    requires AtomList(cs, end, visited, cells, arrays) && 1 <= k < |cs|
    ensures RestPrints(cs, k, end, n, visited, cfg, cells, arrays)
    decreases |cs| - k
  {
    if k + 1 < |cs| {
      RestAtoms(cs, k + 1, end, n, visited, cfg, cells, arrays);
      AtomCons(cs, k, end, n, visited, cfg, cells, arrays);
    } else {
      AtomLast(cs, k, end, n, visited, cfg, cells, arrays);
    }
  }

  /** A cell of a list of atoms followed by another: what the loop prints from it on is a space, its
      car's text, and what it prints from the next cell on. */
  lemma AtomCons(cs: seq<Cons>, k: nat, end: Value, n: nat, visited: set<Cons>, cfg: Config,
                 cells: set<Cons>, arrays: set<Array>)
    requires AtomList(cs, end, visited, cells, arrays) && 1 <= k && k + 1 < |cs|
    requires RestPrints(cs, k + 1, end, n, visited, cfg, cells, arrays)
    ensures RestPrints(cs, k, end, n, visited, cfg, cells, arrays)
  {
    AtomStep(cs, k, end, n, visited, cfg, cells, arrays);
    ItemsStep(cs, k, cfg);
    Regroup(AtomText(cs[k].car, cfg), ItemsText(cs[k + 1..], cfg), PrettyEnd(end, cfg));
  }

  /** The last cell of a list of atoms: a space, its car's text, then the end of the list. */
  lemma AtomLast(cs: seq<Cons>, k: nat, end: Value, n: nat, visited: set<Cons>, cfg: Config,
                 cells: set<Cons>, arrays: set<Array>)
    requires AtomList(cs, end, visited, cells, arrays) && 1 <= k && k + 1 == |cs|
    ensures RestPrints(cs, k, end, n, visited, cfg, cells, arrays)
  {
    AtomStep(cs, k, end, n, visited, cfg, cells, arrays);
    ItemsStep(cs, k, cfg);
    RestEnd(cs, end, n, visited, cfg, cells, arrays);
    Associative(" " + AtomText(cs[k].car, cfg), PrettyEnd(end, cfg), ")");
  }

  /** One turn of the loop over a list of atoms: a space and the car's text, then the rest with the
      cell passed. */
  lemma AtomStep(cs: seq<Cons>, k: nat, end: Value, n: nat, visited: set<Cons>, cfg: Config,
                 cells: set<Cons>, arrays: set<Array>)
    requires Closed(cells, arrays) && visited <= cells
    requires forall i | 0 <= i < |cs| :: cs[i] in cells && cs[i] !in visited
    requires 1 <= k < |cs| && ListOf(Pair(cs[0]), cs, end) && Closes(end, cs) && AtomCars(cs)
    ensures CellsBefore(cs, k) != {} && CellsBefore(cs, k) !! visited
    ensures CellsBefore(cs, k + 1) == CellsBefore(cs, k) + {cs[k]} && Inside(cs[k].cdr, cells, arrays)
    ensures cs[k].cdr == if k + 1 < |cs| then Pair(cs[k + 1]) else end
    ensures Rest(Pair(cs[k]), n, visited, CellsBefore(cs, k), cfg, cells, arrays)
         == Both(Some(" " + AtomText(cs[k].car, cfg)), Rest(cs[k].cdr, n, visited, CellsBefore(cs, k + 1), cfg, cells, arrays))
  {
    var c := cs[k];
    var local := CellsBefore(cs, k);
    assert cs[0] in local && c !in local;
    assert CellsBefore(cs, k + 1) == local + {c};
    AtomItem(c.car, n + 2, visited + local, cfg, cells, arrays);
  }

  /** After the `(` of a list of atoms: the element texts, the end, `)`. */
  lemma BlockAtoms(cs: seq<Cons>, end: Value, n: nat, visited: set<Cons>, cfg: Config, cells: set<Cons>, arrays: set<Array>)
    requires Closed(cells, arrays) && visited <= cells
    requires forall i | 0 <= i < |cs| :: cs[i] in cells && cs[i] !in visited
    requires cs != [] && ListOf(Pair(cs[0]), cs, end) && Closes(end, cs) && AtomCars(cs) && AtomEnd(end)
    ensures Block(Pair(cs[0]), n, visited, cfg, cells, arrays) == Some(ItemsText(cs, cfg) + PrettyEnd(end, cfg) + ")")
  {
    var c := cs[0];
    var a := AtomText(c.car, cfg);
    assert CellsBefore(cs, 1) == {c};
    assert First(c, n, visited, cfg, cells, arrays) == Some(a);
    ItemsStep(cs, 0, cfg);
    assert cs[0..] == cs;
    if |cs| > 1 {
      RestAtoms(cs, 1, end, n, visited, cfg, cells, arrays);
      Regroup2(a, ItemsText(cs[1..], cfg), PrettyEnd(end, cfg));
    } else {
      RestEnd(cs, end, n, visited, cfg, cells, arrays);
      Associative(a, PrettyEnd(end, cfg), ")");
    }
  }

  lemma Regroup2(a: string, i: string, e: string)
    ensures a + (" " + i + e + ")") == (a + " " + i) + e + ")"
  {
  }

  /** A list of atoms whose head is neither a quote nor a function form, printed at indentation `n`:
      the line break and indentation below the top level, `(`, the element texts with a space between,
      the end, `)`. */
  lemma PrettyAtomList(cs: seq<Cons>, end: Value, n: nat, visited: set<Cons>, cfg: Config,
                       cells: set<Cons>, arrays: set<Array>)
    requires Closed(cells, arrays) && visited <= cells
    requires forall i | 0 <= i < |cs| :: cs[i] in cells && cs[i] !in visited
    requires cs != [] && ListOf(Pair(cs[0]), cs, end) && Closes(end, cs) && AtomCars(cs) && AtomEnd(end)
    requires !IsQuoteForm(cs[0], cfg) && !IsFunctionForm(cs[0], cfg)
    ensures Pretty(Pair(cs[0]), n, visited, cfg, cells, arrays)
         == Some(Indent(n) + ("(" + ItemsText(cs, cfg) + PrettyEnd(end, cfg) + ")"))
  {
    BlockAtoms(cs, end, n, visited, cfg, cells, arrays);
    Opening(Indent(n), ItemsText(cs, cfg), PrettyEnd(end, cfg));
  }

  lemma Opening(d: string, i: string, e: string)
    ensures d + "" + "(" + (i + e + ")") == d + ("(" + i + e + ")")
  {
  }

  /** A proper or dotted list of atoms prints as its compact text, on a line of its own indented `n`
      columns when it is nested. */
  lemma FlatListPretty(cs: seq<Cons>, end: Value, n: nat, cfg: Config, cells: set<Cons>, arrays: set<Array>)
    requires Closed(cells, arrays)
    requires forall i | 0 <= i < |cs| :: cs[i] in cells
    requires cs != [] && ListOf(Pair(cs[0]), cs, end) && !end.Pair? && !end.Arr? && AtomCars(cs)
    requires !IsQuoteForm(cs[0], cfg) && !IsFunctionForm(cs[0], cfg)
    ensures Pretty(Pair(cs[0]), n, {}, cfg, cells, arrays) == Prefix(Indent(n), Printer.Str(Pair(cs[0]), cfg, cells, arrays))
  {
    PrettyAtomList(cs, end, n, {}, cfg, cells, arrays);
    AtomListText(cs, end, {}, {}, {}, cfg, cells, arrays);
  }

  /** A list of atoms whose last cdr leads back to one of its cells: the compact text ends in ` ...)`
      right after the last element, while the indented text first prints the element the list
      returns to once more. */
  lemma CyclicListPretty(cs: seq<Cons>, j: nat, n: nat, cfg: Config, cells: set<Cons>, arrays: set<Array>)
    requires Closed(cells, arrays)
    requires forall i | 0 <= i < |cs| :: cs[i] in cells
    requires j < |cs| && ListOf(Pair(cs[0]), cs, Pair(cs[j])) && AtomCars(cs)
    requires !IsQuoteForm(cs[0], cfg) && !IsFunctionForm(cs[0], cfg)
    ensures Printer.Str(Pair(cs[0]), cfg, cells, arrays) == Some("(" + ItemsText(cs, cfg) + " ...)")
    ensures Pretty(Pair(cs[0]), n, {}, cfg, cells, arrays)
         == Some(Indent(n) + ("(" + ItemsText(cs, cfg) + " " + AtomText(cs[j].car, cfg) + " ...)"))
  {
    var end := Pair(cs[j]);
    PrettyAtomList(cs, end, n, {}, cfg, cells, arrays);
    AtomListText(cs, end, {}, {}, {}, cfg, cells, arrays);
    CycleTexts("(" + ItemsText(cs, cfg), AtomText(cs[j].car, cfg));
  }

  lemma CycleTexts(x: string, a: string)
    ensures x + (" " + "...") + ")" == x + " ...)"
    ensures x + (" " + a + (" " + "...")) + ")" == x + " " + a + " ...)"
  {
  }
}
