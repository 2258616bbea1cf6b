/** The recursive-descent parser (`_sxpr_read_obj`, `_sxpr_read_list`) and `sxparse`.
    `ParseObj` and its companions say, over the token stream of `Lexer`, which tree a text denotes and
    where the reader stops; the methods build that tree out of heap objects, one call at a time, and are
    proved to build exactly the tree the specification names. */
module Reader {
  import opened Base
  import opened Numbers
  import opened RatComplex
  import opened Sexpr
  import opened Intern
  import opened Lexer
  import opened Streaming

  /** What the reader builds, as a value: `Absent` is the None `_sxpr_read_obj` returns at the end of the
      text, `Empty` is NIL. */
  datatype Tree =
    | Absent
    | Empty
    | TSym(name: string)
    | TStr(s: string)
    | TChr(c: char)
    | TNum(n: Num)
    | TComplex(re: Num, im: Num)
    | TCons(car: Tree, cdr: Tree)
    | TArray(dim: int, body: Tree)

  /** `'x` and `#'x` read as the two-element lists `(quote x)` and `(function x)`. */
  function QuoteForm(name: string, x: Tree): Tree { TCons(TSym(name), TCons(x, Empty)) }

  /** The items `ts` in front of the tail `t`: `(t0 t1 ... . t)`. */
  function Chain(ts: seq<Tree>, t: Tree): Tree
  {
    if ts == [] then t else TCons(ts[0], Chain(ts[1..], t))
  }

  /** A parse with `ts` in front of the tree it yields. */
  function Wrap(ts: seq<Tree>, r: Result<(Tree, LexState)>): Result<(Tree, LexState)>
  {
    match r
    case Ok((t, st)) => Ok((Chain(ts, t), st))
    case Err(e) => Err(e)
  }

  /** A parse with its tree put under a quoting form. */
  function Quoted(name: string, r: Result<(Tree, LexState)>): (q: Result<(Tree, LexState)>)
    ensures q.Ok? <==> r.Ok?
    ensures q.Ok? ==> q.value == (QuoteForm(name, r.value.0), r.value.1)
  {
    match r
    case Ok((x, st)) => Ok((QuoteForm(name, x), st))
    case Err(e) => Err(e)
  }

  // ------------------------------------------------------------------ the grammar

  /** `_sxpr_read_obj`: one object, or `Absent` when the text has ended. */
  function ParseObj(inp: Input, st: LexState): (r: Result<(Tree, LexState)>)
    requires Valid(inp, st)
    ensures r.Ok? ==> Valid(inp, r.value.1) && r.value.1.look.Ready?
    ensures r.Ok? ==> Measure(inp, r.value.1) <= Measure(inp, st)
    ensures r.Ok? && st.look != Ready(None) ==> Measure(inp, r.value.1) < Measure(inp, st)
    decreases Measure(inp, st), 1
  {
    var (t, st1) :- NextToken(inp, st);
    if t.None? then Ok((Absent, st1))
    else
      match t.value
      case Quote => Quoted("quote", ParseObj(inp, st1))
      case FuncRef => Quoted("function", ParseObj(inp, st1))
      case SymTok(n) => Ok((TSym(n), st1))
      case StrTok(x) => Ok((TStr(x), st1))
      case ChrTok(ch) => Ok((TChr(ch), st1))
      case NumTok(n) => Ok((TNum(n), st1))
      case ComplexStart => ParseComplex(inp, st1)
      case ArrayStart(d) => ParseArray(inp, d, st1)
      case LPar => ParseList(inp, st1)
      case RPar => Err(SyntaxError(UnexpectedToken(")"), st1.line, st1.col))
      case Dot => Err(SyntaxError(UnexpectedToken("."), st1.line, st1.col))
  }

  /** After `#C`: `(`, two real numbers and `)`, else a SyntaxError where the reader stopped. */
  function ParseComplex(inp: Input, st: LexState): (r: Result<(Tree, LexState)>)
    requires Valid(inp, st)
    ensures r.Ok? ==> Valid(inp, r.value.1) && r.value.1.look.Ready?
    ensures r.Ok? ==> Measure(inp, r.value.1) <= Measure(inp, st)
  {
    var s1 :- ComplexDelim(inp, st, LPar);
    var (re, s2) :- ComplexNum(inp, s1);
    var (im, s3) :- ComplexNum(inp, s2);
    var s4 :- ComplexDelim(inp, s3, RPar);
    Ok((TComplex(re, im), s4))
  }

  /** The parenthesis `p` of a complex literal, else InvalidComplex where the reader stopped. */
  function ComplexDelim(inp: Input, st: LexState, p: Token): (r: Result<LexState>)
    requires Valid(inp, st)
    ensures r.Ok? ==> Valid(inp, r.value) && r.value.look.Ready? && Measure(inp, r.value) <= Measure(inp, st)
  {
    var (t, s1) :- NextToken(inp, st);
    if t != Some(p) then Err(SyntaxError(InvalidComplex, s1.line, s1.col)) else Ok(s1)
  }

  /** One real part of a complex literal, else InvalidComplex where the reader stopped. */
  function ComplexNum(inp: Input, st: LexState): (r: Result<(Num, LexState)>)
    requires Valid(inp, st)
    ensures r.Ok? ==> Valid(inp, r.value.1) && r.value.1.look.Ready? && Measure(inp, r.value.1) <= Measure(inp, st)
  {
    var (t, s1) :- NextToken(inp, st);
    if !(t.Some? && t.value.NumTok?) then Err(SyntaxError(InvalidComplex, s1.line, s1.col)) else Ok((t.value.n, s1))
  }

  /** After an array prefix: the list that follows, which must start right away with `(`. */
  function ParseArray(inp: Input, d: int, st: LexState): (r: Result<(Tree, LexState)>)
    requires Valid(inp, st) && st.look.Ready?
    ensures r.Ok? ==> Valid(inp, r.value.1) && r.value.1.look.Ready?
    ensures r.Ok? ==> Measure(inp, r.value.1) < Measure(inp, st)
    decreases Measure(inp, st), 4
  {
    var open := st.look == Ready(Some(LPar));
    var (_, s1) :- NextToken(inp, st);
    if !open then Err(SyntaxError(InvalidArray, s1.line, s1.col))
    else
      var (b, s2) :- ParseList(inp, s1);
      Ok((TArray(d, b), s2))
  }

  /** `_sxpr_read_list`, after the `(`: `)` alone is NIL, otherwise the first item and the rest. */
  function ParseList(inp: Input, st: LexState): (r: Result<(Tree, LexState)>)
    requires Valid(inp, st) && st.look.Ready?
    ensures r.Ok? ==> Valid(inp, r.value.1) && r.value.1.look.Ready?
    ensures r.Ok? ==> Measure(inp, r.value.1) < Measure(inp, st)
    decreases Measure(inp, st), 3
  {
    if st.look == Ready(Some(RPar)) then
      var (_, s1) :- NextToken(inp, st);
      Ok((Empty, s1))
    else
      var (x, s1) :- ParseObj(inp, st);
      var (rest, s2) :- ParseRest(inp, s1);
      Ok((TCons(x, rest), s2))
  }

  /** The loop of `_sxpr_read_list`: more items up to `)`, or `. x )`; the end of the text is an error. */
  function ParseRest(inp: Input, st: LexState): (r: Result<(Tree, LexState)>)
    requires Valid(inp, st) && st.look.Ready?
    ensures r.Ok? ==> Valid(inp, r.value.1) && r.value.1.look.Ready?
    ensures r.Ok? ==> Measure(inp, r.value.1) < Measure(inp, st)
    decreases Measure(inp, st), 2
  {
    if st.look == Ready(Some(RPar)) then
      var (_, s1) :- NextToken(inp, st);
      Ok((Empty, s1))
    else if st.look == Ready(None) then
      var s1 := NextToken(inp, st).value.1;
      Err(SyntaxError(UnexpectedEOF, s1.line, s1.col))
    else if st.look == Ready(Some(Dot)) then
      var (_, s1) :- NextToken(inp, st);
      var (x, s2) :- ParseObj(inp, s1);
      var closed := s2.look == Ready(Some(RPar));
      var (_, s3) :- NextToken(inp, s2);
      if !closed then Err(SyntaxError(CloseExpected, s3.line, s3.col)) else Ok((x, s3))
    else
      var (x, s1) :- ParseObj(inp, st);
      var (rest, s2) :- ParseRest(inp, s1);
      Ok((TCons(x, rest), s2))
  }

  /** `sxparse(text)`: the first object of the text. */
  function ParseText(inp: Input): Result<Tree>
  {
    var (t, _) :- ParseObj(inp, Start);
    Ok(t)
  }

  // ------------------------------------------------------------------ errors and the end of the text

  /** A text of nothing but whitespace and line comments reads as None. */
  lemma NothingButBlanks(inp: Input)
    requires Blank(inp, 0)
    ensures ParseText(inp) == Ok(Absent)
  {
    BlankScan(inp, Start.at, Start.line, Start.col);
  }

  /** Wherever an object is expected, a `)` or a `.` is a SyntaxError at the position after it. */
  lemma StrayToken(inp: Input, st: LexState)
    requires Valid(inp, st)
    requires NextToken(inp, st).Ok? && NextToken(inp, st).value.0 in {Some(RPar), Some(Dot)}
    ensures var (t, s1) := NextToken(inp, st).value;
      ParseObj(inp, st) == Err(SyntaxError(UnexpectedToken(if t == Some(RPar) then ")" else "."), s1.line, s1.col))
  {
  }

  /** Tokens after which the text may end inside a list without any other error: an atom, a quote mark or
      an opening parenthesis. */
  predicate MayEndAfter(t: Token)
  {
    t.SymTok? || t.StrTok? || t.ChrTok? || t.NumTok? || t.Quote? || t.FuncRef? || t.LPar?
  }

  /** Handing out a token when nothing but blanks follows leaves the end of the text as lookahead. */
  lemma LastToken(inp: Input, st: LexState)
    requires Valid(inp, st) && st.look.Ready? && st.look.tok.Some? && Blank(inp, st.at.pos)
    ensures var r := NextToken(inp, st);
      r.Ok? && r.value.0 == st.look.tok && r.value.1.look == Ready(None) && r.value.1.at.pos == |inp.text|
  {
    BlankScan(inp, st.at, st.at.line, st.at.col);
  }

  /** The text ends while a list is still open: after the item the loop holds, only blanks remain. The
      reader fails with UnexpectedEOF, whether the loop is at the end already, at a last atom, at a last
      quote mark or at a last `(`. */
  lemma {:induction false} UnclosedList(inp: Input, st: LexState)
    requires Valid(inp, st) && st.look.Ready? && Blank(inp, st.at.pos)
    requires st.look.tok.None? || MayEndAfter(st.look.tok.value)
    ensures ParseRest(inp, st).Err? && ParseRest(inp, st).error.SyntaxError?
    ensures ParseRest(inp, st).error.reason == UnexpectedEOF
  {
    if st.look.tok.Some? {
      LastToken(inp, st);
      var s1 := NextToken(inp, st).value.1;
      var t := st.look.tok.value;
      if t.LPar? {
        EndsAtOnce(inp, s1);
        assert ParseObj(inp, st) == ParseList(inp, s1);
      } else if t.Quote? || t.FuncRef? {
        EndsAtOnce(inp, s1);
        var s2 := ParseObj(inp, s1).value.1;
        assert ParseRest(inp, s2).error.reason == UnexpectedEOF;
      } else {
        assert ParseObj(inp, st) == Ok((TreeOf(t), s1));
      }
    }
  }

  /** The tree an atom token reads as. */
  function TreeOf(t: Token): Tree
  {
    match t
    case SymTok(n) => TSym(n)
    case StrTok(x) => TStr(x)
    case ChrTok(ch) => TChr(ch)
    case NumTok(n) => TNum(n)
    case _ => Absent
  }

  /** At the end of the text an object reads as None and a list fails with UnexpectedEOF. */
  lemma EndsAtOnce(inp: Input, st: LexState)
    requires Valid(inp, st) && st.look == Ready(None)
    ensures ParseObj(inp, st).Ok? && ParseObj(inp, st).value.0 == Absent
    ensures ParseObj(inp, st).value.1.look == Ready(None)
    ensures ParseList(inp, st).Err? && ParseList(inp, st).error.SyntaxError?
    ensures ParseList(inp, st).error.reason == UnexpectedEOF
  {
  }

  /** After `. x` in a list the next token must be `)`: the list then ends with the tail x, and any other
      token is a CloseExpected SyntaxError at the position after it. */
  lemma DottedTail(inp: Input, st: LexState)
    requires Valid(inp, st) && st.look == Ready(Some(Dot))
    requires NextToken(inp, st).Ok? && ParseObj(inp, NextToken(inp, st).value.1).Ok?
    ensures var (x, s2) := ParseObj(inp, NextToken(inp, st).value.1).value;
      var n := NextToken(inp, s2);
      && (n.Ok? && s2.look == Ready(Some(RPar)) ==> ParseRest(inp, st) == Ok((x, n.value.1)))
      && (n.Ok? && s2.look != Ready(Some(RPar)) ==>
            ParseRest(inp, st) == Err(SyntaxError(CloseExpected, n.value.1.line, n.value.1.col)))
      && (n.Err? ==> ParseRest(inp, st) == Err(n.error))
  {
  }


  // ------------------------------------------------------------------ trees in the heap

  /** The class-level intern tables as values: the Symbols, Chars and Complex instances made so far. */
  datatype Tables = Tables(symbols: map<string, Symbol>, chars: map<char, Char>, instances: map<Key, Complex>)

  /** The tables of `reg` and `tab` as they are now. */
  ghost function TablesOf(reg: Registry, tab: ComplexTable): Tables
    reads reg, tab
  {
    Tables(reg.symbols, reg.chars, tab.instances)
  }

  /** `tb2` still holds every entry of `tb1` under the same key: interning only ever adds. */
  ghost predicate Keeps(tb1: Tables, tb2: Tables)
  {
    && (forall k | k in tb1.symbols :: k in tb2.symbols && tb2.symbols[k] == tb1.symbols[k])
    && (forall k | k in tb1.chars :: k in tb2.chars && tb2.chars[k] == tb1.chars[k])
    && (forall k | k in tb1.instances :: k in tb2.instances && tb2.instances[k] == tb1.instances[k])
  }

  /** Interning twice only adds. */
  lemma KeepsTrans(tb1: Tables, tb2: Tables, tb3: Tables)
    requires Keeps(tb1, tb2) && Keeps(tb2, tb3)
    ensures Keeps(tb1, tb3)
  {
  }

  /** `v` is the tree `t` built in the heap, with every Cons it uses among `cells` and every Array among
      `arrays`. Every Symbol, Char and Complex in it is the entry of the intern tables `tb` under its
      (possibly case-folded) key; a complex literal stands for what the Complex constructor makes of its
      two parts. */
  ghost predicate Denotes(v: Value, t: Tree, ignoreCase: bool, tb: Tables, cells: set<Cons>, arrays: set<Array>)
    reads cells, arrays
    decreases t
  {
    match t
    case Absent => v == Nothing
    case Empty => v == Nil
    case TSym(n) =>
      var k := SymbolKey(n, ignoreCase);
      v.Sym? && v.sym.value == k && k in tb.symbols && tb.symbols[k] == v.sym
    case TStr(x) => v.Str? && v.str.value == x
    case TChr(ch) => v.Chr? && v.chr.value == ch && ch in tb.chars && tb.chars[ch] == v.chr
    case TNum(n) => v == Number(n)
    case TComplex(re, im) =>
      var red := ReduceComp(re, im);
      if red.Real? then v == Number(red.n)
      else
        var k := KeyOf(red.re, red.im);
        v.Cplx? && KeyOf(v.cplx.realPart, v.cplx.imagPart) == k && k in tb.instances && tb.instances[k] == v.cplx
    case TCons(a, d) =>
      && v.Pair? && v.cell in cells
      && Denotes(v.cell.car, a, ignoreCase, tb, cells, arrays)
      && Denotes(v.cell.cdr, d, ignoreCase, tb, cells, arrays)
    case TArray(n, b) =>
      && v.Arr? && v.arr in arrays && v.arr.dim == n
      && Denotes(v.arr.value, b, ignoreCase, tb, cells, arrays)
  }

  /** A read agrees with its specification: the same error, or the denoted tree and the same final state. */
  ghost predicate Yields(r: Result<Value>, spec: Result<(Tree, LexState)>, st: LexState, ignoreCase: bool,
                         tb: Tables, cells: set<Cons>, arrays: set<Array>)
    reads cells, arrays
  {
    match spec
    case Ok((t, st')) => r.Ok? && st == st' && Denotes(r.value, t, ignoreCase, tb, cells, arrays)
    case Err(e) => r == Err(e)
  }

  /** Denotation survives adding objects to the footprint and entries to the intern tables. */
  lemma {:induction false} DenotesGrow(v: Value, t: Tree, ic: bool, tb1: Tables, c1: set<Cons>, a1: set<Array>,
                                       tb2: Tables, c2: set<Cons>, a2: set<Array>)
    requires Keeps(tb1, tb2) && c1 <= c2 && a1 <= a2 && Denotes(v, t, ic, tb1, c1, a1)
    ensures Denotes(v, t, ic, tb2, c2, a2)
    decreases t
  {
    match t
    case TCons(a, d) =>
      DenotesGrow(v.cell.car, a, ic, tb1, c1, a1, tb2, c2, a2);
      DenotesGrow(v.cell.cdr, d, ic, tb1, c1, a1, tb2, c2, a2);
    case TArray(n, b) =>
      DenotesGrow(v.arr.value, b, ic, tb1, c1, a1, tb2, c2, a2);
    case _ =>
  }

  /** Each of `vs` denotes the tree at the same place in `ts`. */
  ghost predicate AllDenote(vs: seq<Value>, ts: seq<Tree>, ic: bool, tb: Tables, cells: set<Cons>, arrays: set<Array>)
    reads cells, arrays
    decreases |vs|
  {
    |vs| == |ts| && (vs == [] || (Denotes(vs[0], ts[0], ic, tb, cells, arrays) && AllDenote(vs[1..], ts[1..], ic, tb, cells, arrays)))
  }

  lemma {:induction false} AllDenoteGrow(vs: seq<Value>, ts: seq<Tree>, ic: bool, tb1: Tables, c1: set<Cons>, a1: set<Array>,
                                         tb2: Tables, c2: set<Cons>, a2: set<Array>)
    requires Keeps(tb1, tb2) && c1 <= c2 && a1 <= a2 && AllDenote(vs, ts, ic, tb1, c1, a1)
    ensures AllDenote(vs, ts, ic, tb2, c2, a2)
    decreases |vs|
  {
    if vs != [] {
      DenotesGrow(vs[0], ts[0], ic, tb1, c1, a1, tb2, c2, a2);
      AllDenoteGrow(vs[1..], ts[1..], ic, tb1, c1, a1, tb2, c2, a2);
    }
  }

  /** One more item, read into objects of its own while the intern tables grew from `tb1` to `tb2`. */
  lemma {:induction false} AllDenoteSnoc(vs: seq<Value>, ts: seq<Tree>, v: Value, t: Tree, ic: bool,
                                         tb1: Tables, c1: set<Cons>, a1: set<Array>,
                                         tb2: Tables, c2: set<Cons>, a2: set<Array>)
    requires Keeps(tb1, tb2) && AllDenote(vs, ts, ic, tb1, c1, a1) && Denotes(v, t, ic, tb2, c2, a2)
    ensures AllDenote(vs + [v], ts + [t], ic, tb2, c1 + c2, a1 + a2)
    decreases |vs|
  {
    if vs == [] {
      DenotesGrow(v, t, ic, tb2, c2, a2, tb2, c1 + c2, a1 + a2);
      assert ([v] + [])[1..] == [] && ([t] + [])[1..] == [];
    } else {
      DenotesGrow(vs[0], ts[0], ic, tb1, c1, a1, tb2, c1 + c2, a1 + a2);
      AllDenoteSnoc(vs[1..], ts[1..], v, t, ic, tb1, c1, a1, tb2, c2, a2);
      assert (vs + [v])[1..] == vs[1..] + [v];
      assert (ts + [t])[1..] == ts[1..] + [t];
    }
  }

  /** A linked run of cells holding `vs`, which denote `ts`, and ending in `tail` denotes `Chain(ts, tt)`. */
  lemma {:induction false} ChainDenotes(cs: seq<Cons>, vs: seq<Value>, ts: seq<Tree>, tail: Value, tt: Tree, ic: bool,
                                        tb: Tables, cells: set<Cons>, arrays: set<Array>)
    requires |cs| == |vs| >= 1
    requires forall i {:trigger cs[i].cdr} | 0 <= i < |cs| - 1 :: cs[i].cdr == Pair(cs[i + 1])
    requires cs[|cs| - 1].cdr == tail
    requires forall i | 0 <= i < |cs| :: cs[i] in cells && cs[i].car == vs[i]
    requires AllDenote(vs, ts, ic, tb, cells, arrays) && Denotes(tail, tt, ic, tb, cells, arrays)
    ensures Denotes(Pair(cs[0]), Chain(ts, tt), ic, tb, cells, arrays)
    decreases |cs|
  {
    if |cs| > 1 {
      ChainDenotes(cs[1..], vs[1..], ts[1..], tail, tt, ic, tb, cells, arrays);
    }
  }

  lemma {:induction false} ChainSnoc(ts: seq<Tree>, x: Tree, t: Tree)
    ensures Chain(ts, TCons(x, t)) == Chain(ts + [x], t)
    decreases |ts|
  {
    if ts != [] {
      ChainSnoc(ts[1..], x, t);
      assert (ts + [x])[1..] == ts[1..] + [x];
    }
  }

  /** The first item of a list that does not start with `)`: the rest of the list follows it. */
  lemma ListFirst(inp: Input, st: LexState)
    requires Valid(inp, st) && st.look.Ready? && st.look != Ready(Some(RPar))
    requires ParseObj(inp, st).Ok?
    ensures var (x, s1) := ParseObj(inp, st).value;
      ParseList(inp, st) == Wrap([x], ParseRest(inp, s1))
  {
    var (x, s1) := ParseObj(inp, st).value;
    var r := ParseRest(inp, s1);
    if r.Ok? {
      assert Chain([x], r.value.0) == TCons(x, Chain([], r.value.0));
    }
  }

  /** One ordinary item of the list loop: the rest after it, with the item moved into the prefix. */
  lemma RestItem(inp: Input, st: LexState, ts: seq<Tree>)
    requires Valid(inp, st) && st.look.Ready?
    requires st.look != Ready(Some(RPar)) && st.look != Ready(None) && st.look != Ready(Some(Dot))
    requires ParseObj(inp, st).Ok?
    ensures var (x, s1) := ParseObj(inp, st).value;
      Wrap(ts, ParseRest(inp, st)) == Wrap(ts + [x], ParseRest(inp, s1))
  {
    var (x, s1) := ParseObj(inp, st).value;
    var r := ParseRest(inp, s1);
    if r.Ok? {
      ChainSnoc(ts, x, r.value.0);
    }
  }

  /** A list being built: the cells `cs`, each linked to the next and the last one's `cdr` `tail`, hold
      the values `vs`, which denote the items `ts` with the intern tables `tb` and the objects `us` and
      `ua`, none of them a cell of the list itself. */
  ghost predicate Linked(cs: seq<Cons>, vs: seq<Value>, ts: seq<Tree>, tail: Value, ic: bool, tb: Tables,
                         us: set<Cons>, ua: set<Array>)
    reads cs, us, ua
  {
    && |cs| == |vs| >= 1 && cs[|cs| - 1].cdr == tail
    && (forall i {:trigger cs[i].cdr} | 0 <= i < |cs| - 1 :: cs[i].cdr == Pair(cs[i + 1]))
    && (forall i | 0 <= i < |cs| :: cs[i] !in us && cs[i].car == vs[i])
    && AllDenote(vs, ts, ic, tb, us, ua)
  }

  /** The finished list, with the items' objects, the tail's objects and the list's own cells, denotes
      the items in front of the tail, with the intern tables `tb2` the tail was read against. */
  lemma Finish(cs: seq<Cons>, vs: seq<Value>, ts: seq<Tree>, tail: Value, tt: Tree, ic: bool,
               tb1: Tables, us: set<Cons>, ua: set<Array>, tb2: Tables, yc: set<Cons>, ya: set<Array>,
               cells: set<Cons>, arrays: set<Array>)
    requires Keeps(tb1, tb2) && Linked(cs, vs, ts, tail, ic, tb1, us, ua) && Denotes(tail, tt, ic, tb2, yc, ya)
    requires us + yc <= cells && ua + ya <= arrays && forall i | 0 <= i < |cs| :: cs[i] in cells
    ensures Denotes(Pair(cs[0]), Chain(ts, tt), ic, tb2, cells, arrays)
  {
    AllDenoteGrow(vs, ts, ic, tb1, us, ua, tb2, cells, arrays);
    DenotesGrow(tail, tt, ic, tb2, yc, ya, tb2, cells, arrays);
    ChainDenotes(cs, vs, ts, tail, tt, ic, tb2, cells, arrays);
  }

  // ------------------------------------------------------------------ the reader

  /** `_sxpr_read_obj(streamer)` */
  method ReadObj(s: Streamer, reg: Registry, tab: ComplexTable, ghost avoid: set<object>)
    returns (r: Result<Value>, ghost cells: set<Cons>, ghost arrays: set<Array>)
    requires s.Valid() && reg.Valid() && tab.Valid()
    modifies s, reg, tab
    ensures s.Valid() && reg.Valid() && tab.Valid()
    ensures Keeps(old(TablesOf(reg, tab)), TablesOf(reg, tab))
    ensures cells !! avoid && arrays !! avoid
    ensures Yields(r, ParseObj(s.inp, old(s.State())), s.State(), s.inp.cfg.ignoreCase, TablesOf(reg, tab),
                   cells, arrays)
    decreases Measure(s.inp, s.State()), 1
  {
    var t := s.NextToken();
    cells, arrays := {}, {};
    if t.Err? {
      return Err(t.error), {}, {};
    }
    if t.value.None? {
      return Ok(Nothing), {}, {};
    }
    var ic := s.inp.cfg.ignoreCase;
    match t.value.value
    case Quote =>
      r, cells, arrays := ReadQuoted(s, reg, tab, "quote", avoid);
    case FuncRef =>
      r, cells, arrays := ReadQuoted(s, reg, tab, "function", avoid);
    case SymTok(n) =>
      var v := ReadSymbol(n, ic, reg, tab);
      r := Ok(v);
    case StrTok(x) =>
      var o := new String(x);
      r := Ok(Str(o));
    case ChrTok(ch) =>
      var v := ReadChar(ch, ic, reg, tab);
      r := Ok(v);
    case NumTok(n) =>
      r := Ok(Number(n));
    case ComplexStart =>
      r := ReadComplex(s, reg, tab);
    case ArrayStart(d) =>
      r, cells, arrays := ReadArray(s, reg, tab, d, avoid);
    case LPar =>
      r, cells, arrays := ReadList(s, reg, tab, avoid);
    case RPar =>
      r := Err(SyntaxError(UnexpectedToken(")"), s.line, s.col));
    case Dot =>
      r := Err(SyntaxError(UnexpectedToken("."), s.line, s.col));
  }

  /** `Symbol(tok)` for a symbol token: the table's one Symbol under the token's key. */
  method ReadSymbol(n: string, ic: bool, reg: Registry, ghost tab: ComplexTable) returns (v: Value)
    requires reg.Valid() && n != []
    modifies reg
    ensures reg.Valid()
    ensures Keeps(old(TablesOf(reg, tab)), TablesOf(reg, tab))
    ensures Denotes(v, TSym(n), ic, TablesOf(reg, tab), {}, {})
  {
    var o := reg.MakeSymbol(n, ic);
    v := Sym(o.value);
  }

  /** `Char(tok)` for a character token: the table's one Char holding it. */
  method ReadChar(ch: char, ghost ic: bool, reg: Registry, ghost tab: ComplexTable) returns (v: Value)
    requires reg.Valid()
    modifies reg
    ensures reg.Valid()
    ensures Keeps(old(TablesOf(reg, tab)), TablesOf(reg, tab))
    ensures Denotes(v, TChr(ch), ic, TablesOf(reg, tab), {}, {})
  {
    SingleCharForms(ch);
    var o := reg.MakeChar([ch]);
    v := Chr(o.value);
  }

  /** `Cons(Symbol(name), Cons(_sxpr_read_obj(streamer)))`: the symbol is made first, then the object is
      read, then the two cells are built. */
  method ReadQuoted(s: Streamer, reg: Registry, tab: ComplexTable, name: string, ghost avoid: set<object>)
    returns (r: Result<Value>, ghost cells: set<Cons>, ghost arrays: set<Array>)
    requires s.Valid() && reg.Valid() && tab.Valid() && name != []
    modifies s, reg, tab
    ensures s.Valid() && reg.Valid() && tab.Valid()
    ensures Keeps(old(TablesOf(reg, tab)), TablesOf(reg, tab))
    ensures cells !! avoid && arrays !! avoid
    ensures Yields(r, Quoted(name, ParseObj(s.inp, old(s.State()))), s.State(), s.inp.cfg.ignoreCase,
                   TablesOf(reg, tab), cells, arrays)
    decreases Measure(s.inp, s.State()), 2
  {
    var sym := reg.MakeSymbol(name, s.inp.cfg.ignoreCase);
    var x, xc, xa := ReadObj(s, reg, tab, avoid);
    if x.Err? {
      return Err(x.error), {}, {};
    }
    var q, made := MakeQuoted(sym.value, x.value, name, ParseObj(s.inp, old(s.State())).value.0,
                              s.inp.cfg.ignoreCase, TablesOf(reg, tab), xc, xa);
    r, cells, arrays := Ok(q), xc + made, xa;
  }

  /** `Cons(Symbol(name), Cons(x))`: two new cells, the quoting form around `x`. */
  method MakeQuoted(sym: Symbol, x: Value, ghost name: string, ghost t: Tree, ghost ic: bool, ghost tb: Tables,
                    ghost xc: set<Cons>, ghost xa: set<Array>)
    returns (q: Value, ghost made: set<Cons>)
    requires var k := SymbolKey(name, ic); sym.value == k && k in tb.symbols && tb.symbols[k] == sym
    requires Denotes(x, t, ic, tb, xc, xa)
    ensures fresh(made) && Denotes(q, QuoteForm(name, t), ic, tb, xc + made, xa)
  {
    var inner := new Cons(x, Nil);
    var outer := new Cons(Sym(sym), Pair(inner));
    q, made := Pair(outer), {inner, outer};
    DenotesGrow(x, t, ic, tb, xc, xa, tb, xc + made, xa);
    assert Denotes(Pair(inner), TCons(t, Empty), ic, tb, xc + made, xa);
  }

  /** The `#C` branch of `_sxpr_read_obj`: `Complex(re, im)` from the two numbers between the parentheses.
      The Symbol and Char tables of `reg` are only looked at. */
  method ReadComplex(s: Streamer, ghost reg: Registry, tab: ComplexTable) returns (r: Result<Value>)
    requires s.Valid() && tab.Valid()
    modifies s, tab
    ensures s.Valid() && tab.Valid()
    ensures Keeps(old(TablesOf(reg, tab)), TablesOf(reg, tab))
    ensures Yields(r, ParseComplex(s.inp, old(s.State())), s.State(), s.inp.cfg.ignoreCase, TablesOf(reg, tab),
                   {}, {})
  {
    var open := ReadComplexDelim(s, LPar);
    if open.Err? {
      return Err(open.error);
    }
    var re := ReadComplexNum(s);
    if re.Err? {
      return Err(re.error);
    }
    var im := ReadComplexNum(s);
    if im.Err? {
      return Err(im.error);
    }
    var close := ReadComplexDelim(s, RPar);
    if close.Err? {
      return Err(close.error);
    }
    var v := MakeComplex(re.value, im.value, s.inp.cfg.ignoreCase, reg, tab);
    r := Ok(v);
  }

  /** `Complex(re, im)` for a complex literal: the real part alone when the imaginary part is zero,
      otherwise the table's one instance with these normalised parts. */
  method MakeComplex(re: Num, im: Num, ghost ic: bool, ghost reg: Registry, tab: ComplexTable) returns (v: Value)
    requires tab.Valid()
    modifies tab
    ensures tab.Valid()
    ensures Keeps(old(TablesOf(reg, tab)), TablesOf(reg, tab))
    ensures Denotes(v, TComplex(re, im), ic, TablesOf(reg, tab), {}, {})
  {
    var num := tab.New(Plain(re), Plain(im));
    v := if num.RealNumber? then Number(num.x) else Cplx(num.c);
  }

  /** The next token of a complex literal, which must be the parenthesis `p`. */
  method ReadComplexDelim(s: Streamer, p: Token) returns (r: Result<()>)
    requires s.Valid()
    modifies s
    ensures s.Valid()
    ensures match ComplexDelim(s.inp, old(s.State()), p)
      case Ok(st) => r.Ok? && st == s.State()
      case Err(e) => r == Err(e)
  {
    var t := s.NextToken();
    if t.Err? {
      return Err(t.error);
    }
    if t.value != Some(p) {
      return Err(SyntaxError(InvalidComplex, s.line, s.col));
    }
    r := Ok(());
  }

  /** The next token of a complex literal, which must be a real number. */
  method ReadComplexNum(s: Streamer) returns (r: Result<Num>)
    requires s.Valid()
    modifies s
    ensures s.Valid()
    ensures match ComplexNum(s.inp, old(s.State()))
      case Ok((n, st)) => r == Ok(n) && st == s.State()
      case Err(e) => r == Err(e)
  {
    var t := s.NextToken();
    if t.Err? {
      return Err(t.error);
    }
    if !(t.value.Some? && t.value.value.NumTok?) {
      return Err(SyntaxError(InvalidComplex, s.line, s.col));
    }
    r := Ok(t.value.value.n);
  }

  /** The Array branch of `_sxpr_read_obj`: the Array object, then its list, which must start with `(`. */
  method ReadArray(s: Streamer, reg: Registry, tab: ComplexTable, d: int, ghost avoid: set<object>)
    returns (r: Result<Value>, ghost cells: set<Cons>, ghost arrays: set<Array>)
    requires s.Valid() && reg.Valid() && tab.Valid() && s.look.Ready?
    modifies s, reg, tab
    ensures s.Valid() && reg.Valid() && tab.Valid()
    ensures Keeps(old(TablesOf(reg, tab)), TablesOf(reg, tab))
    ensures cells !! avoid && arrays !! avoid
    ensures Yields(r, ParseArray(s.inp, d, old(s.State())), s.State(), s.inp.cfg.ignoreCase, TablesOf(reg, tab),
                   cells, arrays)
    decreases Measure(s.inp, s.State()), 5
  {
    var a := new Array(d, Nil);
    var open := s.look == Ready(Some(LPar));
    var t := s.NextToken();
    if t.Err? {
      return Err(t.error), {}, {};
    }
    if !open {
      return Err(SyntaxError(InvalidArray, s.line, s.col)), {}, {};
    }
    var b, bc, ba := ReadList(s, reg, tab, avoid + {a});
    if b.Err? {
      return Err(b.error), {}, {};
    }
    a.value := b.value;
    r, cells, arrays := Ok(Arr(a)), bc, ba + {a};
    ghost var st1 := ParseArray(s.inp, d, old(s.State())).value.0.body;
    DenotesGrow(b.value, st1, s.inp.cfg.ignoreCase, TablesOf(reg, tab), bc, ba, TablesOf(reg, tab), cells, arrays);
  }

  /** `_sxpr_read_list(streamer)`, after the `(`: the first cell, then one new cell per item, each hung on
      the `cdr` of the one before; a dotted tail goes straight into the last `cdr`. */
  method ReadList(s: Streamer, reg: Registry, tab: ComplexTable, ghost avoid: set<object>)
    returns (r: Result<Value>, ghost cells: set<Cons>, ghost arrays: set<Array>)
    requires s.Valid() && reg.Valid() && tab.Valid() && s.look.Ready?
    modifies s, reg, tab
    ensures s.Valid() && reg.Valid() && tab.Valid()
    ensures Keeps(old(TablesOf(reg, tab)), TablesOf(reg, tab))
    ensures cells !! avoid && arrays !! avoid
    ensures Yields(r, ParseList(s.inp, old(s.State())), s.State(), s.inp.cfg.ignoreCase, TablesOf(reg, tab),
                   cells, arrays)
    decreases Measure(s.inp, s.State()), 4
  {
    ghost var st0 := s.State();
    ghost var ic := s.inp.cfg.ignoreCase;
    if s.look == Ready(Some(RPar)) {
      var t := s.NextToken();
      if t.Err? {
        return Err(t.error), {}, {};
      }
      return Ok(Nil), {}, {};
    }
    var x, xc, xa := ReadObj(s, reg, tab, avoid);
    if x.Err? {
      return Err(x.error), {}, {};
    }
    ListFirst(s.inp, st0);
    var ret := new Cons(x.value, Nil);
    ghost var items := [ParseObj(s.inp, st0).value.0];
    assert Linked([ret], [x.value], items, Nil, ic, TablesOf(reg, tab), xc, xa) by {
      assert AllDenote([], [], ic, TablesOf(reg, tab), xc, xa);
    }
    r, cells, arrays := ReadItems(s, reg, tab, ret, ret, [ret], [x.value], items, xc, xa, {ret}, avoid);
  }

  /** The loop of `_sxpr_read_list`, on the list `cs0` built so far from its first cell `ret` to `last`: one
      new cell per item, each hung on the `cdr` of the one before, until the next token ends the list. */
  method ReadItems(s: Streamer, reg: Registry, tab: ComplexTable, ret: Cons, last: Cons, ghost cs0: seq<Cons>,
                   ghost vs0: seq<Value>, ghost ts0: seq<Tree>, ghost us0: set<Cons>, ghost ua0: set<Array>,
                   ghost own0: set<Cons>, ghost avoid: set<object>)
    returns (r: Result<Value>, ghost cells: set<Cons>, ghost arrays: set<Array>)
    requires s.Valid() && reg.Valid() && tab.Valid() && s.look.Ready?
    requires Linked(cs0, vs0, ts0, Nil, s.inp.cfg.ignoreCase, TablesOf(reg, tab), us0, ua0)
    requires ret == cs0[0] && last == cs0[|cs0| - 1]
    requires forall i | 0 <= i < |cs0| :: cs0[i] in own0
    modifies s, reg, tab, last
    ensures s.Valid() && reg.Valid() && tab.Valid()
    ensures Keeps(old(TablesOf(reg, tab)), TablesOf(reg, tab))
    ensures us0 + own0 <= cells && ua0 <= arrays && (cells - us0 - own0) !! avoid && (arrays - ua0) !! avoid
    ensures Yields(r, Wrap(ts0, ParseRest(s.inp, old(s.State()))), s.State(), s.inp.cfg.ignoreCase,
                   TablesOf(reg, tab), cells, arrays)
    decreases Measure(s.inp, s.State()), 3
  {
    ghost var st0 := s.State();
    ghost var ic := s.inp.cfg.ignoreCase;
    var c := last;
    ghost var cs, vals, items, us, ua, own := cs0, vs0, ts0, us0, ua0, own0;
    while s.look != Ready(Some(RPar)) && s.look != Ready(None) && s.look != Ready(Some(Dot))
      invariant s.Valid() && reg.Valid() && tab.Valid() && s.look.Ready?
      invariant Measure(s.inp, s.State()) <= Measure(s.inp, st0)
      invariant Keeps(old(TablesOf(reg, tab)), TablesOf(reg, tab))
      invariant Linked(cs, vals, items, Nil, ic, TablesOf(reg, tab), us, ua)
      invariant cs[0] == ret && c == cs[|cs| - 1] && (c == last || fresh(c))
      invariant us0 <= us && ua0 <= ua && own0 <= own && forall i | 0 <= i < |cs| :: cs[i] in own
      invariant (us - us0) !! avoid && (ua - ua0) !! avoid && (own - own0) !! avoid
      invariant Wrap(ts0, ParseRest(s.inp, st0)) == Wrap(items, ParseRest(s.inp, s.State()))
      decreases Measure(s.inp, s.State())
    {
      ghost var st := s.State();
      ghost var tb := TablesOf(reg, tab);
      var n, yc, ya := ReadItem(s, reg, tab, c, cs, vals, items, us, ua, own, avoid);
      KeepsTrans(old(TablesOf(reg, tab)), tb, TablesOf(reg, tab));
      if n.Err? {
        return Err(n.error), us + own, ua;
      }
      c := n.value;
      OwnSnoc(cs, own, c);
      cs, vals, items := cs + [c], vals + [c.car], items + [ParseObj(s.inp, st).value.0];
      us, ua, own := us + yc, ua + ya, own + {c};
    }
    r, cells, arrays := CloseList(s, reg, tab, ret, c, cs, vals, items, us, ua, own, avoid);
  }

  /** The cells of a list, all owned, stay owned when one more is added. */
  lemma OwnSnoc(cs: seq<Cons>, own: set<Cons>, c: Cons)
    requires forall i | 0 <= i < |cs| :: cs[i] in own
    ensures forall i | 0 <= i < |cs + [c]| :: (cs + [c])[i] in own + {c}
  {
  }

  /** One round of `_sxpr_read_list`'s loop, on the list `cs` built so far: the next object, in a new cell
      hung on the `cdr` of the last one, `c`. */
  method ReadItem(s: Streamer, reg: Registry, tab: ComplexTable, c: Cons, ghost cs: seq<Cons>,
                  ghost vs: seq<Value>, ghost ts: seq<Tree>, ghost us: set<Cons>, ghost ua: set<Array>,
                  ghost own: set<Cons>, ghost avoid: set<object>)
    returns (r: Result<Cons>, ghost cells: set<Cons>, ghost arrays: set<Array>)
    requires s.Valid() && reg.Valid() && tab.Valid() && s.look.Ready?
    requires s.look != Ready(Some(RPar)) && s.look != Ready(None) && s.look != Ready(Some(Dot))
    requires Linked(cs, vs, ts, Nil, s.inp.cfg.ignoreCase, TablesOf(reg, tab), us, ua) && c == cs[|cs| - 1]
    requires forall i | 0 <= i < |cs| :: cs[i] in own
    modifies s, reg, tab, c
    ensures s.Valid() && reg.Valid() && tab.Valid()
    ensures Keeps(old(TablesOf(reg, tab)), TablesOf(reg, tab))
    ensures cells !! avoid && arrays !! avoid
    ensures r.Err? ==> ParseRest(s.inp, old(s.State())) == Err(r.error)
    ensures r.Ok? ==> fresh(r.value) && r.value !in avoid && ParseObj(s.inp, old(s.State())).Ok?
    ensures r.Ok? ==> var (x, st) := ParseObj(s.inp, old(s.State())).value;
      && st == s.State()
      && Linked(cs + [r.value], vs + [r.value.car], ts + [x], Nil, s.inp.cfg.ignoreCase, TablesOf(reg, tab),
                us + cells, ua + arrays)
      && Wrap(ts, ParseRest(s.inp, old(s.State()))) == Wrap(ts + [x], ParseRest(s.inp, st))
    decreases Measure(s.inp, s.State()), 2
  {
    ghost var st := s.State();
    ghost var tb := TablesOf(reg, tab);
    var y;
    y, cells, arrays := ReadObj(s, reg, tab, avoid + own);
    if y.Err? {
      return Err(y.error), cells, arrays;
    }
    ghost var x := ParseObj(s.inp, st).value.0;
    var n := Append(c, y.value, cs, vs, ts, x, s.inp.cfg.ignoreCase, tb, us, ua, TablesOf(reg, tab), cells, arrays);
    r := Ok(n);
    RestItem(s.inp, st, ts);
  }

  /** `c.cdr = Cons(v)`: a new cell holding `v`, hung on the last cell `c` of the list `cs`. */
  method Append(c: Cons, v: Value, ghost cs: seq<Cons>, ghost vs: seq<Value>, ghost ts: seq<Tree>, ghost t: Tree,
                ghost ic: bool, ghost tb1: Tables, ghost us: set<Cons>, ghost ua: set<Array>,
                ghost tb2: Tables, ghost yc: set<Cons>, ghost ya: set<Array>)
    returns (n: Cons)
    requires Keeps(tb1, tb2) && Linked(cs, vs, ts, Nil, ic, tb1, us, ua) && c == cs[|cs| - 1]
    requires Denotes(v, t, ic, tb2, yc, ya) && forall i | 0 <= i < |cs| :: cs[i] !in yc
    modifies c
    ensures fresh(n) && Linked(cs + [n], vs + [v], ts + [t], Nil, ic, tb2, us + yc, ua + ya)
  {
    n := new Cons(v, Nil);
    c.cdr := Pair(n);
    AllDenoteSnoc(vs, ts, v, t, ic, tb1, us, ua, tb2, yc, ya);
  }

  /** How `_sxpr_read_list` ends, with `cs` the list built so far, `ret` its first cell and `c` its last:
      at `)` the list is closed by the NIL already in `c.cdr`; at the end of the text, after skipping that
      token, the error is UnexpectedEOF; at `.` the dotted tail is read and put into `c.cdr`. */
  method CloseList(s: Streamer, reg: Registry, tab: ComplexTable, ret: Cons, c: Cons, ghost cs: seq<Cons>,
                   ghost vs: seq<Value>, ghost ts: seq<Tree>, ghost us: set<Cons>, ghost ua: set<Array>,
                   ghost own: set<Cons>, ghost avoid: set<object>)
    returns (r: Result<Value>, ghost cells: set<Cons>, ghost arrays: set<Array>)
    requires s.Valid() && reg.Valid() && tab.Valid()
    requires s.look == Ready(Some(RPar)) || s.look == Ready(None) || s.look == Ready(Some(Dot))
    requires Linked(cs, vs, ts, Nil, s.inp.cfg.ignoreCase, TablesOf(reg, tab), us, ua)
    requires ret == cs[0] && c == cs[|cs| - 1]
    requires forall i | 0 <= i < |cs| :: cs[i] in own
    modifies s, reg, tab, c
    ensures s.Valid() && reg.Valid() && tab.Valid()
    ensures Keeps(old(TablesOf(reg, tab)), TablesOf(reg, tab))
    ensures us + own <= cells && ua <= arrays && (cells - us - own) !! avoid && (arrays - ua) !! avoid
    ensures Yields(r, Wrap(ts, ParseRest(s.inp, old(s.State()))), s.State(), s.inp.cfg.ignoreCase,
                   TablesOf(reg, tab), cells, arrays)
    decreases Measure(s.inp, s.State()), 2
  {
    ghost var st := s.State();
    ghost var ic := s.inp.cfg.ignoreCase;
    ghost var tb := TablesOf(reg, tab);
    if s.look == Ready(None) {
      var _ := s.NextToken();
      return Err(SyntaxError(UnexpectedEOF, s.line, s.col)), us + own, ua;
    }
    if s.look == Ready(Some(Dot)) {
      var y, yc, ya := ReadTail(s, reg, tab, avoid + own);
      if y.Err? {
        return Err(y.error), us + own, ua;
      }
      PutTail(c, y.value, cs, vs, ts, ParseRest(s.inp, st).value.0, ic, tb, us, ua, TablesOf(reg, tab), yc, ya, own);
      return Ok(Pair(ret)), us + yc + own, ua + ya;
    }
    var t := s.NextToken();
    if t.Err? {
      return Err(t.error), us + own, ua;
    }
    r, cells, arrays := Ok(Pair(ret)), us + own, ua;
    Finish(cs, vs, ts, Nil, Empty, ic, tb, us, ua, tb, {}, {}, cells, arrays);
  }

  /** `c.cdr = x`, the dotted tail put into the last cell `c` of the list `cs`: the list then denotes its
      items in front of the tail. */
  method PutTail(c: Cons, x: Value, ghost cs: seq<Cons>, ghost vs: seq<Value>, ghost ts: seq<Tree>, ghost t: Tree,
                 ghost ic: bool, ghost tb1: Tables, ghost us: set<Cons>, ghost ua: set<Array>,
                 ghost tb2: Tables, ghost yc: set<Cons>, ghost ya: set<Array>, ghost own: set<Cons>)
    requires Keeps(tb1, tb2) && Linked(cs, vs, ts, Nil, ic, tb1, us, ua) && c == cs[|cs| - 1]
    requires Denotes(x, t, ic, tb2, yc, ya) && forall i | 0 <= i < |cs| :: cs[i] in own && cs[i] !in yc
    modifies c
    ensures Denotes(Pair(cs[0]), Chain(ts, t), ic, tb2, us + yc + own, ua + ya)
  {
    c.cdr := x;
    Finish(cs, vs, ts, x, t, ic, tb1, us, ua, tb2, yc, ya, us + yc + own, ua + ya);
  }

  /** The dotted tail of `_sxpr_read_list`: skip the `.`, read the object, and skip the `)` that must
      follow it. */
  method ReadTail(s: Streamer, reg: Registry, tab: ComplexTable, ghost avoid: set<object>)
    returns (r: Result<Value>, ghost cells: set<Cons>, ghost arrays: set<Array>)
    requires s.Valid() && reg.Valid() && tab.Valid() && s.look == Ready(Some(Dot))
    modifies s, reg, tab
    ensures s.Valid() && reg.Valid() && tab.Valid()
    ensures Keeps(old(TablesOf(reg, tab)), TablesOf(reg, tab))
    ensures cells !! avoid && arrays !! avoid
    ensures Yields(r, ParseRest(s.inp, old(s.State())), s.State(), s.inp.cfg.ignoreCase, TablesOf(reg, tab),
                   cells, arrays)
    decreases Measure(s.inp, s.State()), 1
  {
    var t := s.NextToken();
    if t.Err? {
      return Err(t.error), {}, {};
    }
    r, cells, arrays := ReadObj(s, reg, tab, avoid);
    if r.Err? {
      return;
    }
    var closed := s.look == Ready(Some(RPar));
    t := s.NextToken();
    if t.Err? {
      return Err(t.error), {}, {};
    }
    if !closed {
      return Err(SyntaxError(CloseExpected, s.line, s.col)), {}, {};
    }
  }

  /** `sxparse(text)`: a fresh streamer over the text, and one object read from it. */
  method SxParse(text: string, wide: char -> bool, cfg: Config, reg: Registry, tab: ComplexTable,
                 ghost avoid: set<object>)
    returns (r: Result<Value>, ghost cells: set<Cons>, ghost arrays: set<Array>)
    requires reg.Valid() && tab.Valid()
    modifies reg, tab
    ensures reg.Valid() && tab.Valid()
    ensures Keeps(old(TablesOf(reg, tab)), TablesOf(reg, tab))
    ensures cells !! avoid && arrays !! avoid
    ensures match ParseText(Input(text, wide, cfg))
      case Ok(t) => r.Ok? && Denotes(r.value, t, cfg.ignoreCase, TablesOf(reg, tab), cells, arrays)
      case Err(e) => r == Err(e)
  {
    var s := new Streamer(text, wide, cfg);
    r, cells, arrays := ReadObj(s, reg, tab, avoid);
  }
}
