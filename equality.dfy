/** Python `==` between S-expression values. Two Cons cells are equal when their `repr` texts are,
    and `repr` numbers every cell it enters, printing `<Cons at #k>` when it meets one again. */
module Equality {
  import opened Numbers
  import opened RatComplex
  import opened Sexpr

  /** What `repr` shows of a number: its type and its value. */
  datatype NumKey = KInt(i: int) | KFrac(n: int, d: int) | KFloat(v: real)

  /** What `repr` shows of an atom. */
  datatype AtomKey =
    | KNil | KNone | KSym(s: string) | KStr(s: string) | KChr(c: char)
    | KNum(n: NumKey) | KCplx(re: NumKey, im: NumKey)

  /** The pieces of a `repr` text: "Cons(", "Array(dim, ", the closing ")", "<Cons at #k>" and an atom's repr.
      The separators ", " sit at fixed places, so two texts are equal exactly when their pieces are. */
  datatype ReprItem = ROpen | RArray(dim: int) | RClose | RRef(k: nat) | RAtom(key: AtomKey)

  function NumKeyOf(n: Num): NumKey
  {
    match n
    case Int(i) => KInt(i)
    case Frac(a, b) => KFrac(a, b)
    case Float(t) => KFloat(DecimalValue(t))
  }

  function AtomKeyOf(v: Value): AtomKey
    requires !v.Pair? && !v.Arr?
  {
    match v
    case Nil => KNil
    case Nothing => KNone
    case Sym(s) => KSym(s.value)
    case Str(s) => KStr(s.value)
    case Chr(c) => KChr(c.value)
    case Number(n) => KNum(NumKeyOf(n))
    case Cplx(c) => KCplx(NumKeyOf(c.realPart), NumKeyOf(c.imagPart))
  }

  /** `__Sxpr2Repr`: the pieces of the repr of `v`, threading the table of cells already numbered. */
  function Repr(v: Value, occ: map<Cons, nat>, ghost cells: set<Cons>, ghost arrays: set<Array>)
    : (r: (seq<ReprItem>, map<Cons, nat>))
    requires Closed(cells, arrays) && Inside(v, cells, arrays) && occ.Keys <= cells
    reads cells, arrays
    ensures occ.Keys <= r.1.Keys <= cells
    decreases cells - occ.Keys, if v.Arr? then 1 else 0
  {
    match v
    case Pair(c) =>
      if c in occ then ([RRef(occ[c])], occ)
      else
        var occ1 := occ[c := |occ|];
        assert cells - occ1.Keys < cells - occ.Keys by { assert c in cells - occ.Keys; }
        var a := Repr(c.car, occ1, cells, arrays);
        var d := Repr(c.cdr, a.1, cells, arrays);
        ([ROpen] + a.0 + d.0 + [RClose], d.1)
    case Arr(x) =>
      var body := Repr(x.value, occ, cells, arrays);
      ([RArray(x.dim)] + body.0 + [RClose], body.1)
    case _ => ([RAtom(AtomKeyOf(v))], occ)
  }

  /** `repr(c)` for a Cons: a fresh numbering table. */
  function ConsRepr(c: Cons, ghost cells: set<Cons>, ghost arrays: set<Array>): seq<ReprItem>
    requires Closed(cells, arrays) && c in cells
    reads cells, arrays
  {
    Repr(Pair(c), map[], cells, arrays).0
  }

  /** Python `a == b`, following each type's `__eq__` and, where that declines, the reflected one. */
  predicate PyEq(a: Value, b: Value, ghost cells: set<Cons>, ghost arrays: set<Array>)
    requires Closed(cells, arrays) && Inside(a, cells, arrays) && Inside(b, cells, arrays)
    reads cells, arrays
  {
    match a
    case Nil => b.Nil?
    case Pair(c) => b.Pair? && ConsRepr(c, cells, arrays) == ConsRepr(b.cell, cells, arrays)
    case Sym(s) => b.Sym? && b.sym.value == s.value
    case Chr(ch) => (b.Chr? && b.chr.value == ch.value) || (b.Str? && b.str.value == [ch.value])
    case Str(st) => (b.Str? && b.str.value == st.value) || (b.Chr? && st.value == [b.chr.value])
    case Number(n) => (b.Number? && NumEq(n, b.num)) || (b.Cplx? && Equal(b.cplx, Plain(n)))
    case Cplx(c) =>
      (b.Cplx? && Equal(c, Cx(b.cplx.realPart, b.cplx.imagPart))) || (b.Number? && Equal(c, Plain(b.num)))
    case Arr(x) => b.Arr? && b.arr == x
    case Nothing => b.Nothing?
  }

  /** `a == b` and `b == a` always agree. */
  lemma PyEqSymmetric(a: Value, b: Value, cells: set<Cons>, arrays: set<Array>)
    requires Closed(cells, arrays) && Inside(a, cells, arrays) && Inside(b, cells, arrays)
    ensures PyEq(a, b, cells, arrays) == PyEq(b, a, cells, arrays)
  {
  }

  /** A Cons is never equal to anything but a Cons, and NIL only to NIL. */
  lemma ConsEqualsOnlyCons(a: Value, b: Value, cells: set<Cons>, arrays: set<Array>)
    requires Closed(cells, arrays) && Inside(a, cells, arrays) && Inside(b, cells, arrays)
    requires PyEq(a, b, cells, arrays)
    ensures a.Pair? <==> b.Pair?
    ensures a.Nil? <==> b.Nil?
  {
  }

  /** The repr of a one-element list `(s)` entered fresh: it takes the next number. */
  lemma {:induction false} SingletonRepr(x: Cons, s: Symbol, occ: map<Cons, nat>, cells: set<Cons>, arrays: set<Array>)
    requires Closed(cells, arrays) && x in cells && occ.Keys <= cells && x !in occ
    requires x.car == Sym(s) && x.cdr == Nil
    ensures Repr(Pair(x), occ, cells, arrays) == ([ROpen, RAtom(KSym(s.value)), RAtom(KNil), RClose], occ[x := |occ|])
  {
    var occ1 := occ[x := |occ|];
    var a := Repr(x.car, occ1, cells, arrays);
    assert a == ([RAtom(KSym(s.value))], occ1);
    var d := Repr(x.cdr, a.1, cells, arrays);
    assert d == ([RAtom(KNil)], occ1);
    assert Repr(Pair(x), occ, cells, arrays) == ([ROpen] + a.0 + d.0 + [RClose], d.1);
    assert [ROpen] + a.0 + d.0 + [RClose] == [ROpen, RAtom(KSym(s.value)), RAtom(KNil), RClose];
  }

  /** Entering a cell not yet numbered: number it, then the car's pieces and the cdr's inside parentheses. */
  lemma EnterCell(c: Cons, occ: map<Cons, nat>, cells: set<Cons>, arrays: set<Array>)
    requires Closed(cells, arrays) && c in cells && occ.Keys <= cells && c !in occ
    ensures var a := Repr(c.car, occ[c := |occ|], cells, arrays);
            var d := Repr(c.cdr, a.1, cells, arrays);
            Repr(Pair(c), occ, cells, arrays) == ([ROpen] + a.0 + d.0 + [RClose], d.1)
  {
  }

  lemma Nest(p: seq<ReprItem>, q: seq<ReprItem>)
    ensures [ROpen] + p + ([ROpen] + q + [RAtom(KNil)] + [RClose]) + [RClose]
         == [ROpen] + p + [ROpen] + q + [RAtom(KNil), RClose, RClose]
  {
  }

  /** The repr of the list `(p q)`, entered fresh, in terms of the reprs of `p` and `q`. */
  lemma {:induction false} PairListRepr(c1: Cons, c2: Cons, occ: map<Cons, nat>, cells: set<Cons>, arrays: set<Array>)
    requires Closed(cells, arrays) && c1 in cells && c2 in cells && occ.Keys <= cells
    requires c1 !in occ && c2 != c1 && c2 !in occ
    requires c1.cdr == Pair(c2) && c2.cdr == Nil
    ensures var o1 := occ[c1 := |occ|];
            var (p, o2) := Repr(c1.car, o1, cells, arrays);
            c2 !in o2 ==>
              var o3 := o2[c2 := |o2|];
              var (q, o4) := Repr(c2.car, o3, cells, arrays);
              Repr(Pair(c1), occ, cells, arrays).0 == [ROpen] + p + [ROpen] + q + [RAtom(KNil), RClose, RClose]
  {
    var o1 := occ[c1 := |occ|];
    var (p, o2) := Repr(c1.car, o1, cells, arrays);
    EnterCell(c1, occ, cells, arrays);
    if c2 !in o2 {
      var o3 := o2[c2 := |o2|];
      var (q, o4) := Repr(c2.car, o3, cells, arrays);
      EnterCell(c2, o2, cells, arrays);
      assert Repr(Nil, o4, cells, arrays) == ([RAtom(KNil)], o4);
      Nest(p, q);
    }
  }

  /** The repr of `(x x)`, both elements one cell `(s)`: the second is printed as `<Cons at #1>`. */
  lemma {:induction false} SharedListRepr(c1: Cons, c2: Cons, x: Cons, s: Symbol, cells: set<Cons>, arrays: set<Array>)
    requires Closed(cells, arrays) && c1 in cells && c2 in cells && x in cells
    requires c1.car == Pair(x) && c1.cdr == Pair(c2) && c2.car == Pair(x) && c2.cdr == Nil
    requires x.car == Sym(s) && x.cdr == Nil
    requires c1 != c2 && c1 != x && c2 != x
    ensures ConsRepr(c1, cells, arrays)
         == [ROpen, ROpen, RAtom(KSym(s.value)), RAtom(KNil), RClose, ROpen, RRef(1), RAtom(KNil), RClose, RClose]
  {
    var o1 := map[c1 := 0];
    SingletonRepr(x, s, o1, cells, arrays);
    var o2 := o1[x := 1];
    var o3 := o2[c2 := 2];
    assert Repr(Pair(x), o3, cells, arrays) == ([RRef(1)], o3);
    PairListRepr(c1, c2, map[], cells, arrays);
  }

  /** The repr of `(y z)`, two distinct cells `(s)`: both are printed in full. */
  lemma {:induction false} DistinctListRepr(d1: Cons, d2: Cons, y: Cons, z: Cons, s: Symbol, cells: set<Cons>, arrays: set<Array>)
    requires Closed(cells, arrays) && d1 in cells && d2 in cells && y in cells && z in cells
    requires d1.car == Pair(y) && d1.cdr == Pair(d2) && d2.car == Pair(z) && d2.cdr == Nil
    requires y.car == Sym(s) && y.cdr == Nil && z.car == Sym(s) && z.cdr == Nil
    requires d1 != d2 && d1 != y && d1 != z && d2 != y && d2 != z && y != z
    ensures ConsRepr(d1, cells, arrays)
         == [ROpen, ROpen, RAtom(KSym(s.value)), RAtom(KNil), RClose,
             ROpen, ROpen, RAtom(KSym(s.value)), RAtom(KNil), RClose, RAtom(KNil), RClose, RClose]
  {
    var single := [ROpen, RAtom(KSym(s.value)), RAtom(KNil), RClose];
    var p1 := map[d1 := 0];
    SingletonRepr(y, s, p1, cells, arrays);
    var p2 := p1[y := 1];
    assert Repr(d1.car, p1, cells, arrays) == (single, p2);
    var p3 := p2[d2 := 2];
    SingletonRepr(z, s, p3, cells, arrays);
    assert Repr(d2.car, p3, cells, arrays).0 == single;
    PairListRepr(d1, d2, map[], cells, arrays);
    assert ConsRepr(d1, cells, arrays) == [ROpen] + single + [ROpen] + single + [RAtom(KNil), RClose, RClose];
  }

  /** Equality of Cons cells is not structural: the list `(x x)` whose two elements are one cell `(s)`
      differs from `(y z)` whose elements are two distinct cells `(s)`, because repr prints the shared
      cell the second time as `<Cons at #1>`. */
  lemma {:induction false} SharingIsVisible(c1: Cons, c2: Cons, x: Cons, d1: Cons, d2: Cons, y: Cons, z: Cons,
                                            s: Symbol, cells: set<Cons>, arrays: set<Array>)
    requires Closed(cells, arrays) && {c1, c2, x, d1, d2, y, z} <= cells
    requires c1.car == Pair(x) && c1.cdr == Pair(c2) && c2.car == Pair(x) && c2.cdr == Nil
    requires x.car == Sym(s) && x.cdr == Nil
    requires d1.car == Pair(y) && d1.cdr == Pair(d2) && d2.car == Pair(z) && d2.cdr == Nil
    requires y.car == Sym(s) && y.cdr == Nil && z.car == Sym(s) && z.cdr == Nil
    requires c1 != c2 && c1 != x && c2 != x
    requires d1 != d2 && d1 != y && d1 != z && d2 != y && d2 != z && y != z
    ensures !PyEq(Pair(c1), Pair(d1), cells, arrays)
  {
    SharedListRepr(c1, c2, x, s, cells, arrays);
    DistinctListRepr(d1, d2, y, z, s, cells, arrays);
    assert ConsRepr(c1, cells, arrays)[6] != ConsRepr(d1, cells, arrays)[6];
  }
}
