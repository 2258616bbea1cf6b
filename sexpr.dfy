/** The S-expression data model: the Nil singleton, mutable Cons cells, interned Symbols and Chars,
    Strings, numbers, Complex numbers and Arrays. */
module Sexpr {
  import opened Base
  import opened Numbers
  import opened RatComplex

  /** Every Python object the library puts in an S-expression. `Nil` is the singleton NIL;
      `Nothing` is Python's None, which the reader leaves in `(quote None)` when input ends after a quote. */
  datatype Value =
    | Nil
    | Pair(cell: Cons)
    | Sym(sym: Symbol)
    | Chr(chr: Char)
    | Str(str: String)
    | Number(num: Num)
    | Cplx(cplx: Complex)
    | Arr(arr: Array)
    | Nothing

  /** A cons cell; both fields may be reassigned at any time. */
  class Cons {
    var car: Value
    var cdr: Value

    constructor (a: Value, d: Value)
      ensures car == a && cdr == d
    {
      car := a;
      cdr := d;
    }
  }

  /** An interned symbol; its text never changes. */
  class Symbol {
    const value: string

    constructor (v: string)
      ensures value == v
    {
      value := v;
    }
  }

  /** An interned character. */
  class Char {
    const value: char

    constructor (v: char)
      ensures value == v
    {
      value := v;
    }
  }

  /** A string object; equal texts may live in distinct objects. */
  class String {
    const value: string

    constructor (v: string)
      ensures value == v
    {
      value := v;
    }
  }

  /** An array: a dimension and a list (NIL or a Cons) holding its elements. */
  class Array {
    var dim: int
    var value: Value

    constructor (d: int, v: Value)
      requires IsList(v)
      ensures dim == d && value == v
    {
      dim := d;
      value := v;
    }
  }

  /** `listp`: NIL or a Cons. */
  predicate IsList(v: Value) { v.Nil? || v.Pair? }

  /** `car(c)`: NIL's car is NIL itself, a Cons gives its field, and any other object has no `car`
      attribute, which Python reports as an AttributeError. */
  function Car(v: Value): (r: Result<Value>)
    reads if v.Pair? then {v.cell} else {}
    ensures r.Ok? <==> IsList(v)
    ensures v.Nil? ==> r == Ok(Nil)
    ensures r.Err? ==> r.error == AttributeError
  {
    match v
    case Nil => Ok(Nil)
    case Pair(c) => Ok(c.car)
    case _ => Err(AttributeError)
  }

  /** `cdr(c)`, likewise. */
  function Cdr(v: Value): (r: Result<Value>)
    reads if v.Pair? then {v.cell} else {}
    ensures r.Ok? <==> IsList(v)
    ensures v.Nil? ==> r == Ok(Nil)
    ensures r.Err? ==> r.error == AttributeError
  {
    match v
    case Nil => Ok(Nil)
    case Pair(c) => Ok(c.cdr)
    case _ => Err(AttributeError)
  }

  // ------------------------------------------------------------------ heap footprints

  /** The object a value refers to lies in the given sets. */
  predicate Inside(v: Value, cells: set<Cons>, arrays: set<Array>)
  {
    (v.Pair? ==> v.cell in cells) && (v.Arr? ==> v.arr in arrays)
  }

  /** Every cdr that is a Cons stays inside `cells`: enough to follow a list's spine. */
  ghost predicate SpineClosed(cells: set<Cons>)
    reads cells
  {
    forall c | c in cells :: c.cdr.Pair? ==> c.cdr.cell in cells
  }

  /** `cells` and `arrays` hold everything reachable from themselves. */
  ghost predicate Closed(cells: set<Cons>, arrays: set<Array>)
    reads cells, arrays
  {
    && (forall c | c in cells :: Inside(c.car, cells, arrays) && Inside(c.cdr, cells, arrays))
    && (forall a | a in arrays :: IsList(a.value) && Inside(a.value, cells, arrays))
  }

  lemma ClosedSpine(cells: set<Cons>, arrays: set<Array>)
    requires Closed(cells, arrays)
    ensures SpineClosed(cells)
  {
  }
}
