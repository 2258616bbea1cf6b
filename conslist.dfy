/** The list side of Cons: length, indexing, index assignment, iteration and the list functions
    mklist, mkreverse, mkappend, nconc and member. Lists may be improper (ending in an atom) or
    cyclic; every walk counts the distinct cells it has met. */
module ConsList {
  import opened Base
  import opened Sexpr
  import opened Equality

  // ------------------------------------------------------------------ the spine of a list

  /** The cells met following cdr from `v`, stopping at a non-Cons or at a cell already in `seen`. */
  ghost function SpineFrom(v: Value, seen: set<Cons>, cells: set<Cons>): (s: seq<Cons>)
    requires SpineClosed(cells) && (v.Pair? ==> v.cell in cells) && seen <= cells
    reads cells
    ensures forall i | 0 <= i < |s| :: s[i] in cells && s[i] !in seen
    decreases cells - seen
  {
    if v.Pair? && v.cell !in seen then [v.cell] + SpineFrom(v.cell.cdr, seen + {v.cell}, cells) else []
  }

  /** The distinct cells of the list `v`, in order. */
  ghost function Spine(v: Value, cells: set<Cons>): seq<Cons>
    requires SpineClosed(cells) && (v.Pair? ==> v.cell in cells)
    reads cells
  {
    SpineFrom(v, {}, cells)
  }

  /** The cars of a sequence of cells. */
  ghost function Cars(cs: seq<Cons>): (r: seq<Value>)
    reads cs`car
    ensures |r| == |cs|
  {
    if cs == [] then [] else [cs[0].car] + Cars(cs[1..])
  }

  function Reverse<T>(s: seq<T>): (r: seq<T>)
    ensures |r| == |s|
  {
    if s == [] then [] else [s[|s| - 1]] + Reverse(s[..|s| - 1])
  }

  /** `cs` are distinct cells, each the cdr of the one before. */
  ghost predicate Linked(cs: seq<Cons>)
    reads cs`cdr
  {
    && (forall i, j | 0 <= i < j < |cs| :: cs[i] != cs[j])
    && (forall i {:trigger cs[i].cdr} | 0 <= i < |cs| - 1 :: cs[i].cdr == Pair(cs[i + 1]))
  }

  /** `v` is the list made of the cells `cs` whose last cdr is `end` (`v == end` when `cs` is empty). */
  ghost predicate ListOf(v: Value, cs: seq<Cons>, end: Value)
    reads cs`cdr
  {
    Linked(cs) && if cs == [] then v == end else v == Pair(cs[0]) && cs[|cs| - 1].cdr == end
  }

  /** The end of a list closes it: an atom, or a cell of the list itself (a cycle). */
  predicate Closes(end: Value, cs: seq<Cons>)
  {
    !end.Pair? || end.cell in cs
  }

  /** The spine of any list is linked and stops where the list ends or turns back. */
  lemma {:induction false} SpineIsLinked(v: Value, seen: set<Cons>, cells: set<Cons>)
    requires SpineClosed(cells) && (v.Pair? ==> v.cell in cells) && seen <= cells
    ensures var s := SpineFrom(v, seen, cells);
            && Linked(s)
            && (s == [] <==> !v.Pair? || v.cell in seen)
            && (s != [] ==> v == Pair(s[0]) && (!s[|s| - 1].cdr.Pair? || s[|s| - 1].cdr.cell in seen || s[|s| - 1].cdr.cell in s))
    decreases cells - seen
  {
    if v.Pair? && v.cell !in seen {
      var c := v.cell;
      SpineIsLinked(c.cdr, seen + {c}, cells);
      var t := SpineFrom(c.cdr, seen + {c}, cells);
      var s := SpineFrom(v, seen, cells);
      assert s == [c] + t;
      if t != [] {
        assert t[|t| - 1] == s[|s| - 1];
      }
    }
  }

  /** Conversely, a linked run of cells that closes is exactly the spine from its first cell. */
  lemma {:induction false} LinkedIsSpine(cs: seq<Cons>, end: Value, seen: set<Cons>, cells: set<Cons>)
    requires SpineClosed(cells) && seen <= cells
    requires cs != [] && ListOf(Pair(cs[0]), cs, end)
    requires forall i | 0 <= i < |cs| :: cs[i] in cells && cs[i] !in seen
    requires !end.Pair? || end.cell in seen || end.cell in cs
    ensures SpineFrom(Pair(cs[0]), seen, cells) == cs
    decreases |cs|
  {
    var rest := cs[1..];
    if rest != [] {
      assert cs[0].cdr == Pair(rest[0]);
      LinkedIsSpine(rest, end, seen + {cs[0]}, cells);
    }
  }

  /** The spine of a list is the list's own cells, whatever it ends in: n cells for a proper list,
      one for a dotted pair `(a . b)`, and the distinct cells once for a cyclic list. */
  lemma SpineOfList(v: Value, cs: seq<Cons>, end: Value, cells: set<Cons>)
    requires SpineClosed(cells) && (forall i | 0 <= i < |cs| :: cs[i] in cells)
    requires ListOf(v, cs, end) && Closes(end, cs) && (v.Pair? ==> v.cell in cells)
    ensures Spine(v, cells) == cs
  {
    if cs != [] {
      LinkedIsSpine(cs, end, {}, cells);
    }
  }

  // ------------------------------------------------------------------ len

  /** `len(v)` for NIL or a Cons: the number of distinct cells along the cdr chain. */
  method Length(v: Value, ghost cells: set<Cons>) returns (n: nat)
    requires SpineClosed(cells) && IsList(v) && (v.Pair? ==> v.cell in cells)
    ensures n == |Spine(v, cells)|
  {
    if v.Nil? {
      return 0;
    }
    var c := v.cell;
    n := 1;
    var occurrence := {c};
    ghost var path := [c];
    assert {} + {c} == occurrence;
    assert Spine(v, cells) == path + SpineFrom(c.cdr, occurrence, cells);
    while c.cdr.Pair? && c.cdr.cell !in occurrence
      invariant c in cells && occurrence <= cells && path != [] && c == path[|path| - 1]
      invariant n == |path| && occurrence == set x | x in path
      invariant Spine(v, cells) == path + SpineFrom(c.cdr, occurrence, cells)
      decreases cells - occurrence
    {
      var d := c.cdr.cell;
      assert SpineFrom(c.cdr, occurrence, cells) == [d] + SpineFrom(d.cdr, occurrence + {d}, cells);
      n := n + 1;
      occurrence := occurrence + {d};
      path := path + [d];
      c := d;
    }
  }

  // ------------------------------------------------------------------ indexing

  /** Taking `m` cdrs from `v`: NIL's cdr is NIL again, and an atom has none. */
  ghost function Walk(v: Value, m: nat, cells: set<Cons>): (r: Result<Value>)
    requires SpineClosed(cells) && (v.Pair? ==> v.cell in cells)
    reads cells
    ensures r.Ok? && r.value.Pair? ==> r.value.cell in cells
    decreases m
  {
    if m == 0 then Ok(v)
    else if v.Pair? then Walk(v.cell.cdr, m - 1, cells)
    else if v.Nil? then Walk(Nil, m - 1, cells)
    else Err(IndexError)
  }

  /** What `c[n]` gives: the car of the cell `n` cdrs on, or the atom found there. */
  ghost function GetItemSpec(c: Cons, n: int, cells: set<Cons>): Result<Value>
    requires SpineClosed(cells) && c in cells
    reads cells
  {
    if n < 0 then Err(IndexError)
    else match Walk(Pair(c), n, cells)
      case Ok(x) => Ok(if x.Pair? then x.cell.car else x)
      case Err(e) => Err(e)
  }

  /** `c[n]` (`Cons.__getitem__`). */
  method GetItem(c: Cons, n: int, ghost cells: set<Cons>) returns (r: Result<Value>)
    requires SpineClosed(cells) && c in cells
    ensures r == GetItemSpec(c, n, cells)
  {
    if n < 0 {
      return Err(IndexError);
    }
    var m := n;
    var cur := Pair(c);
    while m > 0
      invariant 0 <= m <= n && (cur.Pair? ==> cur.cell in cells)
      invariant Walk(Pair(c), n, cells) == Walk(cur, m, cells)
    {
      if !(cur.Pair? || cur.Nil?) {
        return Err(IndexError);
      }
      cur := if cur.Pair? then cur.cell.cdr else Nil;
      m := m - 1;
    }
    r := Ok(if cur.Pair? then cur.cell.car else cur);
  }

  lemma {:induction false} WalkNil(m: nat, cells: set<Cons>)
    requires SpineClosed(cells)
    ensures Walk(Nil, m, cells) == Ok(Nil)
  {
    if m > 0 {
      WalkNil(m - 1, cells);
    }
  }

  /** Walking along a list from its `k`-th cell. */
  lemma {:induction false} WalkAlong(cs: seq<Cons>, end: Value, k: nat, m: nat, cells: set<Cons>)
    requires SpineClosed(cells) && (forall i | 0 <= i < |cs| :: cs[i] in cells)
    requires k < |cs| && ListOf(Pair(cs[0]), cs, end)
    ensures k + m < |cs| ==> Walk(Pair(cs[k]), m, cells) == Ok(Pair(cs[k + m]))
    ensures k + m >= |cs| && (end.Pair? ==> end.cell in cells) ==> Walk(Pair(cs[k]), m, cells) == Walk(end, k + m - |cs|, cells)
    decreases m
  {
    if m > 0 {
      if k + 1 < |cs| {
        WalkAlong(cs, end, k + 1, m - 1, cells);
      }
    }
  }

  /** Indexing a list that ends in an atom: below the number of cells gives that cell's car; past it,
      a proper list gives NIL for every index, while an improper list gives its tail at exactly the
      number of cells and fails beyond. A negative index always fails. */
  lemma IndexOnList(cs: seq<Cons>, end: Value, n: int, cells: set<Cons>)
    requires SpineClosed(cells) && (forall i | 0 <= i < |cs| :: cs[i] in cells)
    requires cs != [] && ListOf(Pair(cs[0]), cs, end) && !end.Pair?
    ensures GetItemSpec(cs[0], n, cells)
         == if n < 0 then Err(IndexError)
            else if n < |cs| then Ok(cs[n].car)
            else if end.Nil? then Ok(Nil)
            else if n == |cs| then Ok(end)
            else Err(IndexError)
  {
    if n >= 0 {
      WalkAlong(cs, end, 0, n, cells);
      if n >= |cs| && end.Nil? {
        WalkNil(n - |cs|, cells);
      }
    }
  }

  /** Walking `a + b` steps is walking `a`, then `b`. */
  lemma {:induction false} WalkAdd(v: Value, a: nat, b: nat, cells: set<Cons>)
    requires SpineClosed(cells) && (v.Pair? ==> v.cell in cells)
    requires Walk(v, a, cells).Ok?
    ensures Walk(v, a + b, cells) == Walk(Walk(v, a, cells).value, b, cells)
    decreases a
  {
    if a > 0 {
      if v.Pair? {
        WalkAdd(v.cell.cdr, a - 1, b, cells);
      } else {
        WalkAdd(Nil, a - 1, b, cells);
      }
    }
  }

  /** On a cyclic list, indices from the start of the cycle on repeat with the cycle's length:
      together with the first cells' cars this fixes every index. */
  lemma IndexOnCycle(cs: seq<Cons>, j: nat, n: int, cells: set<Cons>)
    requires SpineClosed(cells) && (forall i | 0 <= i < |cs| :: cs[i] in cells)
    requires j < |cs| && ListOf(Pair(cs[0]), cs, Pair(cs[j])) && n >= 0
    ensures n < |cs| ==> GetItemSpec(cs[0], n, cells) == Ok(cs[n].car)
    ensures n >= j ==> GetItemSpec(cs[0], n + (|cs| - j), cells) == GetItemSpec(cs[0], n, cells)
  {
    var l := |cs| - j;
    var head := Pair(cs[0]);
    var loop := Pair(cs[j]);
    WalkAlong(cs, loop, 0, n, cells);
    if n >= j {
      // from the start of the cycle, l steps come back to it
      WalkAlong(cs, loop, j, l, cells);
      assert Walk(loop, l, cells) == Ok(loop);
      WalkAlong(cs, loop, 0, j, cells);
      WalkAdd(head, j, n - j, cells);
      WalkAdd(head, j, n - j + l, cells);
      WalkAdd(loop, l, n - j, cells);
      assert n - j + l == l + (n - j);
    }
  }

  // ------------------------------------------------------------------ index assignment

  /** The field `c[n] = x` writes: a car, or the cdr that ends the list. */
  datatype Slot = CarOf(cell: Cons) | CdrOf(cell: Cons)

  /** The slot `m` cdrs on from `c`: the car of a cell, or, one step past the last cell, that cell's cdr. */
  ghost function SetWalk(c: Cons, m: nat, cells: set<Cons>): (r: Result<Slot>)
    requires SpineClosed(cells) && c in cells
    reads cells
    ensures r.Ok? ==> r.value.cell in cells
    decreases m
  {
    if m == 0 then Ok(CarOf(c))
    else if c.cdr.Pair? then SetWalk(c.cdr.cell, m - 1, cells)
    else if m == 1 then Ok(CdrOf(c))
    else Err(IndexError)
  }

  ghost function SetTarget(c: Cons, n: int, cells: set<Cons>): (r: Result<Slot>)
    requires SpineClosed(cells) && c in cells
    reads cells
  {
    if n < 0 then Err(IndexError) else SetWalk(c, n, cells)
  }

  /** `c[n] = x` (`Cons.__setitem__`): writes the one slot `SetTarget` names and nothing else,
      or fails without changing anything. */
  method SetItem(c: Cons, n: int, x: Value, ghost cells: set<Cons>) returns (r: Result<()>)
    requires SpineClosed(cells) && c in cells
    modifies cells
    ensures r.Err? <==> old(SetTarget(c, n, cells)).Err?
    ensures r.Err? ==> r.error == IndexError
    ensures old(SetTarget(c, n, cells)).Ok? ==>
              match old(SetTarget(c, n, cells)).value
              case CarOf(t) => t.car == x && t.cdr == old(t.cdr)
              case CdrOf(t) => t.cdr == x && t.car == old(t.car)
    ensures forall d | d in cells && (old(SetTarget(c, n, cells)).Err? || d != old(SetTarget(c, n, cells)).value.cell)
              :: d.car == old(d.car) && d.cdr == old(d.cdr)
  {
    if n < 0 {
      return Err(IndexError);
    }
    var m := n;
    var cur := Pair(c);
    var prev := c;
    while m > 0
      invariant 0 <= m <= n && (cur.Pair? ==> cur.cell in cells) && prev in cells
      invariant m < n ==> cur == prev.cdr
      invariant m == n ==> cur == Pair(c)
      invariant m < n && !cur.Pair? ==> SetTarget(c, n, cells) == (if m == 0 then Ok(CdrOf(prev)) else Err(IndexError))
      invariant cur.Pair? ==> SetTarget(c, n, cells) == SetWalk(cur.cell, m, cells)
    {
      if !cur.Pair? {
        return Err(IndexError);
      }
      prev := cur.cell;
      cur := cur.cell.cdr;
      m := m - 1;
    }
    if !cur.Pair? {
      prev.cdr := x;
    } else {
      cur.cell.car := x;
    }
    r := Ok(());
  }

  /** Index assignment on a list that ends in an atom: an index below the number of cells replaces
      that cell's car, the number of cells itself replaces the final cdr, anything larger fails. */
  lemma {:induction false} SetTargetOnList(cs: seq<Cons>, end: Value, k: nat, m: nat, cells: set<Cons>)
    requires SpineClosed(cells) && (forall i | 0 <= i < |cs| :: cs[i] in cells)
    requires k < |cs| && ListOf(Pair(cs[0]), cs, end) && !end.Pair?
    ensures SetWalk(cs[k], m, cells)
         == if k + m < |cs| then Ok(CarOf(cs[k + m]))
            else if k + m == |cs| then Ok(CdrOf(cs[|cs| - 1]))
            else Err(IndexError)
    decreases m
  {
    if m > 0 && k + 1 < |cs| {
      SetTargetOnList(cs, end, k + 1, m - 1, cells);
    }
  }

  lemma SetItemOnList(cs: seq<Cons>, end: Value, n: int, cells: set<Cons>)
    requires SpineClosed(cells) && (forall i | 0 <= i < |cs| :: cs[i] in cells)
    requires cs != [] && ListOf(Pair(cs[0]), cs, end) && !end.Pair?
    ensures SetTarget(cs[0], n, cells)
         == if n < 0 then Err(IndexError)
            else if n < |cs| then Ok(CarOf(cs[n]))
            else if n == |cs| then Ok(CdrOf(cs[|cs| - 1]))
            else Err(IndexError)
  {
    if n >= 0 {
      SetTargetOnList(cs, end, 0, n, cells);
    }
  }

  // ------------------------------------------------------------------ iteration

  /** What iterating `v` yields when the cells in `seen` have been visited: the cars along the spine,
      then the tail of an improper list; NIL and a revisited cell yield nothing more. */
  ghost function ElementsFrom(v: Value, seen: set<Cons>, cells: set<Cons>): seq<Value>
    requires SpineClosed(cells) && (v.Pair? ==> v.cell in cells) && seen <= cells
    reads cells
    decreases cells - seen
  {
    if v.Nil? then []
    else if v.Pair? then
      if v.cell in seen then [] else [v.cell.car] + ElementsFrom(v.cell.cdr, seen + {v.cell}, cells)
    else [v]
  }

  /** The elements start with the cars of the spine, and the tail adds at most one more. */
  lemma {:induction false} ElementsExtendSpine(v: Value, seen: set<Cons>, cells: set<Cons>)
    requires SpineClosed(cells) && (v.Pair? ==> v.cell in cells) && seen <= cells
    ensures var e, s := ElementsFrom(v, seen, cells), SpineFrom(v, seen, cells);
            |s| <= |e| <= |s| + 1 && e[..|s|] == Cars(s)
    decreases cells - seen
  {
    if v.Pair? && v.cell !in seen {
      ElementsExtendSpine(v.cell.cdr, seen + {v.cell}, cells);
    }
  }

  /** `_ConsIterator`: the object a `for` loop over a Cons or NIL steps through. */
  class ConsIterator {
    var cons: Value
    var occurrence: set<Cons>
    ghost const cells: set<Cons>

    ghost predicate Valid()
      reads this, cells
    {
      SpineClosed(cells) && (cons.Pair? ==> cons.cell in cells) && occurrence <= cells
    }

    /** What the coming calls of `Next` yield before they stop. */
    ghost function Remaining(): seq<Value>
      requires Valid()
      reads this, cells
    {
      ElementsFrom(cons, occurrence, cells)
    }

    constructor (v: Value, ghost cells: set<Cons>)
      requires SpineClosed(cells) && (v.Pair? ==> v.cell in cells)
      ensures Valid() && this.cells == cells && Remaining() == ElementsFrom(v, {}, cells)
    {
      cons := v;
      occurrence := {};
      this.cells := cells;
    }

    /** `__next__`: the next element, or `None` for StopIteration. Stopping forgets the visited
        cells, so a call after stopping on a cycle starts round it again. */
    method Next() returns (r: Option<Value>)
      requires Valid()
      modifies this
      ensures Valid()
      ensures old(Remaining()) == [] ==> r == None && Remaining() == ElementsFrom(cons, {}, cells) && cons == old(cons)
      ensures old(Remaining()) != [] ==> r == Some(old(Remaining())[0]) && Remaining() == old(Remaining())[1..]
    {
      if cons.Nil? || (cons.Pair? && cons.cell in occurrence) {
        occurrence := {};
        return None;
      }
      if cons.Pair? {
        r := Some(cons.cell.car);
        occurrence := occurrence + {cons.cell};
        cons := cons.cell.cdr;
      } else {
        r := Some(cons);
        cons := Nil;
      }
    }
  }

  // ------------------------------------------------------------------ list functions

  /** A cell whose cdr is a list extends that list at the front. */
  lemma Prepend(cell: Cons, v: Value, cs: seq<Cons>, end: Value)
    requires ListOf(v, cs, end) && cell !in cs && cell.cdr == v
    ensures ListOf(Pair(cell), [cell] + cs, end) && Cars([cell] + cs) == [cell.car] + Cars(cs)
  {
    assert ([cell] + cs)[1..] == cs;
  }

  /** `Cons(x, v)` in front of a list: a fresh cell that extends it. */
  method Push(x: Value, v: Value, ghost cs: seq<Cons>, ghost end: Value) returns (r: Value, ghost cs': seq<Cons>)
    requires ListOf(v, cs, end)
    ensures r.Pair? && fresh(r.cell) && cs' == [r.cell] + cs
    ensures ListOf(r, cs', end) && Cars(cs') == [x] + Cars(cs)
  {
    var cell := new Cons(x, v);
    Prepend(cell, v, cs, end);
    r := Pair(cell);
    cs' := [cell] + cs;
  }

  lemma DropFirst<T>(s: seq<T>, i: nat)
    requires i < |s|
    ensures s[i..] == [s[i]] + s[i + 1..]
  {
  }

  /** `mklist(*args)`: a fresh proper list of the arguments. */
  method MkList(args: seq<Value>) returns (r: Value, ghost cs: seq<Cons>)
    ensures ListOf(r, cs, Nil) && Cars(cs) == args
    ensures forall c | c in cs :: fresh(c)
  {
    r := Nil;
    cs := [];
    var i := |args|;
    while i > 0
      invariant 0 <= i <= |args|
      invariant ListOf(r, cs, Nil) && Cars(cs) == args[i..]
      invariant forall c | c in cs :: fresh(c)
    {
      i := i - 1;
      DropFirst(args, i);
      r, cs := Push(args[i], r, cs, Nil);
    }
  }

  lemma ReverseSnoc<T>(s: seq<T>, x: T)
    ensures Reverse(s + [x]) == [x] + Reverse(s)
  {
    assert (s + [x])[..|s|] == s;
  }

  lemma TakeOne<T>(s: seq<T>, taken: seq<T>, x: T)
    requires |taken| < |s| && taken == s[..|taken|] && s[|taken|..][0] == x
    ensures taken + [x] == s[..|taken| + 1] && s[|taken| + 1..] == s[|taken|..][1..]
  {
  }

  lemma ReversePrefix<T>(s: seq<T>, k: nat)
    requires k < |s|
    ensures Reverse(s[..k + 1]) == [s[k]] + Reverse(s[..k])
  {
    assert s[..k + 1] == s[..k] + [s[k]];
    ReverseSnoc(s[..k], s[k]);
  }

  /** What holds between two steps of the `for` loop of `mkreverse`: `k` elements have been taken
      and put in front of `res`, and `x` is what the iterator gave next. */
  ghost predicate Reversing(it: ConsIterator, x: Option<Value>, res: Value, cs: seq<Cons>, elements: seq<Value>, k: nat)
    reads it, it.cells, cs`cdr, cs`car
  {
    && it.Valid() && k <= |elements|
    && (x.Some? ==> k < |elements| && x.value == elements[k] && it.Remaining() == elements[k + 1..])
    && (x.None? ==> k == |elements|)
    && ListOf(res, cs, Nil) && Cars(cs) == Reverse(elements[..k])
  }

  /** The loop state with its counter: `m` of the `n` elements still to take, `n - m` taken. */
  ghost predicate Pushing(it: ConsIterator, x: Option<Value>, res: Value, cs: seq<Cons>, elements: seq<Value>, n: nat, m: nat)
    reads it, it.cells, cs`cdr, cs`car
  {
    m <= n <= |elements| && Reversing(it, x, res, cs, elements, n - m)
  }

  /** One step of that loop: put the element in front, then ask the iterator for the next. */
  method PushNext(it: ConsIterator, x: Value, res: Value, ghost cs: seq<Cons>, ghost elements: seq<Value>,
                  ghost n: nat, m: nat)
    returns (x': Option<Value>, res': Value, ghost cs': seq<Cons>, m': nat)
    requires Pushing(it, Some(x), res, cs, elements, n, m) && m >= 1
    modifies it
    ensures Pushing(it, x', res', cs', elements, n, m') && m' == m - 1
    ensures forall c | c in cs' :: c in cs || fresh(c)
  {
    ReversePrefix(elements, n - m);
    res', cs' := Push(x, res, cs, Nil);
    x' := it.Next();
    m' := m - 1;
  }

  /** The first step of that loop: ask the iterator for an element, with nothing taken yet. */
  method StartReversing(it: ConsIterator, n: nat) returns (x: Option<Value>)
    requires it.Valid() && n <= |it.Remaining()|
    modifies it
    ensures Pushing(it, x, Nil, [], old(it.Remaining()), n, n)
  {
    x := it.Next();
  }

  lemma ReversingDone(it: ConsIterator, x: Option<Value>, res: Value, cs: seq<Cons>, elements: seq<Value>, n: nat, m: nat)
    requires Pushing(it, x, res, cs, elements, n, m) && (x.None? || m == 0)
    ensures ListOf(res, cs, Nil) && Cars(cs) == Reverse(elements[..n])
  {
  }

  /** The `for` loop of `mkreverse`: steps the iterator, stopping when it stops or when an element
      arrives after `n` have been put in front of the result. */
  method PushElements(it: ConsIterator, n: nat) returns (res: Value, ghost cs: seq<Cons>)
    requires it.Valid() && n <= |it.Remaining()|
    modifies it
    ensures ListOf(res, cs, Nil) && Cars(cs) == Reverse(old(it.Remaining())[..n])
    ensures forall c | c in cs :: fresh(c)
  {
    ghost var elements := it.Remaining();
    var m := n;
    res := Nil;
    cs := [];
    var x := StartReversing(it, n);
    while x.Some? && m >= 1
      invariant Pushing(it, x, res, cs, elements, n, m)
      invariant forall c | c in cs :: fresh(c)
    {
      x, res, cs, m := PushNext(it, x.value, res, cs, elements, n, m);
    }
    ReversingDone(it, x, res, cs, elements, n, m);
  }

  /** `mkreverse(l)`: a fresh proper list of the elements of `l` in reverse order. It iterates `l` but
      takes only as many elements as `len(l)`, so the tail of an improper list is dropped and a cyclic
      list gives each distinct cell's car once. */
  method MkReverse(l: Value, ghost cells: set<Cons>) returns (r: Result<Value>, ghost cs: seq<Cons>)
    requires SpineClosed(cells) && (l.Pair? ==> l.cell in cells)
    ensures r.Err? <==> !IsList(l)
    ensures r.Err? ==> r.error == TypeError
    ensures r.Ok? ==> ListOf(r.value, cs, Nil) && Cars(cs) == Reverse(Cars(Spine(l, cells)))
    ensures forall c | c in cs :: fresh(c)
  {
    cs := [];
    if !IsList(l) {
      return Err(TypeError), cs;
    }
    var n := Length(l, cells);
    ElementsExtendSpine(l, {}, cells);
    var it := new ConsIterator(l, cells);
    var res;
    res, cs := PushElements(it, n);
    r := Ok(res);
  }

  lemma {:induction false} CarsSnoc(cs: seq<Cons>, d: Cons)
    ensures Cars(cs + [d]) == Cars(cs) + [d.car]
  {
    if cs != [] {
      assert (cs + [d])[1..] == cs[1..] + [d];
      CarsSnoc(cs[1..], d);
    }
  }

  /** Set the cdr that ends a linked run of cells: the run becomes a list ending in `v`. */
  method SetLastCdr(c: Cons, v: Value, ghost cs: seq<Cons>)
    requires cs != [] && c == cs[|cs| - 1] && Linked(cs)
    modifies c
    ensures c.cdr == v && c.car == old(c.car)
    ensures ListOf(Pair(cs[0]), cs, v) && Cars(cs) == old(Cars(cs))
  {
    c.cdr := v;
  }

  lemma LinkedSnoc(cs: seq<Cons>, d: Cons)
    requires cs != [] && Linked(cs) && d !in cs && cs[|cs| - 1].cdr == Pair(d)
    ensures Linked(cs + [d])
  {
    var t := cs + [d];
    forall i | 0 <= i < |t| - 1
      ensures t[i].cdr == Pair(t[i + 1])
    {
      if i < |cs| - 1 {
        assert t[i] == cs[i] && t[i + 1] == cs[i + 1];
      }
    }
  }

  /** Hang a fresh cell holding `x` after the last of a linked run. */
  method Extend(c: Cons, x: Value, ghost cs: seq<Cons>) returns (d: Cons, ghost cs': seq<Cons>)
    requires cs != [] && c == cs[|cs| - 1] && Linked(cs)
    modifies c
    ensures fresh(d) && d.cdr == Nil && cs' == cs + [d]
    ensures Linked(cs') && Cars(cs') == old(Cars(cs)) + [x]
  {
    d := new Cons(x, Nil);
    SetLastCdr(c, Pair(d), cs);
    cs' := cs + [d];
    LinkedSnoc(cs, d);
    CarsSnoc(cs, d);
  }

  /** Midway through the copying loop of `mkappend`: `cs` copies the first `|cs|` cells of the run
      `sp`, the copy ends in `last`, and `l` is the next cell to copy. */
  ghost predicate Copying(cs: seq<Cons>, sp: seq<Cons>, l: Value, last: Cons)
    reads cs`cdr, cs`car, sp`cdr, sp`car
  {
    && cs != [] && last == cs[|cs| - 1] && last !in sp && |cs| <= |sp|
    && Linked(cs) && Linked(sp) && Cars(cs) == Cars(sp[..|cs|])
    && (|cs| < |sp| ==> l == Pair(sp[|cs|]))
  }

  /** One turn of the copying loop: a fresh copy of the car of `l` is hung after `last`. */
  method CopyOne(last: Cons, l: Value, ghost cs: seq<Cons>, ghost sp: seq<Cons>)
    returns (last': Cons, l': Value, ghost cs': seq<Cons>)
    requires Copying(cs, sp, l, last) && |cs| < |sp|
    modifies last
    ensures Copying(cs', sp, l', last') && fresh(last') && cs' == cs + [last']
    ensures Cars(sp) == old(Cars(sp))
  {
    var k := |cs|;
    assert sp[..k + 1] == sp[..k] + [sp[k]];
    CarsSnoc(sp[..k], sp[k]);
    last', cs' := Extend(last, l.cell.car, cs);
    l' := l.cell.cdr;
  }

  /** The copying loop of `mkappend`: `n` more copies are hung after `last`. */
  method CopyCells(last: Cons, l: Value, n: nat, ghost cs: seq<Cons>, ghost sp: seq<Cons>)
    returns (last': Cons, ghost cs': seq<Cons>)
    requires Copying(cs, sp, l, last) && |cs| + n == |sp|
    modifies last
    ensures Copying(cs', sp, l, last') && |cs'| == |sp| && cs'[0] == cs[0]
    ensures Cars(sp) == old(Cars(sp))
    ensures forall x | x in cs' :: x in cs || fresh(x)
    ensures last' == last || fresh(last')
  {
    last' := last;
    cs' := cs;
    var l := l;
    var n := n;
    while n > 0
      invariant Copying(cs', sp, l, last') && |cs'| + n == |sp| && cs'[0] == cs[0]
      invariant forall x | x in cs' :: x in cs || fresh(x)
      invariant last' == last || fresh(last')
      invariant Cars(sp) == old(Cars(sp))
    {
      ghost var before := cs';
      last', l, cs' := CopyOne(last', l, cs', sp);
      assert forall x | x in cs' :: x in before || x == last';
      n := n - 1;
    }
  }

  /** The Cons branch of `mkappend`: copy the `len` cells of the run `sp` and end the copy in `l2`. */
  method CopyList(first: Cons, l2: Value, len: nat, ghost sp: seq<Cons>) returns (ret: Cons, ghost cs: seq<Cons>)
    requires Linked(sp) && |sp| == len && len > 0 && sp[0] == first
    ensures ListOf(Pair(ret), cs, l2) && Cars(cs) == old(Cars(sp))
    ensures forall c | c in cs :: fresh(c)
  {
    ret := new Cons(first.car, Nil);
    cs := [ret];
    assert Cars(cs) == Cars(sp[..1]);
    var c;
    c, cs := CopyCells(ret, first.cdr, len - 1, cs, sp);
    assert sp[..|cs|] == sp;
    SetLastCdr(c, l2, cs);
  }

  /** `mkappend(l1, l2)`: NIL gives `l2` itself; a Cons gives fresh copies of the cells of `l1`,
      one per distinct cell, whose last cdr is `l2` (shared, not copied); anything else fails. */
  method MkAppend(l1: Value, l2: Value, ghost cells: set<Cons>) returns (r: Result<Value>, ghost cs: seq<Cons>)
    requires SpineClosed(cells) && (l1.Pair? ==> l1.cell in cells)
    ensures r.Err? <==> !IsList(l1)
    ensures r.Err? ==> r.error == TypeError
    ensures l1.Nil? ==> r == Ok(l2)
    ensures l1.Pair? ==> r.Ok? && ListOf(r.value, cs, l2) && Cars(cs) == Cars(Spine(l1, cells))
    ensures forall c | c in cs :: fresh(c)
  {
    cs := [];
    if l1.Nil? {
      return Ok(l2), cs;
    }
    if !l1.Pair? {
      return Err(TypeError), cs;
    }
    var len := Length(l1, cells);
    SpineIsLinked(l1, {}, cells);
    var ret;
    ret, cs := CopyList(l1.cell, l2, len, Spine(l1, cells));
    r := Ok(Pair(ret));
  }

  /** The last distinct cell of a Cons list: `len(l) - 1` steps along the cdrs. */
  method LastCell(l: Value, ghost cells: set<Cons>) returns (c: Cons, ghost sp: seq<Cons>)
    requires SpineClosed(cells) && l.Pair? && l.cell in cells
    ensures sp == Spine(l, cells) && sp != [] && c == sp[|sp| - 1] && Linked(sp)
  {
    var len := Length(l, cells);
    sp := Spine(l, cells);
    SpineIsLinked(l, {}, cells);
    var n := len - 1;
    c := l.cell;
    while n > 0
      invariant 0 <= n < |sp| && c == sp[|sp| - 1 - n]
    {
      c := c.cdr.cell;
      n := n - 1;
    }
  }

  /** `nconc(l1, l2)`: NIL gives `l2`; a Cons has the cdr of its last distinct cell replaced by `l2`
      (dropping an improper tail, or breaking a cycle) and is returned; anything else fails. */
  method Nconc(l1: Value, l2: Value, ghost cells: set<Cons>) returns (r: Result<Value>)
    requires SpineClosed(cells) && (l1.Pair? ==> l1.cell in cells)
    modifies cells
    ensures r.Err? <==> !IsList(l1)
    ensures r.Err? ==> r.error == TypeError
    ensures !l1.Pair? ==> unchanged(cells)
    ensures l1.Nil? ==> r == Ok(l2)
    ensures l1.Pair? ==> r == Ok(l1) && ListOf(l1, old(Spine(l1, cells)), l2)
    ensures l1.Pair? ==> forall d | d in cells :: d.car == old(d.car)
    ensures l1.Pair? ==> forall d | d in cells && d != old(Spine(l1, cells))[|old(Spine(l1, cells))| - 1] :: d.cdr == old(d.cdr)
  {
    if l1.Nil? {
      return Ok(l2);
    }
    if !l1.Pair? {
      return Err(TypeError);
    }
    ghost var sp;
    var c;
    c, sp := LastCell(l1, cells);
    SetLastCdr(c, l2, sp);
    r := Ok(l1);
  }

  /** Midway through the loop of `member`: `c` is cell `k` of the spine `sp`, `n` cells remain to be
      looked at, and no earlier car equals `s`. */
  ghost predicate Searching(s: Value, sp: seq<Cons>, k: nat, c: Cons, n: int, cells: set<Cons>, arrays: set<Array>)
    reads cells, arrays
  {
    && Closed(cells, arrays) && Inside(s, cells, arrays)
    && (forall i | 0 <= i < |sp| :: sp[i] in cells)
    && Linked(sp) && k < |sp| && c == sp[k] && n == |sp| - k
    && forall j | 0 <= j < k :: !PyEq(s, sp[j].car, cells, arrays)
  }

  lemma SearchStep(s: Value, sp: seq<Cons>, k: nat, c: Cons, n: int, cells: set<Cons>, arrays: set<Array>)
    requires Searching(s, sp, k, c, n, cells, arrays) && n >= 2 && !PyEq(s, c.car, cells, arrays)
    ensures c.cdr.Pair? && Searching(s, sp, k + 1, c.cdr.cell, n - 1, cells, arrays)
  {
  }

  lemma SearchEnd(s: Value, sp: seq<Cons>, k: nat, c: Cons, n: int, cells: set<Cons>, arrays: set<Array>)
    requires Searching(s, sp, k, c, n, cells, arrays)
    ensures PyEq(s, c.car, cells, arrays) ==> exists i | 0 <= i < |sp| ::
                   && c == sp[i] && PyEq(s, sp[i].car, cells, arrays)
                   && forall j | 0 <= j < i :: !PyEq(s, sp[j].car, cells, arrays)
    ensures !PyEq(s, c.car, cells, arrays) && n < 2 ==> forall i | 0 <= i < |sp| :: !PyEq(s, sp[i].car, cells, arrays)
  {
  }

  /** `member(s, l)`: the first of the distinct cells of `l` whose car equals `s`, or NIL; the tail
      of an improper list is never compared, and an atom `l` gives NIL. */
  method Member(s: Value, l: Value, ghost cells: set<Cons>, ghost arrays: set<Array>) returns (r: Value)
    requires Closed(cells, arrays) && Inside(s, cells, arrays) && Inside(l, cells, arrays)
    ensures SpineClosed(cells)
    ensures r.Nil? <==> forall i | 0 <= i < |Spine(l, cells)| :: !PyEq(s, Spine(l, cells)[i].car, cells, arrays)
    ensures r.Pair? ==> exists i | 0 <= i < |Spine(l, cells)| ::
              && r.cell == Spine(l, cells)[i] && PyEq(s, Spine(l, cells)[i].car, cells, arrays)
              && forall j | 0 <= j < i :: !PyEq(s, Spine(l, cells)[j].car, cells, arrays)
    ensures IsList(r)
  {
    ClosedSpine(cells, arrays);
    if !l.Pair? {
      assert Spine(l, cells) == [];
      return Nil;
    }
    var n := Length(l, cells);
    ghost var sp := Spine(l, cells);
    SpineIsLinked(l, {}, cells);
    var c := l.cell;
    ghost var k := 0;
    while !PyEq(s, c.car, cells, arrays)
      invariant Searching(s, sp, k, c, n, cells, arrays)
      decreases n
    {
      var next := c.cdr;
      if n - 1 < 1 {
        SearchEnd(s, sp, k, c, n, cells, arrays);
        return Nil;
      }
      SearchStep(s, sp, k, c, n, cells, arrays);
      n := n - 1;
      c := next.cell;
      k := k + 1;
    }
    SearchEnd(s, sp, k, c, n, cells, arrays);
    assert sp == Spine(l, cells) && PyEq(s, sp[k].car, cells, arrays);
    r := Pair(c);
  }
}
