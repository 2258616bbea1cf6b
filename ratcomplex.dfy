/** Exact complex numbers whose parts are ints, Fractions (or, when read from text, floats), interned
    by their normalised parts. */
module RatComplex {
  import opened Base
  import opened Numbers

  /** A Complex object; its parts are fixed once it is made. */
  class Complex {
    const realPart: Num
    const imagPart: Num

    constructor (re: Num, im: Num)
      ensures realPart == re && imagPart == im
    {
      realPart := re;
      imagPart := im;
    }
  }

  /** An argument of the constructor or an operand of an operator: a real number, or a complex-valued
      object given by its parts. */
  datatype Arg = Plain(x: Num) | Cx(re: Num, im: Num)

  predicate ExactArg(a: Arg)
  {
    match a
    case Plain(x) => IsExact(x)
    case Cx(re, im) => IsExact(re) && IsExact(im)
  }

  /** The real and imaginary values of an argument. */
  function ArgRe(a: Arg): real { if a.Plain? then Value(a.x) else Value(a.re) }
  function ArgIm(a: Arg): real { if a.Plain? then 0.0 else Value(a.im) }

  /** The outcome of construction or arithmetic: a plain number, or the parts of a Complex. */
  datatype Reduced = Real(n: Num) | Parts(re: Num, im: Num)

  /** No Fraction with denominator 1 anywhere, and a Complex only with a nonzero imaginary part. */
  predicate Normal(r: Reduced)
  {
    match r
    case Real(n) => !(n.Frac? && n.den == 1)
    case Parts(re, im) => !(re.Frac? && re.den == 1) && !(im.Frac? && im.den == 1) && Value(im) != 0.0
  }

  function ReValue(r: Reduced): real { if r.Real? then Value(r.n) else Value(r.re) }
  function ImValue(r: Reduced): real { if r.Real? then 0.0 else Value(r.im) }

  /** `__reduce_comp`: reduce both parts and drop a zero imaginary part. */
  function ReduceComp(re: Num, im: Num): (r: Reduced)
    ensures Normal(r)
    ensures ReValue(r) == Value(re) && ImValue(r) == Value(im)
    ensures r.Real? <==> Value(im) == 0.0
    ensures IsExact(re) && IsExact(im) ==> ExactReduced(r)
  {
    ReduceFracKeepsValue(re);
    ReduceFracKeepsValue(im);
    var re', im' := ReduceFrac(re), ReduceFrac(im);
    if Value(im') == 0.0 then Real(re') else Parts(re', im')
  }

  predicate ExactReduced(r: Reduced)
  {
    match r
    case Real(n) => IsExact(n)
    case Parts(re, im) => IsExact(re) && IsExact(im)
  }

  // ------------------------------------------------------------------ interning

  /** One half of the intern key: Python uses (numerator, denominator), with an int or a float v as (v, 1). */
  datatype PartKey = Whole(v: real) | Ratio(v: real)
  datatype Key = Key(re: PartKey, im: PartKey)

  function PartKeyOf(x: Num): PartKey
  {
    if x.Frac? && x.den != 1 then Ratio(Value(x)) else Whole(Value(x))
  }

  function KeyOf(re: Num, im: Num): Key { Key(PartKeyOf(re), PartKeyOf(im)) }

  /** Equal keys mean equal values. */
  lemma KeyDeterminesValue(re1: Num, im1: Num, re2: Num, im2: Num)
    requires KeyOf(re1, im1) == KeyOf(re2, im2)
    ensures Value(re1) == Value(re2) && Value(im1) == Value(im2)
  {
  }

  /** The parts `__new__` works out from its two arguments: real + i*imag. */
  function Combine(a: Arg, b: Arg): (r: (Num, Num))
    requires (a.Cx? || b.Cx?) ==> ExactArg(a) && ExactArg(b)
    ensures Value(r.0) == ArgRe(a) - ArgIm(b) && Value(r.1) == ArgIm(a) + ArgRe(b)
    ensures ExactArg(a) && ExactArg(b) ==> IsExact(r.0) && IsExact(r.1)
  {
    match (a, b)
    case (Cx(ar, ai), Cx(br, bi)) => (Sub(ar, bi), Add(ai, br))
    case (Cx(ar, ai), Plain(y)) => (ar, Add(ai, y))
    case (Plain(x), Cx(br, bi)) => (Sub(x, bi), br)
    case (Plain(x), Plain(y)) => (x, y)
  }

  /** A number as the constructor returns it. */
  datatype Number = RealNumber(x: Num) | ComplexNumber(c: Complex)

  /** The class-level instance table of Complex. */
  class ComplexTable {
    var instances: map<Key, Complex>

    ghost predicate Valid()
      reads this
    {
      forall k | k in instances ::
        KeyOf(instances[k].realPart, instances[k].imagPart) == k && Normal(Parts(instances[k].realPart, instances[k].imagPart))
    }

    constructor ()
      ensures Valid() && instances == map[]
    {
      instances := map[];
    }

    /** `Complex(real, imag)`: combine, reduce, return the real part alone when the imaginary part is zero,
        otherwise the one instance with these normalised parts. */
    method New(a: Arg, b: Arg) returns (r: Number)
      requires Valid()
      requires (a.Cx? || b.Cx?) ==> ExactArg(a) && ExactArg(b)
      modifies this
      ensures Valid()
      ensures var (re, im) := Combine(a, b);
        && (r.RealNumber? <==> Value(im) == 0.0)
        && (r.RealNumber? ==> r.x == ReduceFrac(re) && instances == old(instances))
        && (r.ComplexNumber? ==>
              && var red := ReduceComp(re, im);
                 var k := KeyOf(red.re, red.im);
                 && red.Parts?
                 && KeyOf(r.c.realPart, r.c.imagPart) == k
                 && instances == old(instances)[k := r.c]
                 && (k in old(instances) ==> r.c == old(instances)[k])
                 && (k !in old(instances) ==> fresh(r.c) && r.c.realPart == red.re && r.c.imagPart == red.im))
    {
      var (re, im) := Combine(a, b);
      var red := ReduceComp(re, im);
      if red.Real? {
        r := RealNumber(red.n);
        return;
      }
      var k := KeyOf(red.re, red.im);
      if k in instances {
        r := ComplexNumber(instances[k]);
      } else {
        var c := new Complex(red.re, red.im);
        instances := instances[k := c];
        r := ComplexNumber(c);
      }
    }

    /** `conjugate()`: a new construction from the real part and the negated imaginary part, interned like
        any other. */
    method Conjugate(c: Complex) returns (r: Number)
      requires Valid() && ExactComplex(c) && Value(c.imagPart) != 0.0
      modifies this
      ensures Valid()
      ensures r.ComplexNumber?
      ensures Value(r.c.realPart) == Value(c.realPart) && Value(r.c.imagPart) == -Value(c.imagPart)
      ensures var k := KeyOf(r.c.realPart, r.c.imagPart);
        && instances == old(instances)[k := r.c]
        && (k in old(instances) ==> r.c == old(instances)[k])
        && (k !in old(instances) ==> fresh(r.c))
    {
      r := New(Plain(c.realPart), Plain(Neg(c.imagPart)));
      ReduceFracKeepsValue(c.realPart);
      ReduceFracKeepsValue(Neg(c.imagPart));
    }

    /** Constructing twice with arguments that normalise to the same parts yields the identical object. */
    method NewTwice(a1: Arg, b1: Arg, a2: Arg, b2: Arg) returns (r1: Number, r2: Number)
      requires Valid()
      requires (a1.Cx? || b1.Cx?) ==> ExactArg(a1) && ExactArg(b1)
      requires (a2.Cx? || b2.Cx?) ==> ExactArg(a2) && ExactArg(b2)
      requires var (re1, im1) := Combine(a1, b1); var (re2, im2) := Combine(a2, b2);
        Value(im1) != 0.0 && KeyOf(ReduceFrac(re1), ReduceFrac(im1)) == KeyOf(ReduceFrac(re2), ReduceFrac(im2))
      modifies this
      ensures Valid()
      ensures r1.ComplexNumber? && r2.ComplexNumber? && r1.c == r2.c
    {
      r1 := New(a1, b1);
      var (re1, im1) := Combine(a1, b1);
      var (re2, im2) := Combine(a2, b2);
      ReduceFracKeepsValue(im1);
      ReduceFracKeepsValue(im2);
      KeyDeterminesValue(ReduceFrac(re1), ReduceFrac(im1), ReduceFrac(re2), ReduceFrac(im2));
      r2 := New(a2, b2);
    }
  }

  predicate ExactComplex(c: Complex) { IsExact(c.realPart) && IsExact(c.imagPart) }

  // ------------------------------------------------------------------ operators

  /** `__add__`: componentwise with a complex operand; a real operand is added to the real part. */
  function Plus(c: Complex, v: Arg): (r: Reduced)
    requires ExactComplex(c) && ExactArg(v)
    ensures Normal(r) && ExactReduced(r)
    ensures ReValue(r) == Value(c.realPart) + ArgRe(v) && ImValue(r) == Value(c.imagPart) + ArgIm(v)
    ensures r.Real? <==> Value(c.imagPart) + ArgIm(v) == 0.0
  {
    match v
    case Cx(vr, vi) => ReduceComp(Add(c.realPart, vr), Add(c.imagPart, vi))
    case Plain(x) => ReduceComp(Add(c.realPart, x), c.imagPart)
  }

  /** `__radd__`: v + self, computed exactly as `__add__`. */
  function RPlus(c: Complex, v: Arg): (r: Reduced)
    requires ExactComplex(c) && ExactArg(v)
    ensures Normal(r)
    ensures ReValue(r) == ArgRe(v) + Value(c.realPart) && ImValue(r) == ArgIm(v) + Value(c.imagPart)
  {
    Plus(c, v)
  }

  /** `__sub__`. */
  function Minus(c: Complex, v: Arg): (r: Reduced)
    requires ExactComplex(c) && ExactArg(v)
    ensures Normal(r) && ExactReduced(r)
    ensures ReValue(r) == Value(c.realPart) - ArgRe(v) && ImValue(r) == Value(c.imagPart) - ArgIm(v)
    ensures r.Real? <==> Value(c.imagPart) == ArgIm(v)
  {
    match v
    case Cx(vr, vi) => ReduceComp(Sub(c.realPart, vr), Sub(c.imagPart, vi))
    case Plain(x) => ReduceComp(Sub(c.realPart, x), c.imagPart)
  }

  /** `__rsub__`: v - self, as -self + v. */
  function RMinus(c: Complex, v: Arg): (r: Reduced)
    requires ExactComplex(c) && ExactArg(v)
    ensures Normal(r) && ExactReduced(r)
    ensures ReValue(r) == ArgRe(v) - Value(c.realPart) && ImValue(r) == ArgIm(v) - Value(c.imagPart)
    ensures r.Real? <==> Value(c.imagPart) == ArgIm(v)
  {
    match v
    case Cx(vr, vi) => ReduceComp(Add(Neg(c.realPart), vr), Add(Neg(c.imagPart), vi))
    case Plain(x) => ReduceComp(Add(Neg(c.realPart), x), Neg(c.imagPart))
  }

  /** `__mul__`: (a+bi)(c+di) = (ac-bd) + (ad+bc)i; a real operand scales both parts. */
  function Times(c: Complex, v: Arg): (r: Reduced)
    requires ExactComplex(c) && ExactArg(v)
    ensures Normal(r) && ExactReduced(r)
    ensures IsProduct(r, Value(c.realPart), Value(c.imagPart), ArgRe(v), ArgIm(v))
  {
    if v.Cx? then ProductParts(c.realPart, c.imagPart, v.re, v.im)
    else ScaledParts(c.realPart, c.imagPart, v.x)
  }

  /** r is (a+bi)(c+di). */
  predicate IsProduct(r: Reduced, a: real, b: real, c: real, d: real)
  {
    ReValue(r) == a * c - b * d && ImValue(r) == a * d + b * c
  }

  /** (a+bi)x, reduced. */
  function ScaledParts(a: Rat, b: Rat, x: Rat): (r: Reduced)
    ensures Normal(r) && ExactReduced(r)
    ensures IsProduct(r, Value(a), Value(b), Value(x), 0.0)
  {
    ReduceComp(Mul(a, x), Mul(b, x))
  }

  /** (a+bi)(c+di), reduced. */
  function ProductParts(a: Rat, b: Rat, c: Rat, d: Rat): (r: Reduced)
    ensures Normal(r) && ExactReduced(r)
    ensures IsProduct(r, Value(a), Value(b), Value(c), Value(d))
  {
    var ac, bd := Mul(a, c), Mul(b, d);
    var ad, bc := Mul(a, d), Mul(b, c);
    ReduceComp(Sub(ac, bd), Add(ad, bc))
  }

  /** `__rmul__`: v * self, computed exactly as `__mul__`. */
  function RTimes(c: Complex, v: Arg): (r: Reduced)
    requires ExactComplex(c) && ExactArg(v)
    ensures Normal(r)
    ensures IsProduct(r, ArgRe(v), ArgIm(v), Value(c.realPart), Value(c.imagPart))
  {
    Times(c, v)
  }

  /** `__neg__`. */
  function Negate(c: Complex): (r: Reduced)
    requires ExactComplex(c)
    ensures Normal(r)
    ensures ReValue(r) == -Value(c.realPart) && ImValue(r) == -Value(c.imagPart)
  {
    ReduceComp(Neg(c.realPart), Neg(c.imagPart))
  }

  /** `__pos__`. */
  function Positive(c: Complex): (r: Reduced)
    ensures Normal(r)
    ensures ReValue(r) == Value(c.realPart) && ImValue(r) == Value(c.imagPart)
  {
    ReduceComp(c.realPart, c.imagPart)
  }

  // ------------------------------------------------------------------ comparison

  /** `__eq__` against a complex-valued object or a real number. */
  predicate Equal(c: Complex, v: Arg)
  {
    match v
    case Cx(vr, vi) => NumEq(c.realPart, vr) && NumEq(c.imagPart, vi)
    case Plain(x) => NumEq(c.realPart, x) && Value(c.imagPart) == 0.0
  }

  /** `__ne__`, written separately in the source. */
  predicate NotEqual(c: Complex, v: Arg)
  {
    match v
    case Cx(vr, vi) => !NumEq(c.realPart, vr) || !NumEq(c.imagPart, vi)
    case Plain(x) => !NumEq(c.realPart, x) || Value(c.imagPart) != 0.0
  }

  /** Equality is equality of the complex values, and `__ne__` is exactly its negation. */
  lemma EqualityIsValueEquality(c: Complex, v: Arg)
    ensures Equal(c, v) <==> Value(c.realPart) == ArgRe(v) && Value(c.imagPart) == ArgIm(v)
    ensures NotEqual(c, v) <==> !Equal(c, v)
  {
  }

  /** A Complex with a nonzero imaginary part (every interned one) never equals a real number. */
  lemma NeverEqualsReal(c: Complex, x: Num)
    requires Value(c.imagPart) != 0.0
    ensures !Equal(c, Plain(x)) && NotEqual(c, Plain(x))
  {
  }

  // ------------------------------------------------------------------ text

  /** The two `str_format_spec` values: the module's own "{0}{3}{5}i" and the "#C({0} {1})" sxprlib installs. */
  datatype FormatSpec = SignedImag | SharpC

  /** `__str__`: the parts' texts put into the format the class is configured with. In the `#C` form the
      text is bracketed by `#C(` and `)`; in the default form it ends in `i`, and the character after the
      real part is the sign of the imaginary part. */
  function ToString(c: Complex, spec: FormatSpec): (r: string)
    ensures spec.SharpC? ==> |r| >= 4 && r[..3] == "#C(" && r[|r| - 1] == ')'
    ensures spec.SignedImag? ==>
      && |r| >= |NumToString(c.realPart)| + 2 && r[|r| - 1] == 'i'
      && r[|NumToString(c.realPart)|] == (if Value(c.imagPart) < 0.0 then '-' else '+')
  {
    match spec
    case SharpC => "#C(" + NumToString(c.realPart) + " " + NumToString(c.imagPart) + ")"
    case SignedImag =>
      NumToString(c.realPart) + (if Value(c.imagPart) < 0.0 then "-" else "+") + AbsToString(c.imagPart) + "i"
  }
}
