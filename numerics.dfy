/** Numbers as the source computes with them.

    Values are real numbers. The few results that JavaScript can make non-finite
    (a division by a zero mean, a Gaussian density with variance 0, a logarithm)
    are `JsNumber`s, whose operations follow IEEE 754 apart from the sign of zero.
    `Math.sqrt`, the Gaussian density, `Math.log` and `toFixed` rounding are not
    computable over the reals; they are given as the fields of a `Numerics`
    record, and `Lawful` states the only facts about them the model relies on. */
module Numerics {

  datatype JsNumber = Finite(value: real) | NaN | PosInfinity | NegInfinity {
    predicate IsInfinite() { PosInfinity? || NegInfinity? }
  }

  /** The transcendental and rounding primitives of the source. */
  datatype Numerics = Numerics(
    sqrt: real -> real,                // Math.sqrt on a non-negative argument
    pdf: (real, real, real) -> real,   // gaussianPDF(x, mean, variance) for variance > 0
    log: real -> real,                 // Math.log on a positive argument
    round: (real, nat) -> real)        // Number(x.toFixed(d))

  function Square(y: real): real { y * y }

  /** What the model assumes of the primitives. */
  ghost predicate Lawful(num: Numerics) {
    && (forall x :: 0.0 <= x ==> 0.0 <= num.sqrt(x))
    && (forall y :: 0.0 <= y ==> num.sqrt(Square(y)) == y)
    && (forall x, mu, v :: 0.0 < v ==> 0.0 <= num.pdf(x, mu, v))
  }

  lemma PdfNonNegative(num: Numerics, x: real, mu: real, v: real)
    requires Lawful(num) && 0.0 < v
    ensures 0.0 <= num.pdf(x, mu, v)
  {
  }

  /** -1, 0 or 1; defined for every number but NaN. */
  function Sign(a: JsNumber): int
    requires !a.NaN?
  {
    match a
    case Finite(x) => if x > 0.0 then 1 else if x < 0.0 then -1 else 0
    case PosInfinity => 1
    case NegInfinity => -1
  }

  function Infinity(sign: int): JsNumber {
    if sign < 0 then NegInfinity else PosInfinity
  }

  /** JavaScript `a + b`. */
  function Plus(a: JsNumber, b: JsNumber): JsNumber {
    if a.NaN? || b.NaN? then NaN
    else if a.IsInfinite() && b.IsInfinite() then (if a == b then a else NaN)
    else if a.IsInfinite() then a
    else if b.IsInfinite() then b
    else Finite(a.value + b.value)
  }

  /** JavaScript `a * b`. */
  function Times(a: JsNumber, b: JsNumber): JsNumber {
    if a.NaN? || b.NaN? then NaN
    else if a.IsInfinite() || b.IsInfinite() then
      (if Sign(a) * Sign(b) == 0 then NaN else Infinity(Sign(a) * Sign(b)))
    else Finite(a.value * b.value)
  }

  /** JavaScript `a / b`; a zero divisor counts as +0. */
  function Divide(a: JsNumber, b: JsNumber): JsNumber {
    if a.NaN? || b.NaN? then NaN
    else if a.IsInfinite() && b.IsInfinite() then NaN
    else if a.IsInfinite() then Infinity(Sign(a) * (if b.value < 0.0 then -1 else 1))
    else if b.IsInfinite() then Finite(0.0)
    else if b.value != 0.0 then Finite(a.value / b.value)
    else if a.value == 0.0 then NaN
    else Infinity(Sign(a))
  }

  /** JavaScript `a - b`. */
  function Minus(a: JsNumber, b: JsNumber): JsNumber {
    Plus(a, Times(Finite(-1.0), b))
  }

  /** JavaScript `Math.max(a, b)`. */
  function JsMax(a: JsNumber, b: JsNumber): JsNumber {
    if a.NaN? || b.NaN? then NaN else if Less(a, b) then b else a
  }

  /** JavaScript `a < b`: false whenever NaN is involved. */
  predicate Less(a: JsNumber, b: JsNumber) {
    if a.NaN? || b.NaN? then false
    else match (a, b)
      case (NegInfinity, _) => !b.NegInfinity?
      case (_, PosInfinity) => !a.PosInfinity?
      case (Finite(x), Finite(y)) => x < y
      case _ => false
  }

  /** JavaScript `Math.sqrt(a)`. */
  function Sqrt(num: Numerics, a: JsNumber): JsNumber {
    match a
    case Finite(x) => if x < 0.0 then NaN else Finite(num.sqrt(x))
    case PosInfinity => PosInfinity
    case _ => NaN
  }

  /** JavaScript `Math.log(a)`. */
  function Log(num: Numerics, a: JsNumber): JsNumber {
    match a
    case Finite(x) => if x > 0.0 then Finite(num.log(x)) else if x == 0.0 then NegInfinity else NaN
    case PosInfinity => PosInfinity
    case _ => NaN
  }

  /** JavaScript `Number(a.toFixed(d))`: non-finite numbers are kept. */
  function Round(num: Numerics, a: JsNumber, d: nat): JsNumber {
    if a.Finite? then Finite(num.round(a.value, d)) else a
  }

  /** `arr.map(v => Number(v.toFixed(d)))`. */
  function RoundAll(num: Numerics, s: seq<real>, d: nat): (r: seq<real>)
    ensures |r| == |s| && forall i :: 0 <= i < |s| ==> r[i] == num.round(s[i], d)
  {
    seq(|s|, i requires 0 <= i < |s| => num.round(s[i], d))
  }

  /** A finite number is below +Infinity, and NaN is below nothing. */
  lemma LessFacts(a: JsNumber)
    ensures a.Finite? ==> Less(a, PosInfinity)
    ensures !Less(NaN, a) && !Less(a, NaN)
    ensures !Less(PosInfinity, a)
  {
  }

  /** Dividing a non-negative number by zero never gives a finite number:
      it gives +Infinity, or NaN when both are zero. */
  lemma DivideByZero(x: real)
    requires 0.0 <= x
    ensures Divide(Finite(x), Finite(0.0)) == if x == 0.0 then NaN else PosInfinity
  {
  }

  /** `<` is a strict order on the numbers other than NaN. */
  lemma LessOrder(a: JsNumber, b: JsNumber, c: JsNumber)
    ensures !Less(a, a)
    ensures Less(a, b) && Less(b, c) ==> Less(a, c)
    ensures !a.NaN? && !b.NaN? ==> Less(a, b) || a == b || Less(b, a)
    ensures Less(a, PosInfinity) <==> a.Finite? || a.NegInfinity?
  {
  }
}
