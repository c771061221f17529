/** The numbers Python's JSON reader produces, with NaN and the infinities: scripts/verify_prsm_receipt.py. */
module JsonNumbers {

  datatype Number = Finite(value: real) | Infinite(positive: bool) | NaN

  function Add(a: Number, b: Number): Number {
    if a.NaN? || b.NaN? then NaN
    else if a.Infinite? && b.Infinite? then (if a.positive == b.positive then a else NaN)
    else if a.Infinite? then a
    else if b.Infinite? then b
    else Finite(a.value + b.value)
  }

  function Negate(a: Number): Number {
    match a
    case Finite(v) => Finite(-v)
    case Infinite(positive) => Infinite(!positive)
    case NaN => NaN
  }

  /** `abs(a) > bound`; a comparison with NaN is false. */
  predicate Exceeds(a: Number, bound: real) {
    a.Infinite? || (a.Finite? && (a.value > bound || -a.value > bound))
  }

  /** Python's `sum`. */
  function Sum(xs: seq<Number>): Number {
    if xs == [] then Finite(0.0) else Add(Sum(xs[..|xs| - 1]), xs[|xs| - 1])
  }

  function RealSum(xs: seq<Number>): real {
    if xs == [] then 0.0 else RealSum(xs[..|xs| - 1]) + if xs[|xs| - 1].Finite? then xs[|xs| - 1].value else 0.0
  }

  /** What a sum is, from what is in the list, whatever the order. */
  lemma {:induction false} SumExactly(xs: seq<Number>)
    ensures Sum(xs).NaN? <==> NaN in xs || (Infinite(true) in xs && Infinite(false) in xs)
    ensures forall p :: Sum(xs) == Infinite(p) <==> NaN !in xs && Infinite(p) in xs && Infinite(!p) !in xs
    ensures Sum(xs).Finite? <==> forall x :: x in xs ==> x.Finite?
    ensures Sum(xs).Finite? ==> Sum(xs).value == RealSum(xs)
  {
    if xs != [] {
      var front, x := xs[..|xs| - 1], xs[|xs| - 1];
      SumExactly(front);
      assert xs == front + [x];
      assert forall y :: y in xs <==> y in front || y == x;
    }
  }
}
