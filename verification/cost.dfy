/**
 * The cost value of utility/theint.go: an integer price paired with the
 * "N/A reasons", the names of the inputs whose prices are missing.
 * Every operation builds a new value; a Dafny datatype is a value, so the
 * operands of Plus, Mul and Div are never changed by them.
 */
module Cost {

  datatype TheInt = TheInt(value: int, naReasons: seq<string>)

  /** The empty-reason zero, `TheInt{Value: 0}` in Go. */
  const Zero: TheInt := TheInt(0, [])

  function Abs(x: int): nat
  {
    if x < 0 then -x else x
  }

  /** The defining property of Go's `/`: the remainder is smaller than the
      divisor and has the sign of the dividend (the quotient is truncated
      toward zero). */
  ghost predicate IsTruncatedQuotient(a: int, b: int, q: int)
  {
    var rem := a - q * b;
    Abs(rem) < Abs(b) && (rem == 0 || (rem < 0 <==> a < 0))
  }

  /** Go's integer division `a / b`, which truncates toward zero, written out
      from Dafny's Euclidean division. */
  function TruncDiv(a: int, b: int): (q: int)
    requires b != 0
    ensures IsTruncatedQuotient(a, b, q)
  {
    if a >= 0 then
      if b > 0 then a / b else -(a / -b)
    else
      if b > 0 then -((-a) / b) else (-a) / (-b)
  }

  /** At most one quotient has the truncation property, so TruncDiv is the
      only reading of Go's `/`. */
  lemma TruncatedQuotientUnique(a: int, b: int, q1: int, q2: int)
    requires b != 0
    requires IsTruncatedQuotient(a, b, q1) && IsTruncatedQuotient(a, b, q2)
    ensures q1 == q2
  {
    var r1, r2 := a - q1 * b, a - q2 * b;
    assert Abs(r1 - r2) < Abs(b);
    if q1 != q2 {
      assert r1 - r2 == (q2 - q1) * b;
      ProductAtLeastFactor(q2 - q1, b);
    }
  }

  /** A non-zero multiple of `b` is at least as large as `b`. */
  lemma {:induction false} ProductAtLeastFactor(d: int, b: int)
    requires d != 0
    ensures Abs(d * b) >= Abs(b)
    ensures d > 0 ==> (b >= 0 ==> d * b >= b) && (b < 0 ==> d * b <= b)
    ensures d < 0 ==> (b >= 0 ==> d * b <= -b) && (b < 0 ==> d * b >= -b)
    decreases Abs(d)
  {
    if d > 1 {
      ProductAtLeastFactor(d - 1, b);
      assert d * b == (d - 1) * b + b;
    } else if d < -1 {
      ProductAtLeastFactor(d + 1, b);
      assert d * b == (d + 1) * b - b;
    }
  }

  /** Multiplying and then dividing by the same non-zero integer gives the
      value back: truncation loses nothing on an exact multiple. */
  lemma TruncDivOfMultiple(a: int, b: int)
    requires b != 0
    ensures TruncDiv(a * b, b) == a
  {
    assert IsTruncatedQuotient(a * b, b, a);
    TruncatedQuotientUnique(a * b, b, TruncDiv(a * b, b), a);
  }

  /** Go's quotient against Dafny's Euclidean one: they agree unless the
      dividend is negative and not a multiple of the divisor; then Go's is
      one nearer zero. */
  lemma TruncDivVersusEuclidean(a: int, b: int)
    requires b != 0
    ensures a >= 0 || a % b == 0 ==> TruncDiv(a, b) == a / b
    ensures a < 0 && a % b != 0 && b > 0 ==> TruncDiv(a, b) == a / b + 1
    ensures a < 0 && a % b != 0 && b < 0 ==> TruncDiv(a, b) == a / b - 1
  {
    var q, r := a / b, a % b;
    TruncatedFromEuclidean(a, b, q, r);
    var t := if a >= 0 || r == 0 then q else if b > 0 then q + 1 else q - 1;
    TruncatedQuotientUnique(a, b, TruncDiv(a, b), t);
  }

  /** From a Euclidean quotient `q` and remainder `r`, the truncated one. */
  lemma TruncatedFromEuclidean(a: int, b: int, q: int, r: int)
    requires b != 0 && a == q * b + r && 0 <= r < Abs(b)
    ensures a >= 0 || r == 0 ==> IsTruncatedQuotient(a, b, q)
    ensures a < 0 && r != 0 && b > 0 ==> IsTruncatedQuotient(a, b, q + 1)
    ensures a < 0 && r != 0 && b < 0 ==> IsTruncatedQuotient(a, b, q - 1)
  {
    assert (q + 1) * b == q * b + b;
    assert (q - 1) * b == q * b - b;
  }

  /** `NewInt(a, name)`: the value `a` with exactly one missing-price reason. */
  function NewInt(a: int, name: string): (r: TheInt)
    ensures r.value == a && |r.naReasons| == 1 && r.naReasons[0] == name
  {
    TheInt(a, [name])
  }

  /** `a.Plus(b)`: values add up; the reasons of `a` come first, then those
      of `b`, duplicates kept. */
  function Plus(a: TheInt, b: TheInt): (r: TheInt)
    ensures r.value == a.value + b.value
    ensures r.naReasons == a.naReasons + b.naReasons
    ensures multiset(r.naReasons) == multiset(a.naReasons) + multiset(b.naReasons)
  {
    TheInt(a.value + b.value, a.naReasons + b.naReasons)
  }

  /** `a.Mul(k)`: the value is scaled, the reasons are kept as they are
      (a quantity does not repeat a missing price). */
  function Mul(a: TheInt, k: int): (r: TheInt)
    ensures r.value == a.value * k
    ensures r.naReasons == a.naReasons
  {
    TheInt(a.value * k, a.naReasons)
  }

  /** `a.Div(b)`: truncating division; a zero divisor does not fail but gives
      the value 0 with the single reason "" and drops the reasons of `a`. */
  function Div(a: TheInt, b: int): (r: TheInt)
    ensures b == 0 ==> r.value == 0 && r.naReasons == [""]
    ensures b != 0 ==> IsTruncatedQuotient(a.value, b, r.value) && r.naReasons == a.naReasons
  {
    if b == 0 then TheInt(0, [""]) else TheInt(TruncDiv(a.value, b), a.naReasons)
  }

  /** The empty-reason zero is a left and a right identity of Plus. */
  lemma PlusZeroIdentity(a: TheInt)
    ensures Plus(Zero, a) == a && Plus(a, Zero) == a
  {
    assert a.naReasons + [] == a.naReasons;
  }

  /** Plus is associative, reasons included. */
  lemma PlusAssociative(a: TheInt, b: TheInt, c: TheInt)
    ensures Plus(Plus(a, b), c) == Plus(a, Plus(b, c))
  {
    assert (a.naReasons + b.naReasons) + c.naReasons == a.naReasons + (b.naReasons + c.naReasons);
  }

  /** A sum is free of reasons exactly when both of its operands are. */
  lemma PlusCertain(a: TheInt, b: TheInt)
    ensures Plus(a, b).naReasons == [] <==> a.naReasons == [] && b.naReasons == []
  {
    if Plus(a, b).naReasons == [] {
      assert |a.naReasons| + |b.naReasons| == 0;
    }
  }

  /** Scaling distributes over a sum, and the reasons are unaffected. */
  lemma MulDistributesOverPlus(a: TheInt, b: TheInt, k: int)
    ensures Mul(Plus(a, b), k) == Plus(Mul(a, k), Mul(b, k))
  {
    assert (a.value + b.value) * k == a.value * k + b.value * k;
  }

  /** Dividing a scaled value by the same non-zero factor restores it. */
  lemma DivUndoesMul(a: TheInt, k: int)
    requires k != 0
    ensures Div(Mul(a, k), k) == a
  {
    TruncDivOfMultiple(a.value, k);
  }

  /** Whatever its operand, Div by zero reports exactly one reason. */
  lemma DivByZeroForgetsOperand(a: TheInt, b: TheInt)
    ensures Div(a, 0) == Div(b, 0) && |Div(a, 0).naReasons| == 1
  {
  }
}
