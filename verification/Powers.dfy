/** Powers, for bounds that compound over a run. */
module Powers {
  import opened FixedPoint

  function Pow(b: nat, n: nat): (p: nat)
    ensures b > 0 ==> p > 0
  {
    if n == 0 then 1 else b * Pow(b, n - 1)
  }

  lemma PowZero(b: nat)
    ensures Pow(b, 0) == 1
  {
  }

  lemma PowSteps(b: nat, n: nat)
    ensures Pow(b, n + 1) == b * Pow(b, n)
  {
  }

  lemma Regroup(x: nat, y: nat, z: nat)
    ensures x * (y * z) == x * y * z == x * z * y
  {
  }

  lemma MulStrict(x: nat, y: nat, z: nat)
    requires x < y && z > 0
    ensures x * z < y * z
  {
  }

  /** One more step below the factor a / b. */
  lemma UpperStep(first: nat, next: nat, last: nat, a: nat, b: nat, n: nat)
    requires a > 0 && next * b < first * a && last * Pow(b, n) <= next * Pow(a, n)
    ensures last * Pow(b, n + 1) < first * Pow(a, n + 1)
  {
    var p, q := Pow(a, n), Pow(b, n);
    assert Pow(a, n + 1) == a * p && Pow(b, n + 1) == b * q;
    hide Pow;
    calc {
      last * (b * q);
    ==  { Regroup(last, b, q); }
      last * q * b;
    <=  { MulMono(last * q, next * p, b); }
      next * p * b;
    ==  { Regroup(next, p, b); }
      next * b * p;
    <   { MulStrict(next * b, first * a, p); }
      first * a * p;
    ==  { Regroup(first, a, p); }
      first * (a * p);
    }
  }

  /** One more step above the factor a / b. */
  lemma LowerStep(first: nat, next: nat, last: nat, a: nat, b: nat, n: nat)
    requires b > 0 && last > 0 && first * a < next * b && next * Pow(a, n) <= last * Pow(b, n)
    ensures first * Pow(a, n + 1) < last * Pow(b, n + 1)
  {
    var p, q := Pow(a, n), Pow(b, n);
    assert Pow(a, n + 1) == a * p && Pow(b, n + 1) == b * q;
    hide Pow;
    if p == 0 {
      assert first * (a * p) == 0;
      MulStrict(0, b, q);
      MulStrict(0, last, b * q);
    } else {
      calc {
        first * (a * p);
      ==  { Regroup(first, a, p); }
        first * a * p;
      <   { MulStrict(first * a, next * b, p); }
        next * b * p;
      ==  { Regroup(next, b, p); }
        next * p * b;
      <=  { MulMono(next * p, last * q, b); }
        last * q * b;
      ==  { Regroup(last, q, b); }
        last * (b * q);
      }
    }
  }
}
