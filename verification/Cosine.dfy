/** Cosine similarity (internal/retrieve/fusion.go) over real vectors. */
module Cosine {
  type Vector = seq<real>

  ghost predicate IsRoot(sqrt: real -> real) {
    forall x :: x >= 0.0 ==> sqrt(x) >= 0.0 && sqrt(x) * sqrt(x) == x
  }

  function Dot(a: Vector, b: Vector): real
    requires |a| == |b|
  {
    if a == [] then 0.0
    else
      var last := |a| - 1;
      Dot(a[..last], b[..last]) + a[last] * b[last]
  }

  lemma {:induction false} SquareNonNegative(x: real)
    ensures x * x >= 0.0
  {
  }

  lemma {:induction false} NormNonNegative(a: Vector)
    ensures Dot(a, a) >= 0.0
  {
    if a != [] {
      NormNonNegative(a[..|a| - 1]);
      SquareNonNegative(a[|a| - 1]);
    }
  }

  lemma {:induction false} PositiveRoot(sqrt: real -> real, x: real)
    requires IsRoot(sqrt) && x > 0.0
    ensures sqrt(x) > 0.0 && sqrt(x) * sqrt(x) == x
  {
    assert sqrt(x) >= 0.0 && sqrt(x) * sqrt(x) == x;
  }

  lemma {:induction false} ProductPositive(x: real, y: real)
    requires x > 0.0 && y > 0.0
    ensures x * y > 0.0
  {
  }

  lemma {:induction false} RootsPositive(a: Vector, b: Vector, sqrt: real -> real)
    requires IsRoot(sqrt) && Dot(a, a) != 0.0 && Dot(b, b) != 0.0
    ensures sqrt(Dot(a, a)) * sqrt(Dot(b, b)) > 0.0
  {
    NormNonNegative(a);
    NormNonNegative(b);
    PositiveRoot(sqrt, Dot(a, a));
    PositiveRoot(sqrt, Dot(b, b));
    ProductPositive(sqrt(Dot(a, a)), sqrt(Dot(b, b)));
  }

  function Over(q: real, x: real): real
    requires x > 0.0
  {
    q / x
  }

  function Similarity(a: Vector, b: Vector, sqrt: real -> real): real
    requires IsRoot(sqrt)
  {
    if |a| == 0 || |b| == 0 || |a| != |b| then 0.0
    else if Dot(a, a) == 0.0 || Dot(b, b) == 0.0 then 0.0
    else
      RootsPositive(a, b, sqrt);
      Over(Dot(a, b), sqrt(Dot(a, a)) * sqrt(Dot(b, b)))
  }

  lemma {:induction false} DotMore(a: Vector, b: Vector, n: nat)
    requires |a| == |b| && n < |a|
    ensures Dot(a[..n + 1], b[..n + 1]) == Dot(a[..n], b[..n]) + a[n] * b[n]
  {
    assert a[..n + 1][..n] == a[..n] && b[..n + 1][..n] == b[..n];
  }

  method ComputeSimilarity(a: Vector, b: Vector, sqrt: real -> real) returns (r: real)
    requires IsRoot(sqrt)
    ensures r == Similarity(a, b, sqrt) && -1.0 <= r <= 1.0
  {
    SimilarityRange(a, b, sqrt);
    if |a| == 0 || |b| == 0 || |a| != |b| {
      return 0.0;
    }
    var dot, na, nb := 0.0, 0.0, 0.0;
    for i := 0 to |a|
      invariant dot == Dot(a[..i], b[..i]) && na == Dot(a[..i], a[..i]) && nb == Dot(b[..i], b[..i])
    {
      DotMore(a, b, i);
      DotMore(a, a, i);
      DotMore(b, b, i);
      dot := dot + a[i] * b[i];
      na := na + a[i] * a[i];
      nb := nb + b[i] * b[i];
    }
    assert a[..|a|] == a && b[..|b|] == b;
    if na == 0.0 || nb == 0.0 {
      return 0.0;
    }
    RootsPositive(a, b, sqrt);
    return Over(dot, sqrt(na) * sqrt(nb));
  }

  // ---- the inequality of Cauchy and Schwarz ----

  lemma {:induction false} Expand(s: real, t: real, x: real, y: real)
    ensures s * s * (x * x) + 2.0 * (s * t) * (x * y) + t * t * (y * y) >= 0.0
  {
    SquareNonNegative(s * x + t * y);
  }

  /** The square of s*a + t*b, which is a sum of squares. */
  function Form(a: Vector, b: Vector, s: real, t: real): real
    requires |a| == |b|
  {
    s * s * Dot(a, a) + 2.0 * (s * t) * Dot(a, b) + t * t * Dot(b, b)
  }

  lemma {:induction false} FormNonNegative(a: Vector, b: Vector, s: real, t: real)
    requires |a| == |b|
    ensures Form(a, b, s, t) >= 0.0
  {
    if a != [] {
      var last := |a| - 1;
      FormNonNegative(a[..last], b[..last], s, t);
      Expand(s, t, a[last], b[last]);
      Regroup(s * s, s * t, t * t, Dot(a[..last], a[..last]), Dot(a[..last], b[..last]), Dot(b[..last], b[..last]),
              a[last] * a[last], a[last] * b[last], b[last] * b[last]);
    }
  }

  lemma {:induction false} Regroup(ss: real, st: real, tt: real, p: real, q: real, r: real, x: real, y: real, z: real)
    ensures ss * (p + x) + 2.0 * st * (q + y) + tt * (r + z)
         == (ss * p + 2.0 * st * q + tt * r) + (ss * x + 2.0 * st * y + tt * z)
  {
  }

  lemma {:induction false} CauchySchwarz(a: Vector, b: Vector)
    requires |a| == |b|
    ensures Dot(a, b) * Dot(a, b) <= Dot(a, a) * Dot(b, b)
  {
    NormNonNegative(a);
    if Dot(a, a) > 0.0 {
      FormNonNegative(a, b, -Dot(a, b), Dot(a, a));
      Discriminant(Dot(a, a), Dot(a, b), Dot(b, b));
    } else {
      NullVector(a, b);
    }
  }

  lemma {:induction false} SquarePositive(x: real)
    requires x != 0.0
    ensures x * x > 0.0
  {
  }

  /** A vector of norm 0 is null, and so is its product with any other. */
  lemma {:induction false} NullVector(a: Vector, b: Vector)
    requires |a| == |b| && Dot(a, a) == 0.0
    ensures Dot(a, b) == 0.0
  {
    if a != [] {
      var last := |a| - 1;
      NormNonNegative(a[..last]);
      SquareNonNegative(a[last]);
      if a[last] != 0.0 {
        SquarePositive(a[last]);
      }
      NullVector(a[..last], b[..last]);
    }
  }

  lemma {:induction false} Discriminant(p: real, q: real, r: real)
    requires p > 0.0 && (-q) * (-q) * p + 2.0 * ((-q) * p) * q + p * p * r >= 0.0
    ensures q * q <= p * r
  {
    assert (-q) * (-q) * p + 2.0 * ((-q) * p) * q + p * p * r == p * (p * r - q * q);
  }

  lemma {:induction false} SquareBound(q: real, x: real)
    requires x > 0.0 && q * q <= x * x
    ensures -x <= q <= x
  {
    assert (x - q) * (x + q) >= 0.0;
  }

  lemma {:induction false} SquareOfProduct(x: real, y: real)
    ensures (x * y) * (x * y) == (x * x) * (y * y)
  {
  }

  lemma {:induction false} UnitQuotient(q: real, x: real)
    requires x > 0.0 && -x <= q <= x
    ensures -1.0 <= Over(q, x) <= 1.0
  {
    var r := q / x;
    assert r * x == q;
    assert (1.0 - r) * x >= 0.0 && (1.0 + r) * x >= 0.0;
  }

  lemma {:induction false} DotBound(a: Vector, b: Vector, sqrt: real -> real)
    requires IsRoot(sqrt) && |a| == |b| && Dot(a, a) != 0.0 && Dot(b, b) != 0.0
    ensures var x := sqrt(Dot(a, a)) * sqrt(Dot(b, b)); x > 0.0 && -x <= Dot(a, b) <= x
  {
    var p, r := Dot(a, a), Dot(b, b);
    NormNonNegative(a);
    NormNonNegative(b);
    CauchySchwarz(a, b);
    PositiveRoot(sqrt, p);
    PositiveRoot(sqrt, r);
    RootsPositive(a, b, sqrt);
    SquareOfProduct(sqrt(p), sqrt(r));
    SquareBound(Dot(a, b), sqrt(p) * sqrt(r));
  }

  lemma {:induction false} SimilarityRange(a: Vector, b: Vector, sqrt: real -> real)
    requires IsRoot(sqrt)
    ensures -1.0 <= Similarity(a, b, sqrt) <= 1.0
  {
    if |a| == |b| && |a| != 0 && Dot(a, a) != 0.0 && Dot(b, b) != 0.0 {
      DotBound(a, b, sqrt);
      var x := sqrt(Dot(a, a)) * sqrt(Dot(b, b));
      UnitQuotient(Dot(a, b), x);
      assert Similarity(a, b, sqrt) == Over(Dot(a, b), x);
    }
  }

  // ---- what the numbers are ----

  /** The dot product, summed from the other end. */
  lemma {:induction false} DotFirst(a: Vector, b: Vector)
    requires |a| == |b| > 0
    ensures Dot(a, b) == a[0] * b[0] + Dot(a[1..], b[1..])
    ensures Dot([], []) == 0.0
  {
    var last := |a| - 1;
    if last > 0 {
      DotFirst(a[..last], b[..last]);
      assert a[..last][1..] == a[1..][..last - 1] && b[..last][1..] == b[1..][..last - 1];
    }
  }

  /** The similarity is the number that, times the lengths of both vectors, gives their dot product;
    * it is 0 when either is missing or null, or they do not match. */
  lemma {:induction false} SimilarityExactly(a: Vector, b: Vector, sqrt: real -> real, la: real, lb: real)
    requires IsRoot(sqrt) && la >= 0.0 && lb >= 0.0 && la * la == Dot(a, a) && lb * lb == Dot(b, b)
    ensures |a| == |b| ==> Similarity(a, b, sqrt) * (la * lb) == Dot(a, b)
    ensures |a| != |b| || la == 0.0 || lb == 0.0 ==> Similarity(a, b, sqrt) == 0.0
  {
    if |a| == |b| {
      if Dot(a, a) == 0.0 {
        NullVector(a, b);
      } else if Dot(b, b) == 0.0 {
        NullVector(b, a);
        DotSymmetric(a, b);
      } else {
        NormNonNegative(a);
        NormNonNegative(b);
        RootUnique(sqrt(Dot(a, a)), la, Dot(a, a), sqrt);
        RootUnique(sqrt(Dot(b, b)), lb, Dot(b, b), sqrt);
        RootsPositive(a, b, sqrt);
        OverTimes(Dot(a, b), la * lb);
      }
    }
  }

  lemma {:induction false} DotSymmetric(a: Vector, b: Vector)
    requires |a| == |b|
    ensures Dot(a, b) == Dot(b, a)
  {
    if a != [] {
      DotSymmetric(a[..|a| - 1], b[..|b| - 1]);
    }
  }

  lemma {:induction false} OverTimes(q: real, x: real)
    requires x > 0.0
    ensures Over(q, x) * x == q
  {
  }

  lemma {:induction false} RootUnique(r: real, l: real, x: real, sqrt: real -> real)
    requires IsRoot(sqrt) && x > 0.0 && r == sqrt(x) && l >= 0.0 && l * l == x
    ensures r == l
  {
    PositiveRoot(sqrt, x);
    assert (r - l) * (r + l) == 0.0;
    ZeroFactor(r - l, r + l);
  }

  lemma {:induction false} ZeroFactor(x: real, y: real)
    requires x * y == 0.0 && y > 0.0
    ensures x == 0.0
  {
  }
}
