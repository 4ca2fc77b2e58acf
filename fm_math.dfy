/** The arithmetic of the factorisation-machine scorer: the first-order dot product and
    calcSecondOrder's sum-of-squares form of the pairwise interactions, with the proof that
    the latter is the textbook sum over pairs of features. Numbers are exact reals. */
module FmMath {
  import opened Sums

  /** Entry (i, f) of the matrix whose rows are `rows`, 0 outside it. */
  function Entry(rows: seq<seq<real>>, i: nat, f: nat): real
  {
    if i < |rows| then At(rows[i], f) else 0.0
  }

  /** getColumnVector(f): entry f of every row. */
  function ColumnOf(rows: seq<seq<real>>, f: nat): (c: seq<real>)
    ensures |c| == |rows|
    ensures forall i :: 0 <= i < |rows| ==> c[i] == Entry(rows, i, f)
  {
    seq(|rows|, (i: int) requires 0 <= i < |rows| => At(rows[i], f))
  }

  /** i ↦ x[i]² · c[i]², the terms of squareSum. */
  function SquareTerms(x: seq<real>, c: seq<real>): nat -> real
  {
    (i: nat) => At(x, i) * At(x, i) * At(c, i) * At(c, i)
  }

  /** The squareSum of one factor: Σ_i x_i² · c_i². */
  function SquareSum(x: seq<real>, c: seq<real>): real
    requires |x| == |c|
  {
    Sum(|x|, SquareTerms(x, c))
  }

  /** What factor f adds to secondOrder: (Σ_i x_i v_if)² − Σ_i x_i² v_if². */
  function FactorTerm(x: seq<real>, rows: seq<seq<real>>, f: nat): real
    requires |x| == |rows|
  {
    var c := ColumnOf(rows, f);
    Dot(x, c) * Dot(x, c) - SquareSum(x, c)
  }

  function FactorTerms(x: seq<real>, rows: seq<seq<real>>): nat -> real
    requires |x| == |rows|
  {
    (f: nat) => FactorTerm(x, rows, f)
  }

  /** calcSecondOrder: half the sum of the first k factor terms. */
  function SecondOrder(x: seq<real>, rows: seq<seq<real>>, k: nat): real
    requires |x| == |rows|
  {
    0.5 * Sum(k, FactorTerms(x, rows))
  }

  // The pairwise form

  /** f ↦ v_if · v_jf. */
  function FactorProducts(rows: seq<seq<real>>, i: nat, j: nat): nat -> real
  {
    (f: nat) => Entry(rows, i, f) * Entry(rows, j, f)
  }

  /** ⟨v_i, v_j⟩ over the first k factors. */
  function RowDot(rows: seq<seq<real>>, i: nat, j: nat, k: nat): real
  {
    Sum(k, FactorProducts(rows, i, j))
  }

  /** i ↦ x_i · x_j · ⟨v_i, v_j⟩. */
  function PairWeights(x: seq<real>, rows: seq<seq<real>>, k: nat, j: nat): nat -> real
  {
    (i: nat) => At(x, i) * At(x, j) * RowDot(rows, i, j, k)
  }

  /** j ↦ Σ_{i<j} x_i · x_j · ⟨v_i, v_j⟩. */
  function PairRows(x: seq<real>, rows: seq<seq<real>>, k: nat): nat -> real
  {
    (j: nat) => Sum(j, PairWeights(x, rows, k, j))
  }

  /** Σ_{i<j} x_i · x_j · ⟨v_i, v_j⟩: the interaction of every pair of features. */
  function Pairwise(x: seq<real>, rows: seq<seq<real>>, k: nat): real
  {
    Sum(|x|, PairRows(x, rows, k))
  }

  // Steps of the proof that the two forms agree

  /** i ↦ x_i · v_if. */
  function Weighted(x: seq<real>, rows: seq<seq<real>>, f: nat): nat -> real
  {
    (i: nat) => At(x, i) * Entry(rows, i, f)
  }

  /** (x_j v_jf) · (x_i v_if). */
  function PairTerm(x: seq<real>, rows: seq<seq<real>>, f: nat, i: nat, j: nat): real
  {
    At(x, j) * Entry(rows, j, f) * (At(x, i) * Entry(rows, i, f))
  }

  function EarlierPairs(x: seq<real>, rows: seq<seq<real>>, f: nat, j: nat): nat -> real
  {
    (i: nat) => PairTerm(x, rows, f, i, j)
  }

  function FactorPairs(x: seq<real>, rows: seq<seq<real>>, f: nat): nat -> real
  {
    (j: nat) => Sum(j, EarlierPairs(x, rows, f, j))
  }

  function PairsByFactor(x: seq<real>, rows: seq<seq<real>>): nat -> real
  {
    (f: nat) => Sum(|x|, FactorPairs(x, rows, f))
  }

  function ByFactor(x: seq<real>, rows: seq<seq<real>>): (nat, nat) -> real
  {
    (f: nat, j: nat) => Sum(j, EarlierPairs(x, rows, f, j))
  }

  function ByPair(x: seq<real>, rows: seq<seq<real>>, j: nat): (nat, nat) -> real
  {
    (f: nat, i: nat) => PairTerm(x, rows, f, i, j)
  }

  /** One factor term is twice the sum over pairs i < j of (x_j v_jf)(x_i v_if). */
  lemma FactorTermAsPairs(x: seq<real>, rows: seq<seq<real>>, f: nat)
    requires |x| == |rows|
    ensures FactorTerm(x, rows, f) == 2.0 * Sum(|x|, FactorPairs(x, rows, f))
  {
    var n, a := |x|, Weighted(x, rows, f);
    ColumnAsWeighted(x, rows, f);
    SquareOfSum(n, a);
    EarlierAsPairs(x, rows, f);
  }

  /** The dot product and the squareSum of a column, as sums of the weighted entries. */
  lemma ColumnAsWeighted(x: seq<real>, rows: seq<seq<real>>, f: nat)
    requires |x| == |rows|
    ensures Dot(x, ColumnOf(rows, f)) == Sum(|x|, Weighted(x, rows, f))
    ensures SquareSum(x, ColumnOf(rows, f)) == Sum(|x|, Squares(Weighted(x, rows, f)))
  {
    var n, c, a := |x|, ColumnOf(rows, f), Weighted(x, rows, f);
    SumExt(n, Products(x, c), a);
    forall i: nat | i < n
      ensures SquareTerms(x, c)(i) == Squares(a)(i)
    {
      var u, v := At(x, i), At(c, i);
      assert u * u * v * v == (u * v) * (u * v);
    }
    SumExt(n, SquareTerms(x, c), Squares(a));
  }

  lemma EarlierAsPairs(x: seq<real>, rows: seq<seq<real>>, f: nat)
    ensures Sum(|x|, EarlierProducts(Weighted(x, rows, f))) == Sum(|x|, FactorPairs(x, rows, f))
  {
    var n, a := |x|, Weighted(x, rows, f);
    forall j: nat | j < n
      ensures EarlierProducts(a)(j) == FactorPairs(x, rows, f)(j)
    {
      EarlierPairsScaled(x, rows, f, j);
    }
    SumExt(n, EarlierProducts(a), FactorPairs(x, rows, f));
  }

  /** Σ_{i<j} (x_j v_jf)(x_i v_if) is x_j v_jf times Σ_{i<j} x_i v_if. */
  lemma EarlierPairsScaled(x: seq<real>, rows: seq<seq<real>>, f: nat, j: nat)
    ensures FactorPairs(x, rows, f)(j) == EarlierProducts(Weighted(x, rows, f))(j)
  {
    var a := Weighted(x, rows, f);
    forall i: nat | i < j
      ensures EarlierPairs(x, rows, f, j)(i) == a(j) * a(i)
    {
    }
    SumScale(j, a(j), EarlierPairs(x, rows, f, j), a);
  }

  /** For a fixed j, summing over factors then over i < j equals the other order, and the
      factor sum is x_i · x_j · ⟨v_i, v_j⟩. */
  lemma InnerSwap(x: seq<real>, rows: seq<seq<real>>, k: nat, j: nat)
    ensures Sum(k, Column(ByFactor(x, rows), j)) == Sum(j, PairWeights(x, rows, k, j))
  {
    var g := ByPair(x, rows, j);
    SumSwap(k, j, g);
    forall f: nat | f < k
      ensures Column(ByFactor(x, rows), j)(f) == RowSums(j, g)(f)
    {
      SumExt(j, EarlierPairs(x, rows, f, j), Row(g, f));
    }
    SumExt(k, Column(ByFactor(x, rows), j), RowSums(j, g));
    forall i: nat | i < j
      ensures ColumnSums(k, g)(i) == PairWeights(x, rows, k, j)(i)
    {
      forall f: nat | f < k
        ensures Column(g, i)(f) == At(x, i) * At(x, j) * FactorProducts(rows, i, j)(f)
      {
        var xi, xj, vi, vj := At(x, i), At(x, j), Entry(rows, i, f), Entry(rows, j, f);
        assert xj * vj * (xi * vi) == xi * xj * (vi * vj);
      }
      SumScale(k, At(x, i) * At(x, j), Column(g, i), FactorProducts(rows, i, j));
    }
    SumExt(j, ColumnSums(k, g), PairWeights(x, rows, k, j));
  }

  /** calcSecondOrder's sum-of-squares form is the sum over pairs of features i < j of
      x_i · x_j · ⟨v_i, v_j⟩. */
  lemma SecondOrderIsPairwise(x: seq<real>, rows: seq<seq<real>>, k: nat)
    requires |x| == |rows|
    ensures SecondOrder(x, rows, k) == Pairwise(x, rows, k)
  {
    var n, g := |x|, ByFactor(x, rows);
    forall f: nat | f < k
      ensures FactorTerms(x, rows)(f) == 2.0 * PairsByFactor(x, rows)(f)
    {
      FactorTermAsPairs(x, rows, f);
    }
    SumScale(k, 2.0, FactorTerms(x, rows), PairsByFactor(x, rows));
    forall f: nat | f < k
      ensures PairsByFactor(x, rows)(f) == RowSums(n, g)(f)
    {
      SumExt(n, FactorPairs(x, rows, f), Row(g, f));
    }
    SumExt(k, PairsByFactor(x, rows), RowSums(n, g));
    SumSwap(k, n, g);
    forall j: nat | j < n
      ensures ColumnSums(k, g)(j) == PairRows(x, rows, k)(j)
    {
      InnerSwap(x, rows, k, j);
    }
    SumExt(n, ColumnSums(k, g), PairRows(x, rows, k));
  }
}
