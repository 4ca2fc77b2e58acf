/** Finite sums over the reals, the arithmetic behind every dot product the scorers take:
    Σ_{i<n} g(i), added up from the front as a counting loop adds. */
module Sums {

  function Sum(n: nat, g: nat -> real): real
  {
    if n == 0 then 0.0 else Sum(n - 1, g) + g(n - 1)
  }

  /** Entry i of `s`, or 0 past its end (so that a sum over indices can be written with a
      total function). */
  function At(s: seq<real>, i: nat): real
  {
    if i < |s| then s[i] else 0.0
  }

  /** i ↦ a[i] · b[i]. */
  function Products(a: seq<real>, b: seq<real>): nat -> real
  {
    (i: nat) => At(a, i) * At(b, i)
  }

  /** ArrayRealVector.dotProduct of two vectors of the same dimension. */
  function Dot(a: seq<real>, b: seq<real>): real
    requires |a| == |b|
  {
    Sum(|a|, Products(a, b))
  }

  /** Sums of functions that agree on 0 .. n-1 are equal. */
  lemma {:induction false} SumExt(n: nat, g: nat -> real, h: nat -> real)
    requires forall i: nat :: i < n ==> g(i) == h(i)
    ensures Sum(n, g) == Sum(n, h)
  {
    if n > 0 {
      SumExt(n - 1, g, h);
    }
  }

  /** A sum of zeros is zero. */
  lemma {:induction false} SumZero(n: nat, g: nat -> real)
    requires forall i: nat :: i < n ==> g(i) == 0.0
    ensures Sum(n, g) == 0.0
  {
    if n > 0 {
      SumZero(n - 1, g);
    }
  }

  /** A sum whose terms are zero except the j-th is that term. */
  lemma {:induction false} SumOneTerm(n: nat, g: nat -> real, j: nat)
    requires j < n && forall i: nat :: i < n && i != j ==> g(i) == 0.0
    ensures Sum(n, g) == g(j)
  {
    if n - 1 == j {
      SumZero(n - 1, g);
    } else {
      SumOneTerm(n - 1, g, j);
    }
  }

  /** A sum of pointwise sums is the sum of the two sums. */
  lemma {:induction false} SumAdd(n: nat, f: nat -> real, g: nat -> real, h: nat -> real)
    requires forall i: nat :: i < n ==> f(i) == g(i) + h(i)
    ensures Sum(n, f) == Sum(n, g) + Sum(n, h)
  {
    if n > 0 {
      SumAdd(n - 1, f, g, h);
    }
  }

  /** A constant factor comes out of a sum. */
  lemma {:induction false} SumScale(n: nat, c: real, f: nat -> real, g: nat -> real)
    requires forall i: nat :: i < n ==> f(i) == c * g(i)
    ensures Sum(n, f) == c * Sum(n, g)
  {
    if n > 0 {
      SumScale(n - 1, c, f, g);
      assert c * Sum(n, g) == c * Sum(n - 1, g) + c * g(n - 1);
    }
  }

  /** Row i of a double sum: j ↦ g(i, j). */
  function Row(g: (nat, nat) -> real, i: nat): nat -> real
  {
    (j: nat) => g(i, j)
  }

  /** Column j of a double sum: i ↦ g(i, j). */
  function Column(g: (nat, nat) -> real, j: nat): nat -> real
  {
    (i: nat) => g(i, j)
  }

  /** i ↦ Σ_{j<n} g(i, j). */
  function RowSums(n: nat, g: (nat, nat) -> real): nat -> real
  {
    (i: nat) => Sum(n, Row(g, i))
  }

  /** j ↦ Σ_{i<m} g(i, j). */
  function ColumnSums(m: nat, g: (nat, nat) -> real): nat -> real
  {
    (j: nat) => Sum(m, Column(g, j))
  }

  /** The order of a double sum over a rectangle does not matter. */
  lemma {:induction false} SumSwap(m: nat, n: nat, g: (nat, nat) -> real)
    ensures Sum(m, RowSums(n, g)) == Sum(n, ColumnSums(m, g))
  {
    if m > 0 {
      SumSwap(m - 1, n, g);
      SumAdd(n, ColumnSums(m, g), ColumnSums(m - 1, g), Row(g, m - 1));
    } else {
      SumZero(n, ColumnSums(0, g));
    }
  }

  /** i ↦ a(i)². */
  function Squares(a: nat -> real): nat -> real
  {
    (i: nat) => a(i) * a(i)
  }

  /** j ↦ a(j) · Σ_{i<j} a(i): the products of each term with the terms before it. */
  function EarlierProducts(a: nat -> real): nat -> real
  {
    (j: nat) => a(j) * Sum(j, a)
  }

  /** The square of a sum is the sum of the squares plus twice the sum over pairs i < j. */
  lemma {:induction false} SquareOfSum(n: nat, a: nat -> real)
    ensures Sum(n, a) * Sum(n, a) == Sum(n, Squares(a)) + 2.0 * Sum(n, EarlierProducts(a))
  {
    if n > 0 {
      SquareOfSum(n - 1, a);
      var s, y := Sum(n - 1, a), a(n - 1);
      assert (s + y) * (s + y) == s * s + y * y + 2.0 * (y * s);
    }
  }

  // Sums over a sequence of keys, such as the keys of a map in some iteration order

  /** Σ h(key) over `keys`, added up in the order of `keys`. */
  function SumOver(keys: seq<int>, h: int -> real): real
    decreases |keys|
  {
    if |keys| == 0 then 0.0 else SumOver(keys[..|keys| - 1], h) + h(keys[|keys| - 1])
  }

  predicate Distinct(keys: seq<int>) {
    forall i, j :: 0 <= i < j < |keys| ==> keys[i] != keys[j]
  }

  /** A sum over positions 0 .. n-1 whose i-th term is h(keys[i]) is the sum over the keys. */
  lemma {:induction false} SumAsSumOver(n: nat, g: nat -> real, keys: seq<int>, h: int -> real)
    requires |keys| == n
    requires forall i: nat :: i < n ==> g(i) == h(keys[i])
    ensures Sum(n, g) == SumOver(keys, h)
  {
    if n > 0 {
      var front := keys[..n - 1];
      assert forall i: nat :: i < n - 1 ==> front[i] == keys[i];
      SumAsSumOver(n - 1, g, front, h);
    }
  }

  /** Taking one key out of the sum and adding its term back changes nothing. */
  lemma {:induction false} SumOverRemove(keys: seq<int>, p: nat, h: int -> real)
    requires p < |keys|
    ensures SumOver(keys, h) == SumOver(keys[..p] + keys[p + 1..], h) + h(keys[p])
    decreases |keys|
  {
    var n := |keys|;
    var rest := keys[..p] + keys[p + 1..];
    if p == n - 1 {
      assert rest == keys[..n - 1];
    } else {
      var front := keys[..n - 1];
      SumOverRemove(front, p, h);
      assert front[p] == keys[p];
      assert rest[..|rest| - 1] == front[..p] + front[p + 1..];
      assert rest[|rest| - 1] == keys[n - 1];
    }
  }

  /** In a sequence without repeats every key occurs once or not at all. */
  lemma {:induction false} DistinctCount(keys: seq<int>, key: int)
    requires Distinct(keys)
    ensures multiset(keys)[key] == if key in keys then 1 else 0
    decreases |keys|
  {
    if |keys| > 0 {
      var n := |keys|;
      var front := keys[..n - 1];
      assert keys == front + [keys[n - 1]];
      DistinctCount(front, key);
      assert key in keys <==> key in front || key == keys[n - 1];
      assert keys[n - 1] !in front;
    }
  }

  /** Two sequences without repeats and with the same members are permutations of each
      other. */
  lemma SameMembers(a: seq<int>, b: seq<int>)
    requires Distinct(a) && Distinct(b)
    requires forall key :: key in a <==> key in b
    ensures multiset(a) == multiset(b)
  {
    forall key
      ensures multiset(a)[key] == multiset(b)[key]
    {
      DistinctCount(a, key);
      DistinctCount(b, key);
    }
  }

  /** The sum over keys does not depend on the order the keys come in. */
  lemma {:induction false} SumOverPermutation(a: seq<int>, b: seq<int>, h: int -> real)
    requires multiset(a) == multiset(b)
    ensures SumOver(a, h) == SumOver(b, h)
    decreases |a|
  {
    if |a| > 0 {
      var n, key := |a|, a[|a| - 1];
      assert key in multiset(b);
      var p :| 0 <= p < |b| && b[p] == key;
      var front, rest := a[..n - 1], b[..p] + b[p + 1..];
      assert a == front + [key];
      assert b == b[..p] + [key] + b[p + 1..];
      calc {
        multiset(front);
        multiset(a) - multiset{key};
        multiset(b) - multiset{key};
        multiset(b[..p]) + multiset(b[p + 1..]);
        multiset(rest);
      }
      SumOverPermutation(front, rest, h);
      SumOverRemove(b, p, h);
    }
  }
}
