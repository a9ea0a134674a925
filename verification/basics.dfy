/** Types shared by the contract and backend models. */
module Basics {

  datatype Option<+T> = None | Some(value: T)

  datatype Result<+T, +E> = Ok(value: T) | Err(error: E)

  /** A method that succeeded has moved `before` to `after` as its state machine says; one
      that failed has changed nothing and reports the machine's error. */
  predicate Follows<S(==), T, E(==)>(machine: Result<S, E>, before: S, after: S, r: Result<T, E>) {
    match r
    case Ok(_) => machine == Ok(after)
    case Err(e) => machine == Err(e) && after == before
  }

  /** An account or contract address; only equality matters. */
  datatype Address = Address(id: nat)

  const I128_MAX: int := 0x7FFF_FFFF_FFFF_FFFF_FFFF_FFFF_FFFF_FFFF
  const U64_MAX: int := 0xFFFF_FFFF_FFFF_FFFF
  const U32_MAX: int := 0xFFFF_FFFF

  /** The contracts are compiled with overflow checks, so an i128 result outside
      this range aborts the transaction. */
  predicate FitsI128(x: int) {
    -I128_MAX - 1 <= x <= I128_MAX
  }

  function Min(a: int, b: int): int {
    if a <= b then a else b
  }

  function Max(a: int, b: int): int {
    if a <= b then b else a
  }

  /** A storage read with a default of zero. */
  function Get<K>(m: map<K, int>, k: K): int {
    if k in m then m[k] else 0
  }

  /** A storage read of a nested map with a default of the empty map. */
  function GetMap<K, J>(m: map<K, map<J, int>>, k: K): map<J, int> {
    if k in m then m[k] else map[]
  }
}

/** Finite sums over the values of a map. */
module Sums {
  import opened Basics
  import Arithmetic

  ghost function Sum<K>(m: map<K, int>): int
  {
    if m == map[] then 0
    else
      var k :| k in m;
      m[k] + Sum(m - {k})
  }

  lemma {:induction false} SumRemove<K>(m: map<K, int>, k: K)
    requires k in m
    ensures Sum(m) == m[k] + Sum(m - {k})
    decreases |m|
  {
    var j :| j in m && Sum(m) == m[j] + Sum(m - {j});
    if j != k {
      SumRemove(m - {j}, k);
      SumRemove(m - {k}, j);
      assert (m - {j}) - {k} == (m - {k}) - {j};
    }
  }

  /** Writing one entry moves the sum by exactly the change of that entry. */
  lemma SumUpdate<K>(m: map<K, int>, k: K, v: int)
    ensures Sum(m[k := v]) == Sum(m) - Get(m, k) + v
  {
    var m' := m[k := v];
    SumRemove(m', k);
    if k in m {
      SumRemove(m, k);
      assert m' - {k} == m - {k};
    } else {
      assert m' - {k} == m;
    }
  }

  /** Removing one entry lowers the sum by exactly that entry. */
  lemma SumDelete<K>(m: map<K, int>, k: K)
    ensures Sum(m - {k}) == Sum(m) - Get(m, k)
  {
    if k in m {
      SumRemove(m, k);
    } else {
      assert m - {k} == m;
    }
  }

  lemma {:induction false} SumNonNegative<K>(m: map<K, int>)
    requires forall k :: k in m ==> m[k] >= 0
    ensures Sum(m) >= 0
    decreases |m|
  {
    if m != map[] {
      var k :| k in m && Sum(m) == m[k] + Sum(m - {k});
      SumNonNegative(m - {k});
    }
  }

  /** One entry of a map of non-negative numbers is at most the sum. */
  lemma SumBoundsEntry<K>(m: map<K, int>, k: K)
    requires forall j :: j in m ==> m[j] >= 0
    ensures Get(m, k) <= Sum(m)
  {
    if k in m {
      SumRemove(m, k);
      SumNonNegative(m - {k});
    } else {
      SumNonNegative(m);
    }
  }

  /** A common factor of all entries is a factor of the sum. */
  lemma {:induction false} SumScale<K>(m: map<K, int>, n: map<K, int>, f: int)
    requires n.Keys == m.Keys && forall k :: k in m ==> n[k] == m[k] * f
    ensures Sum(n) == Sum(m) * f
    decreases |m|
  {
    if m == map[] {
      assert n == map[];
    } else {
      var k :| k in m && Sum(m) == m[k] + Sum(m - {k});
      SumRemove(n, k);
      SumScale(m - {k}, n - {k}, f);
      Arithmetic.Distribute(m[k], Sum(m - {k}), f);
    }
  }

  /** Sums split along the terms of their entries. */
  lemma {:induction false} SumAdd<K>(m: map<K, int>, a: map<K, int>, b: map<K, int>)
    requires m.Keys == a.Keys == b.Keys && forall k :: k in m ==> m[k] == a[k] + b[k]
    ensures Sum(m) == Sum(a) + Sum(b)
    decreases |m|
  {
    if m == map[] {
      assert a == map[] && b == map[];
    } else {
      var k :| k in m && Sum(m) == m[k] + Sum(m - {k});
      SumRemove(a, k);
      SumRemove(b, k);
      SumAdd(m - {k}, a - {k}, b - {k});
    }
  }

  /** Two maps that read the same, absent entries counting as zero, have the same sum. */
  lemma SumSame<K(!new)>(m: map<K, int>, n: map<K, int>)
    requires forall k :: Get(m, k) == Get(n, k)
    ensures Sum(m) == Sum(n)
  {
    forall k | k in m || k in n ensures Get(m, k) == Get(n, k) {
    }
    SumMonotone(m, n);
    SumMonotone(n, m);
  }

  /** The sum over two maps without a common key. */
  lemma SumDisjoint<K(!new)>(a: map<K, int>, b: map<K, int>)
    requires a.Keys !! b.Keys
    ensures Sum(a + b) == Sum(a) + Sum(b)
  {
    var left := map k | k in a.Keys + b.Keys :: Get(a, k);
    var right := map k | k in a.Keys + b.Keys :: Get(b, k);
    SumSame(left, a);
    SumSame(right, b);
    SumAdd(a + b, left, right);
  }

  /** Pointwise comparison carries over to sums, absent keys counting as zero. */
  lemma {:induction false} SumMonotone<K>(m: map<K, int>, n: map<K, int>)
    requires forall k :: k in m ==> m[k] <= Get(n, k)
    requires forall k :: k in n && k !in m ==> n[k] >= 0
    ensures Sum(m) <= Sum(n)
    decreases |m|
  {
    if m == map[] {
      SumNonNegative(n);
    } else {
      var k :| k in m && Sum(m) == m[k] + Sum(m - {k});
      SumDelete(n, k);
      forall j | j in m - {k} ensures (m - {k})[j] <= Get(n - {k}, j) {
        assert m[j] <= Get(n, j);
      }
      SumMonotone(m - {k}, n - {k});
    }
  }
}

/** Facts about products and floor divisions of unknown numbers, stated so that a
    caller never needs more than one product at a time. */
module Arithmetic {

  lemma MulMonotone(a: int, b: int, k: int)
    requires a <= b && k >= 0
    ensures a * k <= b * k && k * a <= k * b
  {
  }

  lemma Distribute(a: int, b: int, k: int)
    ensures (a + b) * k == a * k + b * k
  {
  }

  /** The defining property of floor division by a positive number. */
  lemma DivBounds(a: int, d: int)
    requires d > 0
    ensures a / d * d <= a < a / d * d + d
  {
    assert a == d * (a / d) + a % d;
  }

  /** The quotient is the largest number whose product with d does not exceed a. */
  lemma DivAtLeast(a: int, d: int, q: int)
    requires d > 0
    ensures a / d >= q <==> a >= q * d
  {
    var p := a / d;
    DivBounds(a, d);
    if p >= q {
      MulMonotone(q, p, d);
    } else {
      MulMonotone(p + 1, q, d);
      assert (p + 1) * d == p * d + d;
    }
  }

  lemma DivMonotone(a: int, b: int, d: int)
    requires a <= b && d > 0
    ensures a / d <= b / d
  {
    DivAtLeast(a, d, a / d);
    DivAtLeast(b, d, a / d);
  }

  lemma DivExact(q: int, d: int)
    requires d > 0
    ensures q * d / d == q
  {
    DivAtLeast(q * d, d, q);
    DivAtLeast(q * d, d, q + 1);
    assert (q + 1) * d == q * d + d;
  }

  /** The quotient and remainder of a division carried out by hand. */
  lemma Divided(a: int, d: int, q: int, r: int)
    requires d > 0 && 0 <= r < d && a == q * d + r
    ensures a / d == q && a % d == r
  {
    Distribute(q, 1, d);
    DivAtLeast(a, d, q);
    DivAtLeast(a, d, q + 1);
    assert a == d * (a / d) + a % d;
  }

  /** Groups of three bytes are whole groups of six bits. */
  lemma WholeGroups(n: nat)
    requires n % 3 == 0
    ensures 8 * n % 6 == 0
  {
    var q := n / 3;
    assert n == 3 * q + n % 3;
    Divided(8 * n, 6, 4 * q, 0);
  }

  /** One byte more makes two letters more, two bytes more make three. */
  lemma RestLetters(n: nat)
    requires n % 3 == 0
    ensures (8 * (n + 1) + 5) / 6 % 4 == 2 && (8 * (n + 2) + 5) / 6 % 4 == 3
  {
    var q := n / 3;
    assert n == 3 * q + n % 3;
    Divided(8 * (n + 1) + 5, 6, 4 * q + 2, 1);
    Divided(8 * (n + 2) + 5, 6, 4 * q + 3, 3);
    Divided(4 * q + 2, 4, q, 2);
    Divided(4 * q + 3, 4, q, 3);
  }
}
