// Small definitions shared by every module.
module Prelude {
  datatype Option<+T> = None | Some(value: T)

  // The two rate dimensions: requests and tokens per minute.
  datatype Side = Rpm | Tpm

  function Max(a: int, b: int): int {
    if a >= b then a else b
  }

  function Min(a: int, b: int): int {
    if a <= b then a else b
  }

  // Integer division of the source language: it truncates toward zero.
  function GoDiv(a: int, b: int): int
    requires b > 0
  {
    if a >= 0 then a / b else -((-a) / b)
  }

  lemma {:induction false} MulMono(a: int, b: int, n: int)
    requires a <= b && 0 <= n
    ensures a * n <= b * n
  {
  }

  lemma {:induction false} DivBounds(x: int, n: int)
    requires n > 0
    ensures x / n * n <= x < x / n * n + n
  {
  }

  // A quotient is the only number of whole steps of size n that fits x.
  lemma {:induction false} DivUnique(x: int, n: int, q: int)
    requires n > 0 && q * n <= x < q * n + n
    ensures x / n == q
  {
    var p := x / n;
    assert p * n <= x < p * n + n;
    if p < q {
      MulMono(p + 1, q, n);
    } else if q < p {
      MulMono(q + 1, p, n);
    }
  }

  lemma {:induction false} DivShift(x: int, n: int, k: int)
    requires n > 0
    ensures (x - k * n) / n == x / n - k
  {
    var q := x / n;
    assert q * n <= x < q * n + n;
    assert (q - k) * n == q * n - k * n;
    DivUnique(x - k * n, n, q - k);
  }

  lemma {:induction false} DivMono(x: int, y: int, n: int)
    requires n > 0 && x <= y
    ensures x / n <= y / n
  {
    var p, q := x / n, y / n;
    assert p * n <= x && y < q * n + n;
    if q < p {
      MulMono(q + 1, p, n);
    }
  }

  // Enough time for k steps has passed exactly when at least k steps fit in it.
  lemma {:induction false} DivAtLeast(x: int, n: int, k: int)
    requires n > 0
    ensures x / n >= k <==> x >= k * n
  {
    var q := x / n;
    assert q * n <= x < q * n + n;
    if q >= k {
      MulMono(k, q, n);
    } else {
      MulMono(q + 1, k, n);
    }
  }

  ghost predicate Injective<K, V>(m: map<K, V>) {
    forall j, k | j in m && k in m && m[j] == m[k] :: j == k
  }

  lemma {:induction false} InjectiveUpdate<K, V>(m: map<K, V>, k: K, v: V)
    requires Injective(m) && v !in m.Values
    ensures Injective(m[k := v])
  {
    forall j | j in m ensures m[j] != v {
      assert m[j] in m.Values;
    }
  }

  // ---------- Sums over maps ----------

  // The values of a map combined one by one, in whatever order.
  ghost function Fold<V(!new), A(!new)>(m: map<string, V>, unit: A, add: (V, A) -> A): A {
    if m == map[] then unit else var k :| k in m; add(m[k], Fold(m - {k}, unit, add))
  }

  ghost predicate OrderFree<V(!new), A(!new)>(add: (V, A) -> A) {
    forall x, y, a :: add(x, add(y, a)) == add(y, add(x, a))
  }

  // When the order makes no difference, any key can be taken first.
  lemma {:induction false} FoldPick<V(!new), A(!new)>(m: map<string, V>, unit: A, add: (V, A) -> A, k: string)
    requires k in m && OrderFree(add)
    ensures Fold(m, unit, add) == add(m[k], Fold(m - {k}, unit, add))
    decreases |m|
  {
    hide OrderFree;
    var j :| j in m && Fold(m, unit, add) == add(m[j], Fold(m - {j}, unit, add));
    if j != k {
      FoldPick(m - {j}, unit, add, k);
      FoldPick(m - {k}, unit, add, j);
      assert m - {j} - {k} == m - {k} - {j};
      Swap(add, m[j], m[k], Fold(m - {j} - {k}, unit, add));
    }
  }

  lemma {:induction false} Swap<V(!new), A(!new)>(add: (V, A) -> A, x: V, y: V, a: A)
    requires OrderFree(add)
    ensures add(x, add(y, a)) == add(y, add(x, a))
  {
  }

  function AddInt(x: int, sum: int): int {
    x + sum
  }

  function AddReal(x: real, sum: real): real {
    x + sum
  }

  ghost function Total(m: map<string, int>): int {
    Fold(m, 0, AddInt)
  }

  ghost function Sum(m: map<string, real>): real {
    Fold(m, 0.0, AddReal)
  }

  lemma {:induction false} TotalPick(m: map<string, int>, k: string)
    requires k in m
    ensures Total(m) == m[k] + Total(m - {k})
  {
    FoldPick(m, 0, AddInt, k);
  }

  lemma {:induction false} SumPick(m: map<string, real>, k: string)
    requires k in m
    ensures Sum(m) == m[k] + Sum(m - {k})
  {
    FoldPick(m, 0.0, AddReal, k);
  }

  lemma {:induction false} TotalAdd(m: map<string, int>, k: string, v: int)
    requires k !in m
    ensures Total(m[k := v]) == Total(m) + v
  {
    TotalPick(m[k := v], k);
    assert m[k := v] - {k} == m;
  }
}
