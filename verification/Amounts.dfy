/** The seven numeric columns of a rollup row, and their sums over finite tables. */
module Amounts {

  // All times are in seconds, memorySum in byte-seconds, as in the rollups table.
  datatype Amounts = Amounts(
    occupied: real,
    weighted: real,
    occupancyValid: real,
    utilValid: real,
    memorySum: real,
    memoryValid: real,
    attributionValid: real)

  const ZERO := Amounts(0.0, 0.0, 0.0, 0.0, 0.0, 0.0, 0.0)

  function Add(a: Amounts, b: Amounts): Amounts {
    Amounts(
      a.occupied + b.occupied,
      a.weighted + b.weighted,
      a.occupancyValid + b.occupancyValid,
      a.utilValid + b.utilValid,
      a.memorySum + b.memorySum,
      a.memoryValid + b.memoryValid,
      a.attributionValid + b.attributionValid)
  }

  function Negate(a: Amounts): Amounts {
    Amounts(
      -a.occupied,
      -a.weighted,
      -a.occupancyValid,
      -a.utilValid,
      -a.memorySum,
      -a.memoryValid,
      -a.attributionValid)
  }

  function Sub(a: Amounts, b: Amounts): Amounts {
    Add(a, Negate(b))
  }

  // A missing row reads as zero.
  function At<K>(m: map<K, Amounts>, k: K): Amounts {
    if k in m then m[k] else ZERO
  }

  // The sum of the rows named by a set of keys.
  ghost function SumOver<K>(m: map<K, Amounts>, keys: set<K>): Amounts
    requires keys <= m.Keys
  {
    if keys == {} then ZERO
    else
      var k :| k in keys;
      Add(m[k], SumOver(m, keys - {k}))
  }

  ghost function Sum<K>(m: map<K, Amounts>): Amounts {
    SumOver(m, m.Keys)
  }

  lemma AddZero(a: Amounts)
    ensures Add(a, ZERO) == a
  {
  }

  lemma AddCommutes(a: Amounts, b: Amounts)
    ensures Add(a, b) == Add(b, a)
  {
  }

  lemma AddExchange(a: Amounts, b: Amounts, c: Amounts)
    ensures Add(a, Add(b, c)) == Add(b, Add(a, c))
  {
  }

  lemma AddInterchange(a: Amounts, b: Amounts, c: Amounts, d: Amounts)
    ensures Add(Add(a, b), Add(c, d)) == Add(Add(a, c), Add(b, d))
  {
  }

  lemma {:induction false} SumPick<K>(m: map<K, Amounts>, keys: set<K>, k: K)
    requires keys <= m.Keys && k in keys
    ensures SumOver(m, keys) == Add(m[k], SumOver(m, keys - {k}))
  {
    var j :| j in keys && SumOver(m, keys) == Add(m[j], SumOver(m, keys - {j}));
    if j != k {
      SumPick(m, keys - {j}, k);
      SumPick(m, keys - {k}, j);
      assert keys - {j} - {k} == keys - {k} - {j};
      AddExchange(m[j], m[k], SumOver(m, keys - {j} - {k}));
    }
  }

  lemma {:induction false} SumAgree<K>(m: map<K, Amounts>, n: map<K, Amounts>, keys: set<K>)
    requires keys <= m.Keys && keys <= n.Keys
    requires forall k :: k in keys ==> m[k] == n[k]
    ensures SumOver(m, keys) == SumOver(n, keys)
  {
    if keys != {} {
      var k :| k in keys;
      SumPick(m, keys, k);
      SumPick(n, keys, k);
      SumAgree(m, n, keys - {k});
    }
  }

  lemma Replace(a: Amounts, rest: Amounts, v: Amounts)
    ensures Add(Sub(Add(a, rest), a), v) == Add(v, rest)
    ensures Add(Sub(rest, ZERO), v) == Add(v, rest)
  {
  }

  lemma SumUpdate<K>(m: map<K, Amounts>, k: K, v: Amounts)
    ensures Sum(m[k := v]) == Add(Sub(Sum(m), At(m, k)), v)
  {
    hide Add, Sub, SumOver;
    var n := m[k := v];
    var rest := m.Keys - {k};
    SumPick(n, n.Keys, k);
    assert n.Keys - {k} == rest;
    SumAgree(m, n, rest);
    Replace(At(m, k), SumOver(m, rest), v);
    if k in m {
      SumPick(m, m.Keys, k);
    } else {
      assert rest == m.Keys;
    }
  }

  lemma {:induction false} SumUnion<K>(m: map<K, Amounts>, a: set<K>, b: set<K>)
    requires a !! b && a <= m.Keys && b <= m.Keys
    ensures SumOver(m, a + b) == Add(SumOver(m, a), SumOver(m, b))
  {
    if a == {} {
      assert a + b == b;
    } else {
      var k :| k in a;
      SumPick(m, a, k);
      SumPick(m, a + b, k);
      assert a + b - {k} == (a - {k}) + b;
      SumUnion(m, a - {k}, b);
    }
  }

  lemma {:induction false} SumPlus<K>(m: map<K, Amounts>, n: map<K, Amounts>, s: map<K, Amounts>, keys: set<K>)
    requires keys <= m.Keys && keys <= n.Keys && keys <= s.Keys
    requires forall k :: k in keys ==> s[k] == Add(m[k], n[k])
    ensures SumOver(s, keys) == Add(SumOver(m, keys), SumOver(n, keys))
  {
    if keys != {} {
      var k :| k in keys;
      SumPick(m, keys, k);
      SumPick(n, keys, k);
      SumPick(s, keys, k);
      SumPlus(m, n, s, keys - {k});
      var restM, restN := SumOver(m, keys - {k}), SumOver(n, keys - {k});
      assert SumOver(s, keys) == Add(Add(m[k], n[k]), Add(restM, restN));
      AddInterchange(m[k], n[k], restM, restN);
    }
  }

  lemma {:induction false} SumZero<K>(m: map<K, Amounts>, keys: set<K>)
    requires keys <= m.Keys
    requires forall k :: k in keys ==> m[k] == ZERO
    ensures SumOver(m, keys) == ZERO
  {
    if keys != {} {
      var k :| k in keys;
      SumPick(m, keys, k);
      SumZero(m, keys - {k});
    }
  }
}
