/** Products and quotients by name, and sums over sequences and over the values of a dictionary. */
module Sums {

  // ----- products and quotients by name, so that nonlinear steps stay in small lemmas ---

  function Times(c: real, x: real): real { c * x }

  lemma TimesDistributes(c: real, x: real, y: real)
    ensures Times(c, x + y) == Times(c, x) + Times(c, y)
  {
  }

  lemma TimesAssociates(a: real, b: real, c: real)
    ensures Times(a, Times(b, c)) == Times(Times(a, b), c)
  {
  }

  lemma TimesSign(x: real, y: real)
    ensures (x > 0.0 && y > 0.0) || (x < 0.0 && y < 0.0) ==> Times(x, y) > 0.0
    ensures (x > 0.0 && y < 0.0) || (x < 0.0 && y > 0.0) ==> Times(x, y) < 0.0
    ensures x == 0.0 || y == 0.0 ==> Times(x, y) == 0.0
  {
  }

  lemma TimesStrict(c: real, x: real, y: real)
    requires c > 0.0 && x < y
    ensures Times(c, x) < Times(c, y) && Times(x, c) < Times(y, c)
  {
    TimesSign(c, y - x);
  }

  lemma TimesOrder(c: real, x: real, y: real)
    requires c >= 0.0 && x <= y
    ensures Times(c, x) <= Times(c, y)
    ensures Times(c, 0.0) == 0.0 && Times(c, 1.0) == c
  {
  }

  function Quotient(x: real, y: real): real
    requires y != 0.0
  {
    x / y
  }

  lemma QuotientTimes(x: real, y: real)
    requires y > 0.0
    ensures Times(Quotient(x, y), y) == x && Quotient(Times(x, y), y) == x
  {
  }

  lemma QuotientAdds(x: real, y: real, z: real)
    requires z > 0.0
    ensures Quotient(x, z) + Quotient(y, z) == Quotient(x + y, z)
    ensures Quotient(0.0, z) == 0.0 && Quotient(z, z) == 1.0
  {
  }

  lemma QuotientOrder(x: real, y: real, z: real)
    requires z > 0.0
    ensures x < y <==> Quotient(x, z) < Quotient(y, z)
  {
    if x < y {
      assert (y - x) / z > 0.0;
    } else {
      assert (x - y) / z >= 0.0;
    }
  }

  lemma QuotientBounds(n: real, d: real, lo: real, hi: real)
    requires d > 0.0 && Times(lo, d) <= n <= Times(hi, d)
    ensures lo <= Quotient(n, d) <= hi
  {
    QuotientTimes(n, d);
    if Quotient(n, d) < lo {
      TimesStrict(d, Quotient(n, d), lo);
    } else if hi < Quotient(n, d) {
      TimesStrict(d, hi, Quotient(n, d));
    }
  }

  // ----- sums --------------------------------------------------------------------------

  function Sum(xs: seq<real>): real {
    if xs == [] then 0.0 else Sum(xs[..|xs| - 1]) + xs[|xs| - 1]
  }

  lemma {:induction false} SumConstant(xs: seq<real>, x: real)
    requires forall i :: 0 <= i < |xs| ==> xs[i] == x
    ensures Sum(xs) == x * |xs| as real
  {
    if xs != [] {
      SumConstant(xs[..|xs| - 1], x);
    }
  }

  /** The sum of all values of a dictionary; the order of the keys does not matter (TotalPick). */
  ghost function Total(m: map<string, real>): real
    decreases |m|
  {
    if m == map[] then 0.0 else
      var k :| k in m;
      m[k] + Total(m - {k})
  }

  lemma {:induction false} TotalPick(m: map<string, real>, k: string)
    requires k in m
    ensures Total(m) == m[k] + Total(m - {k})
    decreases |m|
  {
    var first :| first in m && Total(m) == m[first] + Total(m - {first});
    if first != k {
      TotalPick(m - {first}, k);
      TotalPick(m - {k}, first);
      assert m - {first} - {k} == m - {k} - {first};
    }
  }

  /** Writing one entry changes the total by the difference of the two values. */
  lemma TotalUpdate(m: map<string, real>, k: string, v: real)
    ensures Total(m[k := v]) == Total(m - {k}) + v
    ensures Total(m) == Total(m - {k}) + (if k in m then m[k] else 0.0)
  {
    TotalPick(m[k := v], k);
    assert m[k := v] - {k} == m - {k};
    if k in m {
      TotalPick(m, k);
    } else {
      assert m - {k} == m;
    }
  }

  /** Entries that are zero may be dropped from a total. */
  lemma {:induction false} TotalDropZeros(m: map<string, real>, keep: set<string>)
    requires keep <= m.Keys
    requires forall k :: k in m && k !in keep ==> m[k] == 0.0
    ensures Total(m) == Total(map k | k in keep :: m[k])
    decreases |m.Keys - keep|
  {
    var kept := map k | k in keep :: m[k];
    if keep == m.Keys {
      assert kept == m;
    } else {
      var z :| z in m && z !in keep;
      TotalPick(m, z);
      var rest := m - {z};
      assert rest.Keys - keep == m.Keys - keep - {z};
      TotalDropZeros(rest, keep);
      assert kept == map k | k in keep :: rest[k];
    }
  }

  lemma {:induction false} TotalZero(m: map<string, real>)
    requires forall k :: k in m ==> m[k] == 0.0
    ensures Total(m) == 0.0
    decreases |m|
  {
    if m != map[] {
      var k :| k in m;
      TotalPick(m, k);
      TotalZero(m - {k});
    }
  }

  function Restrict(m: map<string, real>, keys: set<string>): map<string, real> {
    map k | k in m && k in keys :: m[k]
  }

  /** Picking some keys splits a total in two. */
  lemma {:induction false} TotalSplit(m: map<string, real>, keys: set<string>)
    ensures Total(m) == Total(Restrict(m, keys)) + Total(m - keys)
    decreases |m|
  {
    if m == map[] {
      assert Restrict(m, keys) == map[] && m - keys == map[];
    } else {
      var k :| k in m;
      var rest := m - {k};
      TotalSplit(rest, keys);
      TotalPick(m, k);
      if k in keys {
        TotalPick(Restrict(m, keys), k);
        assert Restrict(m, keys) - {k} == Restrict(rest, keys) && m - keys == rest - keys;
      } else {
        TotalPick(m - keys, k);
        assert Restrict(m, keys) == Restrict(rest, keys) && m - keys - {k} == rest - keys;
      }
    }
  }

  /** One more key visited by a loop over a dictionary. */
  lemma RestrictVisit(m: map<string, real>, todo: set<string>, k: string)
    requires k in m && k in todo
    ensures Total(Restrict(m, todo)) == m[k] + Total(Restrict(m, todo - {k}))
  {
    TotalPick(Restrict(m, todo), k);
    assert Restrict(m, todo) - {k} == Restrict(m, todo - {k});
  }

  /** Scaling every value scales the total. */
  lemma {:induction false} TotalScale(m: map<string, real>, m': map<string, real>, c: real)
    requires m.Keys == m'.Keys && forall k :: k in m ==> m'[k] == Times(c, m[k])
    ensures Total(m') == Times(c, Total(m))
    decreases |m|
  {
    if m == map[] {
      assert m' == map[];
    } else {
      var k :| k in m;
      var rest, rest' := m - {k}, m' - {k};
      TotalScale(rest, rest', c);
      TotalPick(m, k);
      TotalPick(m', k);
      TimesDistributes(c, m[k], Total(rest));
    }
  }

  lemma {:induction false} TotalAtMost(m: map<string, real>, m': map<string, real>)
    requires m.Keys == m'.Keys && forall k :: k in m ==> m[k] <= m'[k]
    ensures Total(m) <= Total(m')
    decreases |m|
  {
    if m == map[] {
      assert m' == map[];
    } else {
      var k :| k in m;
      TotalPick(m, k);
      TotalPick(m', k);
      TotalAtMost(m - {k}, m' - {k});
    }
  }

  /** The loop `sum(... for p in rows)`: visits the keys in any order. */
  method TotalOf(m: map<string, real>) returns (s: real)
    ensures s == Total(m)
  {
    var todo := m;
    s := 0.0;
    while todo != map[]
      invariant todo.Keys <= m.Keys && forall k :: k in todo ==> todo[k] == m[k]
      invariant s + Total(todo) == Total(m)
      decreases |todo|
    {
      var k :| k in todo;
      TotalPick(todo, k);
      s := s + todo[k];
      todo := todo - {k};
    }
  }
}
