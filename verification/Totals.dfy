/** Sums over the keys of a table, whatever the order they are visited in. */
module Totals {

  ghost function SumOver(keys: set<nat>, f: nat -> int): int {
    if keys == {} then 0
    else
      var k :| k in keys;
      f(k) + SumOver(keys - {k}, f)
  }

  /** Any key may be added first. */
  lemma {:induction false} TakeOut(keys: set<nat>, f: nat -> int, k: nat)
    requires k in keys
    ensures SumOver(keys, f) == f(k) + SumOver(keys - {k}, f)
    decreases |keys|
  {
    var j :| j in keys && SumOver(keys, f) == f(j) + SumOver(keys - {j}, f);
    if j != k {
      TakeOut(keys - {j}, f, k);
      TakeOut(keys - {k}, f, j);
      assert keys - {j} - {k} == keys - {k} - {j};
    }
  }

  lemma {:induction false} SameTerms(keys: set<nat>, f: nat -> int, g: nat -> int)
    requires forall k :: k in keys ==> f(k) == g(k)
    ensures SumOver(keys, f) == SumOver(keys, g)
    decreases |keys|
  {
    if keys != {} {
      var k :| k in keys;
      TakeOut(keys, f, k);
      TakeOut(keys, g, k);
      SameTerms(keys - {k}, f, g);
    }
  }

  /** Keys whose term is zero do not matter. */
  lemma {:induction false} ZeroTerms(keys: set<nat>, some: set<nat>, f: nat -> int)
    requires some <= keys && forall k :: k in keys && k !in some ==> f(k) == 0
    ensures SumOver(keys, f) == SumOver(some, f)
    decreases |keys - some|
  {
    if some != keys {
      var k :| k in keys && k !in some;
      TakeOut(keys, f, k);
      assert (keys - {k}) - some < keys - some by {
        assert k in keys - some && k !in (keys - {k}) - some;
      }
      Shrinks(keys - some, (keys - {k}) - some);
      ZeroTerms(keys - {k}, some, f);
    }
  }

  lemma {:induction false} Shrinks(a: set<nat>, b: set<nat>)
    requires b < a
    ensures |b| < |a|
  {
    var k :| k in a && k !in b;
    assert b <= a - {k};
    NoLarger(a - {k}, b);
  }

  lemma {:induction false} NoLarger(a: set<nat>, b: set<nat>)
    requires b <= a
    ensures |b| <= |a|
    decreases b
  {
    if b != {} {
      var k :| k in b;
      NoLarger(a - {k}, b - {k});
    }
  }
}
