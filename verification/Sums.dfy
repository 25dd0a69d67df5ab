/** Adding up a weight over the values of a finite map, comparing finite sets, and
    finding a number outside one. */
module Sums {
  ghost function Sum<K(!new), V>(m: map<K, V>, weight: V -> nat): nat
    decreases |m|
  {
    if m == map[] then 0
    else
      var k :| k in m;
      weight(m[k]) + Sum(m - {k}, weight)
  }

  /** The order in which keys are taken does not matter. */
  lemma {:induction false} SumSplit<K(!new), V>(m: map<K, V>, key: K, weight: V -> nat)
    requires key in m
    ensures Sum(m, weight) == weight(m[key]) + Sum(m - {key}, weight)
    decreases |m|
  {
    var k :| k in m && Sum(m, weight) == weight(m[k]) + Sum(m - {k}, weight);
    if k != key {
      SumSplit(m - {k}, key, weight);
      assert m - {k} - {key} == m - {key} - {k};
      SumSplit(m - {key}, k, weight);
    }
  }

  lemma SumUpdate<K(!new), V>(m: map<K, V>, key: K, value: V, weight: V -> nat)
    ensures Sum(m[key := value], weight) == weight(value) + Sum(m - {key}, weight)
    ensures key !in m ==> m - {key} == m
  {
    assert m[key := value] - {key} == m - {key};
    SumSplit(m[key := value], key, weight);
  }

  /** A sum of two weights, one never heavier than the other where it is zero. */
  lemma {:induction false} SumZero<K(!new), V>(m: map<K, V>, light: V -> nat, heavy: V -> nat)
    requires Sum(m, heavy) == 0
    requires forall v :: heavy(v) == 0 ==> light(v) == 0
    ensures Sum(m, light) == 0
    decreases |m|
  {
    if m != map[] {
      var k :| k in m;
      SumSplit(m, k, heavy);
      SumSplit(m, k, light);
      SumZero(m - {k}, light, heavy);
    }
  }

  lemma {:induction false} Fewer<T>(a: set<T>, b: set<T>)
    requires a <= b
    ensures |a| <= |b|
  {
    if a != {} {
      var x :| x in a;
      Fewer(a - {x}, b - {x});
    }
  }

  lemma {:induction false} UnusedId(ids: set<nat>) returns (id: nat)
    ensures id !in ids && forall i | i in ids :: i < id
  {
    if ids == {} {
      id := 0;
    } else {
      var i :| i in ids;
      var rest := UnusedId(ids - {i});
      id := if i < rest then rest else i + 1;
      assert forall j | j in ids :: j == i || j in ids - {i};
    }
  }
}
