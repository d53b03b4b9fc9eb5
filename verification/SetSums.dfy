/** Sizes of finite sets, and sums over them of natural weights. */
module SetSums {
  lemma SubsetSize<T>(a: set<T>, b: set<T>)
    requires a <= b
    ensures |a| <= |b|
  {
    assert b == a + (b - a);
  }

  /** Every member of `s` has a weight. */
  ghost predicate Within(s: set<nat>, w: seq<nat>) {
    forall i :: i in s ==> i < |w|
  }

  /** The weights of the members of `s`, added up. */
  ghost function Sum(s: set<nat>, w: seq<nat>): nat
    requires Within(s, w)
  {
    if s == {} then 0
    else
      var i :| i in s;
      w[i] + Sum(s - {i}, w)
  }

  lemma {:induction false} SumRemove(s: set<nat>, w: seq<nat>, i: nat)
    requires i in s && Within(s, w)
    ensures Sum(s, w) == w[i] + Sum(s - {i}, w)
    decreases s
  {
    var j :| j in s && Sum(s, w) == w[j] + Sum(s - {j}, w);
    if i != j {
      SumRemove(s - {j}, w, i);
      assert s - {j} - {i} == s - {i} - {j};
      SumRemove(s - {i}, w, j);
    }
  }

  lemma SumAdd(s: set<nat>, w: seq<nat>, i: nat)
    requires i !in s && i < |w| && Within(s, w)
    ensures Sum(s + {i}, w) == w[i] + Sum(s, w)
  {
    SumRemove(s + {i}, w, i);
    assert s + {i} - {i} == s;
  }

  lemma {:induction false} SumSubset(a: set<nat>, b: set<nat>, w: seq<nat>)
    requires a <= b && Within(b, w)
    ensures Sum(a, w) <= Sum(b, w)
    decreases b
  {
    if i: nat :| i in b && i !in a {
      SumRemove(b, w, i);
      SumSubset(a, b - {i}, w);
    } else {
      assert a == b;
    }
  }
}
