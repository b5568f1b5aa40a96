/** Occurrence counts, as kept by the scripts' `defaultdict(int)` counters and `+= 1` loops. */
module Counting {

  /** Number of occurrences of `x` in `s` (recursion from the end, as a left-to-right loop accumulates). */
  function Count<T(==)>(s: seq<T>, x: T): (n: nat)
    ensures n <= |s|
    ensures n > 0 <==> x in s
  {
    if s == [] then 0
    else Count(s[..|s| - 1], x) + (if s[|s| - 1] == x then 1 else 0)
  }

  predicate Distinct<T(==)>(ks: seq<T>) {
    forall i, j :: 0 <= i < j < |ks| ==> ks[i] != ks[j]
  }

  /** Sum over the keys `ks` of their counts in `s`. */
  function SumCounts<T(==)>(s: seq<T>, ks: seq<T>): nat {
    if ks == [] then 0 else SumCounts(s, ks[..|ks| - 1]) + Count(s, ks[|ks| - 1])
  }

  /** Sum of the values stored under the keys `ks`. */
  function SumValues<T>(m: map<T, nat>, ks: seq<T>): nat
    requires forall k :: k in ks ==> k in m
  {
    if ks == [] then 0 else SumValues(m, ks[..|ks| - 1]) + m[ks[|ks| - 1]]
  }

  lemma {:induction false} CountAppend<T>(s: seq<T>, x: T, y: T)
    ensures Count(s + [x], y) == Count(s, y) + (if x == y then 1 else 0)
  {
    assert (s + [x])[..|s|] == s;
  }

  lemma {:induction false} CountConcat<T>(s: seq<T>, t: seq<T>, y: T)
    ensures Count(s + t, y) == Count(s, y) + Count(t, y)
    decreases |t|
  {
    if t == [] {
      assert s + t == s;
    } else {
      var t' := t[..|t| - 1];
      assert s + t == (s + t') + [t[|t| - 1]];
      CountAppend(s + t', t[|t| - 1], y);
      CountConcat(s, t', y);
      assert t == t' + [t[|t| - 1]];
      CountAppend(t', t[|t| - 1], y);
    }
  }

  /** The count is the multiplicity of `x` in the multiset of `s`. */
  lemma {:induction false} CountIsMultiplicity<T>(s: seq<T>, x: T)
    ensures Count(s, x) == multiset(s)[x]
  {
    if s != [] {
      var s' := s[..|s| - 1];
      assert s == s' + [s[|s| - 1]];
      CountIsMultiplicity(s', x);
    }
  }

  /** A key listed once among distinct keys is counted once. */
  lemma {:induction false} CountDistinct<T>(ks: seq<T>, x: T)
    requires Distinct(ks)
    ensures Count(ks, x) == if x in ks then 1 else 0
  {
    if ks != [] {
      var ks' := ks[..|ks| - 1];
      CountDistinct(ks', x);
      assert ks == ks' + [ks[|ks| - 1]];
      if ks[|ks| - 1] == x {
        assert x !in ks' by {
          forall i | 0 <= i < |ks'| ensures ks'[i] != x {
            assert ks'[i] == ks[i];
          }
        }
      }
    }
  }

  lemma {:induction false} SumCountsAppend<T>(s: seq<T>, x: T, ks: seq<T>)
    ensures SumCounts(s + [x], ks) == SumCounts(s, ks) + Count(ks, x)
  {
    if ks != [] {
      var ks' := ks[..|ks| - 1];
      SumCountsAppend(s, x, ks');
      CountAppend(s, x, ks[|ks| - 1]);
    }
  }

  /** Counting every element of `s` under distinct keys that cover it accounts for all of `s`. */
  lemma {:induction false} SumCountsIsLength<T>(s: seq<T>, ks: seq<T>)
    requires Distinct(ks)
    requires forall x :: x in s ==> x in ks
    ensures SumCounts(s, ks) == |s|
  {
    if s == [] {
      SumCountsOfEmpty(s, ks);
    } else {
      var s' := s[..|s| - 1];
      var x := s[|s| - 1];
      assert s == s' + [x];
      SumCountsIsLength(s', ks);
      SumCountsAppend(s', x, ks);
      CountDistinct(ks, x);
    }
  }

  lemma {:induction false} SumCountsOfEmpty<T>(s: seq<T>, ks: seq<T>)
    requires s == []
    ensures SumCounts(s, ks) == 0
  {
    if ks != [] {
      SumCountsOfEmpty(s, ks[..|ks| - 1]);
    }
  }

  /** A counter that agrees with `Count` on the keys sums to the same total. */
  lemma {:induction false} SumValuesOfCounts<T>(m: map<T, nat>, s: seq<T>, ks: seq<T>)
    requires forall k :: k in ks ==> k in m && m[k] == Count(s, k)
    ensures SumValues(m, ks) == SumCounts(s, ks)
  {
    if ks != [] {
      SumValuesOfCounts(m, s, ks[..|ks| - 1]);
    }
  }

  /** Counts of `s` over an enumeration of exactly its elements sum to `|s|`. */
  lemma SumOfCounter<T>(m: map<T, nat>, s: seq<T>, ks: seq<T>)
    requires Distinct(ks)
    requires forall k :: k in ks <==> k in m
    requires forall k :: k in m <==> k in s
    requires forall k :: k in m ==> m[k] == Count(s, k)
    ensures SumValues(m, ks) == |s|
  {
    SumValuesOfCounts(m, s, ks);
    SumCountsIsLength(s, ks);
  }

  /** defaultdict lookup `m[k]`: a missing key is inserted with count 0, nothing else changes. */
  function Touch<K>(m: map<K, nat>, k: K): (r: map<K, nat>)
    ensures r.Keys == m.Keys + {k}
    ensures forall j :: j in m ==> r[j] == m[j]
    ensures k !in m ==> r[k] == 0
  {
    if k in m then m else m[k := 0]
  }

  /** `d[k] += 1` on a defaultdict(int). */
  function Bump<K>(m: map<K, nat>, k: K): map<K, nat> {
    m[k := (if k in m then m[k] else 0) + 1]
  }

  /** A map that counts every element of `s`: keys exactly the elements, values their counts. */
  predicate Counts<T>(m: map<T, nat>, s: seq<T>) {
    && m.Keys == (set i | 0 <= i < |s| :: s[i])
    && (forall x :: x in m ==> m[x] == Count(s, x))
  }

  lemma BumpCounts<T>(m: map<T, nat>, s: seq<T>, x: T)
    requires Counts(m, s)
    ensures Counts(Bump(m, x), s + [x])
  {
    var m' := Bump(m, x);
    forall y | y in m' ensures m'[y] == Count(s + [x], y) {
      CountAppend(s, x, y);
    }
    forall y ensures y in m' <==> y in s + [x] {
    }
  }

  /** A defaultdict lookup keeps a counter a counter: the inserted key has count 0 in the list too. */
  lemma TouchKeepsCounts<T>(m: map<T, nat>, s: seq<T>, k: T)
    requires Counts(m, s)
    ensures forall x :: x in Touch(m, k) ==> Touch(m, k)[x] == Count(s, x)
  {
    if k !in m {
      assert k !in s;
    }
  }

  /** Summed over a duplicate-free listing of its keys, a counter of `s` gives `|s|`. */
  lemma CountsTotal<T>(m: map<T, nat>, s: seq<T>, ks: seq<T>)
    requires Counts(m, s)
    requires Distinct(ks) && forall k :: k in ks <==> k in m
    ensures SumValues(m, ks) == |s|
  {
    SumOfCounter(m, s, ks);
  }
}
