/** The Hamming network classifier (007.1_Hamming.py): the distance from the input to every
    stored pattern, and the label of the nearest one. */
module Hamming {
  import opened Wrappers
  import opened Counting

  /** PATRONES, in insertion order. */
  const Patterns: seq<(string, seq<int>)> := [
    ("A", [1, 1, 1, 0, 0, 0, 0]),
    ("B", [0, 0, 0, 1, 1, 1, 1])
  ]

  /** ENTRADA_RUIDOSA: pattern A with its third bit cleared. */
  const NoisyInput: seq<int> := [1, 1, 0, 0, 0, 0, 0]

  function Abs(x: int): nat {
    if x < 0 then -x else x
  }

  /** `np.sum(np.abs(entrada - patron))` for vectors of one length. */
  function Distance(a: seq<int>, b: seq<int>): (d: nat)
    requires |a| == |b|
    ensures d == 0 <==> a == b
  {
    if a == [] then 0
    else
      var n := |a| - 1;
      assert a[..n] == b[..n] && a[n] == b[n] ==> a == b by {
        assert a == a[..n] + [a[n]] && b == b[..n] + [b[n]];
      }
      Distance(a[..n], b[..n]) + Abs(a[n] - b[n])
  }

  /** Number of positions where the two vectors differ. */
  function Mismatches(a: seq<int>, b: seq<int>): nat
    requires |a| == |b|
  {
    if a == [] then 0 else Mismatches(a[..|a| - 1], b[..|b| - 1]) + (if a[|a| - 1] != b[|b| - 1] then 1 else 0)
  }

  predicate IsBits(a: seq<int>) {
    forall i :: 0 <= i < |a| ==> a[i] == 0 || a[i] == 1
  }

  /** On 0/1 vectors the distance is the number of differing positions, at most the length. */
  lemma {:induction false} DistanceOfBits(a: seq<int>, b: seq<int>)
    requires |a| == |b| && IsBits(a) && IsBits(b)
    ensures Distance(a, b) == Mismatches(a, b) <= |a|
  {
    if a != [] {
      DistanceOfBits(a[..|a| - 1], b[..|b| - 1]);
    }
  }

  /** The distance does not depend on which vector is the input. */
  lemma {:induction false} DistanceSymmetric(a: seq<int>, b: seq<int>)
    requires |a| == |b|
    ensures Distance(a, b) == Distance(b, a)
  {
    if a != [] {
      DistanceSymmetric(a[..|a| - 1], b[..|b| - 1]);
    }
  }

  /** The index `min(d, key=d.get)` picks: the first smallest value. */
  function FirstMin(ds: seq<nat>): (m: nat)
    requires ds != []
    ensures m < |ds|
    ensures forall j :: 0 <= j < |ds| ==> ds[m] <= ds[j]
    ensures forall j :: 0 <= j < m ==> ds[m] < ds[j]
  {
    if |ds| == 1 then 0
    else
      var m := FirstMin(ds[..|ds| - 1]);
      if ds[|ds| - 1] < ds[m] then |ds| - 1 else m
  }

  function Labels(patterns: seq<(string, seq<int>)>): seq<string> {
    seq(|patterns|, i requires 0 <= i < |patterns| => patterns[i].0)
  }

  /** `clasificar_hamming`: a distance entry per pattern, in order, and the label of the first
      pattern at minimal distance. `min` of no patterns and vectors of different lengths are
      ValueErrors. */
  method ClassifyHamming(input: seq<int>, patterns: seq<(string, seq<int>)>)
    returns (r: Result<(seq<nat>, string)>)
    requires Distinct(Labels(patterns))
    ensures r.Err? <==> patterns == [] || exists i :: 0 <= i < |patterns| && |patterns[i].1| != |input|
    ensures r.Err? ==> r.error == ValueError
    ensures r.Ok? ==>
      && |r.value.0| == |patterns|
      && (forall i :: 0 <= i < |patterns| ==> r.value.0[i] == Distance(input, patterns[i].1))
      && r.value.1 == patterns[FirstMin(r.value.0)].0
  {
    var distances: seq<nat> := [];
    var i := 0;
    while i < |patterns|
      invariant i <= |patterns|
      invariant |distances| == i
      invariant forall k :: 0 <= k < i ==> |patterns[k].1| == |input|
      invariant forall k :: 0 <= k < i ==> distances[k] == Distance(input, patterns[k].1)
    {
      var pattern := patterns[i].1;
      if |pattern| != |input| {
        return Err(ValueError);
      }
      distances := distances + [Distance(input, pattern)];
      i := i + 1;
    }
    if distances == [] {
      return Err(ValueError);
    }
    var best := FirstMin(distances);
    r := Ok((distances, patterns[best].0));
  }

  /** The classification has minimal distance, and no earlier pattern is as close. */
  lemma NearestFirst(input: seq<int>, patterns: seq<(string, seq<int>)>, ds: seq<nat>)
    requires patterns != [] && |ds| == |patterns|
    requires forall i :: 0 <= i < |patterns| ==> |patterns[i].1| == |input| && ds[i] == Distance(input, patterns[i].1)
    ensures forall i :: 0 <= i < |patterns| ==>
      Distance(input, patterns[FirstMin(ds)].1) <= Distance(input, patterns[i].1)
    ensures forall i :: 0 <= i < FirstMin(ds) ==>
      Distance(input, patterns[FirstMin(ds)].1) < Distance(input, patterns[i].1)
    ensures input in (set i | 0 <= i < |patterns| :: patterns[i].1) ==> ds[FirstMin(ds)] == 0
  {
    if input in (set i | 0 <= i < |patterns| :: patterns[i].1) {
      var i :| 0 <= i < |patterns| && patterns[i].1 == input;
      assert ds[i] == 0;
    }
  }

  lemma DistanceEmpty()
    ensures Distance([], []) == 0
  {
  }

  lemma DistanceStep(a: seq<int>, b: seq<int>, k: nat)
    requires |a| == |b| && k < |a|
    ensures Distance(a[..k + 1], b[..k + 1]) == Distance(a[..k], b[..k]) + Abs(a[k] - b[k])
  {
    assert a[..k + 1][..k] == a[..k] && b[..k + 1][..k] == b[..k];
  }

  /** The noisy input is one bit from A and six from B, so it is classified as A. */
  lemma SampleClassification()
    ensures Distance(NoisyInput, Patterns[0].1) == 1
    ensures Distance(NoisyInput, Patterns[1].1) == 6
    ensures Patterns[FirstMin([1, 6])].0 == "A"
  {
    hide Distance;
    var x := NoisyInput;
    var a := Patterns[0].1;
    var b := Patterns[1].1;
    DistanceEmpty();
    for k := 0 to 7
      invariant Distance(x[..k], a[..k]) == (if k < 3 then 0 else 1)
      invariant Distance(x[..k], b[..k]) == (if k < 3 then k else k - 1)
    {
      DistanceStep(x, a, k);
      DistanceStep(x, b, k);
    }
    assert x[..7] == x && a[..7] == a && b[..7] == b;
  }
}
