/** Wagner–Fischer edit distance, as both type-mapping generators compute it
    (binary/marshall/generator/type_gen.py and binary/marshall/type_gen.py
    hold the same routine). `Distance` is the reference definition: the least
    number of single-character insertions, deletions and substitutions. */
module Levenshtein {
  import opened Common
  import StableSort

  function Min3(a: nat, b: nat, c: nat): (m: nat)
    ensures m <= a && m <= b && m <= c
    ensures m == a || m == b || m == c
  {
    if a <= b && a <= c then a else if b <= c then b else c
  }

  /** Unit-cost edit distance, by recursion on the last characters. */
  function Distance(a: string, b: string): nat
    decreases |a| + |b|
  {
    if |a| == 0 then |b|
    else if |b| == 0 then |a|
    else Min3(Distance(a[..|a| - 1], b) + 1,
              Distance(a, b[..|b| - 1]) + 1,
              Distance(a[..|a| - 1], b[..|b| - 1]) + (if a[|a| - 1] == b[|b| - 1] then 0 else 1))
  }

  /** The row-by-row computation: row i of the table holds the distances
      between the first i characters of s1 and every prefix of s2. The
      shorter argument always becomes the inner one. */
  method LevenshteinDistance(s1: string, s2: string) returns (d: nat)
    ensures d == Distance(s1, s2)
    decreases if |s1| < |s2| then 1 else 0
  {
    if |s1| < |s2| {
      d := LevenshteinDistance(s2, s1);
      DistanceSymmetric(s2, s1);
      return;
    }
    if |s2| == 0 {
      return |s1|;
    }
    var previousRow: seq<nat> := [];
    var k := 0;
    while k < |s2| + 1
      invariant 0 <= k <= |s2| + 1
      invariant |previousRow| == k
      invariant forall j :: 0 <= j < k ==> previousRow[j] == j
    {
      previousRow := previousRow + [k];
      k := k + 1;
    }
    forall j | 0 <= j <= |s2|
      ensures previousRow[j] == Distance(s1[..0], s2[..j])
    {
      assert s1[..0] == "";
    }
    var i := 0;
    while i < |s1|
      invariant 0 <= i <= |s1|
      invariant |previousRow| == |s2| + 1
      invariant forall j :: 0 <= j <= |s2| ==> previousRow[j] == Distance(s1[..i], s2[..j])
    {
      previousRow := NextRow(s1, s2, i, previousRow);
      i := i + 1;
    }
    assert s1[..|s1|] == s1 && s2[..|s2|] == s2;
    d := previousRow[|previousRow| - 1];
  }

  /** The inner loop: row i + 1 of the table from row i. */
  method NextRow(s1: string, s2: string, i: nat, previousRow: seq<nat>) returns (currentRow: seq<nat>)
    requires i < |s1|
    requires |previousRow| == |s2| + 1
    requires forall j :: 0 <= j <= |s2| ==> previousRow[j] == Distance(s1[..i], s2[..j])
    ensures |currentRow| == |s2| + 1
    ensures forall j :: 0 <= j <= |s2| ==> currentRow[j] == Distance(s1[..i + 1], s2[..j])
  {
    var c1 := s1[i];
    currentRow := [i + 1];
    assert s2[..0] == "";
    var j := 0;
    while j < |s2|
      invariant 0 <= j <= |s2|
      invariant |currentRow| == j + 1
      invariant forall m :: 0 <= m <= j ==> currentRow[m] == Distance(s1[..i + 1], s2[..m])
    {
      var c2 := s2[j];
      var insertions := previousRow[j + 1] + 1;
      var deletions := currentRow[j] + 1;
      var substitutions := previousRow[j] + (if c1 != c2 then 1 else 0);
      StepCell(s1, s2, i, j);
      currentRow := currentRow + [Min3(insertions, deletions, substitutions)];
      j := j + 1;
    }
  }

  /** One cell of the table, in terms of its three neighbours. */
  lemma StepCell(s1: string, s2: string, i: nat, j: nat)
    requires i < |s1| && j < |s2|
    ensures Distance(s1[..i + 1], s2[..j + 1])
         == Min3(Distance(s1[..i], s2[..j + 1]) + 1,
                 Distance(s1[..i + 1], s2[..j]) + 1,
                 Distance(s1[..i], s2[..j]) + (if s1[i] != s2[j] then 1 else 0))
  {
    var a, b := s1[..i + 1], s2[..j + 1];
    assert a[..|a| - 1] == s1[..i];
    assert b[..|b| - 1] == s2[..j];
  }

  /** Argument order does not matter. */
  lemma {:induction false} DistanceSymmetric(a: string, b: string)
    ensures Distance(a, b) == Distance(b, a)
    decreases |a| + |b|
  {
    if |a| > 0 && |b| > 0 {
      DistanceSymmetric(a[..|a| - 1], b);
      DistanceSymmetric(a, b[..|b| - 1]);
      DistanceSymmetric(a[..|a| - 1], b[..|b| - 1]);
    }
  }

  /** The distance to the empty string is the length. */
  lemma DistanceToEmpty(s: string)
    ensures Distance(s, "") == |s| && Distance("", s) == |s|
  {
  }

  /** A string is at distance 0 from itself, and only from itself. */
  lemma {:induction false} DistanceZeroIff(a: string, b: string)
    ensures Distance(a, b) == 0 <==> a == b
    decreases |a| + |b|
  {
    if |a| > 0 && |b| > 0 {
      DistanceZeroIff(a[..|a| - 1], b[..|b| - 1]);
      var a', b' := a[..|a| - 1], b[..|b| - 1];
      if a == b {
        assert a' == b';
      }
      if Distance(a, b) == 0 {
        assert a == a' + [a[|a| - 1]] && b == b' + [b[|b| - 1]];
      }
    }
  }

  /** The distance lies between the difference of the lengths and the longer length. */
  lemma {:induction false} DistanceBounds(a: string, b: string)
    ensures Distance(a, b) <= if |a| < |b| then |b| else |a|
    ensures |a| - |b| <= Distance(a, b) && |b| - |a| <= Distance(a, b)
    decreases |a| + |b|
  {
    if |a| > 0 && |b| > 0 {
      DistanceBounds(a[..|a| - 1], b);
      DistanceBounds(a, b[..|b| - 1]);
      DistanceBounds(a[..|a| - 1], b[..|b| - 1]);
    }
  }

  /** `fuzzy_match`: pair every candidate with its distance to the query,
      stable-sort the pairs by distance and take the first candidate. */
  function FuzzyMatch(query: string, candidates: seq<string>): Option<string>
  {
    var distances := Distances(query, candidates);
    var matches := StableSort.SortBy(distances, DistanceKey);
    if |matches| > 0 then Some(matches[0].0) else None
  }

  function DistanceKey(p: (string, nat)): int { p.1 }

  function Distances(query: string, candidates: seq<string>): (ds: seq<(string, nat)>)
    ensures |ds| == |candidates|
    ensures forall i :: 0 <= i < |ds| ==> ds[i] == (candidates[i], Distance(query, candidates[i]))
  {
    seq(|candidates|, i requires 0 <= i < |candidates| => (candidates[i], Distance(query, candidates[i])))
  }

  /** `fuzzy_match` gives None exactly for an empty candidate list; otherwise
      a candidate at minimal distance, the earliest of those, because the
      sort is stable. */
  lemma FuzzyMatchClosest(query: string, candidates: seq<string>)
    ensures FuzzyMatch(query, candidates).None? <==> candidates == []
    ensures candidates != [] ==>
      exists i :: 0 <= i < |candidates| && FuzzyMatch(query, candidates) == Some(candidates[i])
        && (forall j :: 0 <= j < |candidates| ==> Distance(query, candidates[i]) <= Distance(query, candidates[j]))
        && (forall j :: 0 <= j < i ==> Distance(query, candidates[j]) > Distance(query, candidates[i]))
  {
    if candidates != [] {
      var ds := Distances(query, candidates);
      StableSort.SortByHead(ds, DistanceKey);
      var i := StableSort.FirstMin(ds, DistanceKey);
      assert FuzzyMatch(query, candidates) == Some(candidates[i]);
    }
  }
}
