/**
 * The results list and its in-place ordering by descending confidence
 * (medical/script.js:338). Array.prototype.sort is stable, so results with equal confidence keep
 * their order from the server's response.
 */
module Ranking {

  /** One entry of the `results` array the server returns. */
  datatype Diagnosis = Diagnosis(disease: string, confidence: real)

  /** Confidences never increase from one index to a later one. */
  ghost predicate SortedDesc(s: seq<Diagnosis>) {
    forall i, j :: 0 <= i < j < |s| ==> s[i].confidence >= s[j].confidence
  }

  /** The results of s whose confidence is v, in their order in s. */
  function WithConfidence(s: seq<Diagnosis>, v: real): (r: seq<Diagnosis>)
    ensures |r| <= |s|
    ensures forall x :: x in r ==> x in s && x.confidence == v
  {
    if s == [] then []
    else if s[0].confidence == v then [s[0]] + WithConfidence(s[1..], v)
    else WithConfidence(s[1..], v)
  }

  /** t orders each group of equal confidence exactly as s does. */
  ghost predicate KeepsTies(s: seq<Diagnosis>, t: seq<Diagnosis>) {
    forall v :: WithConfidence(s, v) == WithConfidence(t, v)
  }

  lemma {:induction false} WithConfidenceAppend(s: seq<Diagnosis>, t: seq<Diagnosis>, v: real)
    ensures WithConfidence(s + t, v) == WithConfidence(s, v) + WithConfidence(t, v)
  {
    if s != [] {
      assert (s + t)[1..] == s[1..] + t;
      WithConfidenceAppend(s[1..], t, v);
    } else {
      assert s + t == t;
    }
  }

  /** Every result appears in the group of its own confidence. */
  lemma {:induction false} InOwnGroup(s: seq<Diagnosis>, i: nat)
    requires i < |s|
    ensures s[i] in WithConfidence(s, s[i].confidence)
  {
    if i > 0 {
      InOwnGroup(s[1..], i - 1);
    }
  }

  /** Swapping two neighbours of different confidence keeps every group's order. */
  lemma SwapKeepsTies(s: seq<Diagnosis>, j: nat)
    requires 0 < j < |s| && s[j - 1].confidence != s[j].confidence
    ensures KeepsTies(s, s[j - 1 := s[j]][j := s[j - 1]])
  {
    var t := s[j - 1 := s[j]][j := s[j - 1]];
    var pre, post := s[..j - 1], s[j + 1..];
    assert s == pre + [s[j - 1], s[j]] + post;
    assert t == pre + [s[j], s[j - 1]] + post;
    forall v ensures WithConfidence(s, v) == WithConfidence(t, v) {
      WithConfidenceAppend(pre + [s[j - 1], s[j]], post, v);
      WithConfidenceAppend(pre, [s[j - 1], s[j]], v);
      WithConfidenceAppend(pre + [s[j], s[j - 1]], post, v);
      WithConfidenceAppend(pre, [s[j], s[j - 1]], v);
    }
  }

  /** Two sorted lists that order every confidence group alike start alike. */
  lemma SameHead(t1: seq<Diagnosis>, t2: seq<Diagnosis>)
    requires t1 != [] && t2 != []
    requires SortedDesc(t1) && SortedDesc(t2) && KeepsTies(t1, t2)
    ensures t1[0] == t2[0]
  {
    var m1, m2 := t1[0].confidence, t2[0].confidence;
    InOwnGroup(t1, 0);
    InOwnGroup(t2, 0);
    assert m1 <= m2 by {
      assert t1[0] in WithConfidence(t2, m1);
      var k :| 0 <= k < |t2| && t2[k] == t1[0];
    }
    assert m2 <= m1 by {
      assert t2[0] in WithConfidence(t1, m2);
      var k :| 0 <= k < |t1| && t1[k] == t2[0];
    }
    assert WithConfidence(t1, m1)[0] == t1[0];
    assert WithConfidence(t2, m1)[0] == t2[0];
  }

  /** Removing a common first element keeps every group's order alike. */
  lemma TailsKeepTies(t1: seq<Diagnosis>, t2: seq<Diagnosis>)
    requires t1 != [] && t2 != [] && t1[0] == t2[0] && KeepsTies(t1, t2)
    ensures KeepsTies(t1[1..], t2[1..])
  {
    forall v ensures WithConfidence(t1[1..], v) == WithConfidence(t2[1..], v) {
      var g1, g2 := WithConfidence(t1, v), WithConfidence(t2, v);
      assert g1 == g2;
      if t1[0].confidence == v {
        assert g1[1..] == WithConfidence(t1[1..], v);
        assert g2[1..] == WithConfidence(t2[1..], v);
      }
    }
  }

  /** Removing a common first element leaves equal multisets equal. */
  lemma TailsSameMultiset(t1: seq<Diagnosis>, t2: seq<Diagnosis>)
    requires t1 != [] && t2 != [] && t1[0] == t2[0] && multiset(t1) == multiset(t2)
    ensures multiset(t1[1..]) == multiset(t2[1..])
  {
    assert t1 == [t1[0]] + t1[1..];
    assert t2 == [t2[0]] + t2[1..];
    assert multiset(t1[1..]) == multiset(t1) - multiset([t1[0]]);
    assert multiset(t2[1..]) == multiset(t2) - multiset([t2[0]]);
  }

  /**
   * Two sorted permutations of each other that order every confidence group
   * alike are equal; so the three properties of SortByConfidence determine
   * its outcome, which is that of any stable sort by descending confidence.
   */
  lemma {:induction false} StableSortUnique(t1: seq<Diagnosis>, t2: seq<Diagnosis>)
    requires SortedDesc(t1) && SortedDesc(t2)
    requires multiset(t1) == multiset(t2) && KeepsTies(t1, t2)
    ensures t1 == t2
  {
    assert |t1| == |multiset(t1)| == |multiset(t2)| == |t2|;
    if t1 != [] {
      SameHead(t1, t2);
      TailsKeepTies(t1, t2);
      TailsSameMultiset(t1, t2);
      StableSortUnique(t1[1..], t2[1..]);
      assert t1 == [t1[0]] + t1[1..];
      assert t2 == [t2[0]] + t2[1..];
    }
  }

  /** A relation that keeps ties, followed by another, keeps ties. */
  lemma KeepsTiesTrans(s: seq<Diagnosis>, t: seq<Diagnosis>, u: seq<Diagnosis>)
    requires KeepsTies(s, t) && KeepsTies(t, u)
    ensures KeepsTies(s, u)
  {
  }

  /** Exchanges a[j - 1] and a[j], which differ in confidence. */
  method SwapDown(a: array<Diagnosis>, j: nat)
    requires 0 < j < a.Length && a[j - 1].confidence != a[j].confidence
    modifies a
    ensures a[..] == old(a[..])[j - 1 := old(a[j])][j := old(a[j - 1])]
    ensures multiset(a[..]) == multiset(old(a[..]))
    ensures KeepsTies(old(a[..]), a[..])
  {
    SwapKeepsTies(a[..], j);
    a[j - 1], a[j] := a[j], a[j - 1];
  }

  /**
   * One step of moving a result down: in the first i + 1 results only the pair
   * ending at j was out of order, and after exchanging s[j - 1] and s[j] only
   * the pair ending at j - 1 can be.
   */
  lemma SwapMovesGap(s: seq<Diagnosis>, i: nat, j: nat)
    requires 0 < j <= i < |s| && s[j - 1].confidence < s[j].confidence
    requires forall k, l :: 0 <= k < l <= i && l != j ==> s[k].confidence >= s[l].confidence
    ensures var t := s[j - 1 := s[j]][j := s[j - 1]];
      forall k, l :: 0 <= k < l <= i && l != j - 1 ==> t[k].confidence >= t[l].confidence
  {
  }

  /** Once s[j] is not above s[j - 1], the first i + 1 results are sorted. */
  lemma GapClosed(s: seq<Diagnosis>, i: nat, j: nat)
    requires j <= i < |s|
    requires forall k, l :: 0 <= k < l <= i && l != j ==> s[k].confidence >= s[l].confidence
    requires j == 0 || s[j - 1].confidence >= s[j].confidence
    ensures forall k, l :: 0 <= k < l <= i ==> s[k].confidence >= s[l].confidence
  {
  }

  /**
   * Moves a[i] down past every earlier result of lower confidence, so that
   * a[..i + 1] is sorted when a[..i] was; equal confidences are never swapped.
   */
  method InsertAt(a: array<Diagnosis>, i: nat)
    requires i < a.Length
    requires forall k, l :: 0 <= k < l < i ==> a[k].confidence >= a[l].confidence
    modifies a
    ensures forall k, l :: 0 <= k < l <= i ==> a[k].confidence >= a[l].confidence
    ensures a[i + 1..] == old(a[i + 1..])
    ensures multiset(a[..]) == multiset(old(a[..]))
    ensures KeepsTies(old(a[..]), a[..])
  {
    var j := i;
    while j > 0 && a[j - 1].confidence < a[j].confidence
      invariant 0 <= j <= i
      invariant forall k, l :: 0 <= k < l <= i && l != j ==> a[k].confidence >= a[l].confidence
      invariant a[i + 1..] == old(a[i + 1..])
      invariant multiset(a[..]) == multiset(old(a[..]))
      invariant KeepsTies(old(a[..]), a[..])
    {
      ghost var before := a[..];
      SwapMovesGap(before, i, j);
      SwapDown(a, j);
      assert a[i + 1..] == before[i + 1..];
      KeepsTiesTrans(old(a[..]), before, a[..]);
      j := j - 1;
    }
    GapClosed(a[..], i, j);
  }

  /** The sort: insert each result into the sorted prefix before it. */
  method SortByConfidence(a: array<Diagnosis>)
    modifies a
    ensures SortedDesc(a[..])
    ensures multiset(a[..]) == multiset(old(a[..]))
    ensures KeepsTies(old(a[..]), a[..])
  {
    var i := 0;
    while i < a.Length
      invariant 0 <= i <= a.Length
      invariant forall k, l :: 0 <= k < l < i ==> a[k].confidence >= a[l].confidence
      invariant multiset(a[..]) == multiset(old(a[..]))
      invariant KeepsTies(old(a[..]), a[..])
    {
      ghost var before := a[..];
      InsertAt(a, i);
      KeepsTiesTrans(old(a[..]), before, a[..]);
      i := i + 1;
    }
  }
}
