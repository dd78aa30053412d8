/**
 * `recommendedTreatments.sort((a, b) => b.efficacyScore - a.efficacyScore)`
 * (src/utils/gnnModel.ts:236): an in-place sort by efficacy, highest first.
 *
 * JavaScript's `Array.prototype.sort` is stable, so the result is fully determined: the
 * records in non-increasing order of efficacy, records of equal efficacy in their input
 * order. SortDesc is that order, defined as a functional insertion sort; SortByEfficacy
 * computes it in place on an array.
 */
module EfficacySort {
  import opened GnnData

  /** Non-increasing order of efficacy. */
  predicate SortedByEfficacy(s: seq<Treatment>)
  {
    forall i, j :: 0 <= i < j < |s| ==> s[i].efficacyScore >= s[j].efficacyScore
  }

  /** Puts `x` after every record of `s` whose efficacy is at least `x`'s. */
  function Insert(s: seq<Treatment>, x: Treatment): (r: seq<Treatment>)
    ensures |r| == |s| + 1
  {
    if s == [] then [x]
    else if s[|s| - 1].efficacyScore < x.efficacyScore then Insert(s[..|s| - 1], x) + [s[|s| - 1]]
    else s + [x]
  }

  /** The stable descending order of `s`. */
  function SortDesc(s: seq<Treatment>): (r: seq<Treatment>)
    ensures |r| == |s|
  {
    if s == [] then [] else Insert(SortDesc(s[..|s| - 1]), s[|s| - 1])
  }

  /** Where Insert puts `x`: after the records whose efficacy is at least `x`'s. */
  function InsertionPoint(s: seq<Treatment>, x: Treatment): (k: nat)
    ensures k <= |s|
  {
    if s == [] then 0
    else if s[|s| - 1].efficacyScore < x.efficacyScore then InsertionPoint(s[..|s| - 1], x)
    else |s|
  }

  /** The records of `s` whose efficacy is `e`, in their order in `s`. */
  function WithEfficacy(s: seq<Treatment>, e: int): seq<Treatment>
  {
    if s == [] then []
    else WithEfficacy(s[..|s| - 1], e) + (if s[|s| - 1].efficacyScore == e then [s[|s| - 1]] else [])
  }

  /** Insert splits `s` at the insertion point: the record before it has efficacy at least
      `x`'s, the records after it have less. */
  lemma {:induction false} InsertSplit(s: seq<Treatment>, x: Treatment)
    ensures var k := InsertionPoint(s, x);
      Insert(s, x) == s[..k] + [x] + s[k..] &&
      (k > 0 ==> s[k - 1].efficacyScore >= x.efficacyScore) &&
      (forall i :: k <= i < |s| ==> s[i].efficacyScore < x.efficacyScore)
  {
    if s != [] {
      var init, last := s[..|s| - 1], s[|s| - 1];
      if last.efficacyScore < x.efficacyScore {
        InsertSplit(init, x);
        var k := InsertionPoint(init, x);
        assert s[..k] == init[..k];
        assert s[k..] == init[k..] + [last];
      } else {
        assert s[..|s|] == s;
      }
    }
  }

  /** Inserting into a sorted list splits it at the insertion point: everything before
      has efficacy at least `x`'s, everything after has less. */
  lemma InsertShape(s: seq<Treatment>, x: Treatment)
    requires SortedByEfficacy(s)
    ensures var k := InsertionPoint(s, x);
      Insert(s, x) == s[..k] + [x] + s[k..] &&
      (forall i :: 0 <= i < k ==> s[i].efficacyScore >= x.efficacyScore) &&
      (forall i :: k <= i < |s| ==> s[i].efficacyScore < x.efficacyScore)
  {
    InsertSplit(s, x);
    var k := InsertionPoint(s, x);
    forall i | 0 <= i < k
      ensures s[i].efficacyScore >= x.efficacyScore
    {
      assert s[i].efficacyScore >= s[k - 1].efficacyScore;
    }
  }

  lemma InsertSorted(s: seq<Treatment>, x: Treatment)
    requires SortedByEfficacy(s)
    ensures SortedByEfficacy(Insert(s, x))
  {
    InsertShape(s, x);
    var k := InsertionPoint(s, x);
    var t := Insert(s, x);
    forall i, j | 0 <= i < j < |t| ensures t[i].efficacyScore >= t[j].efficacyScore {
      if i < k && j > k {
        assert t[i] == s[i] && t[j] == s[j - 1];
      } else if i < k && j == k {
        assert t[i] == s[i] && t[j] == x;
      } else if i == k {
        assert t[i] == x && t[j] == s[j - 1];
      } else if i < k {
        assert t[i] == s[i] && t[j] == s[j];
      } else {
        assert t[i] == s[i - 1] && t[j] == s[j - 1];
      }
    }
  }

  lemma {:induction false} InsertPermutes(s: seq<Treatment>, x: Treatment)
    ensures multiset(Insert(s, x)) == multiset(s) + multiset{x}
  {
    if s != [] && s[|s| - 1].efficacyScore < x.efficacyScore {
      var init := s[..|s| - 1];
      InsertPermutes(init, x);
      assert s == init + [s[|s| - 1]];
    }
  }

  /** SortDesc orders by non-increasing efficacy. */
  lemma {:induction false} SortDescSorted(s: seq<Treatment>)
    ensures SortedByEfficacy(SortDesc(s))
  {
    if s != [] {
      SortDescSorted(s[..|s| - 1]);
      InsertSorted(SortDesc(s[..|s| - 1]), s[|s| - 1]);
    }
  }

  /** SortDesc is a permutation of its input. */
  lemma {:induction false} SortDescPermutes(s: seq<Treatment>)
    ensures multiset(SortDesc(s)) == multiset(s)
  {
    if s != [] {
      var init, last := s[..|s| - 1], s[|s| - 1];
      var sorted := SortDesc(init);
      assert multiset(sorted) == multiset(init) by {
        SortDescPermutes(init);
      }
      assert multiset(Insert(sorted, last)) == multiset(sorted) + multiset{last} by {
        InsertPermutes(sorted, last);
      }
      assert multiset(s) == multiset(init) + multiset{last} by {
        assert s == init + [last];
      }
      assert SortDesc(s) == Insert(sorted, last);
    }
  }

  /** SortDesc of one more element of `s` inserts that element. */
  lemma SortDescStep(s: seq<Treatment>, i: nat)
    requires i < |s|
    ensures SortDesc(s[..i + 1]) == Insert(SortDesc(s[..i]), s[i])
  {
    var p := s[..i + 1];
    assert p[..|p| - 1] == s[..i];
    assert p[|p| - 1] == s[i];
  }

  lemma {:induction false} WithEfficacyAppend(a: seq<Treatment>, b: seq<Treatment>, e: int)
    ensures WithEfficacy(a + b, e) == WithEfficacy(a, e) + WithEfficacy(b, e)
  {
    if b != [] {
      var init := b[..|b| - 1];
      WithEfficacyAppend(a, init, e);
      assert (a + b)[..|a + b| - 1] == a + init;
      assert (a + b)[|a + b| - 1] == b[|b| - 1];
    } else {
      assert a + b == a;
    }
  }

  lemma InsertStable(s: seq<Treatment>, x: Treatment, e: int)
    requires SortedByEfficacy(s)
    ensures WithEfficacy(Insert(s, x), e) == WithEfficacy(s + [x], e)
  {
    InsertShape(s, x);
    var k := InsertionPoint(s, x);
    var before, after := s[..k], s[k..];
    assert s == before + after;
    assert forall i :: 0 <= i < |after| ==> after[i].efficacyScore < x.efficacyScore by {
      forall i | 0 <= i < |after| ensures after[i].efficacyScore < x.efficacyScore {
        assert after[i] == s[k + i];
      }
    }
    MoveBelowLowerStable(before, after, x, e);
  }

  /** Moving `x` behind records of lower efficacy does not change the order of any
      one efficacy class. */
  lemma MoveBelowLowerStable(before: seq<Treatment>, after: seq<Treatment>, x: Treatment, e: int)
    requires forall i :: 0 <= i < |after| ==> after[i].efficacyScore < x.efficacyScore
    ensures WithEfficacy(before + [x] + after, e) == WithEfficacy(before + after + [x], e)
  {
    WithEfficacyAppend(before + [x], after, e);
    WithEfficacyAppend(before, [x], e);
    WithEfficacyAppend(before, after, e);
    WithEfficacyAppend(before + after, [x], e);
    if e == x.efficacyScore {
      NoneWithEfficacy(after, e);
    } else {
      assert [x][..0] == [];
    }
  }

  lemma {:induction false} NoneWithEfficacy(s: seq<Treatment>, e: int)
    requires forall i :: 0 <= i < |s| ==> s[i].efficacyScore < e
    ensures WithEfficacy(s, e) == []
  {
    if s != [] {
      NoneWithEfficacy(s[..|s| - 1], e);
    }
  }

  /** Stability: the records of any one efficacy keep their relative input order. */
  lemma {:induction false} SortDescStable(s: seq<Treatment>, e: int)
    ensures WithEfficacy(SortDesc(s), e) == WithEfficacy(s, e)
  {
    if s != [] {
      var init, last := s[..|s| - 1], s[|s| - 1];
      SortDescStable(init, e);
      SortDescSorted(init);
      InsertStable(SortDesc(init), last, e);
      WithEfficacyAppend(SortDesc(init), [last], e);
      WithEfficacyAppend(init, [last], e);
      assert s == init + [last];
    }
  }

  /** A record whose efficacy is strictly above every other record's comes first. */
  lemma TopIsStrictMaximum(s: seq<Treatment>, x: Treatment)
    requires x in s
    requires forall y :: y in s && y != x ==> y.efficacyScore < x.efficacyScore
    ensures |SortDesc(s)| == |s| && SortDesc(s)[0] == x
  {
    SortDescSorted(s);
    SortDescPermutes(s);
    var t := SortDesc(s);
    assert |t| == |multiset(t)| == |multiset(s)| == |s|;
    assert x in multiset(t);
    var k :| 0 <= k < |t| && t[k] == x;
    assert t[0] in multiset(s);
    if t[0] != x {
      assert false;
    }
  }

  /** Insert scans from the right: it puts `x` just after the last record whose
      efficacy is at least `x`'s. */
  lemma {:induction false} InsertFromRight(done: seq<Treatment>, x: Treatment, j: nat)
    requires j <= |done|
    requires forall k :: j <= k < |done| ==> done[k].efficacyScore < x.efficacyScore
    requires j == 0 || done[j - 1].efficacyScore >= x.efficacyScore
    ensures Insert(done, x) == done[..j] + [x] + done[j..]
  {
    if j < |done| {
      var init := done[..|done| - 1];
      InsertFromRight(init, x, j);
      assert init[..j] == done[..j];
      assert done[j..] == init[j..] + [done[|done| - 1]];
    } else {
      assert done[..j] == done;
    }
  }

  /** Strictly decreasing efficacy: no two records share a score. */
  predicate StrictlyDecreasing(s: seq<Treatment>)
  {
    forall i, j :: 0 <= i < j < |s| ==> s[i].efficacyScore > s[j].efficacyScore
  }

  /** When no two records share an efficacy, there is only one sorted arrangement: any
      sort, stable or not, yields the same list. */
  lemma {:induction false} SortedArrangementUnique(u: seq<Treatment>, t: seq<Treatment>)
    requires SortedByEfficacy(u) && StrictlyDecreasing(t)
    requires multiset(u) == multiset(t)
    ensures u == t
  {
    assert |u| == |multiset(u)| == |multiset(t)| == |t|;
    if t != [] {
      SameFirst(u, t);
      var x := t[0];
      MultisetTail(u);
      MultisetTail(t);
      SortedArrangementUnique(u[1..], t[1..]);
      assert u == [x] + u[1..] && t == [x] + t[1..];
    }
  }

  /** The elements after the first are the elements less the first. */
  lemma MultisetTail(s: seq<Treatment>)
    requires s != []
    ensures multiset(s[1..]) == multiset(s) - multiset{s[0]}
  {
    assert s == [s[0]] + s[1..];
  }

  /** Both arrangements start with the record of highest efficacy. */
  lemma SameFirst(u: seq<Treatment>, t: seq<Treatment>)
    requires SortedByEfficacy(u) && StrictlyDecreasing(t)
    requires multiset(u) == multiset(t) && t != []
    ensures u != [] && u[0] == t[0]
  {
    assert t[0] in multiset(u);
    var ku :| 0 <= ku < |u| && u[ku] == t[0];
    assert u[0] in multiset(t);
    var kt :| 0 <= kt < |t| && t[kt] == u[0];
    if kt != 0 {
      assert false;
    }
  }

  /** The one sorted arrangement of a list whose efficacies are distinct. */
  lemma SortDescOfDistinct(s: seq<Treatment>, t: seq<Treatment>)
    requires StrictlyDecreasing(t) && multiset(s) == multiset(t)
    ensures SortDesc(s) == t
  {
    SortDescSorted(s);
    SortDescPermutes(s);
    SortedArrangementUnique(SortDesc(s), t);
  }

  /** One step of the insertion sort: `a[..i]` is in order, and `a[i]` is moved left,
      past every record of lower efficacy, into its place. */
  method InsertAt(a: array<Treatment>, i: nat)
    requires i < a.Length
    modifies a
    ensures a[..i + 1] == Insert(old(a[..i]), old(a[i]))
    ensures a[i + 1..] == old(a[i + 1..])
  {
    var x := a[i];
    ghost var done := a[..i];
    var j := i;
    while j > 0 && a[j - 1].efficacyScore < x.efficacyScore
      invariant 0 <= j <= i
      invariant forall k :: 0 <= k < j ==> a[k] == done[k]
      invariant forall k :: j < k <= i ==> a[k] == done[k - 1]
      invariant forall k :: i < k < a.Length ==> a[k] == old(a[k])
      invariant forall k :: j <= k < i ==> done[k].efficacyScore < x.efficacyScore
    {
      a[j] := a[j - 1];
      j := j - 1;
    }
    InsertFromRight(done, x, j);
    a[j] := x;
    Landed(a[..i + 1], done, x, j);
  }

  /** The array prefix after the last shift: `done` with `x` at position `j`. */
  lemma Landed(cur: seq<Treatment>, done: seq<Treatment>, x: Treatment, j: nat)
    requires |cur| == |done| + 1 && j <= |done| && cur[j] == x
    requires forall k :: 0 <= k < j ==> cur[k] == done[k]
    requires forall k :: j < k < |cur| ==> cur[k] == done[k - 1]
    ensures cur == done[..j] + [x] + done[j..]
  {
    var target := done[..j] + [x] + done[j..];
    forall k | 0 <= k < |cur| ensures cur[k] == target[k] {
      if k < j {
        assert target[k] == done[k];
      } else if k > j {
        assert target[k] == done[k - 1];
      }
    }
  }

  /** The record at index `k`, strictly above every other record's efficacy, comes first. */
  lemma StrictMaximumFirst(s: seq<Treatment>, k: nat)
    requires k < |s|
    requires forall i :: 0 <= i < |s| && i != k ==> s[i].efficacyScore < s[k].efficacyScore
    ensures |SortDesc(s)| == |s| && SortDesc(s)[0] == s[k]
  {
    forall y | y in s && y != s[k] ensures y.efficacyScore < s[k].efficacyScore {
      var i :| 0 <= i < |s| && s[i] == y;
    }
    TopIsStrictMaximum(s, s[k]);
  }

  /** Sorts `a` in place into the stable descending order of its contents. */
  method SortByEfficacy(a: array<Treatment>)
    modifies a
    ensures a[..] == SortDesc(old(a[..]))
  {
    ghost var input := a[..];
    var i := 0;
    while i < a.Length
      invariant 0 <= i <= a.Length
      invariant a[..i] == SortDesc(input[..i])
      invariant a[i..] == input[i..]
    {
      ghost var before := a[..];
      assert a[i] == input[i] by {
        assert a[i..][0] == input[i..][0];
      }
      InsertAt(a, i);
      SortDescStep(input, i);
      assert a[i + 1..] == input[i + 1..] by {
        assert before[i + 1..] == before[i..][1..];
        assert input[i + 1..] == input[i..][1..];
      }
      i := i + 1;
    }
    assert input[..a.Length] == input;
    assert a[..a.Length] == a[..];
  }
}
