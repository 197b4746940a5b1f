/**
 Non-maximum suppression: sort by confidence, then let every box that is still there suppress the
 later ones overlapping it. The detector and the inference engine each carry a copy of this loop;
 both are the same function of the boxes.
 */
module Nms {
  import opened Geometry

  function BoxesOf<T>(s: seq<T>, boxOf: T -> Box): (r: seq<Box>)
    ensures |r| == |s| && forall i | 0 <= i < |s| :: r[i] == boxOf(s[i])
  {
    seq(|s|, i requires 0 <= i < |s| => boxOf(s[i]))
  }

  /** Highest confidence first; equal confidences in any order. */
  ghost predicate Descending<T(!new)>(s: seq<T>, conf: T -> real) {
    forall i, j | 0 <= i < j < |s| :: conf(s[i]) >= conf(s[j])
  }

  // ---------- The specification ----------

  /** A box survives when no surviving earlier box overlaps it too much. */
  ghost predicate Survives(boxes: seq<Box>, threshold: real, i: nat)
    requires i < |boxes|
    decreases i
  {
    forall j: nat | j < i :: Survives(boxes, threshold, j) ==> !Overlaps(boxes[j], boxes[i], threshold)
  }

  /** The surviving positions among the first n, in order. */
  ghost function Survivors(boxes: seq<Box>, threshold: real, n: nat): (k: seq<int>)
    requires n <= |boxes|
    ensures forall i | 0 <= i < |k| :: 0 <= k[i] < n && Survives(boxes, threshold, k[i])
    ensures forall i, j | 0 <= i < j < |k| :: k[i] < k[j]
  {
    if n == 0 then []
    else Survivors(boxes, threshold, n - 1) + (if Survives(boxes, threshold, n - 1) then [n - 1] else [])
  }

  /** The elements at those positions. */
  function Pick<T>(s: seq<T>, k: seq<int>): (r: seq<T>)
    requires forall i | 0 <= i < |k| :: 0 <= k[i] < |s|
    ensures |r| == |k| && forall i | 0 <= i < |k| :: r[i] == s[k[i]]
  {
    seq(|k|, i requires 0 <= i < |k| => s[k[i]])
  }

  ghost function Suppressed<T>(s: seq<T>, boxOf: T -> Box, threshold: real): (r: seq<T>) {
    Pick(s, Survivors(BoxesOf(s, boxOf), threshold, |s|))
  }

  /** What suppression may answer for elements given in any order: the survivors of some sorted order. */
  ghost predicate SuppressionOf<T(!new)>(s: seq<T>, result: seq<T>, boxOf: T -> Box, conf: T -> real, threshold: real) {
    exists sorted: seq<T> ::
      multiset(sorted) == multiset(s) && Descending(sorted, conf) && result == Suppressed(sorted, boxOf, threshold)
  }

  // ---------- The algorithm ----------

  function Insert<T>(s: seq<T>, x: T, conf: T -> real): seq<T> {
    if s == [] || conf(s[|s| - 1]) >= conf(x) then s + [x]
    else Insert(s[..|s| - 1], x, conf) + [s[|s| - 1]]
  }

  /** Stands for the library sort, of which only the contract of the next method is used. */
  function Sorted<T>(s: seq<T>, conf: T -> real): seq<T> {
    if s == [] then [] else Insert(Sorted(s[..|s| - 1], conf), s[|s| - 1], conf)
  }

  lemma {:induction false} InsertIsPermutation<T>(s: seq<T>, x: T, conf: T -> real)
    ensures multiset(Insert(s, x, conf)) == multiset(s) + multiset{x}
  {
    if s != [] && conf(s[|s| - 1]) < conf(x) {
      InsertIsPermutation(s[..|s| - 1], x, conf);
      assert s == s[..|s| - 1] + [s[|s| - 1]];
    }
  }

  lemma {:induction false} InsertElements<T>(s: seq<T>, x: T, conf: T -> real)
    ensures forall y | y in Insert(s, x, conf) :: y == x || y in s
  {
    if s == [] || conf(s[|s| - 1]) >= conf(x) {
    } else {
      InsertElements(s[..|s| - 1], x, conf);
    }
  }

  lemma {:induction false} InsertKeeps<T(!new)>(s: seq<T>, x: T, conf: T -> real)
    requires Descending(s, conf)
    ensures Descending(Insert(s, x, conf), conf)
  {
    if s == [] || conf(s[|s| - 1]) >= conf(x) {
    } else {
      var n := |s| - 1;
      InsertKeeps(s[..n], x, conf);
      InsertElements(s[..n], x, conf);
      LowestLast(Insert(s[..n], x, conf), s[n], conf);
    }
  }

  lemma LowestLast<T(!new)>(s: seq<T>, x: T, conf: T -> real)
    requires Descending(s, conf) && forall y | y in s :: conf(y) >= conf(x)
    ensures Descending(s + [x], conf)
  {
  }

  lemma {:induction false} SortedDescends<T(!new)>(s: seq<T>, conf: T -> real)
    ensures Descending(Sorted(s, conf), conf)
  {
    if s == [] {
    } else {
      SortedDescends(s[..|s| - 1], conf);
      InsertKeeps(Sorted(s[..|s| - 1], conf), s[|s| - 1], conf);
    }
  }

  lemma {:induction false} SortedIsPermutation<T>(s: seq<T>, conf: T -> real)
    ensures multiset(Sorted(s, conf)) == multiset(s)
  {
    if s == [] {
    } else {
      var front, x := s[..|s| - 1], s[|s| - 1];
      SortedIsPermutation(front, conf);
      InsertIsPermutation(Sorted(front, conf), x, conf);
      assert multiset(s) == multiset(front) + multiset{x} by {
        assert s == front + [x];
      }
    }
  }

  method SortByConfidence<T(!new)>(a: array<T>, conf: T -> real)
    modifies a
    ensures Descending(a[..], conf) && multiset(a[..]) == multiset(old(a[..]))
  {
    var s := Sorted(a[..], conf);
    SortedDescends(a[..], conf);
    SortedIsPermutation(a[..], conf);
    SameLength(s, a[..]);
    forall i | 0 <= i < a.Length {
      a[i] := s[i];
    }
    assert a[..] == s;
  }

  lemma SameLength<T>(s: seq<T>, t: seq<T>)
    requires multiset(s) == multiset(t)
    ensures |s| == |t|
  {
    assert |multiset(s)| == |s| && |multiset(t)| == |t|;
  }

  /** Some survivor among the first i positions suppresses position j. */
  ghost predicate Hit(boxes: seq<Box>, threshold: real, i: int, j: nat)
    requires j < |boxes|
  {
    exists k: nat | k < i && k < j :: Survives(boxes, threshold, k) && Overlaps(boxes[k], boxes[j], threshold)
  }

  /** Sorts the array in place, marks the suppressed positions, and returns the others. */
  method Run<T(!new)>(a: array<T>, boxOf: T -> Box, conf: T -> real, threshold: real) returns (result: seq<T>)
    modifies a
    ensures Descending(a[..], conf) && multiset(a[..]) == multiset(old(a[..]))
    ensures result == Suppressed(a[..], boxOf, threshold)
  {
    SortByConfidence(a, conf);
    ghost var boxes := BoxesOf(a[..], boxOf);
    var suppressed := Mark(a, boxOf, threshold, boxes);
    result := Collect(a[..], suppressed[..], threshold, boxes);
  }

  method Collect<T>(s: seq<T>, suppressed: seq<bool>, threshold: real, ghost boxes: seq<Box>) returns (result: seq<T>)
    requires |boxes| == |s| == |suppressed|
    requires forall j | 0 <= j < |s| :: suppressed[j] <==> Hit(boxes, threshold, |s|, j)
    ensures result == Pick(s, Survivors(boxes, threshold, |s|))
  {
    result := [];
    for i := 0 to |s|
      invariant result == Pick(s, Survivors(boxes, threshold, i))
    {
      SurvivesUnlessHit(boxes, threshold, i);
      if !suppressed[i] {
        result := result + [s[i]];
      }
    }
  }

  /** The nested loops: every position not yet suppressed suppresses the later ones it overlaps. */
  method Mark<T>(a: array<T>, boxOf: T -> Box, threshold: real, ghost boxes: seq<Box>) returns (suppressed: array<bool>)
    requires boxes == BoxesOf(a[..], boxOf)
    ensures fresh(suppressed) && suppressed.Length == a.Length
    ensures forall j | 0 <= j < a.Length :: suppressed[j] <==> Hit(boxes, threshold, a.Length, j)
  {
    suppressed := new bool[a.Length](_ => false);
    for i := 0 to a.Length
      invariant forall j | 0 <= j < a.Length :: suppressed[j] <==> Hit(boxes, threshold, i, j)
    {
      SurvivesUnlessHit(boxes, threshold, i);
      if suppressed[i] {
        assert forall j | 0 <= j < a.Length :: Hit(boxes, threshold, i + 1, j) <==> Hit(boxes, threshold, i, j);
        continue;
      }
      for j := i + 1 to a.Length
        invariant forall m | 0 <= m < a.Length ::
                    suppressed[m] <==> Hit(boxes, threshold, if m < j then i + 1 else i, m)
      {
        if suppressed[j] {
          continue;
        }
        var inter := Inter(boxOf(a[i]), boxOf(a[j]));
        var unionArea := Area(boxOf(a[i])) + Area(boxOf(a[j])) - inter;
        if unionArea > 0.0 && inter / unionArea > threshold {
          suppressed[j] := true;
        }
      }
    }
  }

  lemma SurvivesUnlessHit(boxes: seq<Box>, threshold: real, i: nat)
    requires i < |boxes|
    ensures Survives(boxes, threshold, i) <==> !Hit(boxes, threshold, i, i)
    ensures forall n | n >= i :: Hit(boxes, threshold, n, i) <==> Hit(boxes, threshold, i, i)
  {
  }

  // ---------- What suppression achieves ----------

  /** Survives is the only selection in which a box is kept exactly when no kept earlier box overlaps it. */
  lemma {:induction false} SelectionUnique(boxes: seq<Box>, threshold: real, kept: set<int>, i: nat)
    requires i < |boxes|
    requires forall n: nat | n < |boxes| ::
               n in kept <==> forall j: nat | j < n && j in kept :: !Overlaps(boxes[j], boxes[n], threshold)
    ensures i in kept <==> Survives(boxes, threshold, i)
  {
    forall j: nat | j < i
      ensures j in kept <==> Survives(boxes, threshold, j)
    {
      SelectionUnique(boxes, threshold, kept, j);
    }
  }

  /** No two boxes, at whatever two positions, overlap above the threshold. */
  ghost predicate Separated<T(!new)>(s: seq<T>, boxOf: T -> Box, threshold: real) {
    forall i, j | 0 <= i < j < |s| :: !Overlaps(boxOf(s[i]), boxOf(s[j]), threshold)
  }

  lemma SurvivorsSeparated<T(!new)>(s: seq<T>, boxOf: T -> Box, threshold: real)
    ensures Separated(Suppressed(s, boxOf, threshold), boxOf, threshold)
  {
  }

  /** The survivors are in descending order too. */
  lemma SurvivorsDescend<T(!new)>(s: seq<T>, boxOf: T -> Box, conf: T -> real, threshold: real)
    requires Descending(s, conf)
    ensures Descending(Suppressed(s, boxOf, threshold), conf)
  {
    var k := Survivors(BoxesOf(s, boxOf), threshold, |s|);
    forall i, j | 0 <= i < j < |k|
      ensures conf(s[k[i]]) >= conf(s[k[j]])
    {
      assert k[i] < k[j];
    }
  }

  lemma {:induction false} SurvivorsComplete(boxes: seq<Box>, threshold: real, n: nat, i: nat)
    requires i < n <= |boxes| && Survives(boxes, threshold, i)
    ensures i in Survivors(boxes, threshold, n)
  {
    if i < n - 1 {
      SurvivorsComplete(boxes, threshold, n - 1, i);
    }
  }

  /** Every removed element lost to a survivor that overlaps it and is at least as confident. */
  lemma RemovedIsCovered<T(!new)>(s: seq<T>, boxOf: T -> Box, conf: T -> real, threshold: real, i: nat)
    returns (m: int)
    requires Descending(s, conf) && i < |s| && !Survives(BoxesOf(s, boxOf), threshold, i)
    ensures var r := Suppressed(s, boxOf, threshold);
            0 <= m < |r| && Overlaps(boxOf(r[m]), boxOf(s[i]), threshold) && conf(r[m]) >= conf(s[i])
  {
    var boxes := BoxesOf(s, boxOf);
    var j: nat :| j < i && Survives(boxes, threshold, j) && Overlaps(boxes[j], boxes[i], threshold);
    SurvivorsComplete(boxes, threshold, |s|, j);
    var k := Survivors(boxes, threshold, |s|);
    m :| 0 <= m < |k| && k[m] == j;
  }

  /** A separated list loses nothing. */
  lemma {:induction false} SeparatedAllSurvive<T(!new)>(s: seq<T>, boxOf: T -> Box, threshold: real, n: nat)
    requires Separated(s, boxOf, threshold) && n <= |s|
    ensures Survivors(BoxesOf(s, boxOf), threshold, n) == seq(n, i => i)
  {
    if n == 0 {
    } else {
      SeparatedAllSurvive(s, boxOf, threshold, n - 1);
      assert Survives(BoxesOf(s, boxOf), threshold, n - 1);
    }
  }

  function Without<T>(s: seq<T>, j: int): seq<T>
    requires 0 <= j < |s|
  {
    s[..j] + s[j + 1..]
  }

  lemma WithoutOne<T>(s: seq<T>, j: int)
    requires 0 <= j < |s|
    ensures multiset(Without(s, j)) == multiset(s) - multiset{s[j]}
  {
    assert s == s[..j] + [s[j]] + s[j + 1..];
  }

  lemma TwoPositions<T(!new)>(r: seq<T>, s: seq<T>, i: int, j: int) returns (p: int, q: int)
    requires multiset(r) == multiset(s) && 0 <= i < j < |s|
    ensures 0 <= p < |r| && 0 <= q < |r| && p != q && r[p] == s[i] && r[q] == s[j]
  {
    assert s[j] in multiset(r);
    q :| 0 <= q < |r| && r[q] == s[j];
    WithoutOne(r, q);
    WithoutOne(s, j);
    var rest := Without(r, q);
    assert Without(s, j)[i] == s[i];
    assert s[i] in multiset(rest);
    var k :| 0 <= k < |rest| && rest[k] == s[i];
    p := if k < q then k else k + 1;
  }

  lemma OverlapsSymmetric(a: Box, b: Box, threshold: real)
    ensures Overlaps(a, b, threshold) == Overlaps(b, a, threshold)
  {
    IoUSymmetric(a, b);
  }

  /** Separation does not depend on the order. */
  lemma SeparatedPermutes<T(!new)>(r: seq<T>, s: seq<T>, boxOf: T -> Box, threshold: real)
    requires Separated(r, boxOf, threshold) && multiset(r) == multiset(s)
    ensures Separated(s, boxOf, threshold)
  {
    forall i, j | 0 <= i < j < |s|
      ensures !Overlaps(boxOf(s[i]), boxOf(s[j]), threshold)
    {
      var p, q := TwoPositions(r, s, i, j);
      OverlapsSymmetric(boxOf(r[p]), boxOf(r[q]), threshold);
    }
  }

  /** Suppressing a result once more, in whatever order it is sorted, keeps every element of it. */
  lemma Idempotent<T(!new)>(s: seq<T>, again: seq<T>, boxOf: T -> Box, threshold: real)
    requires multiset(again) == multiset(Suppressed(s, boxOf, threshold))
    ensures Suppressed(again, boxOf, threshold) == again
  {
    SurvivorsSeparated(s, boxOf, threshold);
    SeparatedPermutes(Suppressed(s, boxOf, threshold), again, boxOf, threshold);
    SeparatedAllSurvive(again, boxOf, threshold, |again|);
  }

  /** No two elements are equally confident. */
  ghost predicate Distinct<T(!new)>(s: seq<T>, conf: T -> real) {
    forall i, j | 0 <= i < j < |s| :: conf(s[i]) != conf(s[j])
  }

  lemma SameHead<T(!new)>(s: seq<T>, t: seq<T>, conf: T -> real)
    requires multiset(s) == multiset(t) && Descending(s, conf) && Descending(t, conf) && Distinct(s, conf)
    requires s != [] && t != []
    ensures s[0] == t[0] && multiset(s[1..]) == multiset(t[1..])
  {
    assert s[0] in multiset(t) && t[0] in multiset(s);
    var k :| 0 <= k < |t| && t[k] == s[0];
    var p :| 0 <= p < |s| && s[p] == t[0];
    assert conf(t[0]) >= conf(t[k]) && conf(s[0]) >= conf(s[p]);
    assert p == 0;
    WithoutOne(s, 0);
    WithoutOne(t, 0);
    assert Without(s, 0) == s[1..] && Without(t, 0) == t[1..];
  }

  lemma TailKeeps<T(!new)>(s: seq<T>, conf: T -> real)
    requires s != []
    ensures Descending(s, conf) ==> Descending(s[1..], conf)
    ensures Distinct(s, conf) ==> Distinct(s[1..], conf)
  {
  }

  /** With distinct confidences there is only one sorted order. */
  lemma {:induction false} OneSortedOrder<T(!new)>(s: seq<T>, t: seq<T>, conf: T -> real)
    requires multiset(s) == multiset(t) && Descending(s, conf) && Descending(t, conf) && Distinct(s, conf)
    ensures s == t
  {
    SameLength(s, t);
    if s == [] {
    } else {
      SameHead(s, t, conf);
      TailKeeps(s, conf);
      TailKeeps(t, conf);
      OneSortedOrder(s[1..], t[1..], conf);
      assert s == [s[0]] + s[1..] && t == [t[0]] + t[1..];
    }
  }

  /** So the result does not depend on the order the elements came in, nor on how ties would be sorted. */
  lemma InputOrderIrrelevant<T(!new)>(s: seq<T>, t: seq<T>, boxOf: T -> Box, conf: T -> real, threshold: real)
    requires multiset(s) == multiset(t) && Descending(s, conf) && Descending(t, conf) && Distinct(s, conf)
    ensures Suppressed(s, boxOf, threshold) == Suppressed(t, boxOf, threshold)
  {
    OneSortedOrder(s, t, conf);
  }
}
