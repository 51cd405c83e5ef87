/** Rotations of sequences, and the rotation test that removes duplicate cycles. */
module Rotations {

  ghost predicate RotatedAt<T>(a: seq<T>, b: seq<T>, k: nat)
    requires k <= |a|
  {
    a[k..] + a[..k] == b
  }

  /** `b` is `a` read from another starting point, wrapping around. */
  ghost predicate Rotation<T>(a: seq<T>, b: seq<T>) {
    exists k: nat :: k < |a| && RotatedAt(a, b, k)
  }

  lemma RotationSymmetric<T>(a: seq<T>, b: seq<T>)
    requires Rotation(a, b)
    ensures Rotation(b, a)
  {
    var k: nat :| k < |a| && RotatedAt(a, b, k);
    var j := if k == 0 then 0 else |a| - k;
    assert b[j..] + b[..j] == a;
    assert RotatedAt(b, a, j);
  }

  lemma RotatedIndex<T>(a: seq<T>, b: seq<T>, k: nat, i: nat)
    requires k <= |a| && RotatedAt(a, b, k) && i < |a|
    ensures |b| == |a| && b[i] == a[if k + i < |a| then k + i else k + i - |a|]
  {
    assert b[i] == (a[k..] + a[..k])[i];
  }

  lemma RotationTransitive<T>(a: seq<T>, b: seq<T>, c: seq<T>)
    requires Rotation(a, b) && Rotation(b, c)
    ensures Rotation(a, c)
  {
    var j: nat :| j < |a| && RotatedAt(a, b, j);
    RotatedIndex(a, b, j, 0);
    var k: nat :| k < |b| && RotatedAt(b, c, k);
    RotatedTwice(a, b, c, j, k);
  }

  lemma RotatedTwice<T>(a: seq<T>, b: seq<T>, c: seq<T>, j: nat, k: nat)
    requires j < |a| && k < |b| == |a| && RotatedAt(a, b, j) && RotatedAt(b, c, k)
    ensures Rotation(a, c)
  {
    var n := |a|;
    var m := if j + k < n then j + k else j + k - n;
    var r := a[m..] + a[..m];
    RotatedIndex(b, c, k, 0);
    forall i: nat | i < n ensures r[i] == c[i] {
      RotatedTwiceIndex(a, b, c, j, k, i);
      RotatedIndex(a, r, m, i);
    }
    assert r == c;
    assert RotatedAt(a, c, m);
  }

  lemma RotatedTwiceIndex<T>(a: seq<T>, b: seq<T>, c: seq<T>, j: nat, k: nat, i: nat)
    requires j < |a| && k < |b| == |a| && RotatedAt(a, b, j) && RotatedAt(b, c, k) && i < |a|
    ensures |c| == |a|
    ensures var m := if j + k < |a| then j + k else j + k - |a|; c[i] == a[if m + i < |a| then m + i else m + i - |a|]
  {
    var n := |a|;
    RotatedIndex(b, c, k, i);
    RotatedIndex(a, b, j, if k + i < n then k + i else k + i - n);
  }

  /** Two empty sequences make the source index an empty list, so that call is excluded. */
  method IsRotated<T(==)>(seq1: seq<T>, seq2: seq<T>) returns (r: bool)
    requires |seq1| == |seq2| ==> |seq2| > 0
    ensures r <==> Rotation(seq1, seq2)
  {
    if |seq1| != |seq2| {
      return false;
    }
    var startIndexes: seq<nat> := [];
    var headItem := seq2[0];
    for index := 0 to |seq1|
      invariant forall i :: 0 <= i < |startIndexes| ==> startIndexes[i] < index
      invariant forall k: nat :: k < index && seq1[k] == headItem ==> k in startIndexes
    {
      if seq1[index] == headItem {
        startIndexes := startIndexes + [index];
      }
    }
    var doubled := seq1 + seq1;
    for j := 0 to |startIndexes|
      invariant forall i :: 0 <= i < j ==> !RotatedAt(seq1, seq2, startIndexes[i])
    {
      var k := startIndexes[j];
      assert doubled[k..k + |seq1|] == seq1[k..] + seq1[..k];
      if doubled[k..k + |seq1|] == seq2 {
        assert RotatedAt(seq1, seq2, k);
        return true;
      }
    }
    forall k: nat | k < |seq1| ensures !RotatedAt(seq1, seq2, k) {
      if k in startIndexes {
        var i :| 0 <= i < |startIndexes| && startIndexes[i] == k;
      } else {
        assert (seq1[k..] + seq1[..k])[0] == seq1[k];
      }
    }
    return false;
  }
}
