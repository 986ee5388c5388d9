/** Deciding whether one sequence is a rotation of another. */
module Rotation {
  import opened Collections

  function Rotated<T>(s: seq<T>, k: nat): seq<T>
    requires k <= |s|
  {
    s[k..] + s[..k]
  }

  ghost predicate IsRotation<T>(s: seq<T>, t: seq<T>) {
    exists k: nat :: k <= |s| && t == Rotated(s, k)
  }

  lemma RotatedAt<T>(s: seq<T>, k: nat, i: nat)
    requires k <= |s| && i < |s|
    ensures Rotated(s, k)[i] == if k + i < |s| then s[k + i] else s[k + i - |s|]
  {
  }

  lemma Reflexive<T>(s: seq<T>)
    ensures IsRotation(s, s)
  {
    assert s == Rotated(s, 0);
  }

  lemma Symmetric<T>(s: seq<T>, t: seq<T>)
    requires IsRotation(s, t)
    ensures IsRotation(t, s)
  {
    var k: nat :| k <= |s| && t == Rotated(s, k);
    assert s == Rotated(t, |s| - k);
  }

  lemma RotateTwice<T>(s: seq<T>, k: nat, m: nat)
    requires k <= |s| && m <= |s|
    ensures Rotated(Rotated(s, k), m) == Rotated(s, if k + m <= |s| then k + m else k + m - |s|)
  {
    var left, right := Rotated(Rotated(s, k), m), Rotated(s, if k + m <= |s| then k + m else k + m - |s|);
    forall i | 0 <= i < |s| ensures left[i] == right[i] {
      RotatedAt(Rotated(s, k), m, i);
      RotatedAt(s, k, if m + i < |s| then m + i else m + i - |s|);
      RotatedAt(s, if k + m <= |s| then k + m else k + m - |s|, i);
    }
  }

  lemma Transitive<T>(s: seq<T>, t: seq<T>, u: seq<T>)
    requires IsRotation(s, t) && IsRotation(t, u)
    ensures IsRotation(s, u)
  {
    var k: nat :| k <= |s| && t == Rotated(s, k);
    var m: nat :| m <= |t| && u == Rotated(t, m);
    RotateTwice(s, k, m);
  }

  /** The slice of the doubled sequence that the program compares. */
  lemma DoubledSlice<T>(s: seq<T>, k: nat)
    requires k <= |s|
    ensures (s + s)[k..k + |s|] == Rotated(s, k)
  {
  }

  /**
   * is_rotated. The program indexes seq2[0] once the lengths agree, so comparing two
   * empty sequences raises an IndexError: None.
   */
  method IsRotated<T(==)>(seq1: seq<T>, seq2: seq<T>) returns (r: Option<bool>)
    ensures r.None? <==> seq1 == [] && seq2 == []
    ensures r.Some? ==> (r.value <==> IsRotation(seq1, seq2))
  {
    if |seq1| != |seq2| {
      return Some(false);
    }
    if |seq2| == 0 {
      return None;
    }
    var startIndexes: seq<nat> := [];
    var headItem := seq2[0];
    for index1 := 0 to |seq1|
      invariant forall m :: 0 <= m < |startIndexes| ==> startIndexes[m] < |seq1|
      invariant forall k: nat :: k in startIndexes <==> k < index1 && seq1[k] == headItem
    {
      if seq1[index1] == headItem {
        startIndexes := startIndexes + [index1];
      }
    }
    var doubleSeq1 := seq1 + seq1;
    for n := 0 to |startIndexes|
      invariant forall m :: 0 <= m < n ==> seq2 != Rotated(seq1, startIndexes[m])
    {
      var index1 := startIndexes[n];
      DoubledSlice(seq1, index1);
      if doubleSeq1[index1..index1 + |seq1|] == seq2 {
        return Some(true);
      }
    }
    NoStart(seq1, seq2, startIndexes);
    r := Some(false);
  }

  lemma NoStart<T>(s: seq<T>, t: seq<T>, starts: seq<nat>)
    requires |s| == |t| > 0
    requires forall k: nat :: k < |s| ==> (s[k] == t[0] ==> k in starts)
    requires forall m :: 0 <= m < |starts| ==> starts[m] < |s| && t != Rotated(s, starts[m])
    ensures !IsRotation(s, t)
  {
    forall k: nat | k <= |s| ensures t != Rotated(s, k) {
      if k < |s| {
        RotatedAt(s, k, 0);
      } else {
        assert Rotated(s, k) == s == Rotated(s, 0);
        RotatedAt(s, 0, 0);
      }
    }
  }
}
