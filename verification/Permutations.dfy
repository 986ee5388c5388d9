/** All permutations of a list. */
module Permutations {
  import opened Collections

  function Factorial(n: nat): nat {
    if n == 0 then 1 else n * Factorial(n - 1)
  }

  function Insert<T>(s: seq<T>, i: nat, item: T): seq<T>
    requires i <= |s|
  {
    s[..i] + [item] + s[i..]
  }

  /** The item put at the first n positions of s. */
  function Inserted<T>(s: seq<T>, item: T, n: nat): seq<seq<T>>
    requires n <= |s| + 1
  {
    seq(n, i requires 0 <= i < n => Insert(s, i, item))
  }

  /** The item put at every position of the first k lists. */
  function Spread<T>(lists: seq<seq<T>>, item: T, k: nat): seq<seq<T>>
    requires k <= |lists|
  {
    if k == 0 then [] else Spread(lists, item, k - 1) + Inserted(lists[k - 1], item, |lists[k - 1]| + 1)
  }

  /** What permutations returns, list by list. */
  function All<T>(input: seq<T>): seq<seq<T>> {
    if |input| > 1 then Spread(All(input[1..]), input[0], |All(input[1..])|) else [input]
  }

  method Permute<T>(input: seq<T>) returns (outLists: seq<seq<T>>)
    ensures outLists == All(input)
    decreases |input|
  {
    outLists := [];
    if |input| > 1 {
      var item := input[0];
      var subLists := Permute(input[1..]);
      for k := 0 to |subLists|
        invariant outLists == Spread(subLists, item, k)
      {
        var subList := subLists[k];
        SameLength(input[1..], subList);
        ghost var before := outLists;
        for i := 0 to |input|
          invariant outLists == before + Inserted(subList, item, i)
        {
          var newList := subList[..i] + [item] + subList[i..];
          outLists := outLists + [newList];
        }
      }
    } else {
      outLists := [input];
    }
  }

  // ----- every result is a permutation

  lemma InsertMultiset<T>(s: seq<T>, i: nat, item: T)
    requires i <= |s|
    ensures multiset(Insert(s, i, item)) == multiset(s) + multiset{item}
  {
    assert s == s[..i] + s[i..];
  }

  /** What is in Spread, and from which list and position. */
  lemma {:induction false} InSpread<T>(lists: seq<seq<T>>, item: T, k: nat, p: seq<T>)
    requires k <= |lists|
    ensures p in Spread(lists, item, k) <==>
              exists m: nat, i: nat :: m < k && i <= |lists[m]| && p == Insert(lists[m], i, item)
  {
    if k > 0 {
      InSpread(lists, item, k - 1, p);
      var last := lists[k - 1];
      var group := Inserted(last, item, |last| + 1);
      if p in group {
        var i: nat :| i < |group| && group[i] == p;
        assert p == Insert(lists[k - 1], i, item);
      }
      if m: nat, i: nat :| m < k && i <= |lists[m]| && p == Insert(lists[m], i, item) {
        if m == k - 1 {
          assert group[i] == p;
        }
      }
    }
  }

  /** For every input: the results are exactly the lists with the same items. */
  lemma {:induction false} ResultsAreRearrangements<T>(input: seq<T>, p: seq<T>)
    ensures p in All(input) <==> multiset(p) == multiset(input)
    decreases |input|
  {
    if |input| > 1 {
      var item, subs := input[0], All(input[1..]);
      InSpread(subs, item, |subs|, p);
      if m: nat, i: nat :| m < |subs| && i <= |subs[m]| && p == Insert(subs[m], i, item) {
        assert subs[m] in subs;
        ResultsAreRearrangements(input[1..], subs[m]);
        InsertIsRearrangement(input, subs[m], i);
      }
      if multiset(p) == multiset(input) {
        var i, rest := TakeOut(input, p);
        ResultsAreRearrangements(input[1..], rest);
        var m: nat :| m < |subs| && subs[m] == rest;
        assert i <= |subs[m]|;
      }
    } else {
      ShortRearrangement(input, p);
    }
  }

  lemma InsertIsRearrangement<T>(input: seq<T>, sub: seq<T>, i: nat)
    requires input != [] && i <= |sub| && multiset(sub) == multiset(input[1..])
    ensures multiset(Insert(sub, i, input[0])) == multiset(input)
  {
    InsertMultiset(sub, i, input[0]);
    assert input == [input[0]] + input[1..];
  }

  lemma ShortRearrangement<T>(input: seq<T>, p: seq<T>)
    requires |input| <= 1
    ensures multiset(p) == multiset(input) <==> p == input
  {
    if multiset(p) == multiset(input) {
      assert |p| == |multiset(p)| == |multiset(input)| == |input|;
      if |p| == 1 {
        assert p[0] in multiset(input);
      }
    }
  }

  /** A rearrangement of input, with the first item of input taken out. */
  lemma TakeOut<T>(input: seq<T>, p: seq<T>) returns (i: nat, rest: seq<T>)
    requires input != [] && multiset(p) == multiset(input)
    ensures i <= |rest| && p == Insert(rest, i, input[0]) && multiset(rest) == multiset(input[1..])
  {
    var item := input[0];
    assert input == [item] + input[1..];
    assert item in multiset(p);
    i :| i < |p| && p[i] == item;
    rest := p[..i] + p[i + 1..];
    assert p == Insert(rest, i, item);
    InsertMultiset(rest, i, item);
    Cancel(multiset(rest), multiset(input[1..]), item);
  }

  lemma Cancel<T>(a: multiset<T>, b: multiset<T>, x: T)
    requires a + multiset{x} == b + multiset{x}
    ensures a == b
  {
    assert a == a + multiset{x} - multiset{x};
    assert b == b + multiset{x} - multiset{x};
  }

  lemma SameLength<T>(input: seq<T>, p: seq<T>)
    requires p in All(input)
    ensures |p| == |input|
  {
    ResultsAreRearrangements(input, p);
    assert |multiset(p)| == |multiset(input)|;
  }

  // ----- how many

  lemma {:induction false} SpreadSize<T>(lists: seq<seq<T>>, item: T, k: nat, n: nat)
    requires k <= |lists| && forall m :: 0 <= m < |lists| ==> |lists[m]| == n
    ensures |Spread(lists, item, k)| == k * (n + 1)
  {
    if k > 0 {
      SpreadSize(lists, item, k - 1, n);
      assert k * (n + 1) == (k - 1) * (n + 1) + (n + 1);
    }
  }

  lemma {:induction false} FactorialMany<T>(input: seq<T>)
    ensures |All(input)| == Factorial(|input|)
    decreases |input|
  {
    if |input| > 1 {
      var subs := All(input[1..]);
      FactorialMany(input[1..]);
      forall m | 0 <= m < |subs| ensures |subs[m]| == |input| - 1 {
        SameLength(input[1..], subs[m]);
      }
      SpreadSize(subs, input[0], |subs|, |input| - 1);
    } else {
      assert Factorial(0) == 1 && Factorial(1) == 1;
    }
  }

  // ----- no result twice

  lemma InsertInjective<T>(s: seq<T>, i: nat, t: seq<T>, j: nat, item: T)
    requires i <= |s| && j <= |t| && item !in s && item !in t && Insert(s, i, item) == Insert(t, j, item)
    ensures i == j && s == t
  {
    var p := Insert(s, i, item);
    assert p[i] == item == p[j];
    assert s == p[..i] + p[i + 1..] && t == p[..j] + p[j + 1..];
  }

  lemma InsertedOnce<T>(s: seq<T>, item: T)
    requires item !in s
    ensures NoDup(Inserted(s, item, |s| + 1))
  {
    var group := Inserted(s, item, |s| + 1);
    forall i, j | 0 <= i < j < |group| ensures group[i] != group[j] {
      if group[i] == group[j] {
        InsertInjective(s, i, s, j, item);
      }
    }
  }

  lemma {:induction false} SpreadOnce<T>(lists: seq<seq<T>>, item: T, k: nat)
    requires k <= |lists| && NoDup(lists) && forall m :: 0 <= m < |lists| ==> item !in lists[m]
    ensures NoDup(Spread(lists, item, k))
  {
    if k > 0 {
      SpreadOnce(lists, item, k - 1);
      var last := lists[k - 1];
      InsertedOnce(last, item);
      var group := Inserted(last, item, |last| + 1);
      forall p | p in group ensures p !in Spread(lists, item, k - 1) {
        InSpread(lists, item, k - 1, p);
        if m: nat, i: nat :| m < k - 1 && i <= |lists[m]| && p == Insert(lists[m], i, item) {
          var j: nat :| j < |group| && group[j] == p;
          InsertInjective(lists[m], i, last, j, item);
        }
      }
      NoDupConcat(Spread(lists, item, k - 1), group);
    }
  }

  /** For distinct items: each permutation is returned exactly once, so there are n! results. */
  lemma {:induction false} EachPermutationOnce<T>(input: seq<T>)
    requires NoDup(input)
    ensures NoDup(All(input)) && |All(input)| == Factorial(|input|)
    decreases |input|
  {
    FactorialMany(input);
    if |input| > 1 {
      var item, subs := input[0], All(input[1..]);
      EachPermutationOnce(input[1..]);
      forall m | 0 <= m < |subs| ensures item !in subs[m] {
        assert subs[m] in subs;
        ResultsAreRearrangements(input[1..], subs[m]);
        assert item !in input[1..];
        assert item !in multiset(subs[m]);
      }
      SpreadOnce(subs, item, |subs|);
    }
  }
}
