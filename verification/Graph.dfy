/** Directed graphs given as a list of (parent, child) pairs. */
module Graph {
  import opened Collections

  /** The hashable items that the sorted pairs mention. */
  type Item(==, !new)
  type Pairs = seq<(Item, Item)>

  ghost function Nodes(pairs: Pairs): set<Item> {
    (set e | e in pairs :: e.0) + (set e | e in pairs :: e.1)
  }

  ghost predicate Hop(pairs: Pairs, p: seq<Item>, i: nat)
    requires i + 1 < |p|
  {
    (p[i], p[i + 1]) in pairs
  }

  ghost predicate IsPath(pairs: Pairs, p: seq<Item>) {
    |p| >= 1 && forall i: nat :: i + 1 < |p| ==> Hop(pairs, p, i)
  }

  lemma SubPath(pairs: Pairs, p: seq<Item>, lo: nat, hi: nat)
    requires IsPath(pairs, p) && lo < hi <= |p|
    ensures IsPath(pairs, p[lo..hi])
  {
    var q := p[lo..hi];
    forall i: nat | i + 1 < |q| ensures Hop(pairs, q, i) {
      assert Hop(pairs, p, lo + i);
    }
  }

  lemma ExtendPath(pairs: Pairs, p: seq<Item>, x: Item)
    requires IsPath(pairs, p) && (p[|p| - 1], x) in pairs
    ensures IsPath(pairs, p + [x])
  {
    var q := p + [x];
    forall i: nat | i + 1 < |q| ensures Hop(pairs, q, i) {
      if i + 1 < |p| {
        assert Hop(pairs, p, i);
      }
    }
  }

  /** A closed path with at least one edge; self-loops and repeated vertices count. */
  ghost predicate IsCycle(pairs: Pairs, c: seq<Item>) {
    IsPath(pairs, c) && |c| >= 2 && c[0] == c[|c| - 1]
  }

  ghost predicate Acyclic(pairs: Pairs) {
    forall c: seq<Item> :: !IsCycle(pairs, c)
  }

  ghost predicate Leads(pairs: Pairs, c: seq<Item>, w: seq<Item>, x: Item) {
    IsCycle(pairs, c) && IsPath(pairs, w) && w[0] == c[0] && w[|w| - 1] == x
  }

  /** x lies on a cycle or can be reached from one. */
  ghost predicate FromCycle(pairs: Pairs, x: Item) {
    exists c: seq<Item>, w: seq<Item> :: Leads(pairs, c, w, x)
  }

  lemma CycleIsFromCycle(pairs: Pairs, c: seq<Item>)
    requires IsCycle(pairs, c)
    ensures FromCycle(pairs, c[0])
    ensures c[0] in Nodes(pairs)
  {
    assert Leads(pairs, c, c, c[0]);
    assert Hop(pairs, c, 0);
  }

  lemma FromCycleIsNode(pairs: Pairs, x: Item)
    requires FromCycle(pairs, x)
    ensures x in Nodes(pairs)
  {
    var c, w :| Leads(pairs, c, w, x);
    if |w| == 1 {
      CycleIsFromCycle(pairs, c);
    } else {
      assert Hop(pairs, w, |w| - 2);
    }
  }

  /** Items whose parents all precede them, against items that keep a parent of their own kind. */
  ghost predicate Layered(pairs: Pairs, rank: map<Item, nat>) {
    forall e :: e in pairs && e.1 in rank ==> e.0 in rank && rank[e.0] < rank[e.1]
  }

  lemma {:induction false} RankAlongPath(pairs: Pairs, rank: map<Item, nat>, p: seq<Item>)
    requires Layered(pairs, rank)
    requires IsPath(pairs, p) && p[|p| - 1] in rank
    ensures p[0] in rank && rank[p[0]] + |p| - 1 <= rank[p[|p| - 1]]
    decreases |p|
  {
    if |p| > 1 {
      var q := p[..|p| - 1];
      assert Hop(pairs, p, |p| - 2);
      SubPath(pairs, p, 0, |p| - 1);
      RankAlongPath(pairs, rank, q);
    }
  }

  lemma LayeredNotFromCycle(pairs: Pairs, rank: map<Item, nat>, x: Item)
    requires Layered(pairs, rank) && x in rank
    ensures !FromCycle(pairs, x)
  {
    if FromCycle(pairs, x) {
      var c, w :| Leads(pairs, c, w, x);
      RankAlongPath(pairs, rank, w);
      RankAlongPath(pairs, rank, c);
      assert false;
    }
  }

  /** y has a parent inside the set `stuck`. */
  ghost predicate KeepsParent(pairs: Pairs, stuck: set<Item>, y: Item) {
    exists e :: e in pairs && e.1 == y && e.0 in stuck
  }

  lemma {:induction false} BackWalk(pairs: Pairs, stuck: set<Item>, x: Item, n: nat) returns (p: seq<Item>)
    requires x in stuck
    requires forall y {:trigger KeepsParent(pairs, stuck, y)} :: y in stuck ==> KeepsParent(pairs, stuck, y)
    ensures |p| == n + 1 && p[n] == x && IsPath(pairs, p) && ToSet(p) <= stuck
  {
    if n == 0 {
      p := [x];
    } else {
      assert KeepsParent(pairs, stuck, x);
      var e :| e in pairs && e.1 == x && e.0 in stuck;
      var q := BackWalk(pairs, stuck, e.0, n - 1);
      p := q + [x];
      ExtendPath(pairs, q, x);
    }
  }

  /** An item of a finite set in which everyone keeps a parent is reachable from a cycle. */
  lemma StuckIsFromCycle(pairs: Pairs, stuck: set<Item>, x: Item)
    requires x in stuck
    requires forall y {:trigger KeepsParent(pairs, stuck, y)} :: y in stuck ==> KeepsParent(pairs, stuck, y)
    ensures FromCycle(pairs, x)
  {
    var p := BackWalk(pairs, stuck, x, |stuck|);
    Pigeonhole(p, stuck);
    var i, j :| 0 <= i < j < |p| && p[i] == p[j];
    var c, w := p[i..j + 1], p[i..];
    SubPath(pairs, p, i, j + 1);
    SubPath(pairs, p, i, |p|);
    assert w == p[i..|p|];
    assert Leads(pairs, c, w, x);
  }

  /** A ranking of the items of `rank` and a parent for each of the others tell the two kinds apart. */
  lemma Residual(pairs: Pairs, rank: map<Item, nat>)
    requires Layered(pairs, rank)
    requires forall y :: y in Nodes(pairs) - rank.Keys ==>
                           exists e :: e in pairs && e.1 == y && e.0 !in rank
    ensures forall x :: x in Nodes(pairs) ==> (x !in rank <==> FromCycle(pairs, x))
    ensures Nodes(pairs) <= rank.Keys <==> Acyclic(pairs)
  {
    var stuck := Nodes(pairs) - rank.Keys;
    forall y | y in stuck ensures KeepsParent(pairs, stuck, y) {
      var e :| e in pairs && e.1 == y && e.0 !in rank;
      assert e.0 in Nodes(pairs);
    }
    forall x | x in Nodes(pairs) ensures x !in rank <==> FromCycle(pairs, x) {
      if x in rank {
        LayeredNotFromCycle(pairs, rank, x);
      } else {
        StuckIsFromCycle(pairs, stuck, x);
      }
    }
    if !Acyclic(pairs) {
      var c :| IsCycle(pairs, c);
      CycleIsFromCycle(pairs, c);
    }
    if stuck != {} {
      var x :| x in stuck;
      var c, w :| Leads(pairs, c, w, x);
    }
  }
}
