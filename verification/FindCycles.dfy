/** Enumeration of the simple cycles of a graph with a stack of paths. */
module FindCycles {
  import opened Collections
  import opened Rotation

  type Item(==, !new)
  /** parent -> list of children; items without an entry have none. */
  type Graph = map<Item, seq<Item>>

  predicate Edge(g: Graph, a: Item, b: Item) {
    a in g && b in g[a]
  }

  ghost predicate Hop(g: Graph, w: seq<Item>, i: nat)
    requires i + 1 < |w|
  {
    Edge(g, w[i], w[i + 1])
  }

  ghost predicate IsWalk(g: Graph, w: seq<Item>) {
    |w| >= 1 && forall i: nat {:trigger Hop(g, w, i)} :: i + 1 < |w| ==> Hop(g, w, i)
  }

  /** A walk that visits no item twice. */
  ghost predicate IsSimplePath(g: Graph, p: seq<Item>) {
    IsWalk(g, p) && NoDup(p)
  }

  /** Distinct items, each a parent of the next and the last a parent of the first. */
  ghost predicate IsSimpleCycle(g: Graph, c: seq<Item>) {
    IsSimplePath(g, c) && Edge(g, c[|c| - 1], c[0])
  }

  ghost predicate Recorded(cycles: seq<seq<Item>>, c: seq<Item>) {
    exists i :: 0 <= i < |cycles| && IsRotation(cycles[i], c)
  }

  // ----- walks

  lemma SubWalk(g: Graph, w: seq<Item>, lo: nat, hi: nat)
    requires IsWalk(g, w) && lo < hi <= |w|
    ensures IsWalk(g, w[lo..hi])
  {
    var v := w[lo..hi];
    forall i: nat | i + 1 < |v| ensures Hop(g, v, i) {
      assert Hop(g, w, lo + i);
    }
  }

  lemma JoinWalks(g: Graph, v: seq<Item>, w: seq<Item>)
    requires IsWalk(g, v) && IsWalk(g, w) && Edge(g, v[|v| - 1], w[0])
    ensures IsWalk(g, v + w)
  {
    var u := v + w;
    forall i: nat | i + 1 < |u| ensures Hop(g, u, i) {
      if i + 1 < |v| {
        assert Hop(g, v, i);
      } else if i >= |v| {
        assert Hop(g, w, i - |v|);
      }
    }
  }

  lemma RotatedCycle(g: Graph, c: seq<Item>, k: nat)
    requires IsSimpleCycle(g, c) && k < |c|
    ensures IsSimpleCycle(g, Rotated(c, k))
  {
    var d := Rotated(c, k);
    if k == 0 {
      assert d == c;
    } else {
      SubWalk(g, c, k, |c|);
      SubWalk(g, c, 0, k);
      assert Hop(g, c, k - 1);
      assert c[k..|c|] == c[k..] && c[0..k] == c[..k];
      JoinWalks(g, c[k..], c[..k]);
      NoDupConcat(c[k..], c[..k]);
    }
  }

  /** The closing slice of a simple path is a simple cycle. */
  lemma SliceIsCycle(g: Graph, path: seq<Item>, k: nat)
    requires IsSimplePath(g, path) && k < |path| && Edge(g, path[|path| - 1], path[k])
    ensures IsSimpleCycle(g, path[k..])
  {
    SubWalk(g, path, k, |path|);
    assert path[k..|path|] == path[k..];
  }

  /** A walk into a cycle can be cut to a simple path that meets the cycle at its end only. */
  lemma {:induction false} FirstContact(g: Graph, w: seq<Item>, c: seq<Item>) returns (q: seq<Item>)
    requires IsWalk(g, w) && w[|w| - 1] in c
    ensures IsSimplePath(g, q) && q[0] == w[0] && q[|q| - 1] in c
    ensures forall i :: 0 <= i < |q| - 1 ==> q[i] !in c
    decreases |w|
  {
    if k :| 0 <= k < |w| - 1 && w[k] in c {
      SubWalk(g, w, 0, k + 1);
      q := FirstContact(g, w[0..k + 1], c);
    } else if i, j :| 0 <= i < j < |w| && w[i] == w[j] {
      var cut := w[..i + 1] + w[j + 1..];
      CutWalk(g, w, i, j);
      q := FirstContact(g, cut, c);
    } else {
      q := w;
    }
  }

  lemma CutWalk(g: Graph, w: seq<Item>, i: nat, j: nat)
    requires IsWalk(g, w) && i < j < |w| && w[i] == w[j]
    ensures IsWalk(g, w[..i + 1] + w[j + 1..])
    ensures (w[..i + 1] + w[j + 1..])[0] == w[0]
    ensures var u := w[..i + 1] + w[j + 1..]; u[|u| - 1] == w[|w| - 1]
  {
    SubWalk(g, w, 0, i + 1);
    assert w[0..i + 1] == w[..i + 1];
    if j + 1 < |w| {
      SubWalk(g, w, j + 1, |w|);
      assert w[j + 1..|w|] == w[j + 1..];
      assert Hop(g, w, j);
      JoinWalks(g, w[..i + 1], w[j + 1..]);
    } else {
      assert w[..i + 1] + w[j + 1..] == w[..i + 1];
    }
  }

  // ----- what has been explored

  /** Every cycle that closes at the end of path q is recorded. */
  ghost predicate Covered(g: Graph, cycles: seq<seq<Item>>, q: seq<Item>)
    requires |q| > 0
  {
    forall k: nat :: k < |q| && Edge(g, q[|q| - 1], q[k]) ==> Recorded(cycles, q[k..])
  }

  /** Path q is still to be grown from some stacked path. */
  ghost predicate Stacked(paths: seq<seq<Item>>, q: seq<Item>) {
    exists i :: 0 <= i < |paths| && paths[i] <= q
  }

  /** Every simple path from root is covered or still ahead. */
  ghost predicate Explored(g: Graph, root: Item, cycles: seq<seq<Item>>, paths: seq<seq<Item>>) {
    forall q {:trigger Covered(g, cycles, q)} {:trigger Stacked(paths, q)} ::
      IsSimplePath(g, q) && q[0] == root ==> Covered(g, cycles, q) || Stacked(paths, q)
  }

  ghost predicate Reaches(g: Graph, w: seq<Item>, a: Item, b: Item) {
    IsWalk(g, w) && w[0] == a && w[|w| - 1] == b
  }

  ghost predicate Reachable(g: Graph, a: Item, b: Item) {
    exists w :: Reaches(g, w, a, b)
  }

  /** Every simple cycle that x can reach is recorded. */
  ghost predicate Finished(g: Graph, cycles: seq<seq<Item>>, x: Item) {
    forall c :: IsSimpleCycle(g, c) && Reachable(g, x, c[0]) ==> Recorded(cycles, c)
  }

  lemma ExploredFindsCycle(g: Graph, root: Item, cycles: seq<seq<Item>>, c: seq<Item>)
    requires Explored(g, root, cycles, [])
    requires IsSimpleCycle(g, c) && Reachable(g, root, c[0])
    ensures Recorded(cycles, c)
  {
    var w :| Reaches(g, w, root, c[0]);
    var q := FirstContact(g, w, c);
    var k: nat :| k < |c| && c[k] == q[|q| - 1];
    var d := Rotated(c, k);
    RotatedCycle(g, c, k);
    RotatedAt(c, k, 0);
    var p := q[..|q| - 1] + d;
    PathAlongCycle(g, q, d);
    forall x | x in d ensures x in c {
    }
    NoDupConcat(q[..|q| - 1], d);
    assert !Stacked([], p);
    assert Covered(g, cycles, p);
    assert p[|q| - 1..] == d;
    assert Recorded(cycles, d);
    var i :| 0 <= i < |cycles| && IsRotation(cycles[i], d);
    assert IsRotation(c, d);
    Symmetric(c, d);
    Transitive(cycles[i], d, c);
  }

  lemma PathAlongCycle(g: Graph, q: seq<Item>, d: seq<Item>)
    requires IsWalk(g, q) && IsSimpleCycle(g, d) && q[|q| - 1] == d[0]
    ensures IsWalk(g, q[..|q| - 1] + d)
    ensures (q[..|q| - 1] + d)[0] == q[0]
  {
    var front := q[..|q| - 1];
    if front == [] {
      assert front + d == d;
    } else {
      SubWalk(g, q, 0, |q| - 1);
      assert q[0..|q| - 1] == front;
      assert Hop(g, q, |q| - 2);
      JoinWalks(g, front, d);
    }
  }

  lemma FinishedReach(g: Graph, cycles: seq<seq<Item>>, root: Item, x: Item)
    requires Finished(g, cycles, root) && Reachable(g, root, x)
    ensures Finished(g, cycles, x)
  {
    forall c | IsSimpleCycle(g, c) && Reachable(g, x, c[0]) ensures Recorded(cycles, c) {
      var v :| Reaches(g, v, root, x);
      var w :| Reaches(g, w, x, c[0]);
      if |w| == 1 {
        assert Reaches(g, v, root, c[0]);
      } else {
        SubWalk(g, w, 1, |w|);
        assert Hop(g, w, 0);
        JoinWalks(g, v, w[1..|w|]);
        assert Reaches(g, v + w[1..|w|], root, c[0]);
      }
    }
  }

  // ----- termination: the number of paths that a path can still grow into

  ghost function Universe(g: Graph): set<Item> {
    g.Keys + (set k, x | k in g && x in g[k] :: x)
  }

  ghost predicate Fits(g: Graph, p: seq<Item>) {
    p != [] && NoDup(p) && ToSet(p) <= Universe(g)
  }

  lemma FitsMore(g: Graph, p: seq<Item>, x: Item)
    requires Fits(g, p) && x in Universe(g) && x !in p
    ensures Fits(g, p + [x]) && |p| < |Universe(g)|
  {
    assert ToSet(p + [x]) == ToSet(p) + {x};
    NoDupFits(p + [x], Universe(g));
  }

  ghost function Work(g: Graph, p: seq<Item>): (n: nat)
    requires Fits(g, p)
    ensures n > 0
    decreases |Universe(g)| - |p|, 1, 0
  {
    var parent := p[|p| - 1];
    if parent in g then 1 + WorkKids(g, p, g[parent]) else 1
  }

  ghost function WorkKids(g: Graph, p: seq<Item>, kids: seq<Item>): nat
    requires Fits(g, p) && ToSet(kids) <= Universe(g)
    decreases |Universe(g)| - |p|, 0, |kids|
  {
    if kids == [] then 0
    else
      assert kids[0] in ToSet(kids);
      assert ToSet(kids[1..]) <= ToSet(kids);
      var rest := WorkKids(g, p, kids[1..]);
      if kids[0] in p then rest
      else
        FitsMore(g, p, kids[0]);
        Work(g, p + [kids[0]]) + rest
  }

  ghost predicate AllFit(g: Graph, paths: seq<seq<Item>>) {
    forall i :: 0 <= i < |paths| ==> Fits(g, paths[i])
  }

  ghost function TotalWork(g: Graph, paths: seq<seq<Item>>): nat
    requires AllFit(g, paths)
  {
    if paths == [] then 0 else TotalWork(g, paths[..|paths| - 1]) + Work(g, paths[|paths| - 1])
  }

  // ----- the program

  ghost predicate FromRoot(g: Graph, root: Item, paths: seq<seq<Item>>) {
    forall i :: 0 <= i < |paths| ==> IsSimplePath(g, paths[i]) && paths[i][0] == root && Fits(g, paths[i])
  }

  /** All listed cycles are simple cycles of g, none a rotation of another. */
  ghost predicate Good(g: Graph, cycles: seq<seq<Item>>) {
    && (forall i :: 0 <= i < |cycles| ==> IsSimpleCycle(g, cycles[i]))
    && (forall i, j :: 0 <= i < j < |cycles| ==> !IsRotation(cycles[i], cycles[j]))
  }

  lemma RecordedGrows(cycles: seq<seq<Item>>, more: seq<seq<Item>>, c: seq<Item>)
    requires cycles <= more && Recorded(cycles, c)
    ensures Recorded(more, c)
  {
    var i :| 0 <= i < |cycles| && IsRotation(cycles[i], c);
    assert more[i] == cycles[i];
  }

  /** path.index(child): the first position of an item. */
  method IndexOf(path: seq<Item>, child: Item) returns (k: nat)
    requires child in path
    ensures k < |path| && path[k] == child && child !in path[..k]
  {
    k := 0;
    while path[k] != child
      invariant k < |path| && child !in path[..k]
      decreases |path| - k
    {
      k := k + 1;
    }
  }

  /** The duplicate check: is some recorded cycle a rotation of this one? */
  method IsDup(g: Graph, cycles: seq<seq<Item>>, cycle: seq<Item>) returns (isDup: bool)
    requires cycle != []
    ensures isDup <==> Recorded(cycles, cycle)
  {
    isDup := false;
    for i := 0 to |cycles|
      invariant forall j :: 0 <= j < i ==> !IsRotation(cycles[j], cycle)
    {
      var r := IsRotated(cycles[i], cycle);
      if r.value {
        return true;
      }
    }
  }

  /** What the loop over the children has dealt with so far. */
  ghost predicate Handled(g: Graph, path: seq<Item>, child: Item, cycles: seq<seq<Item>>, paths: seq<seq<Item>>)
    requires path != []
  {
    if child in path then forall k: nat :: k < |path| && path[k] == child ==> Recorded(cycles, path[k..])
    else path + [child] in paths
  }

  ghost predicate AllHandled(g: Graph, path: seq<Item>, kids: seq<Item>, cycles: seq<seq<Item>>, paths: seq<seq<Item>>)
    requires path != []
  {
    forall x :: x in kids ==> Handled(g, path, x, cycles, paths)
  }

  lemma HandledGrows(g: Graph, path: seq<Item>, kids: seq<Item>, cycles: seq<seq<Item>>, more: seq<seq<Item>>,
                     paths: seq<seq<Item>>, morePaths: seq<seq<Item>>)
    requires path != [] && AllHandled(g, path, kids, cycles, paths)
    requires cycles <= more && paths <= morePaths
    ensures AllHandled(g, path, kids, more, morePaths)
  {
    forall x | x in kids ensures Handled(g, path, x, more, morePaths) {
      assert Handled(g, path, x, cycles, paths);
      if x in path {
        forall k: nat | k < |path| && path[k] == x ensures Recorded(more, path[k..]) {
          RecordedGrows(cycles, more, path[k..]);
        }
      } else {
        var i :| 0 <= i < |paths| && paths[i] == path + [x];
        assert morePaths[i] == path + [x];
      }
    }
  }

  lemma RecordCycle(g: Graph, cycles: seq<seq<Item>>, cycle: seq<Item>)
    requires Good(g, cycles) && IsSimpleCycle(g, cycle) && !Recorded(cycles, cycle)
    ensures Good(g, cycles + [cycle]) && Recorded(cycles + [cycle], cycle)
  {
    Reflexive(cycle);
    var next := cycles + [cycle];
    assert next[|cycles|] == cycle;
  }

  lemma GrowPath(g: Graph, root: Item, path: seq<Item>, child: Item)
    requires IsSimplePath(g, path) && path[0] == root && Fits(g, path)
    requires Edge(g, path[|path| - 1], child) && child !in path
    ensures IsSimplePath(g, path + [child]) && (path + [child])[0] == root && Fits(g, path + [child])
    ensures Reachable(g, root, child)
  {
    assert IsWalk(g, [child]);
    JoinWalks(g, path, [child]);
    FitsMore(g, path, child);
    assert Reaches(g, path + [child], root, child);
  }

  method PushPath(g: Graph, ghost root: Item, paths0: seq<seq<Item>>, path: seq<Item>) returns (paths: seq<seq<Item>>)
    requires FromRoot(g, root, paths0) && AllFit(g, paths0)
    requires IsSimplePath(g, path) && path[0] == root && Fits(g, path)
    ensures paths == paths0 + [path]
    ensures FromRoot(g, root, paths) && AllFit(g, paths)
    ensures TotalWork(g, paths) == TotalWork(g, paths0) + Work(g, path)
  {
    paths := paths0 + [path];
    assert paths[..|paths| - 1] == paths0;
  }

  method ExpandPath(g: Graph, root: Item, path: seq<Item>, rest: seq<seq<Item>>,
                    cycles0: seq<seq<Item>>, visited0: set<Item>)
    returns (cycles: seq<seq<Item>>, paths: seq<seq<Item>>, visited: set<Item>)
    requires FromRoot(g, root, rest) && AllFit(g, rest) && Good(g, cycles0)
    requires IsSimplePath(g, path) && path[0] == root && Fits(g, path) && path[|path| - 1] in g
    ensures cycles0 <= cycles && rest <= paths && visited0 <= visited
    ensures Good(g, cycles) && FromRoot(g, root, paths) && AllFit(g, paths)
    ensures AllHandled(g, path, g[path[|path| - 1]], cycles, paths)
    ensures forall x :: x in visited ==> x in visited0 || Reachable(g, root, x)
    ensures TotalWork(g, paths) < TotalWork(g, rest) + Work(g, path)
  {
    cycles, paths, visited := cycles0, rest, visited0;
    var kids := g[path[|path| - 1]];
    assert ToSet(kids) <= Universe(g);
    for j := 0 to |kids|
      invariant cycles0 <= cycles && rest <= paths && visited0 <= visited
      invariant Good(g, cycles) && FromRoot(g, root, paths)
      invariant AllFit(g, paths) && ToSet(kids[j..]) <= Universe(g)
      invariant TotalWork(g, paths) + WorkKids(g, path, kids[j..]) == TotalWork(g, rest) + WorkKids(g, path, kids)
      invariant AllHandled(g, path, kids[..j], cycles, paths)
      invariant forall x :: x in visited ==> x in visited0 || Reachable(g, root, x)
    {
      var child := kids[j];
      ghost var before, pathsBefore := cycles, paths;
      assert kids[j..][1..] == kids[j + 1..] && kids[j..][0] == child;
      assert kids[..j + 1] == kids[..j] + [child];
      if child in path {
        var k := IndexOf(path, child);
        SliceIsCycle(g, path, k);
        var isDup := IsDup(g, cycles, path[k..]);
        if !isDup {
          RecordCycle(g, cycles, path[k..]);
          cycles := cycles + [path[k..]];
        }
      } else {
        GrowPath(g, root, path, child);
        paths := PushPath(g, root, paths, path + [child]);
        visited := visited + {child};
      }
      HandledGrows(g, path, kids[..j], before, cycles, pathsBefore, paths);
    }
    assert kids[..|kids|] == kids;
  }

  /** Replacing a path by its extensions loses no path from the root. */
  lemma ExploredStep(g: Graph, root: Item, path: seq<Item>, rest: seq<seq<Item>>, cycles: seq<seq<Item>>,
                     more: seq<seq<Item>>, paths: seq<seq<Item>>)
    requires Explored(g, root, cycles, rest + [path]) && path != []
    requires cycles <= more && rest <= paths && NoDup(path)
    requires path[|path| - 1] in g ==> AllHandled(g, path, g[path[|path| - 1]], more, paths)
    ensures Explored(g, root, more, paths)
  {
    forall q | IsSimplePath(g, q) && q[0] == root ensures Covered(g, more, q) || Stacked(paths, q) {
      if Covered(g, cycles, q) {
        forall k: nat | k < |q| && Edge(g, q[|q| - 1], q[k]) ensures Recorded(more, q[k..]) {
          RecordedGrows(cycles, more, q[k..]);
        }
      } else {
        assert Stacked(rest + [path], q);
        var i :| 0 <= i < |rest + [path]| && (rest + [path])[i] <= q;
        if i < |rest| {
          assert paths[i] == rest[i];
        } else {
          ExtensionHandled(g, path, q, more, paths);
        }
      }
    }
  }

  lemma ExtensionHandled(g: Graph, path: seq<Item>, q: seq<Item>, cycles: seq<seq<Item>>, paths: seq<seq<Item>>)
    requires IsSimplePath(g, q) && path != [] && path <= q
    requires path[|path| - 1] in g ==> AllHandled(g, path, g[path[|path| - 1]], cycles, paths)
    ensures Covered(g, cycles, q) || Stacked(paths, q)
  {
    var parent := path[|path| - 1];
    if |q| == |path| {
      assert q == path;
      forall k: nat | k < |q| && Edge(g, q[|q| - 1], q[k]) ensures Recorded(cycles, q[k..]) {
        assert Handled(g, path, q[k], cycles, paths);
      }
    } else {
      var child := q[|path|];
      assert Hop(g, q, |path| - 1);
      assert Handled(g, path, child, cycles, paths);
      assert child !in path;
      var i :| 0 <= i < |paths| && paths[i] == path + [child];
      assert q[..|path| + 1] == path + [child];
    }
  }

  /** The search from one root: afterwards every cycle it can reach is recorded. */
  method ExploreRoot(g: Graph, root: Item, cycles0: seq<seq<Item>>, visited0: set<Item>)
    returns (cycles: seq<seq<Item>>, visited: set<Item>)
    requires root in g && Good(g, cycles0)
    ensures cycles0 <= cycles && Good(g, cycles) && visited0 <= visited
    ensures Finished(g, cycles, root)
    ensures forall x :: x in visited ==> x in visited0 || Reachable(g, root, x)
  {
    cycles, visited := cycles0, visited0;
    var paths := [[root]];
    assert paths[0] == [root];
    assert Explored(g, root, cycles, paths) by {
      forall q | IsSimplePath(g, q) && q[0] == root ensures Stacked(paths, q) {
        assert paths[0] <= q;
      }
    }
    while paths != []
      invariant cycles0 <= cycles && Good(g, cycles) && visited0 <= visited
      invariant FromRoot(g, root, paths) && AllFit(g, paths)
      invariant Explored(g, root, cycles, paths)
      invariant forall x :: x in visited ==> x in visited0 || Reachable(g, root, x)
      decreases TotalWork(g, paths)
    {
      var path, rest := paths[|paths| - 1], paths[..|paths| - 1];
      assert paths == rest + [path];
      ghost var before := cycles;
      if path[|path| - 1] in g {
        cycles, paths, visited := ExpandPath(g, root, path, rest, cycles, visited);
      } else {
        paths := rest;
      }
      ExploredStep(g, root, path, rest, before, cycles, paths);
    }
    forall c | IsSimpleCycle(g, c) && Reachable(g, root, c[0]) ensures Recorded(cycles, c) {
      ExploredFindsCycle(g, root, cycles, c);
    }
  }

  lemma FinishedGrows(g: Graph, cycles: seq<seq<Item>>, more: seq<seq<Item>>, x: Item)
    requires Finished(g, cycles, x) && cycles <= more
    ensures Finished(g, more, x)
  {
    forall c | IsSimpleCycle(g, c) && Reachable(g, x, c[0]) ensures Recorded(more, c) {
      RecordedGrows(cycles, more, c);
    }
  }

  /**
   * find_cycles, with the yielded cycles in one list and the keys in arbitrary order:
   * each simple cycle of g is yielded exactly once up to rotation, and nothing else is.
   */
  method FindAll(g: Graph) returns (cycles: seq<seq<Item>>)
    ensures forall i :: 0 <= i < |cycles| ==> IsSimpleCycle(g, cycles[i])
    ensures forall i, j :: 0 <= i < j < |cycles| ==> !IsRotation(cycles[i], cycles[j])
    ensures forall c :: IsSimpleCycle(g, c) ==> Recorded(cycles, c)
  {
    cycles := [];
    var visited: set<Item> := {};
    var order := KeyList(g);
    for n := 0 to |order|
      invariant Good(g, cycles)
      invariant forall x :: x in visited || x in order[..n] ==> Finished(g, cycles, x)
    {
      var root := order[n];
      ghost var before, visitedBefore := cycles, visited;
      if root !in visited {
        cycles, visited := ExploreRoot(g, root, cycles, visited);
      }
      forall x | x in visited || x in order[..n + 1] ensures Finished(g, cycles, x) {
        if x in visitedBefore || x in order[..n] {
          FinishedGrows(g, before, cycles, x);
        } else if x in visited {
          FinishedReach(g, cycles, root, x);
        }
      }
    }
    forall c | IsSimpleCycle(g, c) ensures Recorded(cycles, c) {
      assert c[0] in order[..|order|] by {
        if |c| > 1 {
          assert Hop(g, c, 0);
        }
        assert order[..|order|] == order;
      }
      assert IsWalk(g, [c[0]]) && Reaches(g, [c[0]], c[0], c[0]);
    }
  }
}
