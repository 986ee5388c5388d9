/** Dependency sorting over mutable parent counts, as one list and level by level. */
module TopSort {
  import opened Collections
  import opened Graph

  /** num_parents and children of the program. */
  type Counts = map<Item, nat>
  type Children = map<Item, seq<Item>>

  datatype Result =
    | Sorted(answer: seq<Item>)
    | CycleError(partial: seq<Item>, numParents: Counts, children: Children)

  datatype LevelResult =
    | Levels(levels: seq<seq<Item>>)
    | LevelCycleError(yielded: seq<seq<Item>>, leftParents: Counts, leftChildren: Children)

  ghost function ChildrenOf(pairs: Pairs, p: Item): seq<Item> {
    if pairs == [] then []
    else
      var e := pairs[|pairs| - 1];
      ChildrenOf(pairs[..|pairs| - 1], p) + (if e.0 == p then [e.1] else [])
  }

  /** How many pairs still hold c back once the items of `done` are gone. */
  ghost function Pending(pairs: Pairs, done: set<Item>, c: Item): nat {
    if pairs == [] then 0
    else
      var e := pairs[|pairs| - 1];
      Pending(pairs[..|pairs| - 1], done, c) + (if e.1 == c && e.0 !in done then 1 else 0)
  }

  lemma {:induction false} PendingDropsParent(pairs: Pairs, done: set<Item>, p: Item, c: Item)
    requires p !in done
    ensures Pending(pairs, done, c) == Pending(pairs, done + {p}, c) + multiset(ChildrenOf(pairs, p))[c]
  {
    if pairs != [] {
      PendingDropsParent(pairs[..|pairs| - 1], done, p, c);
    }
  }

  lemma {:induction false} PendingZero(pairs: Pairs, done: set<Item>, c: Item)
    ensures Pending(pairs, done, c) == 0 <==> forall e :: e in pairs && e.1 == c ==> e.0 in done
  {
    if pairs != [] {
      var n := |pairs| - 1;
      PendingZero(pairs[..n], done, c);
      assert pairs == pairs[..n] + [pairs[n]];
      assert pairs[n] in pairs;
    }
  }

  lemma {:induction false} ChildrenAreChildren(pairs: Pairs, p: Item, c: Item)
    ensures c in ChildrenOf(pairs, p) <==> (p, c) in pairs
  {
    if pairs != [] {
      var n := |pairs| - 1;
      ChildrenAreChildren(pairs[..n], p, c);
      assert pairs == pairs[..n] + [pairs[n]];
    }
  }

  /**
   * The two tables describe exactly the pairs whose parent is not in `done`. The items may be
   * more than those of the pairs, and an item without children may have an empty list.
   */
  ghost predicate Tables(pairs: Pairs, items: set<Item>, done: set<Item>, numParents: Counts, children: Children) {
    CountTable(pairs, items, done, numParents) && ChildTable(pairs, done, children)
  }

  ghost predicate CountTable(pairs: Pairs, items: set<Item>, done: set<Item>, numParents: Counts) {
    && Nodes(pairs) <= items && numParents.Keys == items - done
    && forall c :: c in numParents ==> numParents[c] == Pending(pairs, done, c)
  }

  ghost predicate ChildTable(pairs: Pairs, done: set<Item>, children: Children) {
    && (forall p {:trigger p in children} :: p in children ==> p !in done && children[p] == ChildrenOf(pairs, p))
    && (forall p {:trigger ChildrenOf(pairs, p)} :: p !in done && ChildrenOf(pairs, p) != [] ==> p in children)
  }

  /** The tables while p, already deleted, is being discounted from its children. */
  ghost predicate Discounting(pairs: Pairs, items: set<Item>, done: set<Item>, p: Item, seen: seq<Item>,
                              numParents: Counts) {
    && Nodes(pairs) <= items && numParents.Keys == items - done - {p}
    && (forall c :: c in numParents ==> numParents[c] + multiset(seen)[c] == Pending(pairs, done, c))
  }

  ghost predicate NoEmptyList(children: Children) {
    forall p :: p in children ==> children[p] != []
  }

  method BuildTables(pairs: Pairs) returns (numParents: Counts, children: Children)
    ensures Tables(pairs, Nodes(pairs), {}, numParents, children) && NoEmptyList(children)
  {
    numParents, children := map[], map[];
    for i := 0 to |pairs|
      invariant Tables(pairs[..i], Nodes(pairs[..i]), {}, numParents, children) && NoEmptyList(children)
    {
      var (parent, child) := pairs[i];
      assert pairs[..i + 1] == pairs[..i] + [(parent, child)];
      CountsGrow(pairs[..i], pairs[i], numParents);
      ChildrenGrow(pairs[..i], pairs[i], children);
      if parent !in numParents {
        numParents := numParents[parent := 0];
      }
      if child !in numParents {
        numParents := numParents[child := 0];
      }
      numParents := numParents[child := numParents[child] + 1];
      children := children[parent := (if parent in children then children[parent] else []) + [child]];
    }
    assert pairs[..|pairs|] == pairs;
  }

  ghost function CountsAfter(numParents: Counts, e: (Item, Item)): Counts {
    var m := if e.0 in numParents then numParents else numParents[e.0 := 0];
    if e.1 in m then m[e.1 := m[e.1] + 1] else m[e.1 := 1]
  }

  lemma CountsGrow(pairs: Pairs, e: (Item, Item), numParents: Counts)
    requires CountTable(pairs, Nodes(pairs), {}, numParents)
    ensures CountTable(pairs + [e], Nodes(pairs + [e]), {}, CountsAfter(numParents, e))
  {
    var next, counts := pairs + [e], CountsAfter(numParents, e);
    assert next[..|next| - 1] == pairs;
    assert Nodes(next) == Nodes(pairs) + {e.0, e.1};
    forall c | c in counts ensures counts[c] == Pending(next, {}, c) {
      NewNode(pairs, c);
    }
  }

  lemma ChildrenGrow(pairs: Pairs, e: (Item, Item), children: Children)
    requires ChildTable(pairs, {}, children)
    ensures ChildTable(pairs + [e], {}, children[e.0 := (if e.0 in children then children[e.0] else []) + [e.1]])
  {
    var next := pairs + [e];
    assert next[..|next| - 1] == pairs;
    assert forall p {:trigger ChildrenOf(next, p)} ::
        ChildrenOf(next, p) == ChildrenOf(pairs, p) + (if p == e.0 then [e.1] else []);
  }

  lemma NewNode(pairs: Pairs, x: Item)
    ensures x !in Nodes(pairs) ==> Pending(pairs, {}, x) == 0
  {
    PendingZero(pairs, {}, x);
  }

  /** One more child discounted; the count it finds is positive, so nothing is missing or negative. */
  lemma DiscountStep(pairs: Pairs, items: set<Item>, done: set<Item>, p: Item, kids: seq<Item>, j: nat,
                     numParents: Counts)
    requires kids == ChildrenOf(pairs, p) && j < |kids| && p !in done
    requires Discounting(pairs, items, done, p, kids[..j], numParents)
    requires forall x :: x in done || x == p ==> Pending(pairs, done, x) == 0
    ensures kids[j] in numParents && numParents[kids[j]] > 0
    ensures Discounting(pairs, items, done, p, kids[..j + 1], numParents[kids[j] := numParents[kids[j]] - 1])
    ensures numParents[kids[j]] == 1 ==> Pending(pairs, done + {p}, kids[j]) == 0
  {
    var c := kids[j];
    PrefixCounts(kids, j);
    PendingDropsParent(pairs, done, p, c);
    ChildrenAreChildren(pairs, p, c);
    assert (p, c) in pairs;
  }

  lemma PrefixCounts(kids: seq<Item>, j: nat)
    requires j < |kids|
    ensures multiset(kids[..j + 1]) == multiset(kids[..j]) + multiset{kids[j]}
    ensures multiset(kids[..j + 1]) <= multiset(kids)
  {
    assert kids[..j + 1] == kids[..j] + [kids[j]];
    assert kids == kids[..j + 1] + kids[j + 1..];
  }

  /** All children discounted: the tables are those of the larger `done`. */
  lemma DiscountEnd(pairs: Pairs, items: set<Item>, done: set<Item>, p: Item, numParents: Counts, children: Children)
    requires Discounting(pairs, items, done, p, ChildrenOf(pairs, p), numParents) && p !in done
    requires ChildTable(pairs, done, children)
    ensures Tables(pairs, items, done + {p}, numParents, children - {p})
  {
    forall c | c in numParents ensures numParents[c] == Pending(pairs, done + {p}, c) {
      PendingDropsParent(pairs, done, p, c);
    }
  }

  /** Every parent of the item at position j stands at an earlier position. */
  ghost predicate Preceded(pairs: Pairs, answer: seq<Item>, j: nat)
    requires j < |answer|
  {
    forall e :: e in pairs && e.1 == answer[j] ==> e.0 in answer[..j]
  }

  ghost predicate InOrder(pairs: Pairs, answer: seq<Item>) {
    forall j: nat {:trigger Preceded(pairs, answer, j)} :: j < |answer| ==> Preceded(pairs, answer, j)
  }

  /** `answer` so far: whatever is deleted or has count zero, in an order that respects the pairs. */
  ghost predicate Listed(pairs: Pairs, answer: seq<Item>, done: set<Item>, numParents: Counts) {
    && InOrder(pairs, answer)
    && NoDup(answer)
    && ToSet(answer) <= Nodes(pairs)
    && ToSet(answer) == done + (set x | x in numParents && numParents[x] == 0)
  }

  lemma ListedStep(pairs: Pairs, answer: seq<Item>, done: set<Item>, before: Counts, c: Item)
    requires Listed(pairs, answer, done, before)
    requires c in before && before[c] > 0 && c !in done && c in Nodes(pairs)
    requires before[c] == 1 ==> Pending(pairs, done, c) == 0
    ensures if before[c] == 1
            then Listed(pairs, answer + [c], done, before[c := 0])
            else Listed(pairs, answer, done, before[c := before[c] - 1])
  {
    if before[c] == 1 {
      PendingZero(pairs, done, c);
      var next := answer + [c];
      assert c !in ToSet(answer);
      assert ToSet(next) == ToSet(answer) + {c};
      forall j: nat | j < |next| ensures Preceded(pairs, next, j) {
        if j < |answer| {
          assert Preceded(pairs, answer, j);
          assert next[..j] == answer[..j];
        } else {
          assert done <= ToSet(answer);
          assert next[..j] == answer;
        }
      }
    }
  }

  /** Everything listed up to position i has had all its parents deleted. */
  lemma ListedPending(pairs: Pairs, answer: seq<Item>, i: nat, k: nat)
    requires InOrder(pairs, answer) && k <= i < |answer|
    ensures Pending(pairs, ToSet(answer[..i]), answer[k]) == 0
  {
    assert Preceded(pairs, answer, k);
    assert answer[..k] <= answer[..i];
    assert forall x :: x in answer[..k] ==> x in ToSet(answer[..i]);
    PendingZero(pairs, ToSet(answer[..i]), answer[k]);
  }

  ghost function Positions(s: seq<Item>): map<Item, nat>
    requires NoDup(s)
  {
    map x | x in s :: var k: nat :| k < |s| && s[k] == x; k
  }

  lemma InOrderIsLayered(pairs: Pairs, answer: seq<Item>)
    requires InOrder(pairs, answer) && NoDup(answer)
    ensures Layered(pairs, Positions(answer))
  {
    var rank := Positions(answer);
    forall e | e in pairs && e.1 in rank ensures e.0 in rank && rank[e.0] < rank[e.1] {
      assert Preceded(pairs, answer, rank[e.1]);
    }
  }

  lemma SortOutcome(pairs: Pairs, answer: seq<Item>, numParents: Counts)
    requires CountTable(pairs, Nodes(pairs), ToSet(answer), numParents)
    requires Listed(pairs, answer, ToSet(answer), numParents)
    ensures numParents.Keys == {} <==> Acyclic(pairs)
    ensures numParents.Keys == (set x | x in Nodes(pairs) && FromCycle(pairs, x))
    ensures ToSet(answer) == Nodes(pairs) - numParents.Keys
  {
    var rank := Positions(answer);
    InOrderIsLayered(pairs, answer);
    assert rank.Keys == ToSet(answer);
    forall y | y in Nodes(pairs) - rank.Keys ensures exists e :: e in pairs && e.1 == y && e.0 !in rank {
      PendingZero(pairs, ToSet(answer), y);
      assert y !in ToSet(answer) && y in numParents;
      assert numParents[y] > 0;
    }
    Residual(pairs, rank);
    assert numParents.Keys == Nodes(pairs) - rank.Keys;
  }

  /** Everything whose count is zero. */
  method Roots(numParents: Counts) returns (roots: seq<Item>)
    ensures NoDup(roots) && forall x :: x in roots <==> x in numParents && numParents[x] == 0
  {
    var keys := KeyList(numParents);
    roots := [];
    for k := 0 to |keys|
      invariant NoDup(roots) && forall x :: x in roots <==> x in keys[..k] && numParents[x] == 0
    {
      if numParents[keys[k]] == 0 {
        roots := roots + [keys[k]];
      }
    }
    assert keys[..|keys|] == keys;
  }

  method Sort(pairs: Pairs) returns (r: Result)
    ensures r.Sorted? <==> Acyclic(pairs)
    ensures r.Sorted? ==> NoDup(r.answer) && ToSet(r.answer) == Nodes(pairs) && InOrder(pairs, r.answer)
    ensures r.CycleError? ==>
              && r.numParents.Keys == (set x | x in Nodes(pairs) && FromCycle(pairs, x))
              && NoDup(r.partial) && ToSet(r.partial) == Nodes(pairs) - r.numParents.Keys
              && Tables(pairs, Nodes(pairs), ToSet(r.partial), r.numParents, r.children) && NoEmptyList(r.children)
  {
    var numParents, children := BuildTables(pairs);
    var answer := Roots(numParents);
    RootsListed(pairs, answer, numParents);
    var i := 0;
    assert ToSet(answer[..0]) == {};
    while i < |answer|
      invariant 0 <= i <= |answer|
      invariant Tables(pairs, Nodes(pairs), ToSet(answer[..i]), numParents, children) && NoEmptyList(children)
      invariant Listed(pairs, answer, ToSet(answer[..i]), numParents)
      decreases |Nodes(pairs)| - i
    {
      NoDupFits(answer, Nodes(pairs));
      answer, numParents, children := KnockDown(pairs, answer, i, numParents, children);
      i := i + 1;
    }
    assert answer[..i] == answer;
    SortOutcome(pairs, answer, numParents);
    if numParents.Keys != {} {
      return CycleError(answer, numParents, children);
    }
    r := Sorted(answer);
  }

  lemma RootsListed(pairs: Pairs, answer: seq<Item>, numParents: Counts)
    requires NoDup(answer) && CountTable(pairs, Nodes(pairs), {}, numParents)
    requires forall x :: x in answer <==> x in numParents && numParents[x] == 0
    ensures Listed(pairs, answer, {}, numParents)
  {
    forall j: nat | j < |answer| ensures Preceded(pairs, answer, j) {
      PendingZero(pairs, {}, answer[j]);
    }
  }

  /** Deleting the next listed item leaves everything ready for its children to be discounted. */
  lemma KnockStart(pairs: Pairs, answer: seq<Item>, i: nat, numParents: Counts)
    requires i < |answer|
    requires CountTable(pairs, Nodes(pairs), ToSet(answer[..i]), numParents)
    requires Listed(pairs, answer, ToSet(answer[..i]), numParents)
    ensures answer[i] !in answer[..i] && answer[i] in numParents
    ensures Discounting(pairs, Nodes(pairs), ToSet(answer[..i]), answer[i], [], numParents - {answer[i]})
    ensures Listed(pairs, answer, ToSet(answer[..i]) + {answer[i]}, numParents - {answer[i]})
    ensures forall x :: x in ToSet(answer[..i]) || x == answer[i] ==> Pending(pairs, ToSet(answer[..i]), x) == 0
  {
    forall x | x in ToSet(answer[..i]) || x == answer[i] ensures Pending(pairs, ToSet(answer[..i]), x) == 0 {
      var k: nat :| k <= i && answer[k] == x;
      ListedPending(pairs, answer, i, k);
    }
  }

  /** The body of the loop over the growing answer: delete one parent, discount its children. */
  method KnockDown(pairs: Pairs, answer0: seq<Item>, i: nat, numParents0: Counts, children0: Children)
    returns (answer: seq<Item>, numParents: Counts, children: Children)
    requires i < |answer0|
    requires Tables(pairs, Nodes(pairs), ToSet(answer0[..i]), numParents0, children0) && NoEmptyList(children0)
    requires Listed(pairs, answer0, ToSet(answer0[..i]), numParents0)
    ensures answer0 <= answer
    ensures Tables(pairs, Nodes(pairs), ToSet(answer[..i + 1]), numParents, children) && NoEmptyList(children)
    ensures Listed(pairs, answer, ToSet(answer[..i + 1]), numParents)
  {
    var parent := answer0[i];
    ghost var done, kids := ToSet(answer0[..i]), ChildrenOf(pairs, parent);
    KnockStart(pairs, answer0, i, numParents0);
    answer, numParents, children := answer0, numParents0 - {parent}, children0;
    if parent in children {
      for j := 0 to |children[parent]|
        invariant children == children0 && answer0 <= answer
        invariant Discounting(pairs, Nodes(pairs), done, parent, kids[..j], numParents)
        invariant Listed(pairs, answer, done + {parent}, numParents)
      {
        var child := children[parent][j];
        DiscountStep(pairs, Nodes(pairs), done, parent, kids, j, numParents);
        ListedStep(pairs, answer, done + {parent}, numParents, child);
        numParents := numParents[child := numParents[child] - 1];
        if numParents[child] == 0 {
          answer := answer + [child];
        }
      }
      children := children - {parent};
    }
    assert kids[..|kids|] == kids;
    DiscountEnd(pairs, Nodes(pairs), done, parent, numParents, children0);
    PrefixSet(answer0, answer, i);
  }

  // ----- level by level

  /** A path with k edges ends in x. */
  ghost predicate PathInto(pairs: Pairs, items: set<Item>, x: Item, k: nat) {
    exists p: seq<Item> :: IsPath(pairs, p) && |p| == k + 1 && p[k] == x && x in items
  }

  /** The longest path ending in x has exactly k edges. */
  ghost predicate LongestIs(pairs: Pairs, items: set<Item>, x: Item, k: nat) {
    PathInto(pairs, items, x, k) && forall m: nat :: m > k ==> !PathInto(pairs, items, x, m)
  }

  lemma PathIntoParent(pairs: Pairs, items: set<Item>, x: Item, k: nat)
    requires Nodes(pairs) <= items
    ensures PathInto(pairs, items, x, k + 1) <==> exists e :: e in pairs && e.1 == x && PathInto(pairs, items, e.0, k)
  {
    if PathInto(pairs, items, x, k + 1) {
      var p: seq<Item> :| IsPath(pairs, p) && |p| == k + 2 && p[k + 1] == x;
      assert Hop(pairs, p, k);
      SubPath(pairs, p, 0, k + 1);
      assert (p[k], x) in pairs && p[0..k + 1][k] == p[k];
      assert PathInto(pairs, items, p[k], k);
    }
    if e :| e in pairs && e.1 == x && PathInto(pairs, items, e.0, k) {
      var p: seq<Item> :| IsPath(pairs, p) && |p| == k + 1 && p[k] == e.0;
      assert e == (p[k], x);
      ExtendPath(pairs, p, x);
      assert (p + [x])[k + 1] == x;
    }
  }

  lemma {:induction false} PathIntoShorter(pairs: Pairs, items: set<Item>, x: Item, k: nat, m: nat)
    requires PathInto(pairs, items, x, m) && k <= m
    ensures PathInto(pairs, items, x, k)
  {
    var p: seq<Item> :| IsPath(pairs, p) && |p| == m + 1 && p[m] == x;
    SubPath(pairs, p, m - k, m + 1);
    assert p[m - k..m + 1][k] == x;
  }

  lemma PathIntoZero(pairs: Pairs, items: set<Item>, x: Item)
    requires x in items
    ensures PathInto(pairs, items, x, 0)
  {
    assert IsPath(pairs, [x]) && [x][0] == x;
  }

  lemma {:induction false} LongestExists(pairs: Pairs, items: set<Item>, x: Item, bound: nat) returns (k: nat)
    requires x in items && !PathInto(pairs, items, x, bound)
    ensures k < bound && LongestIs(pairs, items, x, k)
  {
    PathIntoZero(pairs, items, x);
    if bound == 0 {
      assert false;
    } else if PathInto(pairs, items, x, bound - 1) {
      k := bound - 1;
      forall m: nat | m > k ensures !PathInto(pairs, items, x, m) {
        if PathInto(pairs, items, x, m) {
          PathIntoShorter(pairs, items, x, bound, m);
        }
      }
    } else {
      k := LongestExists(pairs, items, x, bound - 1);
    }
  }

  /** `done` holds exactly the items of the first k levels. */
  ghost predicate LevelsDone(pairs: Pairs, items: set<Item>, done: set<Item>, k: nat) {
    forall x {:trigger PathInto(pairs, items, x, k)} :: x in done <==> x in items && !PathInto(pairs, items, x, k)
  }

  ghost predicate LevelIs(pairs: Pairs, items: set<Item>, level: seq<Item>, k: nat) {
    NoDup(level) && forall x :: x in level <==> LongestIs(pairs, items, x, k)
  }

  ghost predicate AreLevels(pairs: Pairs, items: set<Item>, levels: seq<seq<Item>>) {
    forall k: nat {:trigger LevelIs(pairs, items, levels[k], k)} :: k < |levels| ==> LevelIs(pairs, items, levels[k], k)
  }

  ghost predicate NoneEmpty(levels: seq<seq<Item>>) {
    forall k :: 0 <= k < |levels| ==> levels[k] != []
  }

  ghost predicate InSomeLevel(levels: seq<seq<Item>>, x: Item) {
    exists k :: 0 <= k < |levels| && x in levels[k]
  }

  lemma NoneDoneYet(pairs: Pairs, items: set<Item>)
    ensures LevelsDone(pairs, items, {}, 0)
  {
    forall x | x in items ensures PathInto(pairs, items, x, 0) {
      PathIntoZero(pairs, items, x);
    }
  }

  lemma PushLevel(pairs: Pairs, items: set<Item>, levels: seq<seq<Item>>, level: seq<Item>)
    requires AreLevels(pairs, items, levels) && LevelIs(pairs, items, level, |levels|)
    ensures AreLevels(pairs, items, levels + [level])
  {
    var next := levels + [level];
    forall k: nat | k < |next| ensures LevelIs(pairs, items, next[k], k) {
      if k < |levels| {
        assert LevelIs(pairs, items, levels[k], k);
      }
    }
  }

  lemma NextLevel(pairs: Pairs, items: set<Item>, done: set<Item>, k: nat, level: seq<Item>, numParents: Counts)
    requires CountTable(pairs, items, done, numParents) && LevelsDone(pairs, items, done, k)
    requires NoDup(level) && forall x :: x in level <==> x in numParents && numParents[x] == 0
    ensures LevelIs(pairs, items, level, k)
    ensures LevelsDone(pairs, items, done + ToSet(level), k + 1)
  {
    forall x | x in items ensures x in done + ToSet(level) <==> !PathInto(pairs, items, x, k + 1) {
      PathIntoParent(pairs, items, x, k);
      PendingZero(pairs, done, x);
      if PathInto(pairs, items, x, k + 1) {
        PathIntoShorter(pairs, items, x, k, k + 1);
        var e :| e in pairs && e.1 == x && PathInto(pairs, items, e.0, k);
        assert e.0 !in done;
      } else {
        forall e | e in pairs && e.1 == x ensures e.0 in done {
          assert e.0 in Nodes(pairs) && !PathInto(pairs, items, e.0, k);
        }
      }
    }
    forall x | x in done ensures x in items {
      assert !PathInto(pairs, items, x, k) || PathInto(pairs, items, x, k);
    }
    forall x ensures x in level <==> LongestIs(pairs, items, x, k) {
      if PathInto(pairs, items, x, k) && !PathInto(pairs, items, x, k + 1) {
        forall m: nat | m > k ensures !PathInto(pairs, items, x, m) {
          if PathInto(pairs, items, x, m) {
            PathIntoShorter(pairs, items, x, k + 1, m);
          }
        }
      }
      assert x in done <==> x in items && !PathInto(pairs, items, x, k);
      assert x in level ==> x !in done;
    }
  }

  /** Once no count is zero, what is left is what a cycle reaches. */
  lemma LevelsOutcome(pairs: Pairs, items: set<Item>, done: set<Item>, levels: seq<seq<Item>>, numParents: Counts)
    requires CountTable(pairs, items, done, numParents)
    requires LevelsDone(pairs, items, done, |levels|) && AreLevels(pairs, items, levels)
    requires forall x :: x in numParents ==> numParents[x] > 0
    ensures numParents.Keys == {} <==> Acyclic(pairs)
    ensures numParents.Keys == (set x | x in items && FromCycle(pairs, x))
    ensures forall x :: x in items && !FromCycle(pairs, x) ==> InSomeLevel(levels, x)
    ensures done == items - numParents.Keys
  {
    var k := |levels|;
    forall x | x in done ensures (exists m: nat :: LongestIs(pairs, items, x, m)) && InSomeLevel(levels, x) {
      assert !PathInto(pairs, items, x, k);
      var m := LongestExists(pairs, items, x, k);
      assert LevelIs(pairs, items, levels[m], m);
    }
    var rank := map x | x in done :: var m: nat :| LongestIs(pairs, items, x, m); m;
    forall e | e in pairs && e.1 in rank ensures e.0 in rank && rank[e.0] < rank[e.1] {
      assert e.0 in Nodes(pairs) && !PathInto(pairs, items, e.1, k);
      if PathInto(pairs, items, e.0, k) {
        PathIntoParent(pairs, items, e.1, k);
        PathIntoShorter(pairs, items, e.1, k, k + 1);
      }
      assert e.0 in done;
      PathIntoParent(pairs, items, e.1, rank[e.0]);
    }
    forall y | y in items - done ensures y in Nodes(pairs) && exists e :: e in pairs && e.1 == y && e.0 !in rank {
      PendingZero(pairs, done, y);
      assert y in numParents;
    }
    Residual(pairs, rank);
    LeftOver(pairs, items, done, numParents);
  }

  /** The items that are left are those that a cycle leads to. */
  lemma LeftOver(pairs: Pairs, items: set<Item>, done: set<Item>, numParents: Counts)
    requires Nodes(pairs) <= items && items - done <= Nodes(pairs) && done <= items && numParents.Keys == items - done
    requires forall x :: x in Nodes(pairs) ==> (x !in done <==> FromCycle(pairs, x))
    requires Nodes(pairs) <= done <==> Acyclic(pairs)
    ensures numParents.Keys == {} <==> Acyclic(pairs)
    ensures numParents.Keys == (set x | x in items && FromCycle(pairs, x))
    ensures forall x :: x in items && !FromCycle(pairs, x) ==> x in done
  {
    forall x | x in items && FromCycle(pairs, x) ensures x in Nodes(pairs) {
      FromCycleIsNode(pairs, x);
    }
    if !(Nodes(pairs) <= done) {
      var x :| x in Nodes(pairs) && x !in done;
      assert x in numParents.Keys;
    }
  }

  function Yielded(r: LevelResult): seq<seq<Item>> {
    match r
    case Levels(levels) => levels
    case LevelCycleError(yielded, _, _) => yielded
  }

  ghost predicate AllPending(pairs: Pairs, done: set<Item>, xs: set<Item>) {
    forall x :: x in xs ==> Pending(pairs, done, x) == 0
  }

  lemma PendingMonotone(pairs: Pairs, done: set<Item>, more: set<Item>, xs: set<Item>)
    requires AllPending(pairs, done, xs) && done <= more
    ensures AllPending(pairs, more, xs)
  {
    forall x | x in xs ensures Pending(pairs, more, x) == 0 {
      PendingZero(pairs, done, x);
      PendingZero(pairs, more, x);
    }
  }

  lemma ZeroIsPending(pairs: Pairs, items: set<Item>, done: set<Item>, level: seq<Item>, numParents: Counts)
    requires CountTable(pairs, items, done, numParents) && AllPending(pairs, done, done)
    requires forall x :: x in level ==> x in numParents && numParents[x] == 0
    ensures ToSet(level) <= numParents.Keys
    ensures AllPending(pairs, done, done + ToSet(level))
  {
  }

  // ----- the pairs behind a dictionary of child lists

  ghost function EdgesFrom(p: Item, kids: seq<Item>): Pairs {
    seq(|kids|, j requires 0 <= j < |kids| => (p, kids[j]))
  }

  lemma {:induction false} ChildrenOfMore(pairs: Pairs, p: Item, kids: seq<Item>, q: Item)
    ensures ChildrenOf(pairs + EdgesFrom(p, kids), q) == ChildrenOf(pairs, q) + (if q == p then kids else [])
  {
    if kids == [] {
      assert pairs + EdgesFrom(p, kids) == pairs;
    } else {
      var n := |kids| - 1;
      var all := pairs + EdgesFrom(p, kids);
      assert all[..|all| - 1] == pairs + EdgesFrom(p, kids[..n]);
      ChildrenOfMore(pairs, p, kids[..n], q);
      assert kids == kids[..n] + [kids[n]];
    }
  }

  lemma MorePairs(pairs: Pairs, children: Children, p: Item)
    requires p in children && ChildTable(pairs, {}, children - {p})
    ensures ChildTable(pairs + EdgesFrom(p, children[p]), {}, children)
  {
    var all := pairs + EdgesFrom(p, children[p]);
    forall q {:trigger ChildrenOf(all, q)}
      ensures ChildrenOf(all, q) == if q in children then children[q] else []
    {
      ChildrenOfMore(pairs, p, children[p], q);
      if q == p {
        assert p !in children - {p} && ChildrenOf(pairs, p) == [];
      } else if q in children {
        assert q in children - {p};
      }
    }
  }

  /** Every dictionary of child lists, empty lists included, is the child table of some pairs. */
  lemma {:induction false} PairsOf(children: Children) returns (pairs: Pairs)
    ensures ChildTable(pairs, {}, children)
    decreases children.Keys
  {
    if children == map[] {
      pairs := [];
    } else {
      var p :| p in children;
      var others := PairsOf(children - {p});
      MorePairs(others, children, p);
      pairs := others + EdgesFrom(p, children[p]);
    }
  }

  /** One item of a level: delete it and discount its children. */
  method Retire(ghost pairs: Pairs, ghost items: set<Item>, p: Item, ghost done: set<Item>, numParents0: Counts,
                children0: Children)
    returns (numParents: Counts, children: Children)
    requires Tables(pairs, items, done, numParents0, children0) && p in numParents0
    requires AllPending(pairs, done, done + {p})
    ensures Tables(pairs, items, done + {p}, numParents, children)
  {
    ghost var kids := ChildrenOf(pairs, p);
    numParents, children := numParents0 - {p}, children0;
    if p in children {
      for j := 0 to |children[p]|
        invariant Discounting(pairs, items, done, p, kids[..j], numParents)
      {
        DiscountStep(pairs, items, done, p, kids, j, numParents);
        numParents := numParents[children[p][j] := numParents[children[p][j]] - 1];
      }
      children := children - {p};
    }
    assert kids[..|kids|] == kids;
    DiscountEnd(pairs, items, done, p, numParents, children0);
  }

  method RetireLevel(ghost pairs: Pairs, ghost items: set<Item>, level: seq<Item>, ghost done: set<Item>,
                     numParents0: Counts, children0: Children)
    returns (numParents: Counts, children: Children)
    requires Tables(pairs, items, done, numParents0, children0)
    requires NoDup(level) && ToSet(level) <= numParents0.Keys
    requires AllPending(pairs, done, done + ToSet(level))
    ensures Tables(pairs, items, done + ToSet(level), numParents, children)
  {
    numParents, children := numParents0, children0;
    assert done + ToSet(level[..0]) == done;
    for a := 0 to |level|
      invariant Tables(pairs, items, done + ToSet(level[..a]), numParents, children)
    {
      ghost var now := done + ToSet(level[..a]);
      PendingMonotone(pairs, done, now, done + ToSet(level));
      assert level[a] in ToSet(level) && level[a] !in level[..a];
      numParents, children := Retire(pairs, items, level[a], now, numParents, children);
      assert level[..a + 1] == level[..a] + [level[a]];
      assert now + {level[a]} == done + ToSet(level[..a + 1]);
    }
    assert level[..|level|] == level;
  }

  /**
   * The loop over the caller's two tables, which may name items that no pair mentions and give
   * an item without children an empty list.
   */
  method LevelsCore(ghost pairs: Pairs, ghost items: set<Item>, numParents0: Counts, children0: Children)
    returns (r: LevelResult)
    requires Tables(pairs, items, {}, numParents0, children0)
    ensures AreLevels(pairs, items, Yielded(r)) && NoneEmpty(Yielded(r))
    ensures forall x :: x in items && !FromCycle(pairs, x) ==> InSomeLevel(Yielded(r), x)
    ensures r.Levels? <==> Acyclic(pairs)
    ensures r.LevelCycleError? ==>
              && r.leftParents.Keys == (set x | x in items && FromCycle(pairs, x))
              && Tables(pairs, items, items - r.leftParents.Keys, r.leftParents, r.leftChildren)
  {
    var numParents, children, levels := numParents0, children0, [];
    ghost var done: set<Item> := {};
    NoneDoneYet(pairs, items);
    var level := Roots(numParents);
    while level != []
      invariant Tables(pairs, items, done, numParents, children)
      invariant LevelsDone(pairs, items, done, |levels|) && AreLevels(pairs, items, levels) && NoneEmpty(levels)
      invariant AllPending(pairs, done, done)
      invariant NoDup(level) && forall x :: x in level <==> x in numParents && numParents[x] == 0
      decreases numParents.Keys
    {
      NextLevel(pairs, items, done, |levels|, level, numParents);
      PushLevel(pairs, items, levels, level);
      ZeroIsPending(pairs, items, done, level, numParents);
      levels := levels + [level];
      numParents, children := RetireLevel(pairs, items, level, done, numParents, children);
      assert level[0] in ToSet(level);
      done := done + ToSet(level);
      PendingMonotone(pairs, done - ToSet(level), done, done);
      level := Roots(numParents);
    }
    LevelsOutcome(pairs, items, done, levels, numParents);
    if numParents.Keys != {} {
      return LevelCycleError(levels, numParents, children);
    }
    r := Levels(levels);
  }

  method SortLevels(pairs: Pairs) returns (r: LevelResult)
    ensures AreLevels(pairs, Nodes(pairs), Yielded(r)) && NoneEmpty(Yielded(r))
    ensures forall x :: x in Nodes(pairs) && !FromCycle(pairs, x) ==> InSomeLevel(Yielded(r), x)
    ensures r.Levels? <==> Acyclic(pairs)
    ensures r.LevelCycleError? ==>
              && r.leftParents.Keys == (set x | x in Nodes(pairs) && FromCycle(pairs, x))
              && Tables(pairs, Nodes(pairs), Nodes(pairs) - r.leftParents.Keys, r.leftParents, r.leftChildren)
  {
    var numParents, children := BuildTables(pairs);
    r := LevelsCore(pairs, Nodes(pairs), numParents, children);
  }

  function Flatten(levels: seq<seq<Item>>): seq<Item> {
    if levels == [] then [] else Flatten(levels[..|levels| - 1]) + levels[|levels| - 1]
  }

  lemma LevelsDisjoint(pairs: Pairs, items: set<Item>, a: seq<Item>, k: nat, b: seq<Item>, n: nat)
    requires LevelIs(pairs, items, a, k) && LevelIs(pairs, items, b, n) && k < n
    ensures forall x :: x in b ==> x !in a
  {
  }

  lemma {:induction false} FlattenItems(pairs: Pairs, items: set<Item>, levels: seq<seq<Item>>)
    requires AreLevels(pairs, items, levels)
    ensures NoDup(Flatten(levels))
    ensures forall x :: x in Flatten(levels) <==> InSomeLevel(levels, x)
  {
    if levels != [] {
      var n := |levels| - 1;
      var front := levels[..n];
      forall k: nat | k < n ensures LevelIs(pairs, items, front[k], k) {
        assert LevelIs(pairs, items, levels[k], k);
      }
      FlattenItems(pairs, items, front);
      assert LevelIs(pairs, items, levels[n], n);
      forall x | x in levels[n] ensures !InSomeLevel(front, x) {
        forall k: nat | k < n ensures x !in front[k] {
          assert LevelIs(pairs, items, levels[k], k);
          LevelsDisjoint(pairs, items, levels[k], k, levels[n], n);
        }
      }
      NoDupConcat(Flatten(front), levels[n]);
      forall x ensures x in Flatten(levels) <==> InSomeLevel(levels, x) {
        if InSomeLevel(levels, x) {
          var k :| 0 <= k < |levels| && x in levels[k];
          assert k < n ==> front[k] == levels[k];
        }
        if InSomeLevel(front, x) {
          var k :| 0 <= k < |front| && x in front[k];
          assert levels[k] == front[k];
        }
      }
    }
  }

  lemma {:induction false} SameItemsSameMultiset(a: seq<Item>, b: seq<Item>)
    requires NoDup(a) && NoDup(b) && ToSet(a) == ToSet(b)
    ensures multiset(a) == multiset(b)
  {
    OncePerItem(a);
    OncePerItem(b);
  }

  lemma {:induction false} OncePerItem(a: seq<Item>)
    requires NoDup(a)
    ensures multiset(a) == multiset(ToSet(a))
  {
    if a != [] {
      var n := |a| - 1;
      OncePerItem(a[..n]);
      assert a == a[..n] + [a[n]];
      assert ToSet(a) == ToSet(a[..n]) + {a[n]};
    }
  }

  /** Both programs fail on the same inputs; otherwise they list the same items, each once. */
  lemma SortAndLevelsAgree(pairs: Pairs, answer: seq<Item>, levels: seq<seq<Item>>)
    requires Acyclic(pairs)
    requires NoDup(answer) && ToSet(answer) == Nodes(pairs)
    requires AreLevels(pairs, Nodes(pairs), levels)
    requires forall x :: x in Nodes(pairs) && !FromCycle(pairs, x) ==> InSomeLevel(levels, x)
    ensures multiset(Flatten(levels)) == multiset(answer)
  {
    FlattenItems(pairs, Nodes(pairs), levels);
    forall x ensures x in ToSet(Flatten(levels)) <==> x in ToSet(answer) {
      if InSomeLevel(levels, x) {
        var k :| 0 <= k < |levels| && x in levels[k];
        assert LevelIs(pairs, Nodes(pairs), levels[k], k);
      }
    }
    assert ToSet(Flatten(levels)) == ToSet(answer);
    SameItemsSameMultiset(Flatten(levels), answer);
  }
}
