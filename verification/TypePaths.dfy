/** Configuration paths through the graph of registered types. */
module TypePaths {
  import opened Collections

  datatype Attribute =
    | PointerTo(name: string, pointee: nat)
    | ContainerOf(name: string, item: nat)
    | Plain(name: string)

  /** A registered type: its name, its parent (itself for a root) and its attributes. */
  datatype TypeInfo = TypeInfo(name: string, parent: nat, attributes: seq<Attribute>)

  /** All registered types, the one of class Object, and the aggregation pairs. */
  datatype Registry = Registry(types: seq<TypeInfo>, objectType: nat, aggregates: seq<(nat, nat)>)

  /** How a type is reached from another: by one of its attributes, by inheritance, by an aggregation pair. */
  datatype Via = ByAttribute(index: nat) | ByChild | ByPair(index: nat)

  datatype Edge = Edge(via: Via, name: string, target: nat)

  type Entry = (nat, string)

  predicate AttributeOk(r: Registry, a: Attribute) {
    (a.PointerTo? ==> a.pointee < |r.types|) && (a.ContainerOf? ==> a.item < |r.types|)
  }

  /** Every id names a registered type. */
  predicate Closed(r: Registry) {
    && (forall t :: 0 <= t < |r.types| ==> r.types[t].parent < |r.types|)
    && (forall t, i :: 0 <= t < |r.types| && 0 <= i < |r.types[t].attributes| ==>
         AttributeOk(r, r.types[t].attributes[i]))
    && (forall i :: 0 <= i < |r.aggregates| ==> r.aggregates[i].0 < |r.types| && r.aggregates[i].1 < |r.types|)
  }

  /** Going to the parent lowers the rank, except at a root. */
  predicate Ranked(r: Registry, rank: seq<nat>) {
    && |rank| == |r.types| && (forall t :: 0 <= t < |r.types| ==> r.types[t].parent < |r.types|)
    && forall t :: 0 <= t < |r.types| ==> r.types[t].parent == t || rank[r.types[t].parent] < rank[t]
  }

  ghost predicate WellFormed(r: Registry) {
    Closed(r) && exists rank :: Ranked(r, rank)
  }

  // ----- inheritance

  function Ancestor(r: Registry, t: nat, k: nat): (a: nat)
    requires Closed(r) && t < |r.types|
    ensures a < |r.types|
  {
    if k == 0 then t else r.types[Ancestor(r, t, k - 1)].parent
  }

  ghost predicate ChildOf(r: Registry, t: nat, other: nat)
    requires Closed(r) && t < |r.types|
  {
    t != other && exists k :: Ancestor(r, t, k) == other
  }

  lemma {:induction false} RootStays(r: Registry, t: nat, k: nat, m: nat)
    requires Closed(r) && t < |r.types| && k <= m
    requires r.types[Ancestor(r, t, k)].parent == Ancestor(r, t, k)
    ensures Ancestor(r, t, m) == Ancestor(r, t, k)
  {
    if k < m {
      RootStays(r, t, k, m - 1);
    }
  }

  method IsChildOf(r: Registry, t: nat, other: nat) returns (child: bool)
    requires WellFormed(r) && t < |r.types|
    ensures child <==> ChildOf(r, t, other)
  {
    ghost var rank :| Ranked(r, rank);
    var tmp := t;
    ghost var k := 0;
    while tmp != other && tmp != r.types[tmp].parent
      invariant tmp < |r.types| && tmp == Ancestor(r, t, k)
      invariant forall i :: 0 <= i < k ==> Ancestor(r, t, i) != other
      decreases rank[tmp]
    {
      tmp := r.types[tmp].parent;
      k := k + 1;
    }
    if tmp != other {
      forall m: nat ensures Ancestor(r, t, m) != other {
        if k < m {
          RootStays(r, t, k, m);
        }
      }
    }
    child := tmp == other && t != other;
  }

  // ----- the graph

  /** A pointer leads to its pointee under its own name, except to Object; a container to its items. */
  ghost predicate OfAttribute(r: Registry, attributes: seq<Attribute>, e: Edge) {
    && e.via.ByAttribute? && e.via.index < |attributes|
    && (|| (attributes[e.via.index] == PointerTo(e.name, e.target) && e.target != r.objectType)
        || exists name :: attributes[e.via.index] == ContainerOf(name, e.target) && e.name == name + "/[i]")
  }

  /** A type leads to each of its proper descendants. */
  ghost predicate OfChild(r: Registry, t: nat, e: Edge)
    requires Closed(r)
  {
    e.via.ByChild? && e.target < |r.types| && ChildOf(r, e.target, t) && e.name == "$" + r.types[e.target].name
  }

  /** Each of the first k aggregation pairs leads from one side to the other. */
  ghost predicate OfPair(r: Registry, t: nat, k: nat, e: Edge)
    requires Closed(r) && k <= |r.aggregates|
  {
    && e.via.ByPair? && e.via.index < k && e.target < |r.types|
    && (r.aggregates[e.via.index] == (e.target, t) || r.aggregates[e.via.index] == (t, e.target))
    && e.name == "$" + r.types[e.target].name
  }

  /** The edges that leave t, apart from how and in which order the search finds them. */
  ghost predicate Leads(r: Registry, t: nat, e: Edge)
    requires Closed(r) && t < |r.types|
  {
    OfAttribute(r, r.types[t].attributes, e) || OfChild(r, t, e) || OfPair(r, t, |r.aggregates|, e)
  }

  lemma LeadsInside(r: Registry, t: nat, e: Edge)
    requires Closed(r) && t < |r.types| && Leads(r, t, e)
    ensures e.target < |r.types|
  {
    if e.via.ByAttribute? {
      assert AttributeOk(r, r.types[t].attributes[e.via.index]);
    }
  }

  /** Attributes come first, then the descendants, then the pairs, each in the order of registration. */
  predicate Before(e: Edge, f: Edge) {
    match (e.via, f.via)
    case (ByAttribute(i), ByAttribute(k)) => i < k
    case (ByAttribute(_), _) => true
    case (ByChild, ByChild) => e.target < f.target
    case (ByChild, ByPair(_)) => true
    case (ByPair(i), ByPair(k)) => i < k
    case (_, _) => false
  }

  // What DoGather follows from a type, in order.

  function AttributeEdges(r: Registry, attributes: seq<Attribute>): seq<Edge> {
    if attributes == [] then []
    else
      var n := |attributes| - 1;
      AttributeEdges(r, attributes[..n]) +
      match attributes[n]
      case PointerTo(name, pointee) => if pointee == r.objectType then [] else [Edge(ByAttribute(n), name, pointee)]
      case ContainerOf(name, item) => [Edge(ByAttribute(n), name + "/[i]", item)]
      case Plain(_) => []
  }

  function ChildEdge(r: Registry, j: nat): Edge
    requires j < |r.types|
  {
    Edge(ByChild, "$" + r.types[j].name, j)
  }

  function PairEdge(r: Registry, k: nat, other: nat): Edge
    requires other < |r.types|
  {
    Edge(ByPair(k), "$" + r.types[other].name, other)
  }

  /** The edges to the descendants of t among the first j registered types. */
  ghost function ChildEdges(r: Registry, t: nat, j: nat): seq<Edge>
    requires Closed(r) && j <= |r.types|
  {
    if j == 0 then []
    else ChildEdges(r, t, j - 1) + (if ChildOf(r, j - 1, t) then [ChildEdge(r, j - 1)] else [])
  }

  /** The edge of pair k, if t is one of its sides; when both sides are t the first side is followed. */
  function PairEdges(r: Registry, t: nat, k: nat): seq<Edge>
    requires Closed(r) && k < |r.aggregates|
  {
    var (a, b) := r.aggregates[k];
    if b == t then [PairEdge(r, k, a)] else if a == t then [PairEdge(r, k, b)] else []
  }

  /** The edges of the first k aggregation pairs. */
  function AggregateEdges(r: Registry, t: nat, k: nat): seq<Edge>
    requires Closed(r) && k <= |r.aggregates|
  {
    if k == 0 then [] else AggregateEdges(r, t, k - 1) + PairEdges(r, t, k - 1)
  }

  lemma NextChild(r: Registry, start: seq<Edge>, t: nat, j: nat)
    requires Closed(r) && j < |r.types|
    ensures start + ChildEdges(r, t, j + 1)
            == if ChildOf(r, j, t) then start + ChildEdges(r, t, j) + [ChildEdge(r, j)]
               else start + ChildEdges(r, t, j)
  {
  }

  lemma NextAggregate(r: Registry, start: seq<Edge>, t: nat, k: nat)
    requires Closed(r) && k < |r.aggregates|
    ensures start + AggregateEdges(r, t, k + 1) == start + AggregateEdges(r, t, k) + PairEdges(r, t, k)
  {
  }

  ghost function Edges(r: Registry, t: nat): seq<Edge>
    requires Closed(r) && t < |r.types|
  {
    AttributeEdges(r, r.types[t].attributes) + ChildEdges(r, t, |r.types|) + AggregateEdges(r, t, |r.aggregates|)
  }

  predicate Ordered(es: seq<Edge>) {
    forall i, j :: 0 <= i < j < |es| ==> Before(es[i], es[j])
  }

  lemma OrderedAppend(a: seq<Edge>, b: seq<Edge>)
    requires Ordered(a) && Ordered(b) && forall e, f :: e in a && f in b ==> Before(e, f)
    ensures Ordered(a + b)
  {
    forall i, j | 0 <= i < j < |a + b| ensures Before((a + b)[i], (a + b)[j]) {
      if i < |a| <= j {
        assert a[i] in a && b[j - |a|] in b;
      }
    }
  }

  lemma {:induction false} AttributesExact(r: Registry, attributes: seq<Attribute>)
    ensures forall e :: e in AttributeEdges(r, attributes) <==> OfAttribute(r, attributes, e)
    ensures Ordered(AttributeEdges(r, attributes))
  {
    if attributes != [] {
      var n := |attributes| - 1;
      var front := attributes[..n];
      AttributesExact(r, front);
      var last := match attributes[n]
        case PointerTo(name, pointee) => if pointee == r.objectType then [] else [Edge(ByAttribute(n), name, pointee)]
        case ContainerOf(name, item) => [Edge(ByAttribute(n), name + "/[i]", item)]
        case Plain(_) => [];
      assert AttributeEdges(r, attributes) == AttributeEdges(r, front) + last;
      forall e ensures e in AttributeEdges(r, attributes) <==> OfAttribute(r, attributes, e) {
        AttributeExact(r, attributes, last, e);
      }
      OrderedAppend(AttributeEdges(r, front), last);
    }
  }

  /** One more attribute: its edge, if it gives one, is the only one with its index. */
  lemma AttributeExact(r: Registry, attributes: seq<Attribute>, last: seq<Edge>, e: Edge)
    requires attributes != []
    requires var n := |attributes| - 1;
             last == match attributes[n]
               case PointerTo(name, pointee) =>
                 if pointee == r.objectType then [] else [Edge(ByAttribute(n), name, pointee)]
               case ContainerOf(name, item) => [Edge(ByAttribute(n), name + "/[i]", item)]
               case Plain(_) => []
    ensures OfAttribute(r, attributes, e) <==> OfAttribute(r, attributes[..|attributes| - 1], e) || e in last
  {
    var n := |attributes| - 1;
    if e.via == ByAttribute(n) && attributes[n].ContainerOf? {
      var name := attributes[n].name;
      if e in last {
        assert attributes[n] == ContainerOf(name, e.target) && e.name == name + "/[i]";
      }
    }
  }

  lemma {:induction false} ChildrenExact(r: Registry, t: nat, j: nat)
    requires Closed(r) && j <= |r.types|
    ensures forall e :: e in ChildEdges(r, t, j) <==> e.target < j && OfChild(r, t, e)
    ensures Ordered(ChildEdges(r, t, j))
  {
    if j > 0 {
      ChildrenExact(r, t, j - 1);
      forall e ensures e in ChildEdges(r, t, j) <==> e.target < j && OfChild(r, t, e) {
        OneMoreChild(r, t, j, e);
      }
      OrderedAppend(ChildEdges(r, t, j - 1), if ChildOf(r, j - 1, t) then [ChildEdge(r, j - 1)] else []);
    }
  }

  lemma OneMoreChild(r: Registry, t: nat, j: nat, e: Edge)
    requires Closed(r) && 0 < j <= |r.types|
    requires e in ChildEdges(r, t, j - 1) <==> e.target < j - 1 && OfChild(r, t, e)
    ensures e in ChildEdges(r, t, j) <==> e.target < j && OfChild(r, t, e)
  {
    if e.target == j - 1 {
      assert OfChild(r, t, e) <==> ChildOf(r, j - 1, t) && e == ChildEdge(r, j - 1);
    }
  }

  lemma {:induction false} PairsExact(r: Registry, t: nat, k: nat)
    requires Closed(r) && k <= |r.aggregates|
    ensures forall e :: e in AggregateEdges(r, t, k) <==> OfPair(r, t, k, e)
    ensures Ordered(AggregateEdges(r, t, k))
  {
    if k > 0 {
      PairsExact(r, t, k - 1);
      OrderedAppend(AggregateEdges(r, t, k - 1), PairEdges(r, t, k - 1));
    }
  }

  /**
   * The search follows from t exactly the edges that leave t, each once: the attributes in
   * their order, the descendants in the order of registration, the pairs in theirs.
   */
  lemma EdgesExact(r: Registry, t: nat)
    requires Closed(r) && t < |r.types|
    ensures forall e :: e in Edges(r, t) <==> Leads(r, t, e)
    ensures Ordered(Edges(r, t))
  {
    var a, c := AttributeEdges(r, r.types[t].attributes), ChildEdges(r, t, |r.types|);
    var p := AggregateEdges(r, t, |r.aggregates|);
    AttributesExact(r, r.types[t].attributes);
    ChildrenExact(r, t, |r.types|);
    PairsExact(r, t, |r.aggregates|);
    assert forall e :: e in a + c + p <==> e in a || e in c || e in p;
    OrderedAppend(a, c);
    OrderedAppend(a + c, p);
  }

  predicate Inside(r: Registry, es: seq<Edge>) {
    forall i :: 0 <= i < |es| ==> es[i].target < |r.types|
  }

  lemma EdgesInside(r: Registry, t: nat)
    requires Closed(r) && t < |r.types|
    ensures Inside(r, Edges(r, t))
  {
    var es := Edges(r, t);
    EdgesExact(r, t);
    forall i | 0 <= i < |es| ensures es[i].target < |r.types| {
      assert es[i] in es;
      LeadsInside(r, t, es[i]);
    }
  }

  // ----- walks

  /** The edges w can be followed one after the other from t. */
  ghost predicate IsWalk(r: Registry, t: nat, w: seq<Edge>)
    requires Closed(r) && t < |r.types|
    decreases |w|
  {
    w == [] || (Leads(r, t, w[0]) && w[0].target < |r.types| && IsWalk(r, w[0].target, w[1..]))
  }

  /** The types met, from t on. */
  function Stops(t: nat, w: seq<Edge>): (s: seq<nat>)
    ensures |s| == |w| + 1 && s[0] == t
    decreases |w|
  {
    [t] + if w == [] then [] else Stops(w[0].target, w[1..])
  }

  function Labels(w: seq<Edge>): seq<string> {
    seq(|w|, i requires 0 <= i < |w| => w[i].name)
  }

  function End(t: nat, w: seq<Edge>): nat {
    if w == [] then t else w[|w| - 1].target
  }

  /** A walk that meets no type twice and none of `seen`. */
  ghost predicate IsSimple(r: Registry, t: nat, w: seq<Edge>, seen: seq<nat>)
    requires Closed(r) && t < |r.types|
  {
    IsWalk(r, t, w) && NoDup(Stops(t, w)) && forall x :: x in Stops(t, w) ==> x !in seen
  }

  /** The seen types are registered ones, each once. */
  ghost predicate SeenOk(r: Registry, seen: seq<nat>) {
    NoDup(seen) && forall x :: x in seen ==> x < |r.types|
  }

  lemma SeenGrows(r: Registry, seen: seq<nat>, t: nat)
    requires SeenOk(r, seen) && t < |r.types| && t !in seen
    ensures SeenOk(r, seen + [t]) && |seen| < |r.types|
  {
    NoDupConcat(seen, [t]);
    NoDupFits(seen + [t], Ids(|r.types|));
  }

  ghost function Ids(n: nat): (ids: set<nat>)
    ensures |ids| == n && forall x: nat :: x in ids <==> x < n
  {
    if n == 0 then {} else Ids(n - 1) + {n - 1}
  }

  // ----- all simple walks, in the order of the search

  ghost function Walks(r: Registry, t: nat, seen: seq<nat>): seq<seq<Edge>>
    requires Closed(r) && t < |r.types| && SeenOk(r, seen)
    decreases |r.types| - |seen|, |Edges(r, t)| + 1
  {
    if t in seen then []
    else
      EdgesInside(r, t);
      [[]] + WalksBy(r, t, Edges(r, t), seen)
  }

  /** The walks from t that start with one of the edges es. */
  ghost function WalksBy(r: Registry, t: nat, es: seq<Edge>, seen: seq<nat>): seq<seq<Edge>>
    requires Closed(r) && t < |r.types| && SeenOk(r, seen) && t !in seen && Inside(r, es)
    decreases |r.types| - |seen|, |es|
  {
    if es == [] then []
    else
      var k := |es| - 1;
      SeenGrows(r, seen, t);
      WalksBy(r, t, es[..k], seen) + Prefixed(es[k], Walks(r, es[k].target, seen + [t]))
  }

  ghost function Prefixed(e: Edge, ws: seq<seq<Edge>>): seq<seq<Edge>> {
    seq(|ws|, j requires 0 <= j < |ws| => [e] + ws[j])
  }

  lemma StepIn(r: Registry, t: nat, w: seq<Edge>, seen: seq<nat>)
    requires Closed(r) && t < |r.types| && w != [] && Leads(r, t, w[0]) && w[0].target < |r.types|
    ensures IsSimple(r, t, w, seen) <==> t !in seen && IsSimple(r, w[0].target, w[1..], seen + [t])
  {
    var s := Stops(w[0].target, w[1..]);
    assert Stops(t, w) == [t] + s;
    if NoDup(s) && (forall x :: x in s ==> x !in seen + [t]) {
      NoDupConcat([t], s);
    }
    if NoDup([t] + s) {
      assert forall i :: 0 <= i < |s| ==> s[i] == ([t] + s)[i + 1];
      assert ([t] + s)[0] == t;
    }
    assert forall x :: x in [t] + s <==> x == t || x in s;
    assert forall x :: x in seen + [t] <==> x == t || x in seen;
  }

  lemma {:induction false} WalksExact(r: Registry, t: nat, seen: seq<nat>, w: seq<Edge>)
    requires Closed(r) && t < |r.types| && SeenOk(r, seen)
    ensures w in Walks(r, t, seen) <==> IsSimple(r, t, w, seen)
    decreases |r.types| - |seen|, |Edges(r, t)| + 1
  {
    if t in seen {
      assert Stops(t, w)[0] == t;
    } else {
      EdgesInside(r, t);
      EdgesExact(r, t);
      WalksByExact(r, t, Edges(r, t), seen, w);
      if w == [] {
        assert [[]][0] == w;
        assert Stops(t, w) == [t];
      } else if Leads(r, t, w[0]) {
        LeadsInside(r, t, w[0]);
        StepIn(r, t, w, seen);
      }
    }
  }

  /** w is a simple walk from t on which starts with one of the edges es. */
  ghost predicate StartsIn(r: Registry, t: nat, es: seq<Edge>, seen: seq<nat>, w: seq<Edge>)
    requires Closed(r) && Inside(r, es)
  {
    w != [] && w[0] in es && IsSimple(r, w[0].target, w[1..], seen + [t])
  }

  lemma {:induction false} WalksByExact(r: Registry, t: nat, es: seq<Edge>, seen: seq<nat>, w: seq<Edge>)
    requires Closed(r) && t < |r.types| && SeenOk(r, seen) && t !in seen && Inside(r, es)
    ensures w in WalksBy(r, t, es, seen) <==> StartsIn(r, t, es, seen, w)
    decreases |r.types| - |seen|, |es|
  {
    if es != [] {
      var k := |es| - 1;
      SeenGrows(r, seen, t);
      WalksByExact(r, t, es[..k], seen, w);
      var ws := Walks(r, es[k].target, seen + [t]);
      if w != [] {
        WalksExact(r, es[k].target, seen + [t], w[1..]);
      }
      InPrefixed(es[k], ws, w);
      assert es == es[..k] + [es[k]];
    }
  }

  lemma InPrefixed(e: Edge, ws: seq<seq<Edge>>, w: seq<Edge>)
    ensures w in Prefixed(e, ws) <==> w != [] && w[0] == e && w[1..] in ws
  {
    if w != [] && w[0] == e && w[1..] in ws {
      var j :| 0 <= j < |ws| && ws[j] == w[1..];
      assert Prefixed(e, ws)[j] == w;
    }
  }

  /** The order of a depth-first search: a walk comes before its extensions, and earlier edges come first. */
  predicate Precedes(v: seq<Edge>, w: seq<Edge>) {
    w != [] && (v == [] || Before(v[0], w[0]) || (v[0] == w[0] && Precedes(v[1..], w[1..])))
  }

  ghost predicate InSearchOrder(ws: seq<seq<Edge>>) {
    forall i, j :: 0 <= i < j < |ws| ==> Precedes(ws[i], ws[j])
  }

  lemma {:induction false} PrecedesIsStrict(w: seq<Edge>)
    ensures !Precedes(w, w)
  {
    if w != [] {
      PrecedesIsStrict(w[1..]);
    }
  }

  lemma OrderIsOnce(ws: seq<seq<Edge>>)
    requires InSearchOrder(ws)
    ensures NoDup(ws)
  {
    forall i, j | 0 <= i < j < |ws| ensures ws[i] != ws[j] {
      PrecedesIsStrict(ws[i]);
    }
  }

  lemma PrefixedInOrder(e: Edge, ws: seq<seq<Edge>>)
    requires InSearchOrder(ws)
    ensures InSearchOrder(Prefixed(e, ws))
  {
    var ps := Prefixed(e, ws);
    forall i, j | 0 <= i < j < |ps| ensures Precedes(ps[i], ps[j]) {
      assert ps[i][1..] == ws[i] && ps[j][1..] == ws[j];
    }
  }

  lemma JoinInOrder(a: seq<seq<Edge>>, b: seq<seq<Edge>>)
    requires InSearchOrder(a) && InSearchOrder(b) && forall v, w :: v in a && w in b ==> Precedes(v, w)
    ensures InSearchOrder(a + b)
  {
    forall i, j | 0 <= i < j < |a + b| ensures Precedes((a + b)[i], (a + b)[j]) {
      if i < |a| <= j {
        assert a[i] in a && b[j - |a|] in b;
      }
    }
  }

  lemma {:induction false} WalksInOrder(r: Registry, t: nat, seen: seq<nat>)
    requires Closed(r) && t < |r.types| && SeenOk(r, seen)
    ensures InSearchOrder(Walks(r, t, seen))
    decreases |r.types| - |seen|, |Edges(r, t)| + 1
  {
    if t !in seen {
      EdgesInside(r, t);
      EdgesExact(r, t);
      var rest := WalksBy(r, t, Edges(r, t), seen);
      WalksByInOrder(r, t, Edges(r, t), seen);
      forall w | w in rest ensures Precedes([], w) {
        WalksByExact(r, t, Edges(r, t), seen, w);
      }
      JoinInOrder([[]], rest);
    }
  }

  lemma {:induction false} WalksByInOrder(r: Registry, t: nat, es: seq<Edge>, seen: seq<nat>)
    requires Closed(r) && t < |r.types| && SeenOk(r, seen) && t !in seen && Inside(r, es) && Ordered(es)
    ensures InSearchOrder(WalksBy(r, t, es, seen))
    decreases |r.types| - |seen|, |es|
  {
    if es != [] {
      var k := |es| - 1;
      SeenGrows(r, seen, t);
      WalksByInOrder(r, t, es[..k], seen);
      var ws := Walks(r, es[k].target, seen + [t]);
      WalksInOrder(r, es[k].target, seen + [t]);
      PrefixedInOrder(es[k], ws);
      forall v, w | v in WalksBy(r, t, es[..k], seen) && w in Prefixed(es[k], ws) ensures Precedes(v, w) {
        InPrefixed(es[k], ws, w);
        WalksByExact(r, t, es[..k], seen, v);
      }
      JoinInOrder(WalksBy(r, t, es[..k], seen), Prefixed(es[k], ws));
    }
  }

  // ----- what the search appends to its output

  function Text(path: seq<string>): string {
    if path == [] then "" else Text(path[..|path| - 1]) + "/" + path[|path| - 1]
  }

  /** A slash before each label. */
  lemma {:induction false} TextOfMore(name: string, path: seq<string>)
    ensures Text([]) == "" && Text([name] + path) == "/" + name + Text(path)
  {
    var all := [name] + path;
    if path == [] {
      assert all[..0] == [];
    } else {
      var n := |path| - 1;
      TextOfMore(name, path[..n]);
      assert all[..|all| - 1] == [name] + path[..n];
    }
  }

  ghost function Gathered(r: Registry, t: nat, path: seq<string>, seen: seq<nat>): seq<Entry>
    requires Closed(r) && t < |r.types| && SeenOk(r, seen)
    decreases |r.types| - |seen|, |Edges(r, t)| + 1
  {
    if t in seen then []
    else
      EdgesInside(r, t);
      [(t, Text(path))] + GatheredBy(r, t, Edges(r, t), path, seen)
  }

  ghost function GatheredBy(r: Registry, t: nat, es: seq<Edge>, path: seq<string>, seen: seq<nat>): seq<Entry>
    requires Closed(r) && t < |r.types| && SeenOk(r, seen) && t !in seen && Inside(r, es)
    decreases |r.types| - |seen|, |es|
  {
    if es == [] then []
    else
      var k := |es| - 1;
      SeenGrows(r, seen, t);
      GatheredBy(r, t, es[..k], path, seen) + Gathered(r, es[k].target, path + [es[k].name], seen + [t])
  }

  lemma GatheredBySnoc(r: Registry, t: nat, es: seq<Edge>, e: Edge, path: seq<string>, seen: seq<nat>)
    requires Closed(r) && t < |r.types| && SeenOk(r, seen) && t !in seen && Inside(r, es) && e.target < |r.types|
    ensures SeenOk(r, seen + [t])
    ensures GatheredBy(r, t, es + [e], path, seen)
            == GatheredBy(r, t, es, path, seen) + Gathered(r, e.target, path + [e.name], seen + [t])
  {
    SeenGrows(r, seen, t);
    assert (es + [e])[..|es|] == es;
  }

  /** The entry of a walk: the type it ends at, and its labels after those of the current path. */
  function EntryOf(t: nat, path: seq<string>, w: seq<Edge>): Entry {
    (End(t, w), Text(path + Labels(w)))
  }

  /** One entry per walk, in the same order. */
  function Entries(t: nat, path: seq<string>, ws: seq<seq<Edge>>): seq<Entry> {
    seq(|ws|, i requires 0 <= i < |ws| => EntryOf(t, path, ws[i]))
  }

  lemma EntryStep(t: nat, path: seq<string>, e: Edge, v: seq<Edge>)
    ensures EntryOf(t, path, [e] + v) == EntryOf(e.target, path + [e.name], v)
  {
    assert path + Labels([e] + v) == path + [e.name] + Labels(v);
  }

  lemma PrefixEntries(t: nat, path: seq<string>, e: Edge, ws: seq<seq<Edge>>)
    ensures Entries(t, path, Prefixed(e, ws)) == Entries(e.target, path + [e.name], ws)
  {
    forall i | 0 <= i < |ws| ensures EntryOf(t, path, [e] + ws[i]) == EntryOf(e.target, path + [e.name], ws[i]) {
      EntryStep(t, path, e, ws[i]);
    }
  }

  lemma EntriesAppend(t: nat, path: seq<string>, a: seq<seq<Edge>>, b: seq<seq<Edge>>)
    ensures Entries(t, path, a + b) == Entries(t, path, a) + Entries(t, path, b)
  {
  }

  lemma {:induction false} GatheredWalks(r: Registry, t: nat, path: seq<string>, seen: seq<nat>)
    requires Closed(r) && t < |r.types| && SeenOk(r, seen)
    ensures Gathered(r, t, path, seen) == Entries(t, path, Walks(r, t, seen))
    decreases |r.types| - |seen|, |Edges(r, t)| + 1
  {
    if t !in seen {
      EdgesInside(r, t);
      var ws := WalksBy(r, t, Edges(r, t), seen);
      GatheredByWalks(r, t, Edges(r, t), path, seen);
      assert path + Labels([]) == path;
      EntriesAppend(t, path, [[]], ws);
      assert Entries(t, path, [[]]) == [(t, Text(path))];
    }
  }

  lemma {:induction false} GatheredByWalks(r: Registry, t: nat, es: seq<Edge>, path: seq<string>, seen: seq<nat>)
    requires Closed(r) && t < |r.types| && SeenOk(r, seen) && t !in seen && Inside(r, es)
    ensures GatheredBy(r, t, es, path, seen) == Entries(t, path, WalksBy(r, t, es, seen))
    decreases |r.types| - |seen|, |es|
  {
    if es != [] {
      var k := |es| - 1;
      SeenGrows(r, seen, t);
      GatheredByWalks(r, t, es[..k], path, seen);
      var ws := Walks(r, es[k].target, seen + [t]);
      GatheredWalks(r, es[k].target, path + [es[k].name], seen + [t]);
      PrefixEntries(t, path, es[k], ws);
      EntriesAppend(t, path, WalksBy(r, t, es[..k], seen), Prefixed(es[k], ws));
    }
  }

  lemma Appended(before: seq<Entry>, a: seq<Entry>, b: seq<Entry>, was: seq<Entry>, now: seq<Entry>)
    requires was == before + a && now == was + b
    ensures now == before + (a + b)
  {
  }

  // ----- the gatherer

  class StaticInformation {
    const r: Registry
    var output: seq<Entry>
    var currentPath: seq<string>
    var alreadyProcessed: seq<nat>

    constructor (r: Registry)
      requires WellFormed(r)
      ensures Valid() && this.r == r && output == [] && currentPath == [] && alreadyProcessed == []
    {
      this.r := r;
      output, currentPath, alreadyProcessed := [], [], [];
    }

    ghost predicate Valid()
      reads this
    {
      WellFormed(r) && SeenOk(r, alreadyProcessed)
    }

    method GetCurrentPath() returns (text: string)
      ensures text == Text(currentPath)
    {
      text := "";
      for i := 0 to |currentPath|
        invariant text == Text(currentPath[..i])
      {
        assert currentPath[..i + 1][..i] == currentPath[..i];
        text := text + "/" + currentPath[i];
      }
      assert currentPath[..|currentPath|] == currentPath;
    }

    method HasAlreadyBeenProcessed(tid: nat) returns (found: bool)
      ensures found <==> tid in alreadyProcessed
    {
      for i := 0 to |alreadyProcessed|
        invariant tid !in alreadyProcessed[..i]
      {
        if alreadyProcessed[i] == tid {
          return true;
        }
      }
      return false;
    }

    method RecordOutput(tid: nat)
      modifies this`output
      ensures output == old(output) + [(tid, Text(currentPath))]
    {
      var path := GetCurrentPath();
      output := output + [(tid, path)];
    }

    /** The edges es of tid have been followed since the output was `before`. */
    ghost predicate Followed(tid: nat, before: seq<Entry>, es: seq<Edge>)
      reads this
    {
      && Valid() && tid < |r.types| && tid !in alreadyProcessed && Inside(r, es)
      && output == before + GatheredBy(r, tid, es, currentPath, alreadyProcessed)
    }

    /** What following the edge e of tid adds. */
    ghost function OneMore(tid: nat, e: Edge): seq<Entry>
      requires Valid() && tid < |r.types| && tid !in alreadyProcessed && e.target < |r.types|
      reads this
    {
      SeenGrows(r, alreadyProcessed, tid);
      Gathered(r, e.target, currentPath + [e.name], alreadyProcessed + [tid])
    }

    /** The five lines around each recursive call. */
    method Descend(tid: nat, e: Edge)
      requires Valid() && tid < |r.types| && tid !in alreadyProcessed && e.target < |r.types|
      modifies this`output, this`currentPath, this`alreadyProcessed
      ensures currentPath == old(currentPath) && alreadyProcessed == old(alreadyProcessed)
      ensures output == old(output) + old(OneMore(tid, e))
      decreases |r.types| - |alreadyProcessed|, 0
    {
      SeenGrows(r, alreadyProcessed, tid);
      currentPath := currentPath + [e.name];
      alreadyProcessed := alreadyProcessed + [tid];
      DoGather(e.target);
      alreadyProcessed := alreadyProcessed[..|alreadyProcessed| - 1];
      currentPath := currentPath[..|currentPath| - 1];
      assert currentPath == old(currentPath) && alreadyProcessed == old(alreadyProcessed);
    }

    /** One more edge of tid. */
    method Follow(tid: nat, e: Edge, ghost before: seq<Entry>, ghost es: seq<Edge>)
      requires Followed(tid, before, es) && e.target < |r.types|
      modifies this`output, this`currentPath, this`alreadyProcessed
      ensures currentPath == old(currentPath) && alreadyProcessed == old(alreadyProcessed)
      ensures Followed(tid, before, es + [e])
      decreases |r.types| - |alreadyProcessed|, 1
    {
      ghost var was := output;
      ghost var a, b := GatheredBy(r, tid, es, currentPath, alreadyProcessed), OneMore(tid, e);
      GatheredBySnoc(r, tid, es, e, currentPath, alreadyProcessed);
      Descend(tid, e);
      Appended(before, a, b, was, output);
    }

    method DoGather(tid: nat)
      requires Valid() && tid < |r.types|
      modifies this`output, this`currentPath, this`alreadyProcessed
      ensures currentPath == old(currentPath) && alreadyProcessed == old(alreadyProcessed)
      ensures output == old(output) + Gathered(r, tid, currentPath, alreadyProcessed)
      decreases |r.types| - |alreadyProcessed|, 4
    {
      var done := HasAlreadyBeenProcessed(tid);
      if done {
        return;
      }
      RecordOutput(tid);
      ghost var before := output;
      FollowAttributes(tid, before);
      FollowChildren(tid, before, AttributeEdges(r, r.types[tid].attributes));
      FollowAggregates(tid, before, AttributeEdges(r, r.types[tid].attributes) + ChildEdges(r, tid, |r.types|));
    }

    /** The first loop of DoGather. */
    method FollowAttributes(tid: nat, ghost before: seq<Entry>)
      requires Followed(tid, before, [])
      modifies this`output, this`currentPath, this`alreadyProcessed
      ensures currentPath == old(currentPath) && alreadyProcessed == old(alreadyProcessed)
      ensures Followed(tid, before, AttributeEdges(r, r.types[tid].attributes))
      decreases |r.types| - |alreadyProcessed|, 2
    {
      var attributes := r.types[tid].attributes;
      ghost var es := [];
      for i := 0 to |attributes|
        invariant currentPath == old(currentPath) && alreadyProcessed == old(alreadyProcessed)
        invariant Followed(tid, before, es) && es == AttributeEdges(r, attributes[..i])
      {
        var info := attributes[i];
        assert AttributeOk(r, info);
        assert attributes[..i + 1][..i] == attributes[..i];
        if info.PointerTo? {
          if info.pointee == r.objectType {
            continue;
          }
          Follow(tid, Edge(ByAttribute(i), info.name, info.pointee), before, es);
          es := es + [Edge(ByAttribute(i), info.name, info.pointee)];
          continue;
        }
        if info.ContainerOf? {
          Follow(tid, Edge(ByAttribute(i), info.name + "/[i]", info.item), before, es);
          es := es + [Edge(ByAttribute(i), info.name + "/[i]", info.item)];
          continue;
        }
      }
      assert attributes[..|attributes|] == attributes;
    }

    /** One turn of the second loop of DoGather. */
    method FollowChild(tid: nat, j: nat, ghost before: seq<Entry>, ghost es: seq<Edge>)
      requires Followed(tid, before, es) && j < |r.types|
      modifies this`output, this`currentPath, this`alreadyProcessed
      ensures currentPath == old(currentPath) && alreadyProcessed == old(alreadyProcessed)
      ensures Followed(tid, before, if ChildOf(r, j, tid) then es + [ChildEdge(r, j)] else es)
      decreases |r.types| - |alreadyProcessed|, 2
    {
      var child := IsChildOf(r, j, tid);
      if child {
        Follow(tid, Edge(ByChild, "$" + r.types[j].name, j), before, es);
      }
    }

    /** The second loop of DoGather. */
    method FollowChildren(tid: nat, ghost before: seq<Entry>, ghost start: seq<Edge>)
      requires Followed(tid, before, start)
      modifies this`output, this`currentPath, this`alreadyProcessed
      ensures currentPath == old(currentPath) && alreadyProcessed == old(alreadyProcessed)
      ensures Followed(tid, before, start + ChildEdges(r, tid, |r.types|))
      decreases |r.types| - |alreadyProcessed|, 3
    {
      ghost var es := start;
      for j := 0 to |r.types|
        invariant currentPath == old(currentPath) && alreadyProcessed == old(alreadyProcessed)
        invariant Followed(tid, before, es) && es == start + ChildEdges(r, tid, j)
      {
        NextChild(r, start, tid, j);
        FollowChild(tid, j, before, es);
        es := start + ChildEdges(r, tid, j + 1);
      }
    }

    /** One turn of the third loop of DoGather. */
    method FollowPair(tid: nat, k: nat, ghost before: seq<Entry>, ghost es: seq<Edge>)
      requires Followed(tid, before, es) && k < |r.aggregates|
      modifies this`output, this`currentPath, this`alreadyProcessed
      ensures currentPath == old(currentPath) && alreadyProcessed == old(alreadyProcessed)
      ensures Followed(tid, before, es + PairEdges(r, tid, k))
      decreases |r.types| - |alreadyProcessed|, 2
    {
      var (first, second) := r.aggregates[k];
      assert es + [] == es;
      if first == tid || second == tid {
        var other := second;
        if first == tid {
          other := second;
        }
        if second == tid {
          other := first;
        }
        Follow(tid, Edge(ByPair(k), "$" + r.types[other].name, other), before, es);
      }
    }

    /** The third loop of DoGather. */
    method FollowAggregates(tid: nat, ghost before: seq<Entry>, ghost start: seq<Edge>)
      requires Followed(tid, before, start)
      modifies this`output, this`currentPath, this`alreadyProcessed
      ensures currentPath == old(currentPath) && alreadyProcessed == old(alreadyProcessed)
      ensures Followed(tid, before, start + AggregateEdges(r, tid, |r.aggregates|))
      decreases |r.types| - |alreadyProcessed|, 3
    {
      ghost var es := start;
      for k := 0 to |r.aggregates|
        invariant currentPath == old(currentPath) && alreadyProcessed == old(alreadyProcessed)
        invariant Followed(tid, before, es) && es == start + AggregateEdges(r, tid, k)
      {
        NextAggregate(r, start, tid, k);
        FollowPair(tid, k, before, es);
        es := start + AggregateEdges(r, tid, k + 1);
      }
    }

    method Gather(tid: nat)
      requires Valid() && tid < |r.types|
      modifies this`output, this`currentPath, this`alreadyProcessed
      ensures currentPath == old(currentPath) && alreadyProcessed == old(alreadyProcessed)
      ensures output == old(output) + Gathered(r, tid, currentPath, alreadyProcessed)
    {
      // the sorting and de-duplication that follow work on a copy of the output
      DoGather(tid);
    }

    method Get(tid: nat) returns (paths: seq<string>)
      ensures paths == PathsOf(output, tid)
    {
      paths := [];
      for i := 0 to |output|
        invariant paths == PathsOf(output[..i], tid)
      {
        assert output[..i + 1][..i] == output[..i];
        if output[i].0 == tid {
          paths := paths + [output[i].1];
        }
      }
      assert output[..|output|] == output;
    }
  }

  function PathsOf(out: seq<Entry>, tid: nat): seq<string> {
    if out == [] then []
    else PathsOf(out[..|out| - 1], tid) + (if out[|out| - 1].0 == tid then [out[|out| - 1].1] else [])
  }

  // ----- the results

  /**
   * What Gather appends for a root on an empty path: one entry for each simple walk from the
   * root, no walk twice and none missing, each at its end and under the names of its edges, in
   * the order of a depth-first search.
   */
  lemma OneEntryPerSimpleWalk(r: Registry, root: nat) returns (walks: seq<seq<Edge>>)
    requires Closed(r) && root < |r.types|
    ensures NoDup(walks) && forall w :: w in walks <==> IsSimple(r, root, w, [])
    ensures InSearchOrder(walks)
    ensures SeenOk(r, []) && Gathered(r, root, [], []) == Entries(root, [], walks)
  {
    walks := Walks(r, root, []);
    WalksInOrder(r, root, []);
    OrderIsOnce(walks);
    GatheredWalks(r, root, [], []);
    forall w ensures w in walks <==> IsSimple(r, root, w, []) {
      WalksExact(r, root, [], w);
    }
  }

  lemma {:induction false} InPathsOf(out: seq<Entry>, tid: nat, text: string)
    ensures text in PathsOf(out, tid) <==> (tid, text) in out
  {
    if out != [] {
      var n := |out| - 1;
      InPathsOf(out[..n], tid, text);
      assert out == out[..n] + [out[n]];
    }
  }

  /** The paths of one type are its entries' texts, all of them and in the order of the entries. */
  lemma {:induction false} PathsInOrder(out: seq<Entry>, tid: nat) returns (at: seq<nat>)
    ensures forall i, j :: 0 <= i < j < |at| ==> at[i] < at[j]
    ensures forall k: nat :: k in at <==> k < |out| && out[k].0 == tid
    ensures |PathsOf(out, tid)| == |at|
    ensures forall i :: 0 <= i < |at| ==> at[i] < |out| && PathsOf(out, tid)[i] == out[at[i]].1
  {
    if out == [] {
      at := [];
    } else {
      var n := |out| - 1;
      at := PathsInOrder(out[..n], tid);
      if out[n].0 == tid {
        OneMorePath(at, n);
        at := at + [n];
      }
    }
  }

  lemma OneMorePath(at: seq<nat>, n: nat)
    requires forall i, j :: 0 <= i < j < |at| ==> at[i] < at[j]
    requires forall k :: k in at ==> k < n
    ensures forall i, j :: 0 <= i < j < |at + [n]| ==> (at + [n])[i] < (at + [n])[j]
    ensures forall k :: k in at + [n] <==> k in at || k == n
  {
    forall i, j | 0 <= i < j < |at + [n]| ensures (at + [n])[i] < (at + [n])[j] {
      assert at[i] in at;
    }
  }

  /** A text is a path to tid from root: it spells the labels of a simple walk to tid. */
  ghost predicate Spells(r: Registry, root: nat, tid: nat, text: string, w: seq<Edge>)
    requires Closed(r) && root < |r.types|
  {
    IsSimple(r, root, w, []) && End(root, w) == tid && Text(Labels(w)) == text
  }

  /** The configuration paths listed for a type are exactly the label texts of the simple walks to it. */
  lemma PathsAreSimpleWalks(r: Registry, root: nat, tid: nat, text: string)
    requires Closed(r) && root < |r.types| && SeenOk(r, [])
    ensures text in PathsOf(Gathered(r, root, [], []), tid) <==> exists w :: Spells(r, root, tid, text, w)
  {
    var out := Gathered(r, root, [], []);
    var walks := OneEntryPerSimpleWalk(r, root);
    InPathsOf(out, tid, text);
    forall w ensures [] + Labels(w) == Labels(w) {
    }
    if (tid, text) in out {
      var i :| 0 <= i < |out| && out[i] == (tid, text);
      assert walks[i] in walks;
      assert Spells(r, root, tid, text, walks[i]);
    }
    if w :| Spells(r, root, tid, text, w) {
      assert w in walks;
      var i :| 0 <= i < |walks| && walks[i] == w;
      assert out[i] == (tid, text);
    }
  }
}
