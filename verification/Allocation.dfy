/** Giving each link one network interface at either end. */
module Allocation {
  import opened Sums

  type Node = string
  type Ip = string
  type Link = (Node, Node)

  /** How many ends of the link are at v. */
  function Ends(v: Node): Link -> nat {
    (l: Link) => (if l.0 == v then 1 else 0) + (if l.1 == v then 1 else 0)
  }

  /** How many link ends are at v. */
  function Degree(links: seq<Link>, v: Node): nat {
    Total(links, Ends(v))
  }

  predicate KnownNodes(links: seq<Link>, ips: map<Node, seq<Ip>>) {
    forall n :: 0 <= n < |links| ==> links[n].0 in ips && links[n].1 in ips
  }

  ghost predicate EnoughIps(links: seq<Link>, ips: map<Node, seq<Ip>>) {
    forall v :: v in ips ==> Degree(links, v) <= |ips[v]|
  }

  predicate Joins(l: Link, a: Node, b: Node) {
    l == (a, b) || l == (b, a)
  }

  /** No self-link, and each unordered pair of nodes at most once. */
  predicate SimpleLinks(links: seq<Link>) {
    && (forall n :: 0 <= n < |links| ==> links[n].0 != links[n].1)
    && (forall m, n :: 0 <= m < n < |links| ==> !Joins(links[m], links[n].0, links[n].1))
  }

  /** The entry of a for b is the address of b's interface number s. */
  predicate Reaches(remote: map<Node, map<Node, Ip>>, ips: map<Node, seq<Ip>>, a: Node, b: Node, s: nat) {
    a in remote && b in remote[a] && b in ips && s < |ips[b]| && remote[a][b] == ips[b][s]
  }

  /** Both directions of link n: at either end the slot is the number of earlier link ends there. */
  predicate LinkDone(links: seq<Link>, ips: map<Node, seq<Ip>>, remote: map<Node, map<Node, Ip>>, n: nat)
    requires n < |links|
  {
    var (a, b) := links[n];
    Reaches(remote, ips, a, b, Degree(links[..n], b)) && Reaches(remote, ips, b, a, Degree(links[..n], a))
  }

  ghost predicate OnlyLinks(links: seq<Link>, n: nat, remote: map<Node, map<Node, Ip>>) {
    forall a, b :: a in remote && b in remote[a] ==> exists m :: 0 <= m < n && m < |links| && Joins(links[m], a, b)
  }

  lemma {:induction false} DegreeGrows(links: seq<Link>, m: nat, n: nat, v: Node)
    requires m <= n <= |links|
    ensures Degree(links[..m], v) <= Degree(links[..n], v)
    ensures n < |links| ==> Degree(links[..n + 1], v) == Degree(links[..n], v) + Ends(v)(links[n])
  {
    if n < |links| {
      assert links[..n + 1] == links[..n] + [links[n]];
      TotalSnoc(links[..n], links[n], Ends(v));
    }
    if m < n {
      DegreeGrows(links, m, n - 1, v);
    }
  }

  lemma NotEnough(links: seq<Link>, ips: map<Node, seq<Ip>>, n: nat, v: Node)
    requires n <= |links| && v in ips && Degree(links[..n], v) > |ips[v]|
    ensures !EnoughIps(links, ips)
  {
    DegreeGrows(links, n, |links|, v);
    assert links[..|links|] == links;
  }

  /** The counters after some links. */
  ghost predicate Counted(links: seq<Link>, ips: map<Node, seq<Ip>>, counter: map<Node, nat>) {
    counter.Keys == ips.Keys && forall v :: v in ips ==> counter[v] == Degree(links, v) <= |ips[v]|
  }

  /** Both entries of one link. */
  function Connect(remote: map<Node, map<Node, Ip>>, src: Node, dst: Node, toDst: Ip,
                   toSrc: Ip): map<Node, map<Node, Ip>>
    requires src in remote && dst in remote
  {
    var half := remote[src := remote[src][dst := toDst]];
    half[dst := half[dst][src := toSrc]]
  }

  lemma ConnectOnlyLinks(links: seq<Link>, n: nat, remote: map<Node, map<Node, Ip>>, toDst: Ip, toSrc: Ip)
    requires n < |links| && OnlyLinks(links, n, remote) && links[n].0 in remote && links[n].1 in remote
    ensures OnlyLinks(links, n + 1, Connect(remote, links[n].0, links[n].1, toDst, toSrc))
  {
    var (src, dst) := links[n];
    var now := Connect(remote, src, dst, toDst, toSrc);
    forall a, b | a in now && b in now[a] ensures exists m :: 0 <= m < n + 1 && m < |links| && Joins(links[m], a, b) {
      if !Joins(links[n], a, b) {
        assert a in remote && b in remote[a];
      }
    }
  }

  lemma ConnectKeeps(links: seq<Link>, n: nat, m: nat, ips: map<Node, seq<Ip>>, remote: map<Node, map<Node, Ip>>,
                     toDst: Ip, toSrc: Ip)
    requires m < n < |links| && SimpleLinks(links) && links[n].0 in remote && links[n].1 in remote
    requires LinkDone(links, ips, remote, m)
    ensures LinkDone(links, ips, Connect(remote, links[n].0, links[n].1, toDst, toSrc), m)
  {
    var (a, b) := links[m];
    assert !Joins(links[m], links[n].0, links[n].1);
  }

  lemma CountLink(links: seq<Link>, n: nat, ips: map<Node, seq<Ip>>, counter: map<Node, nat>, now: map<Node, nat>)
    requires n < |links| && Counted(links[..n], ips, counter) && links[n].0 in ips && links[n].1 in ips
    requires now.Keys == ips.Keys && forall v :: v in ips ==> now[v] == counter[v] + Ends(v)(links[n]) <= |ips[v]|
    ensures Counted(links[..n + 1], ips, now)
  {
    forall v | v in ips ensures now[v] == Degree(links[..n + 1], v) {
      DegreeGrows(links, n, n, v);
    }
  }

  lemma OverFull(links: seq<Link>, n: nat, ips: map<Node, seq<Ip>>, counter: map<Node, nat>, v: Node)
    requires n < |links| && Counted(links[..n], ips, counter) && v in ips && counter[v] + Ends(v)(links[n]) > |ips[v]|
    ensures !EnoughIps(links, ips)
  {
    DegreeGrows(links, n, n, v);
    NotEnough(links, ips, n + 1, v);
  }

  /** Link n is done once its two entries are made. */
  lemma LinkMade(links: seq<Link>, n: nat, ips: map<Node, seq<Ip>>, remote: map<Node, map<Node, Ip>>,
                 counter: map<Node, nat>)
    requires n < |links| && SimpleLinks(links) && Counted(links[..n], ips, counter) && remote.Keys == ips.Keys
    requires links[n].0 in ips && links[n].1 in ips
    requires counter[links[n].0] < |ips[links[n].0]| && counter[links[n].1] < |ips[links[n].1]|
    ensures var (a, b) := links[n];
            LinkDone(links, ips, Connect(remote, a, b, ips[b][counter[b]], ips[a][counter[a]]), n)
  {
  }

  /** If the links are simple, the first n are done. */
  ghost predicate AllDone(links: seq<Link>, ips: map<Node, seq<Ip>>, remote: map<Node, map<Node, Ip>>, n: nat)
    requires n <= |links|
  {
    SimpleLinks(links) ==>
      forall m: nat {:trigger LinkDone(links, ips, remote, m)} :: m < n ==> LinkDone(links, ips, remote, m)
  }

  lemma OneMoreDone(links: seq<Link>, n: nat, ips: map<Node, seq<Ip>>, remote: map<Node, map<Node, Ip>>,
                    counter: map<Node, nat>)
    requires n < |links| && Counted(links[..n], ips, counter) && remote.Keys == ips.Keys
    requires links[n].0 in ips && links[n].1 in ips && AllDone(links, ips, remote, n)
    requires counter[links[n].0] < |ips[links[n].0]| && counter[links[n].1] < |ips[links[n].1]|
    requires SimpleLinks(links)
    ensures var (a, b) := links[n];
            AllDone(links, ips, Connect(remote, a, b, ips[b][counter[b]], ips[a][counter[a]]), n + 1)
  {
    var (a, b) := links[n];
    var now := Connect(remote, a, b, ips[b][counter[b]], ips[a][counter[a]]);
    LinkMade(links, n, ips, remote, counter);
    forall m: nat | m < n ensures LinkDone(links, ips, now, m) {
      assert LinkDone(links, ips, remote, m);
      ConnectKeeps(links, n, m, ips, remote, ips[b][counter[b]], ips[a][counter[a]]);
    }
  }

  lemma OneMoreKnown(links: seq<Link>, n: nat, ips: map<Node, seq<Ip>>)
    requires n < |links| && KnownNodes(links[..n], ips) && links[n].0 in ips && links[n].1 in ips
    ensures KnownNodes(links[..n + 1], ips)
  {
    assert links[..n + 1] == links[..n] + [links[n]];
  }

  /** One cell of the table; the counters are read in the program's order. */
  method AllocateLink(ips: map<Node, seq<Ip>>, ghost links: seq<Link>, n: nat, src: Node, dst: Node,
                      remote: map<Node, map<Node, Ip>>, counter: map<Node, nat>)
    returns (ok: bool, nowRemote: map<Node, map<Node, Ip>>, nowCounter: map<Node, nat>)
    requires n < |links| && links[n] == (src, dst)
    requires Counted(links[..n], ips, counter) && remote.Keys == ips.Keys && OnlyLinks(links, n, remote)
    requires AllDone(links, ips, remote, n)
    ensures !ok ==> !KnownNodes(links, ips) || !EnoughIps(links, ips)
    ensures ok ==> src in ips && dst in ips && Counted(links[..n + 1], ips, nowCounter) && nowRemote.Keys == ips.Keys
    ensures ok ==> OnlyLinks(links, n + 1, nowRemote)
    ensures ok ==> AllDone(links, ips, nowRemote, n + 1)
  {
    nowRemote, nowCounter := remote, counter;
    if dst !in ips || src !in ips {
      return false, nowRemote, nowCounter;
    }
    if counter[dst] >= |ips[dst]| {
      OverFull(links, n, ips, counter, dst);
      return false, nowRemote, nowCounter;
    }
    var toDst := ips[dst][counter[dst]];
    nowRemote := nowRemote[src := nowRemote[src][dst := toDst]];
    nowCounter := nowCounter[dst := nowCounter[dst] + 1];
    if nowCounter[src] >= |ips[src]| {
      OverFull(links, n, ips, counter, src);
      return false, nowRemote, nowCounter;
    }
    var toSrc := ips[src][nowCounter[src]];
    nowRemote := nowRemote[dst := nowRemote[dst][src := toSrc]];
    nowCounter := nowCounter[src := nowCounter[src] + 1];
    ok := true;
    assert nowRemote == Connect(remote, src, dst, toDst, toSrc);
    CountLink(links, n, ips, counter, nowCounter);
    ConnectOnlyLinks(links, n, remote, toDst, toSrc);
    if SimpleLinks(links) {
      OneMoreDone(links, n, ips, remote, counter);
    }
  }

  /** The loop over the links in the order of the table. It finishes exactly when no lookup fails. */
  method Allocate(ips: map<Node, seq<Ip>>, links: seq<Link>)
    returns (finished: bool, remote: map<Node, map<Node, Ip>>, counter: map<Node, nat>)
    ensures finished <==> KnownNodes(links, ips) && EnoughIps(links, ips)
    ensures finished ==> Counted(links, ips, counter) && remote.Keys == ips.Keys && OnlyLinks(links, |links|, remote)
    ensures finished ==> AllDone(links, ips, remote, |links|)
  {
    counter := map v | v in ips :: 0;
    remote := map v | v in ips :: map[];
    assert links[..0] == [];
    for n := 0 to |links|
      invariant Counted(links[..n], ips, counter) && remote.Keys == ips.Keys && OnlyLinks(links, n, remote)
      invariant KnownNodes(links[..n], ips)
      invariant AllDone(links, ips, remote, n)
    {
      var (src, dst) := links[n];
      var ok: bool;
      ok, remote, counter := AllocateLink(ips, links, n, src, dst, remote, counter);
      if !ok {
        return false, remote, counter;
      }
      OneMoreKnown(links, n, ips);
    }
    assert links[..|links|] == links;
    finished := true;
  }

  // ----- what the result means

  /** The slot that link n takes at its end v. */
  function Slot(links: seq<Link>, n: nat, v: Node): nat
    requires n < |links|
  {
    Degree(links[..n], v)
  }

  predicate At(l: Link, v: Node) {
    l.0 == v || l.1 == v
  }

  /** Two different links never take the same slot of a node, and each slot taken is below the node's degree. */
  lemma SlotsDiffer(links: seq<Link>, m: nat, n: nat, v: Node)
    requires SimpleLinks(links) && m < n < |links| && At(links[m], v) && At(links[n], v)
    ensures Slot(links, m, v) < Slot(links, n, v) < Degree(links, v)
  {
    DegreeGrows(links, m, m, v);
    DegreeGrows(links, m + 1, n, v);
    DegreeGrows(links, n + 1, |links|, v);
    assert links[..|links|] == links;
  }

  /** Every slot below the degree of a node is taken by some link. */
  lemma {:induction false} SlotsFilled(links: seq<Link>, s: nat, v: Node, k: nat) returns (n: nat)
    requires SimpleLinks(links) && k <= |links| && s < Degree(links[..k], v)
    ensures n < k && At(links[n], v) && Slot(links, n, v) == s
  {
    DegreeGrows(links, k - 1, k - 1, v);
    if s < Degree(links[..k - 1], v) {
      n := SlotsFilled(links, s, v, k - 1);
    } else {
      n := k - 1;
    }
  }

  /** The table of remote addresses has exactly the links, in both directions. */
  lemma RemoteIsSymmetric(links: seq<Link>, ips: map<Node, seq<Ip>>, remote: map<Node, map<Node, Ip>>, a: Node, b: Node)
    requires SimpleLinks(links) && OnlyLinks(links, |links|, remote) && remote.Keys == ips.Keys
    requires AllDone(links, ips, remote, |links|)
    requires a in ips && b in ips
    ensures b in remote[a] <==> exists n :: 0 <= n < |links| && Joins(links[n], a, b)
    ensures b in remote[a] <==> a in remote[b]
  {
    if n :| 0 <= n < |links| && Joins(links[n], a, b) {
      assert LinkDone(links, ips, remote, n);
    }
  }
}
