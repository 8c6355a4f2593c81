/** What the finished search has found: best qualities, and a tree of simple paths that attains them. */
module BestRoutes {
  import opened Common
  import opened LinkMaps
  import opened RouteSearch

  /** The state in which the main loop stops. */
  ghost function Solve(g: LinkMap, local: NodeId): (r: Search)
    ensures Inv(g, local, r) && r.queue == []
  {
    StartInv(g, local);
    Settle(g, local, Start(local))
  }

  /** The predecessor chains of the finished search. */
  ghost function TreeOf(g: LinkMap, local: NodeId): (t: Tree)
    ensures InvFor(g, g, local, Solve(g, local), t)
  {
    assert Inv(g, local, Solve(g, local));
    var t :| InvFor(g, g, local, Solve(g, local), t);
    t
  }

  /** Best known quality of every node the search found. */
  ghost function Best(g: LinkMap, local: NodeId): map<NodeId, real> {
    Solve(g, local).quality
  }

  ghost function PathTo(g: LinkMap, local: NodeId, v: NodeId): seq<Link>
    requires v in Best(g, local)
  {
    TreeOf(g, local).path[v]
  }

  /** The lowest key among the inner nodes of a walk. */
  ghost function WalkFloor(quality: map<NodeId, real>, local: NodeId, hops: seq<Link>): Floor {
    if hops == [] then Open
    else Lower(WalkFloor(quality, local, Init(hops)), KeyOf(quality, local, End(local, Init(hops))))
  }

  // ------------------------------------------------------------------- paths

  /** The chain of a node is its predecessor's chain and one link more. */
  lemma ParentOf(g: LinkMap, local: NodeId, s: Search, t: Tree, v: NodeId) returns (u: NodeId)
    requires TreeInv(g, local, s, t) && v in s.quality
    ensures s.quality.Keys == t.path.Keys == t.floor.Keys && local !in s.pred && local in s.quality
    ensures t.path[local] == [] && t.floor[local] == Open && s.quality[local] == 1.0
    ensures v != local ==>
              && v in s.pred && u == s.pred[v] && u in s.quality && t.path[v] != [] && Init(t.path[v]) == t.path[u]
              && Last(t.path[v]).node == v && Last(t.path[v]) in LinksOf(g, u)
              && s.quality[v] == Times(s.quality[u], Last(t.path[v]).quality)
              && t.floor[v] == Lower(t.floor[u], KeyOf(s.quality, local, u))
  {
    u := if v == local then local else s.pred[v];
    assert v != local ==> Settled(s, u) && Extends(g, local, s.quality, t, u, v);
  }

  lemma {:induction false} TreePath(g: LinkMap, local: NodeId, s: Search, t: Tree, v: NodeId)
    requires TreeInv(g, local, s, t) && v in s.quality
    ensures IsWalk(g, local, t.path[v]) && End(local, t.path[v]) == v
    ensures Product(t.path[v]) == s.quality[v]
    ensures WalkFloor(s.quality, local, t.path[v]) == t.floor[v]
    ensures forall k :: 0 <= k < |t.path[v]| ==>
              && t.path[v][k].node in s.quality && t.path[t.path[v][k].node] == t.path[v][..k + 1]
    decreases |t.path[v]|
  {
    hide TreeInv, Times, Lower, KeyOf;
    var u := ParentOf(g, local, s, t, v);
    if v != local {
      var hops := t.path[v];
      TreePath(g, local, s, t, u);
      forall k | 0 <= k < |hops|
        ensures hops[k].node in s.quality && t.path[hops[k].node] == hops[..k + 1]
      {
        if k == |hops| - 1 {
          assert hops[..k + 1] == hops;
        } else {
          assert Init(hops)[k] == hops[k] && Init(hops)[..k + 1] == hops[..k + 1];
        }
      }
    }
  }

  /** A predecessor chain never visits a node twice. */
  lemma TreePathSimple(g: LinkMap, local: NodeId, s: Search, t: Tree, v: NodeId)
    requires TreeInv(g, local, s, t) && v in s.quality
    ensures NoRepeats(Visited(local, t.path[v]))
  {
    TreePath(g, local, s, t, v);
    hide Extends, Settled;
    var hops := t.path[v];
    var nodes := Visited(local, hops);
    assert forall i :: 0 <= i < |nodes| ==> nodes[i] in s.quality && |t.path[nodes[i]]| == i;
  }

  /** `chain` lists the nodes met when following predecessors from `dest` back to `local`. */
  ghost predicate IsChain(pred: map<NodeId, NodeId>, local: NodeId, dest: NodeId, chain: seq<Link>) {
    && chain != [] && Last(chain).node == dest
    && (forall k :: 0 <= k < |chain| ==> chain[k].node in pred && chain[k].node != local)
    && pred[chain[0].node] == local
    && (forall k :: 0 < k < |chain| ==> pred[chain[k].node] == chain[k - 1].node)
  }

  lemma {:induction false} TreeIsChain(g: LinkMap, local: NodeId, s: Search, t: Tree, d: NodeId)
    requires TreeInv(g, local, s, t) && d in s.quality
    ensures local !in s.pred
    ensures if d == local then t.path[d] == [] else IsChain(s.pred, local, d, t.path[d])
    decreases |t.path[d]|
  {
    hide TreeInv;
    var u := ParentOf(g, local, s, t, d);
    var hops := t.path[d];
    if d != local {
      TreeIsChain(g, local, s, t, u);
      assert hops == t.path[u] + [Last(hops)];
    }
  }

  // -------------------------------------------------------------- optimality

  ghost predicate Finished(g: LinkMap, local: NodeId, s: Search, t: Tree) {
    InvFor(g, g, local, s, t) && s.queue == []
  }

  lemma AllUsed(g: LinkMap, local: NodeId, s: Search, t: Tree, u: NodeId, link: Link)
    requires Finished(g, local, s, t) && u in s.quality && link in LinksOf(g, u)
    ensures s.quality.Keys == t.floor.Keys && Used(local, s.quality, t, u, link)
  {
    hide Used, Ranked, QueueInv;
    assert Settled(s, u);
  }

  /** No walk beats the quality found, and no equally good walk has a higher floor. */
  lemma {:induction false} WalkBound(g: LinkMap, local: NodeId, s: Search, t: Tree, hops: seq<Link>)
    requires Finished(g, local, s, t) && IsWalk(g, local, hops)
    ensures s.quality.Keys == t.floor.Keys && End(local, hops) in s.quality
    ensures Product(hops) <= s.quality[End(local, hops)]
    ensures 0.0 < Product(hops) == s.quality[End(local, hops)] ==>
              AtMost(WalkFloor(s.quality, local, hops), t.floor[End(local, hops)])
  {
    if hops != [] {
      var u, link := End(local, Init(hops)), Last(hops);
      WalkBound(g, local, s, t, Init(hops));
      AllUsed(g, local, s, t, u, link);
      hide Finished, IsWalk;
      MulMonotone(Product(Init(hops)), s.quality[u], link.quality);
      if 0.0 < Product(hops) == s.quality[link.node] {
        SameFactor(Product(Init(hops)), s.quality[u], link.quality);
      }
    }
  }

  lemma SameFactor(a: real, b: real, c: real)
    requires Times(a, c) == Times(b, c) && 0.0 < Times(a, c) && 0.0 <= c
    ensures a == b && 0.0 < a
  {
    assert (a - b) * c == 0.0;
  }

  // ------------------------------------------------------------------ routes

  datatype RouteEntry = RouteEntry(destination: NodeId, nextHop: NodeId, hopCount: nat, pathQuality: real)

  /** The route table a fresh recomputation yields: one entry per node found, read off its predecessor chain. */
  ghost function Routes(g: LinkMap, local: NodeId): map<NodeId, RouteEntry> {
    map d | d in Best(g, local) && d != local :: RouteFor(g, local, d)
  }

  ghost function RouteFor(g: LinkMap, local: NodeId, d: NodeId): RouteEntry
    requires d in Best(g, local) && d != local
  {
    PathFacts(g, local, d);
    var hops := PathTo(g, local, d);
    RouteEntry(d, hops[0].node, |hops|, Best(g, local)[d])
  }

  ghost predicate Reachable(g: LinkMap, from: NodeId, to: NodeId) {
    exists hops :: IsWalk(g, from, hops) && End(from, hops) == to
  }

  lemma PathFacts(g: LinkMap, local: NodeId, d: NodeId)
    requires d in Best(g, local)
    ensures IsWalk(g, local, PathTo(g, local, d)) && End(local, PathTo(g, local, d)) == d
    ensures Product(PathTo(g, local, d)) == Best(g, local)[d]
    ensures NoRepeats(Visited(local, PathTo(g, local, d)))
    ensures d != local <==> PathTo(g, local, d) != []
    ensures forall k :: 0 <= k < |PathTo(g, local, d)| ==>
              var v := PathTo(g, local, d)[k].node;
              v in Best(g, local) && PathTo(g, local, v) == PathTo(g, local, d)[..k + 1]
  {
    hide Solve, Relaxed, QueueInv, Ranked, Extends, Settled;
    var s, t := Solve(g, local), TreeOf(g, local);
    TreePath(g, local, s, t, d);
    TreePathSimple(g, local, s, t, d);
    assert t.path[local] == [];
  }

  lemma NoWalkIsBetter(g: LinkMap, local: NodeId, hops: seq<Link>)
    requires IsWalk(g, local, hops)
    ensures End(local, hops) in Best(g, local) && Product(hops) <= Best(g, local)[End(local, hops)]
  {
    hide Solve, InvFor, WalkFloor;
    WalkBound(g, local, Solve(g, local), TreeOf(g, local), hops);
  }

  /** Destinations are exactly the reachable nodes; each entry describes a simple path that exists in the link map and
      whose quality no walk to the same destination exceeds. */
  lemma RoutesAreOptimal(g: LinkMap, local: NodeId, d: NodeId)
    ensures d in Routes(g, local) <==> d != local && Reachable(g, local, d)
    ensures d in Routes(g, local) ==>
              var r, path := Routes(g, local)[d], PathTo(g, local, d);
              && IsWalk(g, local, path) && End(local, path) == d && NoRepeats(Visited(local, path))
              && r == RouteEntry(d, path[0].node, |path|, Product(path))
    ensures d in Routes(g, local) ==>
              forall hops :: IsWalk(g, local, hops) && End(local, hops) == d ==>
                Product(hops) <= Routes(g, local)[d].pathQuality
  {
    hide Best, PathTo, IsWalk, Product;
    if d in Best(g, local) {
      PathFacts(g, local, d);
    }
    forall hops | IsWalk(g, local, hops) && End(local, hops) == d
      ensures d in Best(g, local) && Product(hops) <= Best(g, local)[d]
    {
      NoWalkIsBetter(g, local, hops);
    }
  }

  // ---------------------------------------------------------------- tie rule

  /** A walk's floor is a lower bound of its inner nodes' keys. */
  lemma {:induction false} FloorIsBelow(quality: map<NodeId, real>, local: NodeId, hops: seq<Link>, k: nat)
    requires k + 1 < |hops|
    ensures AtMost(WalkFloor(quality, local, hops), KeyOf(quality, local, hops[k].node))
  {
    if k + 2 < |hops| {
      FloorIsBelow(quality, local, Init(hops), k);
    }
  }

  /** A floor that is not open is the key of an inner node. */
  lemma {:induction false} FloorAttained(quality: map<NodeId, real>, local: NodeId, hops: seq<Link>) returns (i: nat)
    requires WalkFloor(quality, local, hops).At?
    ensures i + 1 < |hops| && hops[i].node != local && hops[i].node in quality
    ensures WalkFloor(quality, local, hops).entry == Entry(quality[hops[i].node], hops[i].node)
  {
    var u := End(local, Init(hops));
    if WalkFloor(quality, local, hops) == WalkFloor(quality, local, Init(hops)) {
      i := FloorAttained(quality, local, Init(hops));
    } else {
      i := |hops| - 2;
    }
  }

  /** Whom an inner node loses against: a better node, or one as good with a higher (or the same) id. */
  predicate NotAhead(best: map<NodeId, real>, n: NodeId, m: NodeId)
    requires n in best && m in best
  {
    best[n] < best[m] || (best[n] == best[m] && n <= m)
  }

  /** The tie rule, in terms of qualities and ids. Of the walks to `d` that are as good as the route chosen, none keeps
      ahead of it: for each node the route passes, the walk passes one (other than the local node) of lower best quality,
      or of the same and with no higher id. */
  lemma TieRule(g: LinkMap, local: NodeId, d: NodeId, hops: seq<Link>, k: nat) returns (i: nat)
    requires d in Best(g, local) && IsWalk(g, local, hops) && End(local, hops) == d
    requires 0.0 < Product(hops) == Best(g, local)[d]
    requires k + 1 < |PathTo(g, local, d)|
    ensures i + 1 < |hops| && hops[i].node != local && hops[i].node in Best(g, local)
    ensures PathTo(g, local, d)[k].node in Best(g, local)
    ensures NotAhead(Best(g, local), hops[i].node, PathTo(g, local, d)[k].node)
  {
    var s, t := Solve(g, local), TreeOf(g, local);
    var m := PathTo(g, local, d)[k].node;
    PathFacts(g, local, d);
    assert Visited(local, PathTo(g, local, d))[0] == local && Visited(local, PathTo(g, local, d))[k + 1] == m;
    WalkBound(g, local, s, t, hops);
    TreePath(g, local, s, t, d);
    FloorIsBelow(s.quality, local, t.path[d], k);
    hide WalkFloor, InvFor, Solve, TreeOf, IsWalk, Product, Visited;
    i := FloorAttained(s.quality, local, hops);
  }

  ghost predicate AllPerfect(g: LinkMap) {
    forall u, l :: l in LinksOf(g, u) ==> l.quality == 1.0
  }

  lemma {:induction false} PerfectWalk(g: LinkMap, local: NodeId, hops: seq<Link>)
    requires AllPerfect(g) && IsWalk(g, local, hops)
    ensures Product(hops) == 1.0
  {
    if hops != [] {
      PerfectWalk(g, local, Init(hops));
    }
  }

  /** When all links are perfect, as between discovered peers, the route's lowest inner node is the highest possible: for
      each node it passes, any walk to the same place passes one, other than the local node, with no higher id. */
  lemma LowestInnerNodeIsHighest(g: LinkMap, local: NodeId, d: NodeId, hops: seq<Link>, k: nat)
    requires AllPerfect(g) && IsWalk(g, local, hops) && End(local, hops) == d
    ensures d in Best(g, local)
    ensures k + 1 < |PathTo(g, local, d)| ==>
              exists i :: 0 <= i && i + 1 < |hops| && hops[i].node != local
                          && hops[i].node <= PathTo(g, local, d)[k].node
  {
    NoWalkIsBetter(g, local, hops);
    PathFacts(g, local, d);
    PerfectWalk(g, local, hops);
    PerfectWalk(g, local, PathTo(g, local, d));
    if k + 1 < |PathTo(g, local, d)| {
      var i := TieRule(g, local, d, hops, k);
      var m := PathTo(g, local, d)[k].node;
      PerfectBest(g, local, hops[i].node);
      PerfectBest(g, local, m);
    }
  }

  lemma PerfectBest(g: LinkMap, local: NodeId, v: NodeId)
    requires AllPerfect(g) && v in Best(g, local)
    ensures Best(g, local)[v] == 1.0
  {
    PathFacts(g, local, v);
    PerfectWalk(g, local, PathTo(g, local, v));
  }

  /** So a route of more than one hop never starts below a common neighbor of both ends. */
  lemma CommonNeighbor(g: LinkMap, local: NodeId, d: NodeId, x: NodeId)
    requires AllPerfect(g) && HasLink(g, local, x, 1.0) && HasLink(g, x, d, 1.0) && d != local && x != local
    ensures d in Routes(g, local)
    ensures Routes(g, local)[d].nextHop == d || x <= Routes(g, local)[d].nextHop
  {
    hide Best, PathTo, NotAhead, AllPerfect;
    var hops := [Link(x, 1.0), Link(d, 1.0)];
    assert Init(hops) == [Link(x, 1.0)] && Init(Init(hops)) == [];
    assert IsWalk(g, local, Init(hops)) && IsWalk(g, local, hops);
    LowestInnerNodeIsHighest(g, local, d, hops, 0);
    PathFacts(g, local, d);
  }
}
