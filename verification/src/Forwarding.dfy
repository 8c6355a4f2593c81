/** Hop-by-hop forwarding: every router consults only its own table.

    Links may be perfect or worthless (quality 1.0 or 0.0), so the best quality to the destination need not rise at a
    hop. What always rises is the weakest inner node of the chosen path (in the queue's order, quality first and node id
    second), or the weakest inner node on the way to that node, and so on. */
module Forwarding {
  import opened Common
  import opened LinkMaps
  import opened RouteSearch
  import opened BestRoutes

  /** Every router keeps its own copy of the same links, in any order. */
  ghost predicate Fleet(maps: NodeId -> LinkMap, g: LinkMap) {
    forall r, u, v, q :: HasLink(maps(r), u, v, q) <==> HasLink(g, u, v, q)
  }

  ghost function Reach(maps: NodeId -> LinkMap, r: NodeId): map<NodeId, real> {
    Best(maps(r), r)
  }

  ghost function Path(maps: NodeId -> LinkMap, r: NodeId, d: NodeId): seq<Link>
    requires d in Reach(maps, r)
  {
    PathTo(maps(r), r, d)
  }

  /** The next hop in router `r`'s own table. */
  ghost function NextHop(maps: NodeId -> LinkMap, r: NodeId, d: NodeId): NodeId
    requires d in Reach(maps, r) && d != r
  {
    Routes(maps(r), r)[d].nextHop
  }

  ghost function FloorTo(maps: NodeId -> LinkMap, r: NodeId, d: NodeId): Floor
    requires d in Reach(maps, r)
  {
    TreeOf(maps(r), r).floor[d]
  }

  // ------------------------------------------------------------ walks and maps

  lemma {:induction false} SameWalks(h: LinkMap, g: LinkMap, from: NodeId, hops: seq<Link>)
    requires forall u, v, q :: HasLink(h, u, v, q) <==> HasLink(g, u, v, q)
    ensures IsWalk(h, from, hops) <==> IsWalk(g, from, hops)
  {
    if hops != [] {
      SameWalks(h, g, from, Init(hops));
      var u, l := End(from, Init(hops)), Last(hops);
      assert HasLink(h, u, l.node, l.quality) <==> HasLink(g, u, l.node, l.quality);
    }
  }

  lemma {:induction false} Prepend(g: LinkMap, from: NodeId, link: Link, hops: seq<Link>)
    requires link in LinksOf(g, from) && IsWalk(g, link.node, hops)
    ensures IsWalk(g, from, [link] + hops) && End(from, [link] + hops) == End(link.node, hops)
    ensures Product([link] + hops) == Times(link.quality, Product(hops))
  {
    if hops == [] {
      assert [link] + hops == [link] && Init([link]) == [];
      assert Product([link]) == Times(1.0, link.quality);
    } else {
      Prepend(g, from, link, Init(hops));
      assert Init([link] + hops) == [link] + Init(hops);
      var a, b, c := link.quality, Product(Init(hops)), Last(hops).quality;
      assert (a * b) * c == a * (b * c);
    }
  }

  /** Across one link the best quality to anywhere falls at most by the link's quality. */
  lemma AcrossLink(maps: NodeId -> LinkMap, g: LinkMap, a: NodeId, link: Link, d: NodeId)
    requires Fleet(maps, g) && HasLink(g, a, link.node, link.quality) && d in Reach(maps, link.node)
    ensures d in Reach(maps, a) && Times(link.quality, Reach(maps, link.node)[d]) <= Reach(maps, a)[d]
  {
    hide Best, PathTo, IsWalk, Product;
    var b := link.node;
    var hops := Path(maps, b, d);
    PathFacts(maps(b), b, d);
    SameWalks(maps(b), g, b, hops);
    SameWalks(maps(a), g, b, hops);
    assert HasLink(maps(a), a, b, link.quality);
    Prepend(maps(a), a, link, hops);
    NoWalkIsBetter(maps(a), a, [link] + hops);
  }

  lemma NextHopIs(maps: NodeId -> LinkMap, r: NodeId, d: NodeId)
    requires d in Reach(maps, r) && d != r
    ensures Path(maps, r, d) != [] && NextHop(maps, r, d) == Path(maps, r, d)[0].node
  {
    hide Best, PathTo;
    PathFacts(maps(r), r, d);
  }

  /** Handing a packet to the next hop multiplies the best quality by exactly the quality of the link used. So the best
      quality never falls, and rises strictly unless the link is perfect or there is nothing left to lose. */
  lemma HopQuality(maps: NodeId -> LinkMap, g: LinkMap, r: NodeId, d: NodeId)
    requires Fleet(maps, g) && d in Reach(maps, r) && d != r
    ensures Path(maps, r, d) != [] && NextHop(maps, r, d) == Path(maps, r, d)[0].node
    ensures var link := Path(maps, r, d)[0];
            HasLink(g, r, link.node, link.quality) && d in Reach(maps, link.node)
    ensures var link := Path(maps, r, d)[0]; var q, q' := Reach(maps, r)[d], Reach(maps, link.node)[d];
            q == Times(link.quality, q') && 0.0 <= q <= q' && (link.quality < 1.0 && 0.0 < q' ==> q < q')
  {
    hide Best, PathTo, IsWalk, Product, Times, NoRepeats, Visited, NextHop;
    NextHopIs(maps, r, d);
    var hops := Path(maps, r, d);
    var link, tail := hops[0], hops[1..];
    var b := link.node;
    PathFacts(maps(r), r, d);
    WalkTail(maps(r), r, hops);
    SameWalks(maps(r), g, b, tail);
    SameWalks(maps(b), g, b, tail);
    assert HasLink(maps(r), r, b, link.quality);
    assert HasLink(g, r, b, link.quality);
    NoWalkIsBetter(maps(b), b, tail);
    AcrossLink(maps, g, r, link, d);
    Shrunk(link.quality, Product(tail), Reach(maps, b)[d]);
  }

  lemma Shrunk(a: real, x: real, y: real)
    requires 0.0 <= a <= 1.0 && 0.0 <= x <= y && Times(a, y) <= Times(a, x)
    ensures Times(a, x) == Times(a, y) && 0.0 <= Times(a, y) <= y && (a < 1.0 && 0.0 < y ==> Times(a, y) < y)
  {
    assert a * y - a * x == a * (y - x);
    assert y - a * y == (1.0 - a) * y;
    MulMonotone(x, y, a);
    MulShrinks(y, a);
    if a < 1.0 && 0.0 < y { Positive(1.0 - a, y); }
  }

  lemma Positive(a: real, b: real)
    requires 0.0 < a && 0.0 < b
    ensures 0.0 < a * b
  {
  }

  // ------------------------------------------------------------------ floors

  /** When a floor is not open it is the key of an inner node, whose own path is a proper prefix. */
  lemma {:induction false} FloorIsInner(g: LinkMap, local: NodeId, s: Search, t: Tree, v: NodeId)
    requires TreeInv(g, local, s, t) && v in s.quality && t.floor[v].At?
    ensures var m := t.floor[v].entry.node;
            m in s.quality && m != local && v != local && 0 < |t.path[m]| < |t.path[v]| && t.path[m] <= t.path[v]
    decreases |t.path[v]|
  {
    hide Times;
    var u := s.pred[v];
    assert Extends(g, local, s.quality, t, u, v);
    assert u != local ==> Extends(g, local, s.quality, t, s.pred[u], u);
    assert Init(t.path[v]) <= t.path[v];
    if t.floor[v] == t.floor[u] && t.floor[u].At? {
      FloorIsInner(g, local, s, t, u);
    }
  }

  lemma FloorFacts(maps: NodeId -> LinkMap, r: NodeId, d: NodeId)
    requires d in Reach(maps, r)
    ensures FloorTo(maps, r, d) == WalkFloor(Reach(maps, r), r, Path(maps, r, d))
    ensures FloorTo(maps, r, d).At? ==>
              var m := FloorTo(maps, r, d).entry.node;
              && m in Reach(maps, r) && m != r && d != r
              && 0 < |Path(maps, r, m)| < |Path(maps, r, d)| && Path(maps, r, m) <= Path(maps, r, d)
  {
    hide TreeInv, QueueInv, Relaxed, Ranked, IsWalk, Product, WalkFloor;
    var g := maps(r);
    TreePath(g, r, Solve(g, r), TreeOf(g, r), d);
    if FloorTo(maps, r, d).At? {
      FloorIsInner(g, r, Solve(g, r), TreeOf(g, r), d);
    }
  }

  /** Only a direct hop has no inner node. */
  lemma OpenIsDirect(quality: map<NodeId, real>, r: NodeId, hops: seq<Link>)
    requires hops != [] && NoRepeats(Visited(r, hops)) && hops[0].node in quality
    requires WalkFloor(quality, r, hops).Open?
    ensures |hops| == 1
  {
    hide WalkFloor;
    assert Visited(r, hops)[0] == r && Visited(r, hops)[1] == hops[0].node;
    if |hops| > 1 {
      FloorIsBelow(quality, r, hops, 0);
    }
  }

  /** The path to a node of positive quality has inner nodes of positive quality only. */
  lemma {:induction false} PositiveFloor(g: LinkMap, local: NodeId, s: Search, t: Tree, v: NodeId)
    requires TreeInv(g, local, s, t) && v in s.quality && 0.0 < s.quality[v]
    ensures v in t.floor && (t.floor[v].At? ==> 0.0 < t.floor[v].entry.quality)
    decreases |t.path[v]|
  {
    hide TreeInv, Times;
    var u := ParentOf(g, local, s, t, v);
    if v != local {
      ZeroTimes(s.quality[u], Last(t.path[v]).quality);
      NotNegative(g, local, s, t, u);
      PositiveFloor(g, local, s, t, u);
    }
  }

  lemma NotNegative(g: LinkMap, local: NodeId, s: Search, t: Tree, u: NodeId)
    requires TreeInv(g, local, s, t) && u in s.quality
    ensures 0.0 <= s.quality[u]
  {
  }

  lemma ZeroTimes(a: real, b: real)
    ensures a == 0.0 || b == 0.0 ==> Times(a, b) == 0.0
  {
  }

  /** In the next router's own search the floor of each node on the rest of the path is no lower than the floor of the
      whole path. Either its search takes the same link as good as its best, and then prefers the path with the higher
      floor; or it knows a strictly better way, and then the link into the next router had quality 0, which put every
      node of the path below it. */
  lemma {:induction false} FloorAlong(maps: NodeId -> LinkMap, g: LinkMap, r: NodeId, d: NodeId, k: nat)
    requires Fleet(maps, g) && d in Reach(maps, r) && k < |Path(maps, r, d)|
    ensures var hops := Path(maps, r, d);
            hops[k].node in Reach(maps, hops[0].node) &&
            AtMost(FloorTo(maps, r, d), FloorTo(maps, hops[0].node, hops[k].node))
  {
    hide Best, PathTo, IsWalk, Product, FloorTo, Fleet, NoRepeats, Visited;
    var b := Path(maps, r, d)[0].node;
    if k == 0 {
      SelfReach(maps, b);
    } else {
      FloorAlong(maps, g, r, d, k - 1);
      OnPath(maps, g, r, d, k - 1);
      OnPath(maps, g, r, d, k);
      PathLink(maps, g, r, d, k);
      var u, link := Path(maps, r, d)[k - 1].node, Path(maps, r, d)[k];
      LinkUsed(maps, g, b, u, link);
      InnerKey(maps, g, r, d, k - 1);
      hide Reach, Path;
      FloorStep(maps, r, d, b, u, link, Path(maps, r, d)[0].quality);
    }
  }

  /** The nodes of a chosen path are reached over its prefixes, through the same next hop. */
  lemma OnPath(maps: NodeId -> LinkMap, g: LinkMap, r: NodeId, d: NodeId, k: nat)
    requires Fleet(maps, g) && d in Reach(maps, r) && k < |Path(maps, r, d)|
    ensures var hops := Path(maps, r, d); var v := hops[k].node;
            && v in Reach(maps, r) && v in Reach(maps, hops[0].node) && v != r && Path(maps, r, v) == hops[..k + 1]
            && Reach(maps, r)[v] == Times(hops[0].quality, Reach(maps, hops[0].node)[v])
            && 0.0 <= Reach(maps, r)[v] <= Reach(maps, hops[0].node)[v]
  {
    hide Best, PathTo, IsWalk, Product, Fleet;
    PathFacts(maps(r), r, d);
    var hops := Path(maps, r, d);
    assert Visited(r, hops)[0] == r && Visited(r, hops)[k + 1] == hops[k].node;
    hide NoRepeats, Visited;
    HopQuality(maps, g, r, hops[k].node);
  }

  lemma PathLink(maps: NodeId -> LinkMap, g: LinkMap, r: NodeId, d: NodeId, k: nat)
    requires Fleet(maps, g) && d in Reach(maps, r) && 0 < k < |Path(maps, r, d)|
    ensures var hops := Path(maps, r, d); var u, link := hops[k - 1].node, hops[k];
            && HasLink(g, u, link.node, link.quality)
            && u in Reach(maps, r) && link.node in Reach(maps, r)
            && Reach(maps, r)[link.node] == Times(Reach(maps, r)[u], link.quality)
  {
    hide Best, PathTo, NoRepeats, Visited;
    PathFacts(maps(r), r, d);
    var hops := Path(maps, r, d);
    PathFacts(maps(r), r, hops[k - 1].node);
    PathFacts(maps(r), r, hops[k].node);
    WalkPrefix(maps(r), r, hops, k + 1);
    assert Init(hops[..k + 1]) == hops[..k] && Last(hops[..k]).node == hops[k - 1].node;
    assert HasLink(maps(r), hops[k - 1].node, hops[k].node, hops[k].quality);
  }

  /** Every link out of a router's known nodes has been used in that router's search. */
  lemma LinkUsed(maps: NodeId -> LinkMap, g: LinkMap, b: NodeId, u: NodeId, link: Link)
    requires Fleet(maps, g) && u in Reach(maps, b) && HasLink(g, u, link.node, link.quality)
    ensures link.node in Reach(maps, b)
    ensures var q := Reach(maps, b);
            && Times(q[u], link.quality) <= q[link.node]
            && (Times(q[u], link.quality) == q[link.node] ==>
                  AtMost(Lower(FloorTo(maps, b, u), KeyOf(q, b, u)), FloorTo(maps, b, link.node)))
            && (0.0 < q[link.node] && FloorTo(maps, b, link.node).At? ==> 0.0 < FloorTo(maps, b, link.node).entry.quality)
  {
    assert HasLink(maps(b), u, link.node, link.quality);
    var s, t := Solve(maps(b), b), TreeOf(maps(b), b);
    hide Solve, TreeInv, QueueInv, Relaxed, Ranked, Times, Lower, KeyOf;
    AllUsed(maps(b), b, s, t, u, link);
    if 0.0 < s.quality[link.node] {
      PositiveFloor(maps(b), b, s, t, link.node);
    }
  }

  /** An inner node of the path bounds its floor, and has no lower a key in the next router's search. */
  lemma InnerKey(maps: NodeId -> LinkMap, g: LinkMap, r: NodeId, d: NodeId, k: nat)
    requires Fleet(maps, g) && d in Reach(maps, r) && k + 1 < |Path(maps, r, d)|
    ensures var hops := Path(maps, r, d); var u := hops[k].node;
            && u in Reach(maps, r) && u in Reach(maps, hops[0].node)
            && AtMost(FloorTo(maps, r, d), At(Entry(Reach(maps, r)[u], u)))
            && AtMost(FloorTo(maps, r, d), KeyOf(Reach(maps, hops[0].node), hops[0].node, u))
  {
    hide Best, PathTo, IsWalk, Product, WalkFloor, FloorTo, Fleet;
    OnPath(maps, g, r, d, k);
    FloorFacts(maps, r, d);
    FloorIsBelow(Reach(maps, r), r, Path(maps, r, d), k);
  }

  /** The two ways the next router's search can have treated a link of the path. */
  lemma FloorStep(maps: NodeId -> LinkMap, r: NodeId, d: NodeId, b: NodeId, u: NodeId, link: Link, first: real)
    requires d in Reach(maps, r) && u in Reach(maps, r) && link.node in Reach(maps, r)
    requires u in Reach(maps, b) && link.node in Reach(maps, b) && 0.0 <= first
    requires var q := Reach(maps, r); var q' := Reach(maps, b); var v := link.node;
             && q[u] == Times(first, q'[u]) && q[v] == Times(first, q'[v]) && q[v] == Times(q[u], link.quality)
             && 0.0 <= q[u] <= q'[u] && 0.0 <= q[v] <= q'[v]
             && Times(q'[u], link.quality) <= q'[v]
             && (Times(q'[u], link.quality) == q'[v] ==>
                   AtMost(Lower(FloorTo(maps, b, u), KeyOf(q', b, u)), FloorTo(maps, b, v)))
             && (0.0 < q'[v] && FloorTo(maps, b, v).At? ==> 0.0 < FloorTo(maps, b, v).entry.quality)
    requires AtMost(FloorTo(maps, r, d), FloorTo(maps, b, u))
    requires AtMost(FloorTo(maps, r, d), At(Entry(Reach(maps, r)[u], u)))
    requires AtMost(FloorTo(maps, r, d), KeyOf(Reach(maps, b), b, u))
    ensures AtMost(FloorTo(maps, r, d), FloorTo(maps, b, link.node))
  {
    var q', v := Reach(maps, b), link.node;
    hide Reach, FloorTo, KeyOf;
    if Times(q'[u], link.quality) < q'[v] {
      ZeroFactor(first, q'[u], link.quality, q'[v]);
      MulShrinks(q'[u], link.quality);
    }
  }

  lemma ZeroFactor(a: real, x: real, c: real, y: real)
    requires 0.0 <= a && Times(a, y) == Times(Times(a, x), c) && Times(x, c) < y
    ensures a == 0.0 && Times(a, x) == 0.0
  {
    assert a * y - (a * x) * c == a * (y - x * c);
  }

  /** At the next hop the floor of the route does not fall. */
  lemma FloorRises(maps: NodeId -> LinkMap, g: LinkMap, r: NodeId, d: NodeId)
    requires Fleet(maps, g) && d in Reach(maps, r) && d != r
    ensures d in Reach(maps, NextHop(maps, r, d))
    ensures AtMost(FloorTo(maps, r, d), FloorTo(maps, NextHop(maps, r, d), d))
  {
    hide Best, PathTo, IsWalk, Product, FloorTo, NextHop, NoRepeats, Visited;
    NextHopIs(maps, r, d);
    PathFacts(maps(r), r, d);
    FloorAlong(maps, g, r, d, |Path(maps, r, d)| - 1);
  }

  lemma DirectHop(maps: NodeId -> LinkMap, r: NodeId, d: NodeId)
    requires d in Reach(maps, r) && d != r && FloorTo(maps, r, d).Open?
    ensures NextHop(maps, r, d) == d
  {
    hide Best, PathTo, IsWalk, Product, TreeOf, WalkFloor, Visited, NoRepeats, AtMost, FloorTo, NextHop;
    PathFacts(maps(r), r, d);
    NextHopIs(maps, r, d);
    FloorFacts(maps, r, d);
    OpenIsDirect(Reach(maps, r), r, Path(maps, r, d));
  }

  // --------------------------------------------------------------- potential

  /** The floor of the route to `d`, then of the route to the node that attains it, and so on. */
  ghost function Bottlenecks(maps: NodeId -> LinkMap, r: NodeId, d: NodeId): (p: seq<Floor>)
    requires d in Reach(maps, r)
    ensures p != []
    decreases |Path(maps, r, d)|
  {
    var f := FloorTo(maps, r, d);
    FloorFacts(maps, r, d);
    if f.Open? then [f] else [f] + Bottlenecks(maps, r, f.entry.node)
  }

  predicate Below(a: Floor, b: Floor) {
    !AtMost(b, a)
  }

  predicate LexBelow(a: seq<Floor>, b: seq<Floor>) {
    a != [] && b != [] && (Below(a[0], b[0]) || (a[0] == b[0] && LexBelow(a[1..], b[1..])))
  }

  lemma {:induction false} LexIrreflexive(a: seq<Floor>)
    ensures !LexBelow(a, a)
  {
    if a != [] { LexIrreflexive(a[1..]); }
  }

  lemma {:induction false} LexTransitive(a: seq<Floor>, b: seq<Floor>, c: seq<Floor>)
    requires LexBelow(a, b) && LexBelow(b, c)
    ensures LexBelow(a, c)
  {
    if a[0] == b[0] == c[0] { LexTransitive(a[1..], b[1..], c[1..]); }
  }

  /** At every hop the sequence of bottlenecks rises strictly: if the first stays the same, it is some node other than
      the next router, the next hop towards that node is the same, and the sequence towards that node rises. */
  lemma {:induction false} BottlenecksRise(maps: NodeId -> LinkMap, g: LinkMap, r: NodeId, d: NodeId)
    requires Fleet(maps, g) && d in Reach(maps, r) && d != r && NextHop(maps, r, d) != d
    ensures d in Reach(maps, NextHop(maps, r, d))
    ensures LexBelow(Bottlenecks(maps, r, d), Bottlenecks(maps, NextHop(maps, r, d), d))
    decreases |Path(maps, r, d)|
  {
    hide Fleet, Reach, Path, FloorTo, NextHop, WalkFloor;
    var b := NextHop(maps, r, d);
    var f := FloorTo(maps, r, d);
    FloorRises(maps, g, r, d);
    FloorFacts(maps, r, d);
    FloorFacts(maps, b, d);
    NextHopIs(maps, r, d);
    if f.Open? {
      DirectHop(maps, r, d);
    } else if FloorTo(maps, b, d) == f {
      var m := f.entry.node;
      NextHopIs(maps, r, m);
      BottlenecksRise(maps, g, r, m);
    }
  }

  // -------------------------------------------------------------- forwarding

  /** `b` is strictly better placed than `a` on the way to `d`. */
  ghost predicate Closer(maps: NodeId -> LinkMap, d: NodeId, a: NodeId, b: NodeId) {
    d in Reach(maps, a) && d in Reach(maps, b) && LexBelow(Bottlenecks(maps, a, d), Bottlenecks(maps, b, d))
  }

  lemma CloserIsStrictOrder(maps: NodeId -> LinkMap, d: NodeId, a: NodeId, b: NodeId, c: NodeId)
    ensures !Closer(maps, d, a, a)
    ensures Closer(maps, d, a, b) && Closer(maps, d, b, c) ==> Closer(maps, d, a, c)
  {
    hide Reach, Bottlenecks, LexBelow;
    if d in Reach(maps, a) {
      LexIrreflexive(Bottlenecks(maps, a, d));
    }
    if Closer(maps, d, a, b) && Closer(maps, d, b, c) {
      LexTransitive(Bottlenecks(maps, a, d), Bottlenecks(maps, b, d), Bottlenecks(maps, c, d));
    }
  }

  /** Every hop either arrives or lands on a strictly better placed router. */
  lemma HopAdvances(maps: NodeId -> LinkMap, g: LinkMap, r: NodeId, d: NodeId)
    requires Fleet(maps, g) && d in Reach(maps, r) && d != r
    ensures NextHop(maps, r, d) in Nodes(g) && d in Reach(maps, NextHop(maps, r, d))
    ensures NextHop(maps, r, d) == d || Closer(maps, d, r, NextHop(maps, r, d))
  {
    hide Reach, Path, NextHop, Fleet, Bottlenecks, LexBelow, IsWalk, Product;
    HopQuality(maps, g, r, d);
    LinkedNode(g, r, Path(maps, r, d)[0]);
    if NextHop(maps, r, d) != d {
      BottlenecksRise(maps, g, r, d);
    }
  }

  ghost function Ahead(maps: NodeId -> LinkMap, g: LinkMap, r: NodeId, d: NodeId): set<NodeId> {
    set n | n in Nodes(g) && Closer(maps, d, r, n)
  }

  lemma AheadShrinks(maps: NodeId -> LinkMap, g: LinkMap, d: NodeId, a: NodeId, b: NodeId)
    requires Closer(maps, d, a, b) && b in Nodes(g)
    ensures |Ahead(maps, g, b, d)| < |Ahead(maps, g, a, d)|
  {
    hide Closer, Nodes;
    forall n | n in Ahead(maps, g, b, d) ensures n in Ahead(maps, g, a, d) {
      CloserIsStrictOrder(maps, d, a, b, n);
    }
    CloserIsStrictOrder(maps, d, b, b, b);
    var x, y := Ahead(maps, g, b, d), Ahead(maps, g, a, d);
    assert b in y && b !in x;
    SmallerSubset(x, y);
  }

  lemma SmallerSubset(x: set<NodeId>, y: set<NodeId>)
    requires x < y
    ensures |x| < |y|
  {
    assert y == x + (y - x);
    assert y - x != {};
  }

  /** The routers a packet from `r` to `d` passes, each one asking only its own table. */
  ghost function Forward(maps: NodeId -> LinkMap, g: LinkMap, r: NodeId, d: NodeId): (trail: seq<NodeId>)
    requires Fleet(maps, g) && d in Reach(maps, r)
    ensures trail != [] && trail[0] == r
    decreases r != d, |Ahead(maps, g, r, d)|
  {
    if r == d then [d]
    else
      HopAdvances(maps, g, r, d);
      var b := NextHop(maps, r, d);
      if b == d then [r, d]
      else
        AheadShrinks(maps, g, d, r, b);
        [r] + Forward(maps, g, b, d)
  }

  /** Forwarding arrives, never visits a router twice, and the walk the packet takes is a best walk from its source:
      local decisions lose nothing. */
  lemma {:induction false} ForwardingArrives(maps: NodeId -> LinkMap, g: LinkMap, r: NodeId, d: NodeId)
    returns (hops: seq<Link>)
    requires Fleet(maps, g) && d in Reach(maps, r)
    ensures Last(Forward(maps, g, r, d)) == d
    ensures NoRepeats(Forward(maps, g, r, d))
    ensures forall n :: n in Forward(maps, g, r, d) ==> n == d || n == r || Closer(maps, d, r, n)
    ensures IsWalk(g, r, hops) && Visited(r, hops) == Forward(maps, g, r, d)
    ensures Product(hops) == Reach(maps, r)[d]
    decreases r != d, |Ahead(maps, g, r, d)|
  {
    hide Reach, Path, NextHop, Closer, Ahead, Nodes, Fleet, IsWalk, Product, Visited, End, Times, LinksOf;
    EmptyWalk(g, d);
    if r == d {
      hops := [];
      SelfReach(maps, r);
    } else {
      HopAdvances(maps, g, r, d);
      HopQuality(maps, g, r, d);
      var link := Path(maps, r, d)[0];
      var b := link.node;
      var rest: seq<Link>;
      if b == d {
        rest := [];
        SelfReach(maps, d);
      } else {
        AheadShrinks(maps, g, d, r, b);
        rest := ForwardingArrives(maps, g, b, d);
        TrailGrows(maps, g, r, b, d);
      }
      PrependTo(g, r, link, rest);
      hops := [link] + rest;
    }
  }

  lemma EmptyWalk(g: LinkMap, r: NodeId)
    ensures IsWalk(g, r, []) && Product([]) == 1.0 && Visited(r, []) == [r]
  {
  }

  lemma PrependTo(g: LinkMap, from: NodeId, link: Link, hops: seq<Link>)
    requires HasLink(g, from, link.node, link.quality) && IsWalk(g, link.node, hops)
    ensures IsWalk(g, from, [link] + hops) && Visited(from, [link] + hops) == [from] + Visited(link.node, hops)
    ensures Product([link] + hops) == Times(link.quality, Product(hops))
  {
    hide IsWalk, Product, Times, End;
    Prepend(g, from, link, hops);
  }

  lemma SelfReach(maps: NodeId -> LinkMap, r: NodeId)
    ensures r in Reach(maps, r) && Reach(maps, r)[r] == 1.0 && FloorTo(maps, r, r) == Open
  {
    hide Solve, Relaxed, QueueInv, Ranked;
    var t := TreeOf(maps(r), r);
  }

  lemma TrailGrows(maps: NodeId -> LinkMap, g: LinkMap, r: NodeId, b: NodeId, d: NodeId)
    requires Fleet(maps, g) && d in Reach(maps, r) && d in Reach(maps, b) && r != d && Closer(maps, d, r, b)
    requires forall n :: n in Forward(maps, g, b, d) ==> n == d || n == b || Closer(maps, d, b, n)
    requires NoRepeats(Forward(maps, g, b, d))
    ensures NoRepeats([r] + Forward(maps, g, b, d))
    ensures forall n :: n in [r] + Forward(maps, g, b, d) ==> n == d || n == r || Closer(maps, d, r, n)
  {
    hide Reach, Closer, Forward;
    var trail := Forward(maps, g, b, d);
    forall n | n in trail ensures n != r && (n == d || Closer(maps, d, r, n)) {
      CloserIsStrictOrder(maps, d, r, b, n);
      CloserIsStrictOrder(maps, d, r, r, r);
    }
  }
}
