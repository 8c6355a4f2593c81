/** The link map a router keeps, and the walks it contains. */
module LinkMaps {
  import opened Common

  type NodeId = U32

  /** A link quality, "0.0 to 1.0, higher is better". */
  type Quality = q: real | 0.0 <= q <= 1.0 witness 1.0

  datatype Link = Link(node: NodeId, quality: Quality)

  /** node -> list of (neighbor, quality), in insertion order. */
  type LinkMap = map<NodeId, seq<Link>>

  function LinksOf(g: LinkMap, u: NodeId): seq<Link> {
    if u in g then g[u] else []
  }

  predicate HasLink(g: LinkMap, u: NodeId, v: NodeId, q: Quality) {
    Link(v, q) in LinksOf(g, u)
  }

  /** Every node that owns a list or is named in one. */
  ghost function Nodes(g: LinkMap): set<NodeId> {
    g.Keys + set u, i | u in g && 0 <= i < |g[u]| :: g[u][i].node
  }

  // ---------------------------------------------------------------- updates

  /** Overwrite the first entry for `b`, or append one. */
  function SetLink(links: seq<Link>, b: NodeId, q: Quality): seq<Link> {
    if links == [] then [Link(b, q)]
    else if links[0].node == b then [Link(b, q)] + links[1..]
    else [links[0]] + SetLink(links[1..], b, q)
  }

  function SetHalf(g: LinkMap, a: NodeId, b: NodeId, q: Quality): LinkMap {
    g[a := SetLink(LinksOf(g, a), b, q)]
  }

  function UpdateLink(g: LinkMap, a: NodeId, b: NodeId, q: Quality): LinkMap {
    SetHalf(SetHalf(g, a, b, q), b, a, q)
  }

  function DropLinksTo(links: seq<Link>, n: NodeId): seq<Link> {
    if links == [] then []
    else if links[0].node == n then DropLinksTo(links[1..], n)
    else [links[0]] + DropLinksTo(links[1..], n)
  }

  function RemoveNode(g: LinkMap, n: NodeId): LinkMap {
    map u | u in g && u != n :: DropLinksTo(g[u], n)
  }

  // -------------------------------------------------------- well-formedness

  predicate DistinctNodes(links: seq<Link>) {
    forall i, j :: 0 <= i < j < |links| ==> links[i].node != links[j].node
  }

  /** At most one entry per ordered pair. */
  ghost predicate Unique(g: LinkMap) {
    forall u :: u in g ==> DistinctNodes(g[u])
  }

  ghost predicate Symmetric(g: LinkMap) {
    forall u, v, q :: HasLink(g, u, v, q) ==> HasLink(g, v, u, q)
  }

  ghost predicate WellFormed(g: LinkMap) {
    Unique(g) && Symmetric(g)
  }

  lemma {:induction false} SetLinkContents(links: seq<Link>, b: NodeId, q: Quality)
    requires DistinctNodes(links)
    ensures DistinctNodes(SetLink(links, b, q))
    ensures forall l :: l in SetLink(links, b, q) <==> l == Link(b, q) || (l in links && l.node != b)
  {
    if links != [] {
      var rest := links[1..];
      assert links == [links[0]] + rest;
      if links[0].node == b {
        assert forall l :: l in rest ==> l.node != b;
      } else {
        SetLinkContents(rest, b, q);
        var r := SetLink(rest, b, q);
        assert forall i :: 0 <= i < |r| ==> r[i] in r;
        assert links[0].node !in (set l | l in r :: l.node);
      }
    }
  }

  lemma {:induction false} DropLinksContents(links: seq<Link>, n: NodeId)
    requires DistinctNodes(links)
    ensures DistinctNodes(DropLinksTo(links, n))
    ensures forall l :: l in DropLinksTo(links, n) <==> l in links && l.node != n
  {
    if links != [] {
      var rest := links[1..];
      assert links == [links[0]] + rest;
      DropLinksContents(rest, n);
      var r := DropLinksTo(rest, n);
      assert forall i :: 0 <= i < |r| ==> r[i] in r;
    }
  }

  /** What a bidirectional update does to the map, as a relation on links. */
  lemma UpdateLinkMeaning(g: LinkMap, a: NodeId, b: NodeId, q: Quality)
    requires Unique(g)
    ensures Unique(UpdateLink(g, a, b, q))
    ensures forall x, y, r :: HasLink(UpdateLink(g, a, b, q), x, y, r) <==>
              if (x == a && y == b) || (x == b && y == a) then r == q else HasLink(g, x, y, r)
  {
    var h := SetHalf(g, a, b, q);
    SetLinkContents(LinksOf(g, a), b, q);
    assert forall x, y, r :: HasLink(h, x, y, r) <==>
             if x == a && y == b then r == q else HasLink(g, x, y, r);
    SetLinkContents(LinksOf(h, b), a, q);
  }

  /** Removing a node removes exactly the links that touch it. */
  lemma RemoveNodeMeaning(g: LinkMap, n: NodeId)
    requires Unique(g)
    ensures Unique(RemoveNode(g, n))
    ensures forall x, y, r :: HasLink(RemoveNode(g, n), x, y, r) <==>
              x != n && y != n && HasLink(g, x, y, r)
  {
    forall u | u in g
      ensures DistinctNodes(DropLinksTo(g[u], n))
      ensures forall l :: l in DropLinksTo(g[u], n) <==> l in g[u] && l.node != n
    {
      DropLinksContents(g[u], n);
    }
  }

  // ------------------------------------------------------------------ walks

  /** Where a walk (a list of hops) from `from` ends. */
  function End(from: NodeId, hops: seq<Link>): NodeId {
    if hops == [] then from else Last(hops).node
  }

  ghost predicate IsWalk(g: LinkMap, from: NodeId, hops: seq<Link>) {
    hops == [] ||
    (IsWalk(g, from, Init(hops)) && Last(hops) in LinksOf(g, End(from, Init(hops))))
  }

  /** Quality of a path of quality `a` extended by a link of quality `b`. */
  function Times(a: real, b: real): real {
    a * b
  }

  /** Left-to-right product of link qualities along a walk. */
  function Product(hops: seq<Link>): (r: real)
    ensures 0.0 <= r <= 1.0
  {
    if hops == [] then 1.0
    else
      MulShrinks(Product(Init(hops)), Last(hops).quality);
      Times(Product(Init(hops)), Last(hops).quality)
  }

  /** The nodes a walk visits, its start included. */
  function Visited(from: NodeId, hops: seq<Link>): seq<NodeId> {
    [from] + seq(|hops|, i requires 0 <= i < |hops| => hops[i].node)
  }

  lemma MulShrinks(a: real, b: real)
    requires 0.0 <= a && 0.0 <= b <= 1.0
    ensures 0.0 <= Times(a, b) <= a
  {
    assert a - a * b == a * (1.0 - b);
  }

  lemma MulMonotone(a: real, b: real, c: real)
    requires a <= b && 0.0 <= c
    ensures Times(a, c) <= Times(b, c)
  {
  }

  /** Splitting off the first hop of a walk. */
  lemma {:induction false} WalkTail(g: LinkMap, from: NodeId, hops: seq<Link>)
    requires IsWalk(g, from, hops) && hops != []
    ensures hops[0] in LinksOf(g, from)
    ensures IsWalk(g, hops[0].node, hops[1..])
    ensures End(hops[0].node, hops[1..]) == End(from, hops)
    ensures Product(hops) == Times(hops[0].quality, Product(hops[1..]))
  {
    if |hops| == 1 {
      assert Init(hops) == [];
      assert Product(hops) == 1.0 * hops[0].quality;
    } else {
      var front := Init(hops);
      WalkTail(g, from, front);
      assert front[0] == hops[0];
      assert Init(hops[1..]) == front[1..];
      assert Last(hops[1..]) == Last(hops);
      var a, b, c := hops[0].quality, Product(front[1..]), Last(hops).quality;
      assert (a * b) * c == a * (b * c);
    }
  }

  lemma {:induction false} WalkPrefix(g: LinkMap, from: NodeId, hops: seq<Link>, k: nat)
    requires IsWalk(g, from, hops) && k <= |hops|
    ensures IsWalk(g, from, hops[..k])
  {
    if k < |hops| {
      WalkPrefix(g, from, Init(hops), k);
      assert Init(hops)[..k] == hops[..k];
    } else {
      assert hops[..k] == hops;
    }
  }
}
