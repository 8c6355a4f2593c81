/** The lazy-deletion Dijkstra of RouteTable::recompute, step by step.

    `Search` is the state of the `while` loop; `Step` is one iteration. The invariant `Inv` speaks about the state
    with the help of a `Tree` certificate (the predecessor chain of every known node, and its weakest inner node),
    which the code does not store. */
module RouteSearch {
  import opened Common
  import opened LinkMaps

  datatype Entry = Entry(quality: real, node: NodeId)

  /** Pair order of the priority queue: quality first, then node id. */
  predicate Above(a: Entry, b: Entry) {
    a.quality > b.quality || (a.quality == b.quality && a.node > b.node)
  }

  datatype Search = Search(quality: map<NodeId, real>, pred: map<NodeId, NodeId>, queue: seq<Entry>)

  function Start(local: NodeId): Search {
    Search(map[local := 1.0], map[], [Entry(1.0, local)])
  }

  /** Position of the queue's top element. */
  function TopIndex(queue: seq<Entry>): (i: nat)
    requires queue != []
    ensures i < |queue|
    ensures forall j :: 0 <= j < |queue| ==> !Above(queue[j], queue[i])
    ensures forall j :: 0 <= j < |queue| ==>
              queue[j].quality < queue[i].quality || (queue[j].quality == queue[i].quality && queue[j].node <= queue[i].node)
  {
    if |queue| == 1 then 0
    else
      var i := TopIndex(Init(queue));
      if Above(Last(queue), queue[i]) then |queue| - 1 else i
  }

  function Without(queue: seq<Entry>, i: nat): seq<Entry>
    requires i < |queue|
  {
    queue[..i] + queue[i + 1..]
  }

  /** Record a better way to `v`, through `u`. */
  function Push(s: Search, u: NodeId, v: NodeId, quality: real): Search {
    Search(s.quality[v := quality], s.pred[v := u], s.queue + [Entry(quality, v)])
  }

  /** Body of the relaxation loop for one link of `u`, popped with quality `q`. */
  function Relax(s: Search, u: NodeId, q: real, link: Link): Search {
    var candidate := Times(q, link.quality);
    if link.node !in s.quality || candidate > s.quality[link.node] then Push(s, u, link.node, candidate) else s
  }

  function RelaxAll(s: Search, u: NodeId, q: real, links: seq<Link>): Search {
    if links == [] then s else Relax(RelaxAll(s, u, q, Init(links)), u, q, Last(links))
  }

  /** One iteration of the main loop. */
  function Step(g: LinkMap, s: Search): Search
    requires s.queue != [] && s.queue[TopIndex(s.queue)].node in s.quality
  {
    var e := s.queue[TopIndex(s.queue)];
    var popped := s.(queue := Without(s.queue, TopIndex(s.queue)));
    if e.quality < s.quality[e.node] then popped
    else RelaxAll(popped, e.node, e.quality, LinksOf(g, e.node))
  }

  // ------------------------------------------------------------- invariant

  /** A known node is settled when no queue entry carries its current quality: it has been expanded. */
  predicate Settled(s: Search, u: NodeId) {
    u in s.quality && Entry(s.quality[u], u) !in s.queue
  }

  /** A lower bound over the inner nodes of a path; `Open` when there is none. */
  datatype Floor = Open | At(entry: Entry)

  predicate AtMost(a: Floor, b: Floor) {
    b.Open? || (a.At? && !Above(a.entry, b.entry))
  }

  function Lower(a: Floor, b: Floor): Floor {
    if AtMost(a, b) then a else b
  }

  /** What a node contributes to a floor; the start of a path contributes nothing. */
  function KeyOf(quality: map<NodeId, real>, local: NodeId, u: NodeId): Floor {
    if u == local || u !in quality then Open else At(Entry(quality[u], u))
  }

  /** The predecessor chain of every known node, as hops from `local`, and the chain's floor. */
  datatype Tree = Tree(path: map<NodeId, seq<Link>>, floor: map<NodeId, Floor>)

  ghost predicate Extends(g: LinkMap, local: NodeId, quality: map<NodeId, real>, t: Tree, u: NodeId, v: NodeId)
    requires u in quality && v in quality && quality.Keys == t.path.Keys == t.floor.Keys
  {
    && t.path[v] != [] && Init(t.path[v]) == t.path[u]
    && Last(t.path[v]).node == v && Last(t.path[v]) in LinksOf(g, u)
    && quality[v] == Times(quality[u], Last(t.path[v]).quality)
    && t.floor[v] == Lower(t.floor[u], KeyOf(quality, local, u))
  }

  ghost predicate TreeInv(g: LinkMap, local: NodeId, s: Search, t: Tree) {
    TreeShape(g, local, s, t) && TreeEdges(g, local, s, t)
  }

  ghost predicate TreeEdges(g: LinkMap, local: NodeId, s: Search, t: Tree)
    requires s.quality.Keys == t.path.Keys == t.floor.Keys && s.pred.Keys <= s.quality.Keys
  {
    forall v :: v in s.pred ==> Settled(s, s.pred[v]) && Extends(g, local, s.quality, t, s.pred[v], v)
  }

  ghost predicate TreeShape(g: LinkMap, local: NodeId, s: Search, t: Tree) {
    && s.quality.Keys == t.path.Keys == t.floor.Keys
    && local in s.quality && s.quality[local] == 1.0
    && t.path[local] == [] && t.floor[local] == Open
    && s.pred.Keys == s.quality.Keys - {local}
    && s.quality.Keys <= Nodes(g) + {local}
    && (!Settled(s, local) ==> s.quality.Keys == {local})
    && (forall v :: v in s.quality ==> 0.0 <= s.quality[v] <= 1.0)
  }

  ghost predicate QueueInv(s: Search) {
    && NoRepeats(s.queue)
    && (forall e :: e in s.queue ==> e.node in s.quality && 0.0 <= e.quality <= s.quality[e.node])
    && (forall e, x :: e in s.queue && Settled(s, x) ==> e.quality <= s.quality[x])
  }

  /** A link out of `x` has been used: it offers neither a better quality, nor an equally good one with a higher floor. */
  ghost predicate Used(local: NodeId, quality: map<NodeId, real>, t: Tree, x: NodeId, l: Link)
    requires quality.Keys == t.floor.Keys && x in quality
  {
    && l.node in quality
    && Times(quality[x], l.quality) <= quality[l.node]
    && (Times(quality[x], l.quality) == quality[l.node] ==>
          AtMost(Lower(t.floor[x], KeyOf(quality, local, x)), t.floor[l.node]))
  }

  ghost predicate Relaxed(h: LinkMap, local: NodeId, s: Search, t: Tree)
    requires s.quality.Keys == t.floor.Keys
  {
    forall x, l :: Settled(s, x) && l in LinksOf(h, x) ==> Used(local, s.quality, t, x, l)
  }

  /** A settled node was popped before every node of the frontier, so it outranks some node on the way there. */
  ghost predicate Ranked(local: NodeId, s: Search, t: Tree)
    requires s.quality.Keys == t.floor.Keys
  {
    forall m, v :: Settled(s, m) && v in s.quality && !Settled(s, v) ==>
      AtMost(Lower(t.floor[v], KeyOf(s.quality, local, v)), KeyOf(s.quality, local, m))
  }

  /** The loop invariant, with the links in `h` relaxed so far. */
  ghost predicate InvFor(g: LinkMap, h: LinkMap, local: NodeId, s: Search, t: Tree) {
    TreeInv(g, local, s, t) && QueueInv(s) && Relaxed(h, local, s, t) && Ranked(local, s, t)
  }

  ghost predicate Inv(g: LinkMap, local: NodeId, s: Search) {
    exists t :: InvFor(g, g, local, s, t)
  }

  lemma StartInv(g: LinkMap, local: NodeId)
    ensures Inv(g, local, Start(local))
  {
    var t := Tree(map[local := []], map[local := Open]);
    assert Start(local).queue[0] in Start(local).queue;
    assert InvFor(g, g, local, Start(local), t);
  }

  // --------------------------------------------------- relaxing the links of u

  /** What holds while the links of the just-popped `u` are being relaxed. */
  ghost predicate Expanding(g: LinkMap, h: LinkMap, local: NodeId, s: Search, t: Tree, u: NodeId) {
    && InvFor(g, h, local, s, t) && Settled(s, u)
    && (forall x :: Settled(s, x) ==> s.quality[u] <= s.quality[x])
    && Outranked(local, s, t, u)
  }

  ghost predicate Outranked(local: NodeId, s: Search, t: Tree, u: NodeId)
    requires s.quality.Keys == t.floor.Keys && u in s.quality
  {
    forall m :: Settled(s, m) ==>
      AtMost(Lower(t.floor[u], KeyOf(s.quality, local, u)), KeyOf(s.quality, local, m))
  }

  /** All chains run through settled nodes, so none has a floor below a bound that every settled node meets. */
  lemma {:induction false} FloorsAbove(g: LinkMap, local: NodeId, s: Search, t: Tree, bound: Floor, v: NodeId)
    requires TreeInv(g, local, s, t) && v in s.quality
    requires forall m :: Settled(s, m) ==> AtMost(bound, KeyOf(s.quality, local, m))
    ensures AtMost(bound, t.floor[v])
    decreases |t.path[v]|
  {
    if v != local {
      FloorsAbove(g, local, s, t, bound, s.pred[v]);
    }
  }

  /** `c` improves on what is known of `v`, which is therefore not settled. */
  ghost predicate Improves(s: Search, u: NodeId, v: NodeId, c: real) {
    Settled(s, u) && (v in s.quality ==> c > s.quality[v] && !Settled(s, v))
  }

  ghost function Hang(s: Search, t: Tree, local: NodeId, u: NodeId, link: Link): Tree
    requires u in s.quality && s.quality.Keys == t.path.Keys == t.floor.Keys
  {
    Tree(t.path[link.node := t.path[u] + [link]],
         t.floor[link.node := Lower(t.floor[u], KeyOf(s.quality, local, u))])
  }

  lemma PushSettled(s: Search, u: NodeId, v: NodeId, c: real)
    requires Improves(s, u, v, c)
    ensures forall x :: Settled(Push(s, u, v, c), x) <==> Settled(s, x)
  {
    var s' := Push(s, u, v, c);
    assert s'.queue[|s.queue|] == Entry(c, v);
    forall x ensures Settled(s', x) <==> Settled(s, x) {
      if x != v && x in s.quality {
        assert Entry(s.quality[x], x) in s'.queue <==> Entry(s.quality[x], x) in s.queue;
      }
    }
  }

  /** `Extends` looks only at the two nodes it is about. */
  lemma ExtendsFrame(g: LinkMap, local: NodeId, q: map<NodeId, real>, t: Tree, q': map<NodeId, real>, t': Tree,
                     u: NodeId, v: NodeId)
    requires u in q && v in q && q.Keys == t.path.Keys == t.floor.Keys
    requires u in q' && v in q' && q'.Keys == t'.path.Keys == t'.floor.Keys
    requires q'[u] == q[u] && t'.path[u] == t.path[u] && t'.floor[u] == t.floor[u]
    requires q'[v] == q[v] && t'.path[v] == t.path[v] && t'.floor[v] == t.floor[v]
    requires Extends(g, local, q, t, u, v)
    ensures Extends(g, local, q', t', u, v)
  {
  }

  lemma HangExtends(g: LinkMap, local: NodeId, s: Search, t: Tree, u: NodeId, link: Link, c: real)
    requires u in s.quality && s.quality.Keys == t.path.Keys == t.floor.Keys && u != link.node
    requires c == Times(s.quality[u], link.quality) && link in LinksOf(g, u)
    ensures Extends(g, local, Push(s, u, link.node, c).quality, Hang(s, t, local, u, link), u, link.node)
  {
    hide Times, Lower;
    assert Init(t.path[u] + [link]) == t.path[u];
  }

  lemma LinkedNode(g: LinkMap, u: NodeId, link: Link)
    requires link in LinksOf(g, u)
    ensures link.node in Nodes(g)
  {
    var i :| 0 <= i < |g[u]| && g[u][i] == link;
  }

  lemma PushKeepsOther(g: LinkMap, local: NodeId, s: Search, t: Tree, u: NodeId, link: Link, c: real, w: NodeId)
    requires TreeInv(g, local, s, t) && Improves(s, u, link.node, c) && w in s.pred && w != link.node
    ensures Push(s, u, link.node, c).quality.Keys == Hang(s, t, local, u, link).path.Keys
            == Hang(s, t, local, u, link).floor.Keys
    ensures Settled(s, s.pred[w])
    ensures Extends(g, local, Push(s, u, link.node, c).quality, Hang(s, t, local, u, link), s.pred[w], w)
  {
    hide Extends, Lower, Times;
    ExtendsFrame(g, local, s.quality, t, Push(s, u, link.node, c).quality, Hang(s, t, local, u, link), s.pred[w], w);
  }

  lemma PushShape(g: LinkMap, local: NodeId, s: Search, t: Tree, u: NodeId, link: Link, c: real)
    requires TreeShape(g, local, s, t) && Improves(s, u, link.node, c) && link in LinksOf(g, u) && 0.0 <= c <= 1.0
    ensures TreeShape(g, local, Push(s, u, link.node, c), Hang(s, t, local, u, link))
  {
    hide Lower, KeyOf, Nodes;
    PushSettled(s, u, link.node, c);
    LinkedNode(g, u, link);
  }

  lemma PushTree(g: LinkMap, local: NodeId, s: Search, t: Tree, u: NodeId, link: Link, c: real)
    requires TreeInv(g, local, s, t) && Improves(s, u, link.node, c) && link in LinksOf(g, u)
    requires c == Times(s.quality[u], link.quality) && 0.0 <= c <= 1.0
    ensures TreeInv(g, local, Push(s, u, link.node, c), Hang(s, t, local, u, link))
  {
    hide Times, Lower, KeyOf, Extends, Nodes;
    var s', t' := Push(s, u, link.node, c), Hang(s, t, local, u, link);
    PushSettled(s, u, link.node, c);
    HangExtends(g, local, s, t, u, link, c);
    PushShape(g, local, s, t, u, link, c);
    hide TreeShape;
    forall w | w in s'.pred && w != link.node
      ensures Settled(s', s'.pred[w]) && Extends(g, local, s'.quality, t', s'.pred[w], w)
    {
      PushKeepsOther(g, local, s, t, u, link, c, w);
    }
  }

  lemma PushQueue(s: Search, u: NodeId, v: NodeId, c: real)
    requires QueueInv(s) && Improves(s, u, v, c) && 0.0 <= c
    requires forall x :: Settled(s, x) ==> c <= s.quality[x]
    ensures QueueInv(Push(s, u, v, c))
  {
    var s' := Push(s, u, v, c);
    PushSettled(s, u, v, c);
    assert forall e :: e in s'.queue <==> e in s.queue || e == Entry(c, v);
    assert Entry(c, v) !in s.queue;
  }

  lemma PushRelaxed(h: LinkMap, local: NodeId, s: Search, t: Tree, u: NodeId, link: Link, c: real)
    requires s.quality.Keys == t.path.Keys == t.floor.Keys
    requires Relaxed(h, local, s, t) && Improves(s, u, link.node, c) && c == Times(s.quality[u], link.quality)
    ensures Relaxed(h, local, Push(s, u, link.node, c), Hang(s, t, local, u, link))
    ensures Used(local, Push(s, u, link.node, c).quality, Hang(s, t, local, u, link), u, link)
  {
    var s', t' := Push(s, u, link.node, c), Hang(s, t, local, u, link);
    PushSettled(s, u, link.node, c);
    forall x, l | Settled(s', x) && l in LinksOf(h, x) ensures Used(local, s'.quality, t', x, l) {
      assert Used(local, s.quality, t, x, l);
    }
  }

  lemma PushRanked(local: NodeId, s: Search, t: Tree, u: NodeId, link: Link, c: real)
    requires s.quality.Keys == t.path.Keys == t.floor.Keys
    requires Ranked(local, s, t) && Improves(s, u, link.node, c)
    requires Outranked(local, s, t, u)
    ensures Ranked(local, Push(s, u, link.node, c), Hang(s, t, local, u, link))
    ensures Outranked(local, Push(s, u, link.node, c), Hang(s, t, local, u, link), u)
  {
    PushSettled(s, u, link.node, c);
  }

  /** A link that improves its far end keeps the invariant. */
  lemma PushExpanding(g: LinkMap, h: LinkMap, local: NodeId, s: Search, t: Tree, u: NodeId, link: Link, c: real)
    requires Expanding(g, h, local, s, t, u) && link in LinksOf(g, u)
    requires c == Times(s.quality[u], link.quality) && 0.0 <= c <= s.quality[u] <= 1.0 && Improves(s, u, link.node, c)
    ensures Expanding(g, h, local, Push(s, u, link.node, c), Hang(s, t, local, u, link), u)
  {
    assert s.quality.Keys == t.path.Keys == t.floor.Keys;
    hide Relaxed, Ranked, TreeInv, QueueInv, Outranked;
    PushTree(g, local, s, t, u, link, c);
    PushQueue(s, u, link.node, c);
    PushRelaxed(h, local, s, t, u, link, c);
    PushRanked(local, s, t, u, link, c);
    PushSettled(s, u, link.node, c);
  }

  /** A settled node's quality is final: no later offer beats it. */
  lemma SettledIsFinal(s: Search, u: NodeId, v: NodeId, c: real)
    requires Settled(s, u) && Settled(s, v) && c <= s.quality[u]
    requires forall x :: Settled(s, x) ==> s.quality[u] <= s.quality[x]
    ensures c <= s.quality[v]
  {
  }

  /** Settled nodes keep their quality and their predecessor. */
  ghost predicate Keeps(s: Search, s': Search) {
    forall x :: Settled(s, x) ==>
      && x in s'.quality && s'.quality[x] == s.quality[x]
      && (x in s.pred <==> x in s'.pred) && (x in s.pred ==> s'.pred[x] == s.pred[x])
  }

  lemma PushKeeps(s: Search, u: NodeId, v: NodeId, c: real)
    requires Improves(s, u, v, c)
    ensures Keeps(s, Push(s, u, v, c))
  {
  }

  lemma KeepsQueue(s: Search, queue: seq<Entry>)
    ensures Keeps(s, s.(queue := queue))
  {
  }

  lemma KeepsAgain(s: Search, s1: Search, s2: Search)
    requires Keeps(s, s1) && Keeps(s1, s2) && forall x :: Settled(s, x) ==> Settled(s1, x)
    ensures Keeps(s, s2)
  {
  }

  /** A link that improves nothing is already used up: its far end is at least as well off, floor included. */
  lemma NoBetter(g: LinkMap, h: LinkMap, local: NodeId, s: Search, t: Tree, u: NodeId, link: Link, c: real)
    requires Expanding(g, h, local, s, t, u)
    requires c == Times(s.quality[u], link.quality) && link.node in s.quality && c <= s.quality[link.node]
    ensures Used(local, s.quality, t, u, link)
  {
    FloorsAbove(g, local, s, t, Lower(t.floor[u], KeyOf(s.quality, local, u)), link.node);
  }

  /** Relaxing one more link of `u` keeps the invariant, whether or not the link improves anything. */
  lemma RelaxOne(g: LinkMap, h: LinkMap, local: NodeId, s: Search, t: Tree, u: NodeId, link: Link, c: real)
    returns (s': Search, t': Tree)
    requires Expanding(g, h, local, s, t, u) && link in LinksOf(g, u)
    requires c == Times(s.quality[u], link.quality) && 0.0 <= c <= s.quality[u] <= 1.0
    ensures s' == Relax(s, u, s.quality[u], link) && Keeps(s, s')
    ensures Expanding(g, h, local, s', t', u) && Used(local, s'.quality, t', u, link)
    ensures s'.quality[u] == s.quality[u] && forall x :: Settled(s', x) <==> Settled(s, x)
  {
    var v := link.node;
    s', t' := Relax(s, u, s.quality[u], link), t;
    assert s.quality.Keys == t.path.Keys == t.floor.Keys;
    assert Relaxed(h, local, s, t);
    hide Relaxed, Ranked, TreeInv, QueueInv, Outranked, Used, Hang, Times, Keeps;
    if v !in s.quality || c > s.quality[v] {
      if Settled(s, v) { SettledIsFinal(s, u, v, c); }
      PushKeeps(s, u, v, c);
      t' := Hang(s, t, local, u, link);
      PushRelaxed(h, local, s, t, u, link, c);
      PushExpanding(g, h, local, s, t, u, link, c);
      PushSettled(s, u, v, c);
    } else {
      KeepsQueue(s, s.queue);
      NoBetter(g, h, local, s, t, u, link, c);
    }
  }

  lemma RelaxedGrows(h: LinkMap, h': LinkMap, local: NodeId, s: Search, t: Tree, u: NodeId, link: Link)
    requires s.quality.Keys == t.floor.Keys && Settled(s, u)
    requires Relaxed(h, local, s, t) && Used(local, s.quality, t, u, link)
    requires forall x, l :: l in LinksOf(h', x) ==> l in LinksOf(h, x) || (x == u && l == link)
    ensures Relaxed(h', local, s, t)
  {
    hide Used;
  }

  lemma KnownQuality(g: LinkMap, local: NodeId, s: Search, t: Tree, u: NodeId)
    requires TreeInv(g, local, s, t) && u in s.quality
    ensures s.quality.Keys == t.floor.Keys && 0.0 <= s.quality[u] <= 1.0
  {
  }

  /** Running the whole relaxation loop of `u`. */
  lemma {:induction false} RelaxMany(g: LinkMap, local: NodeId, s: Search, t: Tree, u: NodeId, links: seq<Link>)
    returns (s': Search, t': Tree)
    requires Expanding(g, g[u := []], local, s, t, u) && links <= LinksOf(g, u)
    ensures s' == RelaxAll(s, u, s.quality[u], links) && Keeps(s, s')
    ensures Expanding(g, g[u := links], local, s', t', u)
    ensures s'.quality[u] == s.quality[u] && forall x :: Settled(s', x) <==> Settled(s, x)
  {
    hide Relaxed, Ranked, TreeInv, QueueInv, Outranked, Used, Times, Relax, Keeps;
    if links == [] {
      s', t' := s, t;
      KeepsQueue(s, s.queue);
    } else {
      var link, h, h' := Last(links), g[u := Init(links)], g[u := links];
      assert link == LinksOf(g, u)[|links| - 1];
      assert links == Init(links) + [link];
      var s1, t1 := RelaxMany(g, local, s, t, u, Init(links));
      KnownQuality(g, local, s1, t1, u);
      MulShrinks(s1.quality[u], link.quality);
      s', t' := RelaxOne(g, h, local, s1, t1, u, link, Times(s1.quality[u], link.quality));
      KnownQuality(g, local, s', t', u);
      RelaxedGrows(h, h', local, s', t', u, link);
      KeepsAgain(s, s1, s');
    }
  }

  // ------------------------------------------------------------------ popping

  lemma PopSettled(s: Search, i: nat)
    requires i < |s.queue| && NoRepeats(s.queue)
    ensures forall e :: e in Without(s.queue, i) <==> e in s.queue && e != s.queue[i]
    ensures forall x :: Settled(s.(queue := Without(s.queue, i)), x) <==>
              Settled(s, x) || (x in s.quality && s.queue[i] == Entry(s.quality[x], x))
    ensures NoRepeats(Without(s.queue, i))
  {
    var w := Without(s.queue, i);
    forall e ensures e in w <==> e in s.queue && e != s.queue[i] {
      if e in s.queue && e != s.queue[i] {
        var k :| 0 <= k < |s.queue| && s.queue[k] == e;
        assert if k < i then w[k] == e else w[k - 1] == e;
      }
    }
  }

  lemma PopTree(g: LinkMap, local: NodeId, s: Search, s': Search, t: Tree)
    requires TreeInv(g, local, s, t) && s'.quality == s.quality && s'.pred == s.pred
    requires forall x :: Settled(s, x) ==> Settled(s', x)
    ensures TreeInv(g, local, s', t)
  {
    hide Extends, Settled, Nodes;
  }

  lemma PopRelaxed(h: LinkMap, h': LinkMap, local: NodeId, s: Search, s': Search, t: Tree)
    requires s.quality.Keys == t.floor.Keys && Relaxed(h, local, s, t) && s'.quality == s.quality
    requires forall x :: Settled(s', x) ==> Settled(s, x) || LinksOf(h', x) == []
    requires forall x :: LinksOf(h', x) == [] || LinksOf(h', x) == LinksOf(h, x)
    ensures Relaxed(h', local, s', t)
  {
    hide Used;
  }

  lemma PopStaleQueue(local: NodeId, s: Search, t: Tree, i: nat)
    requires QueueInv(s) && s.quality.Keys == t.floor.Keys && Ranked(local, s, t) && i < |s.queue|
    requires s.queue[i].node in s.quality && s.queue[i].quality < s.quality[s.queue[i].node]
    ensures QueueInv(s.(queue := Without(s.queue, i)))
    ensures Ranked(local, s.(queue := Without(s.queue, i)), t)
    ensures forall x :: Settled(s.(queue := Without(s.queue, i)), x) <==> Settled(s, x)
  {
    hide Lower, AtMost, KeyOf;
    PopSettled(s, i);
  }

  /** A popped entry that is out of date changes nothing but the queue. */
  lemma PopStale(g: LinkMap, local: NodeId, s: Search, t: Tree, i: nat)
    requires InvFor(g, g, local, s, t) && i < |s.queue|
    requires s.queue[i].node in s.quality && s.queue[i].quality < s.quality[s.queue[i].node]
    requires s.quality.Keys == t.floor.Keys
    ensures InvFor(g, g, local, s.(queue := Without(s.queue, i)), t)
    ensures forall x :: Settled(s.(queue := Without(s.queue, i)), x) <==> Settled(s, x)
  {
    hide TreeInv, QueueInv, Relaxed, Ranked, Settled;
    PopStaleQueue(local, s, t, i);
    PopTree(g, local, s, s.(queue := Without(s.queue, i)), t);
    PopRelaxed(g, g, local, s, s.(queue := Without(s.queue, i)), t);
  }

  lemma PopQueue(s: Search, i: nat)
    requires QueueInv(s) && i < |s.queue|
    requires forall j :: 0 <= j < |s.queue| ==> !Above(s.queue[j], s.queue[i])
    requires s.queue[i].quality == s.quality[s.queue[i].node]
    ensures QueueInv(s.(queue := Without(s.queue, i)))
    ensures forall x :: Settled(s.(queue := Without(s.queue, i)), x) ==> s.queue[i].quality <= s.quality[x]
    ensures forall x :: Settled(s.(queue := Without(s.queue, i)), x) <==> Settled(s, x) || x == s.queue[i].node
  {
    PopSettled(s, i);
    assert forall f :: f in s.queue ==> !Above(f, s.queue[i]);
  }

  lemma PopRanked(local: NodeId, s: Search, t: Tree, i: nat)
    requires s.quality.Keys == t.floor.Keys && NoRepeats(s.queue) && Ranked(local, s, t) && i < |s.queue|
    requires forall j :: 0 <= j < |s.queue| ==> !Above(s.queue[j], s.queue[i])
    requires s.queue[i].node in s.quality && s.queue[i].quality == s.quality[s.queue[i].node]
    requires !Settled(s, local) ==> s.quality.Keys == {local}
    ensures Ranked(local, s.(queue := Without(s.queue, i)), t)
    ensures Outranked(local, s.(queue := Without(s.queue, i)), t, s.queue[i].node)
  {
    PopSettled(s, i);
    assert forall f :: f in s.queue ==> !Above(f, s.queue[i]);
  }

  lemma ShapeFacts(g: LinkMap, local: NodeId, s: Search, t: Tree)
    requires TreeShape(g, local, s, t) && QueueInv(s)
    ensures s.quality.Keys == t.floor.Keys && (!Settled(s, local) ==> s.quality.Keys == {local}) && NoRepeats(s.queue)
  {
  }

  /** A popped entry that is up to date settles its node. */
  lemma PopFresh(g: LinkMap, local: NodeId, s: Search, t: Tree, i: nat)
    requires InvFor(g, g, local, s, t) && i < |s.queue|
    requires forall j :: 0 <= j < |s.queue| ==> !Above(s.queue[j], s.queue[i])
    requires s.queue[i].node in s.quality && s.queue[i].quality == s.quality[s.queue[i].node]
    ensures Expanding(g, g[s.queue[i].node := []], local, s.(queue := Without(s.queue, i)), t, s.queue[i].node)
    ensures forall x :: Settled(s.(queue := Without(s.queue, i)), x) <==> Settled(s, x) || x == s.queue[i].node
  {
    hide TreeShape, TreeEdges, QueueInv, Relaxed, Ranked, Outranked, Settled;
    ShapeFacts(g, local, s, t);
    hide TreeInv;
    var u, s' := s.queue[i].node, s.(queue := Without(s.queue, i));
    PopQueue(s, i);
    PopRanked(local, s, t, i);
    PopTree(g, local, s, s', t);
    PopRelaxed(g, g[u := []], local, s, s', t);
  }

  // ------------------------------------------------------------ one iteration

  ghost predicate Stale(s: Search)
    requires s.queue != [] && s.queue[TopIndex(s.queue)].node in s.quality
  {
    var e := s.queue[TopIndex(s.queue)];
    e.quality < s.quality[e.node]
  }

  lemma TopKnown(s: Search)
    requires QueueInv(s) && s.queue != []
    ensures s.queue[TopIndex(s.queue)].node in s.quality
    ensures s.queue[TopIndex(s.queue)].quality <= s.quality[s.queue[TopIndex(s.queue)].node]
  {
    assert s.queue[TopIndex(s.queue)] in s.queue;
  }

  lemma FreshStep(g: LinkMap, local: NodeId, s: Search, t: Tree) returns (s': Search, t': Tree)
    requires InvFor(g, g, local, s, t) && s.queue != [] && s.queue[TopIndex(s.queue)].node in s.quality && !Stale(s)
    ensures s' == Step(g, s) && InvFor(g, g, local, s', t') && Keeps(s, s')
    ensures forall x :: Settled(s', x) <==> Settled(s, x) || x == s.queue[TopIndex(s.queue)].node
  {
    hide Relaxed, Ranked, TreeInv, QueueInv, Outranked, Used, Times, Relax, Keeps;
    var i := TopIndex(s.queue);
    var e := s.queue[i];
    TopKnown(s);
    PopFresh(g, local, s, t, i);
    s', t' := RelaxMany(g, local, s.(queue := Without(s.queue, i)), t, e.node, LinksOf(g, e.node));
    KnownQuality(g, local, s', t', e.node);
    SameLinksRelaxed(g[e.node := LinksOf(g, e.node)], g, local, s', t');
    KeepsQueue(s, Without(s.queue, i));
    KeepsAgain(s, s.(queue := Without(s.queue, i)), s');
  }

  lemma SameLinksRelaxed(h: LinkMap, g: LinkMap, local: NodeId, s: Search, t: Tree)
    requires s.quality.Keys == t.floor.Keys && Relaxed(h, local, s, t)
    requires forall x :: LinksOf(g, x) == LinksOf(h, x)
    ensures Relaxed(g, local, s, t)
  {
    hide Used;
  }

  lemma StepKeepsInv(g: LinkMap, local: NodeId, s: Search)
    requires Inv(g, local, s) && s.queue != []
    ensures s.queue[TopIndex(s.queue)].node in s.quality
    ensures Inv(g, local, Step(g, s))
    ensures forall x :: Settled(Step(g, s), x) <==> Settled(s, x) || x == s.queue[TopIndex(s.queue)].node
    ensures if Settled(s, s.queue[TopIndex(s.queue)].node) then Stale(s) && |Step(g, s).queue| < |s.queue| else !Stale(s)
    ensures Keeps(s, Step(g, s))
  {
    var t :| InvFor(g, g, local, s, t);
    var i := TopIndex(s.queue);
    var e := s.queue[i];
    assert e in s.queue && e.node in s.quality;
    if Stale(s) {
      var best := Entry(s.quality[e.node], e.node);
      assert Above(best, e);
      assert best !in s.queue;
      hide Relaxed, Ranked, TreeInv, QueueInv, Outranked, Used, Times, Relax, Keeps;
      PopStale(g, local, s, t, i);
      KeepsQueue(s, Without(s.queue, i));
    } else {
      assert e == Entry(s.quality[e.node], e.node);
      hide Relaxed, Ranked, TreeInv, QueueInv, Outranked, Used, Times, Relax, Keeps;
      var s', t' := FreshStep(g, local, s, t);
    }
  }

  ghost function Unsettled(g: LinkMap, local: NodeId, s: Search): set<NodeId> {
    set x | x in Nodes(g) + {local} && !Settled(s, x)
  }

  /** The nodes expanded by the rest of the loop, in order; a stale pop expands none. */
  ghost function Expansions(g: LinkMap, local: NodeId, s: Search): seq<NodeId>
    requires Inv(g, local, s)
    decreases |Unsettled(g, local, s)|, |s.queue|
  {
    if s.queue == [] then []
    else
      StepKeepsInv(g, local, s);
      StepProgress(g, local, s);
      (if Stale(s) then [] else [s.queue[TopIndex(s.queue)].node]) + Expansions(g, local, Step(g, s))
  }

  /** No node is expanded twice, and none that is already settled; whatever is settled stays as it is to the end. */
  lemma {:induction false} ExpandedOnce(g: LinkMap, local: NodeId, s: Search)
    requires Inv(g, local, s)
    ensures NoRepeats(Expansions(g, local, s))
    ensures forall u :: u in Expansions(g, local, s) ==> !Settled(s, u)
    ensures Keeps(s, Settle(g, local, s)) && forall x :: Settled(s, x) ==> Settled(Settle(g, local, s), x)
    decreases |Unsettled(g, local, s)|, |s.queue|
  {
    hide Inv, Step, Settled, Stale, Unsettled, TopIndex, Keeps;
    if s.queue == [] {
      KeepsQueue(s, s.queue);
    } else {
      StepKeepsInv(g, local, s);
      StepProgress(g, local, s);
      ExpandedOnce(g, local, Step(g, s));
      KeepsAgain(s, Step(g, s), Settle(g, local, s));
      var rest := Expansions(g, local, Step(g, s));
      assert forall i :: 0 <= i < |rest| ==> rest[i] in rest;
    }
  }

  /** The main loop, run to the end. Either a node is settled for good, or a stale entry leaves the queue. */
  ghost function Settle(g: LinkMap, local: NodeId, s: Search): (r: Search)
    requires Inv(g, local, s)
    ensures Inv(g, local, r) && r.queue == []
    decreases |Unsettled(g, local, s)|, |s.queue|
  {
    if s.queue == [] then s
    else
      StepKeepsInv(g, local, s);
      StepProgress(g, local, s);
      Settle(g, local, Step(g, s))
  }

  lemma KnownNodes(g: LinkMap, local: NodeId, s: Search)
    requires Inv(g, local, s)
    ensures s.quality.Keys <= Nodes(g) + {local}
  {
    hide Relaxed, Ranked, QueueInv;
    var t :| InvFor(g, g, local, s, t);
  }

  lemma SettlingOne(g: LinkMap, local: NodeId, s: Search, s': Search, u: NodeId)
    requires forall x :: Settled(s', x) <==> Settled(s, x) || x == u
    requires u in Nodes(g) + {local}
    ensures Unsettled(g, local, s') <= Unsettled(g, local, s)
    ensures if Settled(s, u) then Unsettled(g, local, s') == Unsettled(g, local, s)
            else |Unsettled(g, local, s')| < |Unsettled(g, local, s)|
  {
    hide Nodes, Settled;
    var a, b := Unsettled(g, local, s), Unsettled(g, local, s');
    if Settled(s, u) {
      assert a == b;
    } else {
      assert b == a - {u};
    }
  }

  lemma StepProgress(g: LinkMap, local: NodeId, s: Search)
    requires Inv(g, local, s) && s.queue != [] && s.queue[TopIndex(s.queue)].node in s.quality
    ensures |Unsettled(g, local, Step(g, s))| < |Unsettled(g, local, s)| ||
            (|Unsettled(g, local, Step(g, s))| == |Unsettled(g, local, s)| && |Step(g, s).queue| < |s.queue|)
  {
    hide Inv, Step, Settled, Stale, Nodes, Unsettled;
    KnownNodes(g, local, s);
    StepKeepsInv(g, local, s);
    SettlingOne(g, local, s, Step(g, s), s.queue[TopIndex(s.queue)].node);
  }
}
