/** RouteTable: a link map with cached routes, updated in place. */
module RouteTables {
  import opened Common
  import opened LinkMaps
  import opened RouteSearch
  import opened BestRoutes

  class RouteTable {
    const localId: NodeId
    var adjacency: LinkMap
    var routes: map<NodeId, RouteEntry>

    constructor (localId: NodeId)
      ensures this.localId == localId && adjacency == map[] && routes == map[]
    {
      this.localId := localId;
      adjacency, routes := map[], map[];
    }

    /** The `update_adj` closure: find the entry for `b`, overwrite or append. */
    method UpdateHalf(a: NodeId, b: NodeId, q: Quality)
      modifies this`adjacency
      ensures adjacency == SetHalf(old(adjacency), a, b, q)
    {
      var links := LinksOf(adjacency, a);
      var i := 0;
      while i < |links| && links[i].node != b
        invariant 0 <= i <= |links|
        invariant forall j :: 0 <= j < i ==> links[j].node != b
      {
        i := i + 1;
      }
      SetLinkAt(links, b, q, i);
      if i < |links| {
        links := links[i := Link(b, q)];
      } else {
        links := links + [Link(b, q)];
      }
      adjacency := adjacency[a := links];
    }

    method UpdateLink(from: NodeId, to: NodeId, q: Quality)
      modifies this`adjacency
      ensures adjacency == LinkMaps.UpdateLink(old(adjacency), from, to, q)
    {
      UpdateHalf(from, to, q);
      UpdateHalf(to, from, q);
    }

    /** Erase the node's own list, then its entry in every other list. */
    method RemoveNode(n: NodeId)
      modifies this`adjacency
      ensures adjacency == LinkMaps.RemoveNode(old(adjacency), n)
    {
      adjacency := adjacency - {n};
      var todo := adjacency.Keys;
      while todo != {}
        invariant todo <= adjacency.Keys == old(adjacency).Keys - {n}
        invariant forall u :: u in adjacency ==>
                    adjacency[u] == if u in todo then old(adjacency)[u] else DropLinksTo(old(adjacency)[u], n)
      {
        var u :| u in todo;
        var kept := EraseLinksTo(adjacency[u], n);
        adjacency := adjacency[u := kept];
        todo := todo - {u};
      }
    }

    static method EraseLinksTo(links: seq<Link>, n: NodeId) returns (kept: seq<Link>)
      ensures kept == DropLinksTo(links, n)
    {
      kept := [];
      var i := 0;
      while i < |links|
        invariant 0 <= i <= |links|
        invariant DropLinksTo(links, n) == kept + DropLinksTo(links[i..], n)
      {
        assert links[i..][1..] == links[i + 1..];
        if links[i].node != n {
          kept := kept + [links[i]];
        }
        i := i + 1;
      }
    }

    method Recompute()
      modifies this`routes
      ensures routes == Routes(adjacency, localId)
    {
      hide RouteFor, Best, Solve, PathTo, IsChain;
      routes := map[];
      var quality, pred := RunSearch();
      var todo := quality.Keys - {localId};
      while todo != {}
        invariant todo <= quality.Keys - {localId}
        invariant routes.Keys == quality.Keys - {localId} - todo
        invariant forall d :: d in routes ==> routes[d] == RouteFor(adjacency, localId, d)
      {
        var dest :| dest in todo;
        PathIsChain(adjacency, localId, dest);
        var next, hops := TraceBack(pred, dest, PathTo(adjacency, localId, dest));
        routes := routes[dest := RouteEntry(dest, next, hops, quality[dest])];
        todo := todo - {dest};
      }
    }

    /** The main loop. */
    method RunSearch() returns (quality: map<NodeId, real>, pred: map<NodeId, NodeId>)
      ensures quality == Best(adjacency, localId) && pred == Solve(adjacency, localId).pred
    {
      quality, pred := map[localId := 1.0], map[];
      var queue := [Entry(1.0, localId)];
      StartInv(adjacency, localId);
      while queue != []
        invariant Inv(adjacency, localId, Search(quality, pred, queue))
        invariant Settle(adjacency, localId, Search(quality, pred, queue)) == Solve(adjacency, localId)
        decreases |Unsettled(adjacency, localId, Search(quality, pred, queue))|, |queue|
      {
        hide Inv, Solve, Unsettled;
        ghost var s := Search(quality, pred, queue);
        StepKeepsInv(adjacency, localId, s);
        StepProgress(adjacency, localId, s);
        var top := TopIndex(queue);
        var e := queue[top];
        queue := Without(queue, top);
        if e.quality < quality[e.node] {
          continue;
        }
        quality, pred, queue := Expand(quality, pred, queue, e);
      }
    }

    /** The relaxation loop over the links of a popped node. */
    method Expand(quality0: map<NodeId, real>, pred0: map<NodeId, NodeId>, queue0: seq<Entry>, e: Entry)
      returns (quality: map<NodeId, real>, pred: map<NodeId, NodeId>, queue: seq<Entry>)
      ensures Search(quality, pred, queue) ==
              RelaxAll(Search(quality0, pred0, queue0), e.node, e.quality, LinksOf(adjacency, e.node))
    {
      quality, pred, queue := quality0, pred0, queue0;
      if e.node !in adjacency {
        return;
      }
      var links := adjacency[e.node];
      for i := 0 to |links|
        invariant Search(quality, pred, queue) ==
                  RelaxAll(Search(quality0, pred0, queue0), e.node, e.quality, links[..i])
      {
        assert Init(links[..i + 1]) == links[..i];
        var v, candidate := links[i].node, Times(e.quality, links[i].quality);
        if v !in quality || candidate > quality[v] {
          quality := quality[v := candidate];
          pred := pred[v := e.node];
          queue := queue + [Entry(candidate, v)];
        }
      }
      assert links[..|links|] == links;
    }

    /** Walk the predecessor chain back from a destination to the first hop. */
    method TraceBack(pred: map<NodeId, NodeId>, dest: NodeId, ghost chain: seq<Link>)
      returns (next: NodeId, hops: nat)
      requires IsChain(pred, localId, dest, chain)
      ensures next == chain[0].node && hops == |chain|
    {
      next, hops := dest, 0;
      ghost var k := |chain| - 1;
      assert k > 0 ==> chain[k - 1].node != localId;
      while next in pred && pred[next] != localId
        invariant 0 <= k < |chain| && hops == |chain| - 1 - k && next == chain[k].node
        invariant next in pred && (pred[next] == localId <==> k == 0)
        decreases k
      {
        k := k - 1;
        assert k > 0 ==> chain[k - 1].node != localId;
        next := pred[next];
        hops := hops + 1;
      }
      hops := hops + 1;
    }

    method NextHop(d: NodeId) returns (r: Option<RouteEntry>)
      ensures r == if d in routes then Some(routes[d]) else None
    {
      if d !in routes {
        return None;
      }
      return Some(routes[d]);
    }
  }

  /** Where `SetLink` writes: at the first entry for `b`, or at the end. */
  lemma {:induction false} SetLinkAt(links: seq<Link>, b: NodeId, q: Quality, i: nat)
    requires i <= |links| && (forall j :: 0 <= j < i ==> links[j].node != b)
    requires i < |links| ==> links[i].node == b
    ensures SetLink(links, b, q) == if i < |links| then links[i := Link(b, q)] else links + [Link(b, q)]
  {
    if i > 0 {
      SetLinkAt(links[1..], b, q, i - 1);
    }
  }

  /** The traceback follows the chain the route entry is read off; the local node has no predecessor. */
  lemma PathIsChain(g: LinkMap, local: NodeId, d: NodeId)
    requires d in Best(g, local) && d != local
    ensures local !in Solve(g, local).pred
    ensures IsChain(Solve(g, local).pred, local, d, PathTo(g, local, d))
    ensures RouteFor(g, local, d) == RouteEntry(d, PathTo(g, local, d)[0].node, |PathTo(g, local, d)|, Best(g, local)[d])
  {
    hide Solve, TreeInv, Relaxed, QueueInv, Ranked, Product, IsWalk, NoRepeats, IsChain;
    TreeIsChain(g, local, Solve(g, local), TreeOf(g, local), d);
  }
}
