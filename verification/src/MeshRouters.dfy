/** MeshRouter: a route table driven by local measurements and sequence-numbered advertisements. */
module MeshRouters {
  import opened Common
  import opened LinkMaps
  import opened BestRoutes
  import opened RouteSearch
  import opened RouteTables

  datatype Advertisement = Advertisement(nodeId: NodeId, neighbors: seq<Link>, sequence: U32)

  /** Everything a router remembers, its cached routes apart. */
  datatype State = State(localId: NodeId, adjacency: LinkMap, direct: map<NodeId, Quality>, lastSeq: map<NodeId, U32>)

  function Fresh(localId: NodeId): State {
    State(localId, map[], map[], map[])
  }

  /** Not our own, and newer than anything seen from its origin. */
  predicate Accepts(s: State, lsa: Advertisement) {
    lsa.nodeId != s.localId && (lsa.nodeId in s.lastSeq ==> lsa.sequence > s.lastSeq[lsa.nodeId])
  }

  /** Merge the advertised links, in order. */
  function Merge(g: LinkMap, from: NodeId, links: seq<Link>): LinkMap {
    if links == [] then g
    else UpdateLink(Merge(g, from, Init(links)), from, Last(links).node, Last(links).quality)
  }

  datatype Event = Advert(lsa: Advertisement) | Update(neighbor: NodeId, quality: Quality) | Remove(node: NodeId)

  function Next(s: State, e: Event): State {
    match e
    case Advert(lsa) =>
      if Accepts(s, lsa) then
        s.(lastSeq := s.lastSeq[lsa.nodeId := lsa.sequence], adjacency := Merge(s.adjacency, lsa.nodeId, lsa.neighbors))
      else s
    case Update(n, q) =>
      s.(direct := s.direct[n := q], adjacency := UpdateLink(s.adjacency, s.localId, n, q))
    case Remove(n) =>
      s.(direct := s.direct - {n}, adjacency := RemoveNode(s.adjacency, n))
  }

  function Run(s: State, events: seq<Event>): State {
    if events == [] then s else Next(Run(s, Init(events)), Last(events))
  }

  /** What `generate_advertisement` returns: every direct neighbor in id order, under the sequence number 0. */
  ghost predicate IsAdvertisementOf(s: State, lsa: Advertisement) {
    && lsa.nodeId == s.localId && lsa.sequence == 0
    && (forall i, j :: 0 <= i < j < |lsa.neighbors| ==> lsa.neighbors[i].node < lsa.neighbors[j].node)
    && (forall l :: l in lsa.neighbors <==> l.node in s.direct && s.direct[l.node] == l.quality)
  }

  class MeshRouter {
    const localId: NodeId
    const sequence: U32 := 0   // never incremented
    const table: RouteTable
    var direct: map<NodeId, Quality>
    var lastSequence: map<NodeId, U32>

    /** The cached routes always equal a fresh recomputation from a well-formed link map. */
    ghost predicate Valid()
      reads this, table
    {
      && table.localId == localId && WellFormed(table.adjacency)
      && table.routes == Routes(table.adjacency, localId)
    }

    ghost function View(): State
      reads this, table
    {
      State(localId, table.adjacency, direct, lastSequence)
    }

    constructor (localId: NodeId)
      ensures Valid() && fresh(table) && View() == Fresh(localId)
    {
      this.localId := localId;
      table := new RouteTable(localId);
      direct, lastSequence := map[], map[];
      new;
      NoRoutes(localId);
    }

    method ProcessAdvertisement(lsa: Advertisement) returns (accepted: bool)
      requires Valid()
      modifies this, table
      ensures Valid() && View() == Next(old(View()), Advert(lsa)) && accepted == Accepts(old(View()), lsa)
    {
      if lsa.nodeId == localId {
        return false;
      }
      if lsa.nodeId in lastSequence && lsa.sequence <= lastSequence[lsa.nodeId] {
        return false;
      }
      lastSequence := lastSequence[lsa.nodeId := lsa.sequence];
      for i := 0 to |lsa.neighbors|
        invariant direct == old(direct) && lastSequence == old(lastSequence)[lsa.nodeId := lsa.sequence]
        invariant table.adjacency == Merge(old(table.adjacency), lsa.nodeId, lsa.neighbors[..i])
      {
        assert Init(lsa.neighbors[..i + 1]) == lsa.neighbors[..i];
        table.UpdateLink(lsa.nodeId, lsa.neighbors[i].node, lsa.neighbors[i].quality);
      }
      assert lsa.neighbors[..|lsa.neighbors|] == lsa.neighbors;
      MergeMeaning(old(table.adjacency), lsa.nodeId, lsa.neighbors);
      table.Recompute();
      return true;
    }

    method UpdateNeighbor(neighbor: NodeId, quality: Quality)
      requires Valid()
      modifies this, table
      ensures Valid() && View() == Next(old(View()), Update(neighbor, quality))
    {
      hide UpdateLink, HasLink;
      direct := direct[neighbor := quality];
      UpdateLinkMeaning(table.adjacency, localId, neighbor, quality);
      table.UpdateLink(localId, neighbor, quality);
      table.Recompute();
    }

    method RemoveNeighbor(neighbor: NodeId)
      requires Valid()
      modifies this, table
      ensures Valid() && View() == Next(old(View()), Remove(neighbor))
    {
      direct := direct - {neighbor};
      RemoveNodeMeaning(table.adjacency, neighbor);
      table.RemoveNode(neighbor);
      table.Recompute();
    }

    method GenerateAdvertisement() returns (lsa: Advertisement)
      ensures IsAdvertisementOf(View(), lsa)
    {
      var neighbors: seq<Link> := [];
      var todo := direct.Keys;
      while todo != {}
        invariant todo <= direct.Keys
        invariant forall i, j :: 0 <= i < j < |neighbors| ==> neighbors[i].node < neighbors[j].node
        invariant forall l, n :: l in neighbors && n in todo ==> l.node < n
        invariant forall l :: l in neighbors <==> l.node in direct && l.node !in todo && direct[l.node] == l.quality
      {
        var n := Smallest(todo);
        neighbors := neighbors + [Link(n, direct[n])];
        todo := todo - {n};
      }
      lsa := Advertisement(localId, neighbors, sequence);
    }

    method RouteTo(d: NodeId) returns (r: Option<RouteEntry>)
      requires Valid()
      ensures r == var routes := Routes(table.adjacency, localId); if d in routes then Some(routes[d]) else None
    {
      r := table.NextHop(d);
    }
  }

  // ------------------------------------------------------------- link map facts

  lemma NoRoutes(local: NodeId)
    ensures Routes(map[], local) == map[]
  {
    hide Best;
    forall d | d in Best(map[], local) ensures d == local {
      RoutesAreOptimal(map[], local, d);
      NoLinks(local, PathTo(map[], local, d));
    }
  }

  lemma NoLinks(local: NodeId, hops: seq<Link>)
    ensures IsWalk(map[], local, hops) ==> hops == []
  {
  }

  /** The quality last advertised for a neighbor. */
  function LastQuality(links: seq<Link>, n: NodeId): Option<Quality> {
    if links == [] then None
    else if Last(links).node == n then Some(Last(links).quality)
    else LastQuality(Init(links), n)
  }

  /** The quality an advertisement from `from` sets for the ordered pair (x, y), if it sets one. */
  function Advertised(from: NodeId, links: seq<Link>, x: NodeId, y: NodeId): Option<Quality> {
    if x == from then LastQuality(links, y)
    else if y == from then LastQuality(links, x)
    else None
  }

  /** Merging an advertisement overwrites exactly the pairs it lists, in both directions; it withdraws nothing. */
  lemma {:induction false} MergeMeaning(g: LinkMap, from: NodeId, links: seq<Link>)
    requires WellFormed(g)
    ensures WellFormed(Merge(g, from, links))
    ensures forall x, y, q :: HasLink(Merge(g, from, links), x, y, q) <==>
              match Advertised(from, links, x, y)
              case Some(r) => q == r
              case None => HasLink(g, x, y, q)
  {
    if links != [] {
      MergeMeaning(g, from, Init(links));
      UpdateLinkMeaning(Merge(g, from, Init(links)), from, Last(links).node, Last(links).quality);
      hide UpdateLink, HasLink;
    }
  }

  // -------------------------------------------------------------------- runs

  /** In every reachable state the link map is symmetric, with at most one entry per ordered pair. */
  lemma {:induction false} RunWellFormed(s: State, events: seq<Event>)
    requires WellFormed(s.adjacency)
    ensures WellFormed(Run(s, events).adjacency) && Run(s, events).localId == s.localId
  {
    if events != [] {
      RunWellFormed(s, Init(events));
      var t := Run(s, Init(events));
      match Last(events)
      case Advert(lsa) => MergeMeaning(t.adjacency, lsa.nodeId, lsa.neighbors);
      case Update(n, q) => UpdateLinkMeaning(t.adjacency, t.localId, n, q);
      case Remove(n) => RemoveNodeMeaning(t.adjacency, n);
    }
  }

  predicate Mentions(e: Event, x: NodeId) {
    match e
    case Advert(lsa) => lsa.nodeId == x || exists i :: 0 <= i < |lsa.neighbors| && lsa.neighbors[i].node == x
    case Update(n, _) => n == x
    case Remove(n) => n == x
  }

  ghost predicate Isolated(g: LinkMap, x: NodeId) {
    forall u, v, q :: HasLink(g, u, v, q) ==> u != x && v != x
  }

  lemma {:induction false} UnlistedKept(links: seq<Link>, x: NodeId)
    requires forall i :: 0 <= i < |links| ==> links[i].node != x
    ensures LastQuality(links, x) == None
  {
    if links != [] { UnlistedKept(Init(links), x); }
  }

  lemma {:induction false} StaysIsolated(s: State, events: seq<Event>, x: NodeId)
    requires WellFormed(s.adjacency) && Isolated(s.adjacency, x) && x != s.localId
    requires forall e :: e in events ==> !Mentions(e, x)
    ensures Isolated(Run(s, events).adjacency, x)
  {
    if events != [] {
      StaysIsolated(s, Init(events), x);
      RunWellFormed(s, Init(events));
      var t, e := Run(s, Init(events)), Last(events);
      assert !Mentions(e, x);
      hide HasLink, UpdateLink, Run;
      match e
      case Advert(lsa) =>
        UnlistedKept(lsa.neighbors, x);
        MergeMeaning(t.adjacency, lsa.nodeId, lsa.neighbors);
      case Update(n, q) => UpdateLinkMeaning(t.adjacency, t.localId, n, q);
      case Remove(n) => RemoveNodeMeaning(t.adjacency, n);
    }
  }

  lemma {:induction false} WalkAvoids(g: LinkMap, from: NodeId, hops: seq<Link>, x: NodeId)
    requires Isolated(g, x) && from != x && IsWalk(g, from, hops)
    ensures x !in Visited(from, hops)
  {
    if hops != [] {
      WalkAvoids(g, from, Init(hops), x);
      var l := Last(hops);
      assert HasLink(g, End(from, Init(hops)), l.node, l.quality);
      assert Visited(from, hops) == Visited(from, Init(hops)) + [l.node];
    }
  }

  /** After a neighbor is removed no route ends at it or passes through it, until some later event mentions it. */
  lemma RemovedStaysGone(s: State, x: NodeId, events: seq<Event>, d: NodeId)
    requires WellFormed(s.adjacency) && x != s.localId
    requires forall e :: e in events ==> !Mentions(e, x)
    ensures var t := Run(Next(s, Remove(x)), events);
            d in Routes(t.adjacency, t.localId) ==>
              d in Best(t.adjacency, t.localId) && x !in Visited(t.localId, PathTo(t.adjacency, t.localId, d)) && d != x
  {
    var s1 := Next(s, Remove(x));
    RemoveNodeMeaning(s.adjacency, x);
    StaysIsolated(s1, events, x);
    RunWellFormed(s1, events);
    var t := Run(s1, events);
    hide Best, PathTo, Run, Isolated, WellFormed;
    if d in Routes(t.adjacency, t.localId) {
      PathFacts(t.adjacency, t.localId, d);
      var hops := PathTo(t.adjacency, t.localId, d);
      WalkAvoids(t.adjacency, t.localId, hops, x);
      assert Visited(t.localId, hops)[|hops|] == d;
    }
  }

  predicate IsNews(localId: NodeId, events: seq<Event>, lsa: Advertisement) {
    && lsa.nodeId != localId
    && forall e :: e in events && e.Advert? && e.lsa.nodeId == lsa.nodeId ==> e.lsa.sequence < lsa.sequence
  }

  /** Acceptance, read off the history: an advertisement is accepted if and only if it is not the router's own and every
      advertisement of its origin presented before, accepted or not, had a smaller sequence number. */
  lemma {:induction false} AcceptedExactly(localId: NodeId, events: seq<Event>, lsa: Advertisement)
    ensures Accepts(Run(Fresh(localId), events), lsa) <==> IsNews(localId, events, lsa)
    ensures Run(Fresh(localId), events).localId == localId
  {
    if events != [] {
      AcceptedExactly(localId, Init(events), lsa);
      assert forall e :: e in events <==> e in Init(events) || e == Last(events);
      if Last(events).Advert? && Last(events).lsa.nodeId == lsa.nodeId {
        AcceptedExactly(localId, Init(events), Last(events).lsa);
      }
    }
  }

  /** The quality the latest event about the pair (x, y) leaves it with: a measurement, in either direction, an
      advertisement that is news and lists the pair, or a removal of either end. */
  function Standing(localId: NodeId, events: seq<Event>, x: NodeId, y: NodeId): Option<Quality> {
    if events == [] then None
    else
      var before := Standing(localId, Init(events), x, y);
      match Last(events)
      case Update(n, q) => if (x, y) == (localId, n) || (x, y) == (n, localId) then Some(q) else before
      case Remove(n) => if x == n || y == n then None else before
      case Advert(lsa) =>
        var told := Advertised(lsa.nodeId, lsa.neighbors, x, y);
        if told.Some? && IsNews(localId, Init(events), lsa) then told else before
  }

  /** The link map of a router, in any reachable state, read off its history. */
  lemma {:induction false} LinksFromHistory(localId: NodeId, events: seq<Event>)
    ensures forall x: NodeId, y: NodeId, q: Quality :: HasLink(Run(Fresh(localId), events).adjacency, x, y, q) <==>
              Standing(localId, events, x, y) == Some(q)
  {
    hide HasLink, IsNews, Merge, UpdateLink, RemoveNode, Advertised, WellFormed;
    if events == [] {
      NothingLinked(localId);
    } else {
      var t := Run(Fresh(localId), Init(events));
      LinksFromHistory(localId, Init(events));
      FreshWellFormed(localId);
      RunWellFormed(Fresh(localId), Init(events));
      match Last(events)
      case Advert(lsa) =>
        AcceptedExactly(localId, Init(events), lsa);
        MergeMeaning(t.adjacency, lsa.nodeId, lsa.neighbors);
      case Update(n, q) => UpdateLinkMeaning(t.adjacency, localId, n, q);
      case Remove(n) => RemoveNodeMeaning(t.adjacency, n);
    }
  }

  lemma FreshWellFormed(localId: NodeId)
    ensures WellFormed(Fresh(localId).adjacency)
  {
  }

  lemma NothingLinked(localId: NodeId)
    ensures forall x, y, q :: !HasLink(Fresh(localId).adjacency, x, y, q)
  {
  }

  /** The latest measurement of a neighbor, unless it was removed since. */
  function Measured(events: seq<Event>, n: NodeId): Option<Quality> {
    if events == [] then None
    else
      match Last(events)
      case Update(m, q) => if m == n then Some(q) else Measured(Init(events), n)
      case Remove(m) => if m == n then None else Measured(Init(events), n)
      case Advert(_) => Measured(Init(events), n)
  }

  /** A router advertises, in any reachable state, exactly the neighbors it has measured and not removed since, each
      with its latest quality. */
  lemma AdvertisesMeasurements(localId: NodeId, events: seq<Event>, lsa: Advertisement)
    requires IsAdvertisementOf(Run(Fresh(localId), events), lsa)
    ensures forall n: NodeId, q: Quality :: Link(n, q) in lsa.neighbors <==> Measured(events, n) == Some(q)
  {
    forall n ensures Measured(events, n) == (var d := Run(Fresh(localId), events).direct; if n in d then Some(d[n]) else None) {
      DirectIs(localId, events, n);
    }
  }

  lemma {:induction false} DirectIs(localId: NodeId, events: seq<Event>, n: NodeId)
    ensures Measured(events, n) == (var d := Run(Fresh(localId), events).direct; if n in d then Some(d[n]) else None)
  {
    if events != [] { DirectIs(localId, Init(events), n); }
  }

  /** Once presented, an advertisement is never accepted again. */
  lemma {:induction false} SeenIsRejected(s: State, events: seq<Event>, lsa: Advertisement)
    requires Advert(lsa) in events
    ensures !Accepts(Run(s, events), lsa)
  {
    if Last(events) != Advert(lsa) {
      assert events == Init(events) + [Last(events)];
      SeenIsRejected(s, Init(events), lsa);
    }
  }

  /** The run with every re-delivered advertisement left out. */
  function WithoutRepeats(events: seq<Event>): seq<Event> {
    if events == [] then []
    else if Last(events).Advert? && Last(events) in Init(events) then WithoutRepeats(Init(events))
    else WithoutRepeats(Init(events)) + [Last(events)]
  }

  /** Re-deliveries, any number of them and anywhere in a run, leave no trace in the router's state, and so none in
      the routes computed from it. */
  lemma {:induction false} RedeliveryChangesNothing(s: State, events: seq<Event>)
    ensures Run(s, WithoutRepeats(events)) == Run(s, events)
  {
    if events != [] {
      RedeliveryChangesNothing(s, Init(events));
      if Last(events).Advert? && Last(events) in Init(events) {
        SeenIsRejected(s, Init(events), Last(events).lsa);
      } else {
        var kept := WithoutRepeats(Init(events));
        assert Init(kept + [Last(events)]) == kept;
      }
    }
  }

  lemma {:induction false} LastSeqGrows(s: State, events: seq<Event>, i: nat, origin: NodeId)
    requires i <= |events| && origin in Run(s, events[..i]).lastSeq
    ensures origin in Run(s, events).lastSeq
    ensures Run(s, events[..i]).lastSeq[origin] <= Run(s, events).lastSeq[origin]
  {
    if i < |events| {
      assert Init(events)[..i] == events[..i];
      LastSeqGrows(s, Init(events), i, origin);
    } else {
      assert events[..i] == events;
    }
  }

  /** Sequence numbers accepted from one origin strictly increase. */
  lemma AcceptedSequencesIncrease(s: State, events: seq<Event>, i: nat, j: nat)
    requires i < j < |events| && events[i].Advert? && events[j].Advert?
    requires events[i].lsa.nodeId == events[j].lsa.nodeId
    requires Accepts(Run(s, events[..i]), events[i].lsa) && Accepts(Run(s, events[..j]), events[j].lsa)
    ensures events[i].lsa.sequence < events[j].lsa.sequence
  {
    assert Init(events[..i + 1]) == events[..i];
    assert events[..j][..i + 1] == events[..i + 1];
    LastSeqGrows(s, events[..j], i + 1, events[i].lsa.nodeId);
  }

  /** A router never raises the number it advertises under, so a peer that has been shown one advertisement
      generated by a router rejects every later one, whatever the router has learnt in between. */
  lemma LaterAdvertisementsIgnored(router: State, later: seq<Event>, peer: State, shown: seq<Event>,
                                   first: Advertisement, second: Advertisement)
    requires IsAdvertisementOf(router, first) && IsAdvertisementOf(Run(router, later), second)
    requires WellFormed(router.adjacency)
    requires Advert(first) in shown
    ensures !Accepts(Run(peer, shown), second)
  {
    RunWellFormed(router, later);
    SeenIsRejected(peer, shown, first);
  }
}
