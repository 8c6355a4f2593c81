/** NetJoin: challenge and response between a joining node and a responder. */
module Joining {
  import opened Common

  const NONCE_SIZE: nat := 32

  type Nonce = b: Bytes | |b| == NONCE_SIZE witness seq(NONCE_SIZE, _ => 0)

  /** The primitives used; signing and sealing may fail. Randomness is passed in. */
  datatype Crypto = Crypto(
    sign: (Bytes, Bytes) -> Option<Bytes>,
    verify: (Bytes, Bytes, Bytes) -> bool,
    seal: (Bytes, Bytes, Bytes) -> Option<Bytes>)

  datatype JoinRequest = JoinRequest(nodeId: U32, publicKey: Bytes)
  datatype Challenge = Challenge(challengerId: U32, joinerId: U32, nonce: Nonce)
  datatype Response = Response(joinerId: U32, nonce: Bytes, signature: Bytes)
  datatype JoinAccept = Rejected | Accepted(encryptedTek: Bytes, encryptedFhek: Bytes)

  /** The net keys to hand out, with the initialization vectors drawn for them (`None` when the generator failed). */
  datatype NetKeys = NetKeys(tek: Bytes, fhek: Bytes, ivTek: Option<Bytes>, ivFhek: Option<Bytes>)

  datatype State = State(nodeId: U32, trusted: map<U32, Bytes>, pending: map<U32, Challenge>)

  datatype Event =
    | Trust(id: U32, key: Bytes)
    | Ask(request: JoinRequest, nonce: Nonce)
    | Answer(response: Response, keys: NetKeys)

  function Wrapped(c: Crypto, key: Bytes, text: Bytes, iv: Option<Bytes>): Option<Bytes> {
    if |key| != NONCE_SIZE || iv.None? then None else c.seal(key, text, iv.value)
  }

  /** The reply of `verify_and_accept`. */
  function Reply(c: Crypto, s: State, r: Response, k: NetKeys): JoinAccept {
    if r.joinerId !in s.pending then Rejected
    else
      var nonce := s.pending[r.joinerId].nonce;
      if r.nonce != nonce || r.joinerId !in s.trusted || !c.verify(s.trusted[r.joinerId], r.nonce, r.signature) then Rejected
      else
        var tek, fhek := Wrapped(c, nonce, k.tek, k.ivTek), Wrapped(c, nonce, k.fhek, k.ivFhek);
        if tek.None? || fhek.None? then Rejected else Accepted(tek.value, fhek.value)
  }

  function Next(s: State, e: Event): State {
    match e
    case Trust(id, key) => s.(trusted := s.trusted[id := key])
    case Ask(request, nonce) =>
      s.(pending := s.pending[request.nodeId := Challenge(s.nodeId, request.nodeId, nonce)])
    case Answer(r, _) => s.(pending := s.pending - {r.joinerId})
  }

  function Fresh(nodeId: U32): State {
    State(nodeId, map[], map[])
  }

  class NetJoin {
    const crypto: Crypto
    const nodeId: U32
    const privateKey: Bytes
    const publicKey: Bytes
    var trusted: map<U32, Bytes>
    var pending: map<U32, Challenge>

    ghost function View(): State
      reads this
    {
      State(nodeId, trusted, pending)
    }

    constructor (crypto: Crypto, nodeId: U32, privateKey: Bytes, publicKey: Bytes)
      ensures View() == Fresh(nodeId) && this.crypto == crypto
      ensures this.privateKey == privateKey && this.publicKey == publicKey
    {
      this.crypto, this.nodeId, this.privateKey, this.publicKey := crypto, nodeId, privateKey, publicKey;
      trusted, pending := map[], map[];
    }

    method CreateJoinRequest() returns (r: JoinRequest)
      ensures r == JoinRequest(nodeId, publicKey)
    {
      return JoinRequest(nodeId, publicKey);
    }

    method SignChallenge(c: Challenge) returns (r: Response)
      ensures r == Signed(crypto, nodeId, privateKey, c)
    {
      var signature := crypto.sign(privateKey, c.nonce);
      r := Response(nodeId, c.nonce, if signature.Some? then signature.value else []);
    }

    method AddTrustedNode(id: U32, key: Bytes)
      modifies this
      ensures View() == Next(old(View()), Trust(id, key))
    {
      trusted := trusted[id := key];
    }

    method CreateChallenge(request: JoinRequest, nonce: Nonce) returns (c: Challenge)
      modifies this
      ensures View() == Next(old(View()), Ask(request, nonce)) && c == Challenge(nodeId, request.nodeId, nonce)
    {
      c := Challenge(nodeId, request.nodeId, nonce);
      pending := pending[request.nodeId := c];
    }

    method VerifyAndAccept(r: Response, k: NetKeys) returns (reply: JoinAccept)
      modifies this
      ensures View() == Next(old(View()), Answer(r, k))
      ensures reply == Reply(crypto, old(View()), r, k)
    {
      reply := Rejected;
      if r.joinerId !in pending {
        return;
      }
      var nonce := pending[r.joinerId].nonce;
      if r.nonce != nonce {
        pending := pending - {r.joinerId};
        return;
      }
      if r.joinerId !in trusted {
        pending := pending - {r.joinerId};
        return;
      }
      if !crypto.verify(trusted[r.joinerId], r.nonce, r.signature) {
        pending := pending - {r.joinerId};
        return;
      }
      var tek := Wrapped(crypto, nonce, k.tek, k.ivTek);
      var fhek := Wrapped(crypto, nonce, k.fhek, k.ivFhek);
      if tek.None? || fhek.None? {
        pending := pending - {r.joinerId};
        return;
      }
      reply := Accepted(tek.value, fhek.value);
      pending := pending - {r.joinerId};
    }
  }

  /** An honest joiner's answer; an empty signature when signing fails. */
  function Signed(c: Crypto, nodeId: U32, privateKey: Bytes, challenge: Challenge): Response {
    var signature := c.sign(privateKey, challenge.nonce);
    Response(nodeId, challenge.nonce, if signature.Some? then signature.value else [])
  }

  // -------------------------------------------------------------------- runs

  function Run(nodeId: U32, events: seq<Event>): State {
    if events == [] then Fresh(nodeId) else Next(Run(nodeId, events[..|events| - 1]), events[|events| - 1])
  }

  predicate AsksFor(e: Event, joiner: U32) {
    e.Ask? && e.request.nodeId == joiner
  }

  predicate Answers(e: Event, joiner: U32) {
    e.Answer? && e.response.joinerId == joiner
  }

  /** Challenge `j` is the joiner's latest, and nobody has tried to answer for the joiner since. */
  ghost predicate Open(events: seq<Event>, joiner: U32, j: int) {
    && 0 <= j < |events| && AsksFor(events[j], joiner)
    && forall k :: j < k < |events| ==> !AsksFor(events[k], joiner) && !Answers(events[k], joiner)
  }

  /** The key last trusted for a node. */
  function TrustedKey(events: seq<Event>, id: U32): Option<Bytes> {
    if events == [] then None
    else
      var e := events[|events| - 1];
      if e.Trust? && e.id == id then Some(e.key) else TrustedKey(events[..|events| - 1], id)
  }

  lemma {:induction false} TrustedIs(nodeId: U32, events: seq<Event>, id: U32)
    ensures var s := Run(nodeId, events);
            TrustedKey(events, id) == if id in s.trusted then Some(s.trusted[id]) else None
  {
    if events != [] { TrustedIs(nodeId, events[..|events| - 1], id); }
  }

  /** What is pending for a joiner is exactly the open challenge, if there is one. */
  lemma {:induction false} PendingIs(nodeId: U32, events: seq<Event>, joiner: U32)
    ensures var s := Run(nodeId, events);
            && (joiner in s.pending <==> exists j :: Open(events, joiner, j))
            && forall j :: Open(events, joiner, j) ==>
                 joiner in s.pending && s.pending[joiner] == Challenge(nodeId, joiner, events[j].nonce)
    ensures Run(nodeId, events).nodeId == nodeId
  {
    if events != [] {
      var init, e := events[..|events| - 1], events[|events| - 1];
      PendingIs(nodeId, init, joiner);
      OpenStep(events, joiner);
      hide Open;
      if AsksFor(e, joiner) {
        assert Open(events, joiner, |events| - 1);
      } else if !Answers(e, joiner) && joiner in Run(nodeId, init).pending {
        var j :| Open(init, joiner, j);
        assert Open(events, joiner, j);
      }
    }
  }

  /** How the latest event affects which challenge is open. */
  lemma OpenStep(events: seq<Event>, joiner: U32)
    requires events != []
    ensures var init, e := events[..|events| - 1], events[|events| - 1];
            forall j {:trigger Open(events, joiner, j)} {:trigger Open(init, joiner, j)} :: Open(events, joiner, j) <==>
              if AsksFor(e, joiner) then j == |events| - 1 else !Answers(e, joiner) && Open(init, joiner, j)
    ensures var init := events[..|events| - 1]; forall j :: Open(init, joiner, j) ==> 0 <= j < |init|
    ensures forall j :: Open(events, joiner, j) ==> 0 <= j < |events|
  {
    var init, e := events[..|events| - 1], events[|events| - 1];
    forall j | Open(init, joiner, j) && !AsksFor(e, joiner) && !Answers(e, joiner) ensures Open(events, joiner, j) {
      assert forall k :: 0 <= k < |init| ==> init[k] == events[k];
    }
    forall j | Open(events, joiner, j) && !AsksFor(e, joiner) ensures Open(init, joiner, j) && !Answers(e, joiner) {
      assert forall k :: 0 <= k < |init| ==> init[k] == events[k];
    }
  }

  /** Whether the i-th event of a run is an answer that gets accepted. */
  predicate AcceptedAt(c: Crypto, nodeId: U32, events: seq<Event>, i: nat) {
    i < |events| && events[i].Answer? && Reply(c, Run(nodeId, events[..i]), events[i].response, events[i].keys).Accepted?
  }

  /** A random vector could be drawn, and the engine seals `text` under `nonce`. */
  predicate Sealable(c: Crypto, nonce: Bytes, text: Bytes, iv: Option<Bytes>) {
    iv.Some? && c.seal(nonce, text, iv.value).Some?
  }

  /** An answer is accepted if and only if it echoes the joiner's open challenge, carries a valid signature under the
      key last trusted for the joiner, and both net keys can be wrapped. */
  lemma AcceptedExactly(c: Crypto, nodeId: U32, events: seq<Event>, i: nat)
    requires i < |events| && events[i].Answer?
    ensures var r, k := events[i].response, events[i].keys; var key := TrustedKey(events[..i], r.joinerId);
            AcceptedAt(c, nodeId, events, i) <==>
            exists j :: Open(events[..i], r.joinerId, j) && r.nonce == events[j].nonce
                        && key.Some? && c.verify(key.value, r.nonce, r.signature)
                        && Sealable(c, r.nonce, k.tek, k.ivTek) && Sealable(c, r.nonce, k.fhek, k.ivFhek)
  {
    var r := events[i].response;
    PendingIs(nodeId, events[..i], r.joinerId);
    TrustedIs(nodeId, events[..i], r.joinerId);
    assert forall j :: 0 <= j < i ==> events[..i][j] == events[j];
  }

  /** The challenge an accepted answer consumes. */
  ghost function Consumed(c: Crypto, nodeId: U32, events: seq<Event>, i: nat): (j: nat)
    requires AcceptedAt(c, nodeId, events, i)
    ensures j < i && AsksFor(events[j], events[i].response.joinerId) && events[j].nonce == events[i].response.nonce
    ensures Open(events[..i], events[i].response.joinerId, j)
  {
    AcceptedExactly(c, nodeId, events, i);
    var j :| Open(events[..i], events[i].response.joinerId, j) && events[i].response.nonce == events[j].nonce;
    j
  }

  /** No challenge is accepted twice: acceptances map one-to-one into the challenges created for their joiners. */
  lemma AcceptedOnce(c: Crypto, nodeId: U32, events: seq<Event>, i: nat, k: nat)
    requires AcceptedAt(c, nodeId, events, i) && AcceptedAt(c, nodeId, events, k) && i < k
    ensures Consumed(c, nodeId, events, i) != Consumed(c, nodeId, events, k)
  {
    var j := Consumed(c, nodeId, events, i);
    if j == Consumed(c, nodeId, events, k) {
      assert Answers(events[..k][i], events[k].response.joinerId);
    }
  }

  /** Any attempt to answer for a joiner, accepted or not, closes its challenge. */
  lemma AnswerConsumes(nodeId: U32, events: seq<Event>, e: Event, joiner: U32)
    requires Answers(e, joiner)
    ensures joiner !in Run(nodeId, events + [e]).pending
  {
    assert (events + [e])[..|events|] == events;
  }

  /** A trusted joiner that signs its open challenge is accepted, if signing and sealing succeed; and with the nonce it
      opens the two replies to the net's TEK and FHEK. */
  lemma HonestJoinerAccepted(c: Crypto, nodeId: U32, events: seq<Event>, joiner: U32, j: nat, privateKey: Bytes,
                             publicKey: Bytes, k: NetKeys, open: (Bytes, Bytes) -> Option<Bytes>)
    requires Open(events, joiner, j) && TrustedKey(events, joiner) == Some(publicKey)
    requires forall m, sig :: c.sign(privateKey, m) == Some(sig) ==> c.verify(publicKey, m, sig)
    requires forall key, text, iv, out :: c.seal(key, text, iv) == Some(out) ==> open(key, out) == Some(text)
    requires c.sign(privateKey, events[j].nonce).Some?
    requires Sealable(c, events[j].nonce, k.tek, k.ivTek) && Sealable(c, events[j].nonce, k.fhek, k.ivFhek)
    ensures var s := Run(nodeId, events);
            && joiner in s.pending && s.pending[joiner].nonce == events[j].nonce
            && var reply := Reply(c, s, Signed(c, joiner, privateKey, s.pending[joiner]), k);
               && reply.Accepted?
               && open(events[j].nonce, reply.encryptedTek) == Some(k.tek)
               && open(events[j].nonce, reply.encryptedFhek) == Some(k.fhek)
  {
    PendingIs(nodeId, events, joiner);
    TrustedIs(nodeId, events, joiner);
    var tek, fhek := c.seal(events[j].nonce, k.tek, k.ivTek.value), c.seal(events[j].nonce, k.fhek, k.ivFhek.value);
    assert open(events[j].nonce, tek.value) == Some(k.tek) && open(events[j].nonce, fhek.value) == Some(k.fhek);
  }
}
