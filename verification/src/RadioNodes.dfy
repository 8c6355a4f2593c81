/** RadioNode: start, beacons, polling, dispatch of parsed messages into the inboxes and the router, and sending. */
module RadioNodes {
  import opened Common
  import opened Framing
  import opened Channels
  import opened Delivery
  import Hopping
  import Mesh = MeshRouters
  import Rekeying

  type Key = Rekeying.Key
  type Keys = Rekeying.Keys

  const DISCOVERY_FREQ: Frequency := 300_000_000
  const NODE_BAND := Hopping.Band(225_000_000, 512_000_000, 25_000)
  const POLL_SIZE: nat := 4096
  const BEACON: Byte := 0
  const DATA: Byte := 1
  const VOICE: Byte := 2
  const NEW_PEER_QUALITY: real := 1.0

  /** Traffic encryption under a TEK (the nonce is a parameter), the block cipher of the hop sequencer, and the voice
      codec. */
  datatype Suite = Suite(
    seal: (Key, nat, Bytes) -> Option<Bytes>, open: (Key, Bytes) -> Option<Bytes>,
    block: Hopping.BlockCipher, encode: seq<int> -> Bytes, decode: Bytes -> seq<int>)

  /** What stays fixed while a started node keeps its keys; without all three keys there is no `tek`. */
  datatype Config = Config(id: U32, netId: U32, radio: RadioId, suite: Suite, tek: Option<Key>, fhek: Bytes)

  datatype ReceivedData = ReceivedData(source: U32, payload: Bytes)
  datatype ReceivedVoice = ReceivedVoice(source: U32, audio: seq<int>)

  /** What the parse loops fill: two inboxes, the peers discovered, and the router. */
  datatype Boxes = Boxes(data: seq<ReceivedData>, voice: seq<ReceivedVoice>, peers: seq<U32>, routing: Mesh.State)

  datatype Node = Node(config: Config, frameNumber: U32, boxes: Boxes)

  function NoBoxes(id: U32): Boxes {
    Boxes([], [], [], Mesh.Fresh(id))
  }

  /** The hop frequency of slot 0; nothing is ever blacklisted here. */
  function HopOf(c: Config, frameNumber: U32): Frequency {
    Hopping.HopFrequency(Hopping.Sequencer(c.suite.block, c.fhek, NODE_BAND), 0, frameNumber, 0, {})
  }

  /** The plaintext a message yields for this node: addressed to it or broadcast, and accepted by decryption. */
  function Opened(c: Config, f: Frame): Option<Bytes> {
    if (f.dst == c.id || f.dst == 0) && c.tek.Some? then c.suite.open(c.tek.value, f.payload) else None
  }

  /** A beacon of `peer` was heard. */
  function Discovered(c: Config, b: Boxes, peer: U32): Boxes {
    if peer == c.id || peer in b.peers then b
    else b.(peers := b.peers + [peer], routing := Mesh.Next(b.routing, Mesh.Update(peer, NEW_PEER_QUALITY)))
  }

  /** The body of a parse loop, for one message. Beacons count on the discovery frequency only. */
  function Handle(c: Config, b: Boxes, f: Frame, discovery: bool): Boxes {
    if discovery && f.msgType == BEACON && |f.payload| >= 9 then
      Discovered(c, b, DecodeU32(f.payload[..4]))
    else if f.msgType == DATA && Opened(c, f).Some? then
      b.(data := b.data + [ReceivedData(f.src, Opened(c, f).value)])
    else if f.msgType == VOICE && Opened(c, f).Some? then
      b.(voice := b.voice + [ReceivedVoice(f.src, c.suite.decode(Opened(c, f).value))])
    else b
  }

  function HandleAll(c: Config, b: Boxes, frames: seq<Frame>, discovery: bool): Boxes
    decreases |frames|
  {
    if frames == [] then b else HandleAll(c, Handle(c, b, frames[0], discovery), frames[1..], discovery)
  }

  function Beacon(n: Node): Frame {
    Frame(BEACON, n.config.id, 0,
          EncodeU32(n.config.id) + EncodeU32(n.config.netId) + [(|n.boxes.peers| + 1) % 256])
  }

  function PollFor(n: Node, f: Frequency): Event {
    Receive(n.config.radio, f, POLL_SIZE)
  }

  function AfterPoll(n: Node, c: Channel, f: Frequency, discovery: bool): (r: Node)
    ensures r.config == n.config && r.frameNumber == n.frameNumber
  {
    n.(boxes := HandleAll(n.config, n.boxes, Parse(SamplesToBytes(Output(c, PollFor(n, f)))), discovery))
  }

  function BeaconOf(n: Node): Event {
    Transmit(n.config.radio, DISCOVERY_FREQ, OnAir(Beacon(n)))
  }

  /** One tick of an active node: its own beacon, a poll of the discovery frequency, a poll of the hop frequency. */
  function Ticked(n: Node, c: Channel): (r: (Node, Channel))
    ensures r.0.config == n.config
  {
    var c1 := Next(c, BeaconOf(n));
    var n1, c2 := AfterPoll(n, c1, DISCOVERY_FREQ, true), Next(c1, PollFor(n, DISCOVERY_FREQ));
    var f := HopOf(n.config, n.frameNumber);
    var n2, c3 := AfterPoll(n1, c2, f, false), Next(c2, PollFor(n1, f));
    (n2.(frameNumber := Increment(n2.frameNumber)), c3)
  }

  /** The message a node makes of a plaintext, unless it lacks keys or the engine declines. */
  function Sealed(c: Config, kind: Byte, dest: U32, plain: Bytes, nonce: nat): Option<Frame> {
    if c.tek.None? then None
    else match c.suite.seal(c.tek.value, nonce, plain)
         case None => None
         case Some(text) => Some(Frame(kind, c.id, dest, text))
  }

  function SendOf(n: Node, f: Frame): Event {
    Transmit(n.config.radio, HopOf(n.config, n.frameNumber), OnAir(f))
  }

  // ------------------------------------------------------------------- start

  /** What the engine answers to the three key requests of `start`; None: it throws. */
  datatype Supply = Supply(kek: Option<Key>, tek: Option<Key>, fhek: Option<Key>)

  datatype Provision = Provision(tek: Bytes, fhek: Bytes)

  predicate Ready(k: Keys) {
    k.kek.Some? && k.tek.Some? && k.fhek.Some?
  }

  /** The engine imports 32-byte keys only. */
  function Import(key: Bytes, answer: Option<Key>): Option<Key> {
    if |key| == Hopping.KEY_SIZE && answer.Some? then Some(key) else None
  }

  /** The keys `start` installs: provisioned ones, else those already there, else new ones. */
  function Wanted(k: Keys, p: Option<Provision>, s: Supply): Supply {
    if p.Some? then Supply(s.kek, Import(p.value.tek, s.tek), Import(p.value.fhek, s.fhek))
    else if Ready(k) then Supply(k.kek, k.tek, k.fhek)
    else s
  }

  /** Installing one after the other, up to the first the engine refuses. */
  function Filled(k: Keys, s: Supply): Keys {
    if s.kek.None? then k
    else if s.tek.None? then k.(kek := s.kek)
    else if s.fhek.None? then k.(kek := s.kek, tek := s.tek)
    else k.(kek := s.kek, tek := s.tek, fhek := s.fhek)
  }

  predicate Starts(s: Supply) {
    s.kek.Some? && s.tek.Some? && s.fhek.Some? && |s.fhek.value| == Hopping.KEY_SIZE
  }

  /** Provisioned nodes that start agree on the traffic key and on every hop, whatever their engines answered. */
  lemma ProvisionedAlike(k1: Keys, s1: Supply, k2: Keys, s2: Supply, p: Provision, c1: Config, c2: Config)
    requires Starts(Wanted(k1, Some(p), s1)) && Starts(Wanted(k2, Some(p), s2)) && c1.suite == c2.suite
    requires var f := Filled(k1, Wanted(k1, Some(p), s1)); c1.tek == f.tek && Some(c1.fhek) == f.fhek
    requires var f := Filled(k2, Wanted(k2, Some(p), s2)); c2.tek == f.tek && Some(c2.fhek) == f.fhek
    ensures c1.tek == c2.tek == Some(p.tek) && forall n: U32 :: HopOf(c1, n) == HopOf(c2, n)
  {
    hide Hopping.HopFrequency;
  }

  class RadioNode {
    const id: U32
    const netId: U32
    const radio: RadioId
    const suite: Suite
    const channel: SimChannel
    const router: Mesh.MeshRouter
    var active: bool
    var provisioned: Option<Provision>
    var keys: Keys
    var hopper: Hopping.HopSequencer?
    var frameNumber: U32
    var data: seq<ReceivedData>
    var voice: seq<ReceivedVoice>
    var peers: seq<U32>

    /** An active node has a hop sequencer over the node band, with an empty blacklist. */
    ghost predicate Valid()
      reads this`active, this`hopper, router, router.table, hopper
    {
      && router.Valid()
      && (active ==> hopper != null)
      && (hopper != null ==> hopper.encrypt == suite.block && hopper.band == NODE_BAND && hopper.blacklist == {})
    }

    ghost function GetConfig(): Config
      reads this`keys, this`hopper, hopper
    {
      Config(id, netId, radio, suite, if Ready(keys) then keys.tek else None, if hopper == null then [] else hopper.key)
    }

    ghost function GetBoxes(): Boxes
      reads this`data, this`voice, this`peers, router, router.table
    {
      Boxes(data, voice, peers, router.View())
    }

    ghost function View(): Node
      reads this`keys, this`hopper, this`frameNumber, this`data, this`voice, this`peers, hopper, router, router.table
    {
      Node(GetConfig(), frameNumber, GetBoxes())
    }

    constructor (id: U32, netId: U32, channel: SimChannel, suite: Suite)
      modifies channel
      ensures Valid() && fresh(router) && fresh(router.table) && this.channel == channel
      ensures !active && provisioned == None && keys == Rekeying.NO_KEYS
      ensures View() == Node(Config(id, netId, radio, suite, None, []), 0, NoBoxes(id))
      ensures channel.View() == Next(old(channel.View()), Register) && radio == old(channel.nextId)
    {
      this.id, this.netId, this.channel, this.suite := id, netId, channel, suite;
      active, provisioned, keys, hopper, frameNumber := false, None, Rekeying.NO_KEYS, null, 0;
      data, voice, peers := [], [], [];
      router := new Mesh.MeshRouter(id);
      var r := channel.RegisterRadio();
      radio := r;
    }

    method ProvisionKeys(tek: Bytes, fhek: Bytes)
      modifies this`provisioned
      ensures provisioned == Some(Provision(tek, fhek))
    {
      provisioned := Some(Provision(tek, fhek));
    }

    /** Leave the idle state, with keys and a hop sequencer under the FHEK in place. When a step throws, the node stays
        idle with the keys installed so far. */
    method Start(supply: Supply) returns (ok: bool)
      requires Valid()
      modifies this`active, this`keys, this`hopper
      ensures Valid() && active == ok
      ensures old(active) ==> ok && View() == old(View()) && keys == old(keys)
      ensures !old(active) ==>
                var wanted := Wanted(old(keys), provisioned, supply);
                && ok == Starts(wanted) && keys == Filled(old(keys), wanted)
                && (ok ==> fresh(hopper) && GetConfig() == Config(id, netId, radio, suite, keys.tek, keys.fhek.value))
      ensures !old(active) ==>
                (ok <==> if provisioned.Some? then
                           && |provisioned.value.tek| == 32 && |provisioned.value.fhek| == 32
                           && supply.kek.Some? && supply.tek.Some? && supply.fhek.Some?
                         else if Ready(old(keys)) then |old(keys).fhek.value| == 32
                         else supply.kek.Some? && supply.tek.Some? && supply.fhek.Some? && |supply.fhek.value| == 32)
      ensures !old(active) && ok && provisioned.Some? ==>
                keys.tek == Some(provisioned.value.tek) && keys.fhek == Some(provisioned.value.fhek) && keys.kek == supply.kek
      ensures !old(active) && ok && provisioned.None? ==>
                && keys.kek == (if Ready(old(keys)) then old(keys).kek else supply.kek)
                && keys.tek == (if Ready(old(keys)) then old(keys).tek else supply.tek)
                && keys.fhek == (if Ready(old(keys)) then old(keys).fhek else supply.fhek)
    {
      if active {
        return true;
      }
      if provisioned.Some? {
        ok := InstallAll(supply.kek, Import(provisioned.value.tek, supply.tek), Import(provisioned.value.fhek, supply.fhek));
      } else if Ready(keys) {
        ok := true;
      } else {
        ok := InstallAll(supply.kek, supply.tek, supply.fhek);
      }
      if !ok {
        return;
      }
      BandIsUsable();
      Hopping.ChecksAreExact(keys.fhek.value, NODE_BAND);
      var h, e := Hopping.HopSequencer.Make(suite.block, keys.fhek.value, NODE_BAND);
      if e.Some? {
        return false;
      }
      hopper, active := h, true;
    }

    method InstallAll(kek: Option<Key>, tek: Option<Key>, fhek: Option<Key>) returns (ok: bool)
      modifies this`keys
      ensures keys == Filled(old(keys), Supply(kek, tek, fhek)) && ok == (kek.Some? && tek.Some? && fhek.Some?)
    {
      if kek.None? {
        return false;
      }
      keys := keys.(kek := kek);
      if tek.None? {
        return false;
      }
      keys := keys.(tek := tek);
      if fhek.None? {
        return false;
      }
      keys := keys.(fhek := fhek);
      return true;
    }

    /** What the node does with one message. */
    method Dispatch(frame: Frame, discovery: bool)
      requires Valid()
      modifies this`data, this`voice, this`peers, router, router.table
      ensures Valid() && GetBoxes() == Handle(GetConfig(), old(GetBoxes()), frame, discovery)
    {
      hide Mesh.Next;
      if discovery && frame.msgType == BEACON && |frame.payload| >= 9 {
        Discover(DecodeU32(frame.payload[..4]));
      } else if frame.msgType == DATA || frame.msgType == VOICE {
        Accept(frame);
      }
    }

    method Discover(peer: U32)
      requires Valid()
      modifies this`peers, router, router.table
      ensures Valid() && GetConfig() == old(GetConfig())
      ensures GetBoxes() == Discovered(GetConfig(), old(GetBoxes()), peer)
    {
      hide Mesh.Next;
      if peer != id && peer !in peers {
        peers := peers + [peer];
        router.UpdateNeighbor(peer, NEW_PEER_QUALITY);
      }
    }

    method Accept(frame: Frame)
      requires frame.msgType == DATA || frame.msgType == VOICE
      modifies this`data, this`voice
      ensures GetBoxes() == Handle(GetConfig(), old(GetBoxes()), frame, false)
    {
      if (frame.dst == id || frame.dst == 0) && Ready(keys) {
        var decrypted := suite.open(keys.tek.value, frame.payload);
        if decrypted.Some? && frame.msgType == DATA {
          data := data + [ReceivedData(frame.src, decrypted.value)];
        } else if decrypted.Some? {
          voice := voice + [ReceivedVoice(frame.src, suite.decode(decrypted.value))];
        }
      }
    }

    /** Poll one frequency and run the parse loop over what came. */
    method Poll(f: Frequency, discovery: bool)
      requires Valid()
      modifies this`data, this`voice, this`peers, router, router.table, channel
      ensures Valid() && View() == AfterPoll(old(View()), old(channel.View()), f, discovery)
      ensures channel.View() == Next(old(channel.View()), PollFor(old(View()), f))
    {
      hide Handle, Parse, DeserializeHeader, Next, Output;
      var samples := channel.ReceiveSamples(radio, f, POLL_SIZE);
      var bytes := SamplesToBytes(samples);
      ghost var c, start := GetConfig(), old(GetBoxes());
      var offset := 0;
      while offset + HEADER_SIZE <= |bytes|
        invariant 0 <= offset <= |bytes|
        invariant Valid() && GetConfig() == c && channel.View() == Next(old(channel.View()), PollFor(old(View()), f))
        invariant HandleAll(c, GetBoxes(), Parse(bytes[offset..]), discovery) == HandleAll(c, start, Parse(bytes), discovery)
        decreases |bytes| - offset
      {
        ParseStep(bytes, offset);
        var header := DeserializeHeader(bytes[offset..offset + HEADER_SIZE]);
        if header.None? {
          break;
        }
        var h := header.value;
        var end := offset + HEADER_SIZE + h.payloadLen;
        if end > |bytes| {
          break;
        }
        var frame := Frame(h.msgType, h.src, h.dst, bytes[offset + HEADER_SIZE..end]);
        assert Parse(bytes[offset..])[1..] == Parse(bytes[end..]);
        Dispatch(frame, discovery);
        offset := end;
      }
      if offset + HEADER_SIZE > |bytes| {
        NothingLeft(bytes[offset..]);
      }
      assert bytes[0..] == bytes;
    }

    method CurrentHop() returns (f: Frequency)
      requires Valid() && active
      ensures f == HopOf(View().config, View().frameNumber)
    {
      BandIsUsable();
      f := hopper.GetHopFrequency(0, frameNumber, 0);
    }

    method AdvanceFrame()
      requires Valid()
      modifies this`frameNumber
      ensures Valid() && View() == old(View()).(frameNumber := Increment(old(View()).frameNumber))
    {
      frameNumber := Increment(frameNumber);
    }

    method TransmitBeacon()
      modifies channel
      ensures channel.View() == Next(old(channel.View()), BeaconOf(View()))
    {
      hide Next, Encode;
      var beacon := Frame(BEACON, id, 0, EncodeU32(id) + EncodeU32(netId) + [(|peers| + 1) % 256]);
      channel.TransmitSamples(radio, DISCOVERY_FREQ, BytesToSamples(Encode(beacon)));
    }

    method Tick()
      requires Valid()
      modifies this`data, this`voice, this`peers, this`frameNumber, router, router.table, channel
      ensures Valid()
      ensures !old(active) ==> View() == old(View()) && channel.View() == old(channel.View())
      ensures old(active) ==> (View(), channel.View()) == Ticked(old(View()), old(channel.View()))
    {
      if !active {
        return;
      }
      hide View, Valid, SimChannel.View, AfterPoll, Next, HopOf, BeaconOf, PollFor, Increment;
      TransmitBeacon();
      Poll(DISCOVERY_FREQ, true);
      var f := CurrentHop();
      Poll(f, false);
      AdvanceFrame();
    }

    method SendData(dest: U32, payload: Bytes, nonce: nat)
      requires Valid()
      modifies channel
      ensures var frame := if active then Sealed(GetConfig(), DATA, dest, payload, nonce) else None;
              channel.View() == match frame
                case None => old(channel.View())
                case Some(f) => Next(old(channel.View()), SendOf(View(), f))
    {
      if !active || !Ready(keys) {
        return;
      }
      TransmitSealed(DATA, dest, payload, nonce);
    }

    method VoiceTx(dest: U32, audio: seq<int>, nonce: nat)
      requires Valid()
      modifies channel
      ensures var frame := if active then Sealed(GetConfig(), VOICE, dest, suite.encode(audio), nonce) else None;
              channel.View() == match frame
                case None => old(channel.View())
                case Some(f) => Next(old(channel.View()), SendOf(View(), f))
    {
      if !active || !Ready(keys) {
        return;
      }
      TransmitSealed(VOICE, dest, suite.encode(audio), nonce);
    }

    method TransmitSealed(kind: Byte, dest: U32, plain: Bytes, nonce: nat)
      requires Valid() && active && Ready(keys)
      modifies channel
      ensures channel.View() == match Sealed(GetConfig(), kind, dest, plain, nonce)
                case None => old(channel.View())
                case Some(f) => Next(old(channel.View()), SendOf(View(), f))
    {
      var text := suite.seal(keys.tek.value, nonce, plain);
      if text.None? {
        return;
      }
      var f := CurrentHop();
      channel.TransmitSamples(radio, f, BytesToSamples(Encode(Frame(kind, id, dest, text.value))));
    }

    method ReceiveData() returns (r: Option<ReceivedData>)
      modifies this`data
      ensures if old(data) == [] then r == None && data == old(data)
              else r == Some(old(data)[0]) && data == old(data)[1..]
    {
      if data == [] {
        return None;
      }
      r := Some(data[0]);
      data := data[1..];
    }

    method VoiceRx() returns (r: Option<ReceivedVoice>)
      modifies this`voice
      ensures if old(voice) == [] then r == None && voice == old(voice)
              else r == Some(old(voice)[0]) && voice == old(voice)[1..]
    {
      if voice == [] {
        return None;
      }
      r := Some(voice[0]);
      voice := voice[1..];
    }
  }

  lemma BandIsUsable()
    ensures Hopping.Usable(NODE_BAND)
  {
  }

  /** The hop frequency in plain numbers: a channel of 25 kHz above 225 MHz, picked by the cipher among 11480. */
  lemma HopByWeights(c: Config, frameNumber: U32)
    ensures var input := Hopping.InputBlock(0, frameNumber, 0, 0);
            HopOf(c, frameNumber) == 225_000_000 + Hopping.Weighed(c.suite.block(c.fhek, input)) % 11_480 * 25_000
  {
    var q := Hopping.Sequencer(c.suite.block, c.fhek, NODE_BAND);
    assert Hopping.Settled(q, 0, frameNumber, 0, {}, 0) == 0;
    assert (512_000_000 - 225_000_000) / 25_000 == 11_480;
    Hopping.ChannelByWeights(q, 0, frameNumber, 0, 0);
    hide Hopping.Candidate, Hopping.ChannelIndex, Hopping.Weighed, Hopping.Settled;
  }

  /** What a beacon says, in weights of bytes. */
  lemma BeaconLayout(n: Node)
    ensures var f := Beacon(n);
            && f.msgType == 0 && f.src == n.config.id && f.dst == 0 && |f.payload| == 9
            && Number(f.payload, 0) == n.config.id && Number(f.payload, 4) == n.config.netId
            && f.payload[8] == (|n.boxes.peers| + 1) % 256
  {
    var b := Beacon(n).payload;
    assert b[0..4] == EncodeU32(n.config.id) && b[4..8] == EncodeU32(n.config.netId);
    BytesOf(b, 0, n.config.id);
    BytesOf(b, 4, n.config.netId);
  }

  // ------------------------------------------------- what a parse loop does

  /** What a message is to the node that polls it. */
  datatype Item = Peer(id: U32) | Text(data: ReceivedData) | Speech(voice: ReceivedVoice)

  function ItemsFrom(c: Config, f: Frame): seq<Item> {
    if f.msgType == BEACON then
      if |f.payload| >= 9 then [Peer(Number(f.payload, 0))] else []
    else if Opened(c, f).None? then []
    else if f.msgType == DATA then [Text(ReceivedData(f.src, Opened(c, f).value))]
    else if f.msgType == VOICE then [Speech(ReceivedVoice(f.src, c.suite.decode(Opened(c, f).value)))]
    else []
  }

  /** What messages are to the node, in order. */
  function Contents(c: Config, frames: seq<Frame>): seq<Item> {
    if frames == [] then [] else Contents(c, frames[..|frames| - 1]) + ItemsFrom(c, frames[|frames| - 1])
  }

  lemma {:induction false} ContentsAppend(c: Config, a: seq<Frame>, b: seq<Frame>)
    ensures Contents(c, a + b) == Contents(c, a) + Contents(c, b)
  {
    hide ItemsFrom;
    if b == [] {
      assert a + b == a;
    } else {
      var init := b[..|b| - 1];
      assert (a + b)[..|a + b| - 1] == a + init;
      ContentsAppend(c, a, init);
    }
  }

  lemma OneContent(c: Config, f: Frame)
    ensures Contents(c, [f]) == ItemsFrom(c, f)
  {
    assert [f][..0] == [];
  }

  lemma NoContent(c: Config)
    ensures Contents(c, []) == []
  {
  }

  function Texts(items: seq<Item>): seq<ReceivedData> {
    if items == [] then [] else Texts(Init(items)) + if Last(items).Text? then [Last(items).data] else []
  }

  function Speeches(items: seq<Item>): seq<ReceivedVoice> {
    if items == [] then [] else Speeches(Init(items)) + if Last(items).Speech? then [Last(items).voice] else []
  }

  /** The nodes announced, other than `self`, each once, in the order they were first heard. */
  function Known(self: U32, items: seq<Item>): seq<U32> {
    if items == [] then []
    else
      var before := Known(self, Init(items));
      if Last(items).Peer? && Last(items).id != self && Last(items).id !in before then before + [Last(items).id] else before
  }

  lemma {:induction false} ItemsAppend(a: seq<Item>, b: seq<Item>)
    ensures Texts(a + b) == Texts(a) + Texts(b) && Speeches(a + b) == Speeches(a) + Speeches(b)
  {
    if b == [] {
      assert a + b == a;
    } else {
      assert Init(a + b) == a + Init(b);
      ItemsAppend(a, Init(b));
    }
  }

  lemma {:induction false} KnownExactly(self: U32, items: seq<Item>)
    ensures NoRepeats(Known(self, items)) && forall id :: id in Known(self, items) <==> id != self && Peer(id) in items
  {
    if items != [] {
      KnownExactly(self, Init(items));
      assert items == Init(items) + [Last(items)];
      var before := Known(self, Init(items));
      assert forall i :: 0 <= i < |before| ==> before[i] in before;
    }
  }

  /** What one message adds to the inboxes; a beacon polled on the discovery frequency adds a peer. */
  lemma HandleOne(c: Config, b: Boxes, f: Frame, discovery: bool, items: seq<Item>)
    ensures var b' := Handle(c, b, f, discovery); var added := ItemsFrom(c, f);
            && b'.data == b.data + Texts(added) && b'.voice == b.voice + Speeches(added)
            && (!discovery ==> b'.peers == b.peers)
            && (discovery && b.peers == Known(c.id, items) ==> b'.peers == Known(c.id, items + added))
  {
    var added := ItemsFrom(c, f);
    if added == [] {
      assert items + added == items;
    } else {
      assert added == [added[0]] && Init(added) == [] && Init(items + added) == items;
      if f.msgType == BEACON {
        BytesOf4(f.payload);
      }
    }
  }

  lemma BytesOf4(b: Bytes)
    requires |b| >= 4
    ensures DecodeU32(b[..4]) == Number(b, 0)
  {
    U32RoundTrip(0, b[..4]);
    assert b[0..4] == b[..4];
    BytesOf(b, 0, DecodeU32(b[..4]));
  }

  /** The parse loop adds to the inboxes exactly what the messages are to the node, in order. */
  lemma {:induction false} HandleAllItems(c: Config, b: Boxes, frames: seq<Frame>, discovery: bool, items: seq<Item>)
    ensures var b' := HandleAll(c, b, frames, discovery); var added := Contents(c, frames);
            && b'.data == b.data + Texts(added) && b'.voice == b.voice + Speeches(added)
            && (!discovery ==> b'.peers == b.peers)
            && (discovery && b.peers == Known(c.id, items) ==> b'.peers == Known(c.id, items + added))
    decreases |frames|
  {
    hide Handle, ItemsFrom, Known, Contents, Texts, Speeches;
    if frames == [] {
      NoContent(c);
      NoItems();
      assert items + [] == items && b.data + [] == b.data && b.voice + [] == b.voice;
    } else {
      var first, rest := ItemsFrom(c, frames[0]), Contents(c, frames[1..]);
      HandleOne(c, b, frames[0], discovery, items);
      HandleAllItems(c, Handle(c, b, frames[0], discovery), frames[1..], discovery, items + first);
      ContentsHead(c, frames);
      ItemsAppend(first, rest);
      assert (items + first) + rest == items + (first + rest);
      assert (b.data + Texts(first)) + Texts(rest) == b.data + (Texts(first) + Texts(rest));
      assert (b.voice + Speeches(first)) + Speeches(rest) == b.voice + (Speeches(first) + Speeches(rest));
    }
  }

  lemma NoItems()
    ensures Texts([]) == [] && Speeches([]) == []
  {
  }

  lemma ContentsHead(c: Config, frames: seq<Frame>)
    requires frames != []
    ensures Contents(c, frames) == ItemsFrom(c, frames[0]) + Contents(c, frames[1..])
  {
    OneContent(c, frames[0]);
    assert frames == [frames[0]] + frames[1..];
    ContentsAppend(c, [frames[0]], frames[1..]);
  }

  /** One router update for each peer, in the order of discovery. */
  function Discoveries(peers: seq<U32>): seq<Mesh.Event> {
    if peers == [] then [] else Discoveries(Init(peers)) + [Mesh.Update(Last(peers), NEW_PEER_QUALITY)]
  }

  /** No peer is recorded twice, none is the node itself, and the router has been told of each once. */
  ghost predicate PeersMatch(c: Config, b: Boxes) {
    NoRepeats(b.peers) && c.id !in b.peers && b.routing == Mesh.Run(Mesh.Fresh(c.id), Discoveries(b.peers))
  }

  lemma HandleKeepsPeers(c: Config, b: Boxes, f: Frame, discovery: bool)
    requires PeersMatch(c, b)
    ensures PeersMatch(c, Handle(c, b, f, discovery))
  {
    hide Mesh.Next;
    var b1 := Handle(c, b, f, discovery);
    if b1.peers != b.peers {
      assert Init(b1.peers) == b.peers;
      assert Init(Discoveries(b1.peers)) == Discoveries(b.peers);
    }
  }

  lemma {:induction false} HandleAllKeepsPeers(c: Config, b: Boxes, frames: seq<Frame>, discovery: bool)
    requires PeersMatch(c, b)
    ensures PeersMatch(c, HandleAll(c, b, frames, discovery))
    decreases |frames|
  {
    hide Handle, PeersMatch;
    if frames != [] {
      HandleKeepsPeers(c, b, frames[0], discovery);
      HandleAllKeepsPeers(c, Handle(c, b, frames[0], discovery), frames[1..], discovery);
    }
  }

  /** The router's measurements are the discovered peers, each a perfect link. */
  lemma {:induction false} NeighborsArePeers(id: U32, peers: seq<U32>)
    ensures var s := Mesh.Run(Mesh.Fresh(id), Discoveries(peers));
            && s.localId == id && (forall p :: p in s.direct <==> p in peers)
            && (forall p :: p in peers ==> s.direct[p] == NEW_PEER_QUALITY)
  {
    if peers != [] {
      NeighborsArePeers(id, Init(peers));
      assert Init(Discoveries(peers)) == Discoveries(Init(peers));
      assert peers == Init(peers) + [Last(peers)];
      hide Mesh.Run;
    }
  }
}
