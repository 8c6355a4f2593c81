/** Several nodes on one channel: what one node's user types in is what the others' users read. */
module Messaging {
  import opened Common
  import opened Framing
  import opened Channels
  import opened Delivery
  import opened RadioNodes

  /** A started node, and what its user has read and heard so far. */
  datatype Member = Member(node: Node, read: seq<ReceivedData>, heard: seq<ReceivedVoice>)

  /** What a user sends: words, or sound. */
  datatype Message = Words(payload: Bytes) | Sound(audio: seq<int>)

  /** What can happen. A node that joins registers its radio; one that leaves unregisters it. */
  datatype Step =
    | Join(config: Config)
    | Leave(id: RadioId)
    | Partition(active: bool)
    | Tick(id: RadioId)
    | Send(id: RadioId, dest: U32, message: Message, nonce: nat)
    | Read(id: RadioId)
    | Listen(id: RadioId)

  /** The channel's history and the nodes on it, by radio. */
  datatype World = World(history: seq<Event>, members: map<RadioId, Member>)

  /** A node as its constructor and `start` leave it, on the radio it was given. */
  function Joined(c: Config, r: RadioId): Member {
    Member(Node(c.(radio := r), 0, NoBoxes(c.id)), [], [])
  }

  function TickEvents(n: Node): seq<Event> {
    [BeaconOf(n), PollFor(n, DISCOVERY_FREQ), PollFor(n, HopOf(n.config, n.frameNumber))]
  }

  function AfterRead(m: Member): Member {
    var inbox := m.node.boxes.data;
    if inbox == [] then m
    else m.(node := m.node.(boxes := m.node.boxes.(data := inbox[1..])), read := m.read + [inbox[0]])
  }

  function AfterListen(m: Member): Member {
    var inbox := m.node.boxes.voice;
    if inbox == [] then m
    else m.(node := m.node.(boxes := m.node.boxes.(voice := inbox[1..])), heard := m.heard + [inbox[0]])
  }

  /** Words are sent as they are, sound encoded. */
  function MessageFrame(c: Config, dest: U32, message: Message, nonce: nat): Option<Frame> {
    match message
    case Words(payload) => Sealed(c, DATA, dest, payload, nonce)
    case Sound(audio) => Sealed(c, VOICE, dest, c.suite.encode(audio), nonce)
  }

  /** What a step puts into the channel's history. Steps of absent nodes do nothing. */
  function EventsOf(w: World, s: Step): seq<Event> {
    match s
    case Join(_) => [Register]
    case Leave(r) => if r in w.members then [Unregister(r)] else []
    case Partition(active) => [SetPartition(active)]
    case Tick(r) => if r in w.members then TickEvents(w.members[r].node) else []
    case Send(r, dest, message, nonce) =>
      if r !in w.members then []
      else
        var frame := MessageFrame(w.members[r].node.config, dest, message, nonce);
        if frame.None? then [] else [SendOf(w.members[r].node, frame.value)]
    case Read(_) => []
    case Listen(_) => []
  }

  function MembersAfter(w: World, s: Step): map<RadioId, Member> {
    match s
    case Join(c) => var r := Run(w.history).nextId; w.members[r := Joined(c, r)]
    case Leave(r) => w.members - {r}
    case Partition(_) => w.members
    case Tick(r) =>
      if r in w.members then
        w.members[r := w.members[r].(node := Ticked(w.members[r].node, Run(w.history)).0)]
      else w.members
    case Send(_, _, _, _) => w.members
    case Read(r) => if r in w.members then w.members[r := AfterRead(w.members[r])] else w.members
    case Listen(r) => if r in w.members then w.members[r := AfterListen(w.members[r])] else w.members
  }

  function Advance(w: World, s: Step): World {
    World(w.history + EventsOf(w, s), MembersAfter(w, s))
  }

  function Play(steps: seq<Step>): World {
    if steps == [] then World([], map[]) else Advance(Play(Init(steps)), Last(steps))
  }

  // ------------------------------------------------------------ one member

  /** What the user has taken plus what is waiting is what the polls so far contribute, data and voice alike; the peers
      are known to the router. */
  ghost predicate Consistent(history: seq<Event>, r: RadioId, m: Member) {
    var items := ItemsOf(m.node.config, Polled(history, r));
    && m.node.config.radio == r
    && m.read + m.node.boxes.data == Texts(items) && m.heard + m.node.boxes.voice == Speeches(items)
    && PeersMatch(m.node.config, m.node.boxes)
  }

  /** What arrivals are to the node, in order. */
  function ItemsOf(c: Config, arrivals: seq<Arrival>): seq<Item> {
    Contents(c, Frames(arrivals))
  }

  function Frames(arrivals: seq<Arrival>): seq<Frame> {
    seq(|arrivals|, i requires 0 <= i < |arrivals| => arrivals[i].frame)
  }

  lemma FramesAppend(a: seq<Arrival>, b: seq<Arrival>)
    ensures Frames(a + b) == Frames(a) + Frames(b)
  {
  }

  lemma FramesArrivals(f: Frequency, frames: seq<Frame>)
    ensures Frames(Arrivals(f, frames)) == frames
  {
  }

  lemma HistoryGrows(history: seq<Event>, e: Event, r: RadioId)
    ensures Run(history + [e]) == Next(Run(history), e)
    ensures Polled(history + [e], r) == Polled(history, r) +
              if e.Receive? && e.id == r then Arrivals(e.freq, Parse(SamplesToBytes(Output(Run(history), e)))) else []
  {
    hide Next, Output, Parse, SamplesToBytes;
    assert Init(history + [e]) == history;
  }

  lemma OthersKeep(history: seq<Event>, e: Event, r: RadioId, m: Member)
    requires Consistent(history, r, m) && !(e.Receive? && e.id == r)
    ensures Consistent(history + [e], r, m)
  {
    hide Run, Next, ItemsOf, PeersMatch;
    HistoryGrows(history, e, r);
    assert Polled(history, r) + [] == Polled(history, r);
  }

  lemma PollKeeps(history: seq<Event>, r: RadioId, m: Member, f: Frequency, discovery: bool)
    requires Consistent(history, r, m)
    ensures Consistent(history + [PollFor(m.node, f)], r, m.(node := AfterPoll(m.node, Run(history), f, discovery)))
  {
    hide Run, Next, Parse, Output, HandleAll, SamplesToBytes, Contents, Polled, Arrivals, Frames, PeersMatch, Texts,
         Speeches, Known;
    var n, e := m.node, PollFor(m.node, f);
    var frames := Parse(SamplesToBytes(Output(Run(history), e)));
    HistoryGrows(history, e, r);
    FramesAppend(Polled(history, r), Arrivals(f, frames));
    FramesArrivals(f, frames);
    ContentsAppend(n.config, Frames(Polled(history, r)), frames);
    HandleAllItems(n.config, n.boxes, frames, discovery, []);
    HandleAllKeepsPeers(n.config, n.boxes, frames, discovery);
    var added := Contents(n.config, frames);
    ItemsAppend(Contents(n.config, Frames(Polled(history, r))), added);
    assert m.read + (n.boxes.data + Texts(added)) == (m.read + n.boxes.data) + Texts(added);
    assert m.heard + (n.boxes.voice + Speeches(added)) == (m.heard + n.boxes.voice) + Speeches(added);
  }

  /** The node after the polls of a tick, before its frame number advances. */
  function Polling(n: Node, history: seq<Event>): Node {
    var h1 := history + [BeaconOf(n)];
    var n1 := AfterPoll(n, Run(h1), DISCOVERY_FREQ, true);
    AfterPoll(n1, Run(h1 + [PollFor(n, DISCOVERY_FREQ)]), HopOf(n.config, n.frameNumber), false)
  }

  /** The three events of a tick lead to the channel and the node it leaves behind. */
  lemma TickRuns(history: seq<Event>, n: Node)
    ensures Run(history + TickEvents(n)) == Ticked(n, Run(history)).1
    ensures Ticked(n, Run(history)).0 == Polling(n, history).(frameNumber := Increment(n.frameNumber))
  {
    hide AfterPoll, Run, Next, HopOf, BeaconOf, Increment, Polled;
    var e := TickEvents(n);
    var h1 := history + [e[0]];
    var h2 := h1 + [e[1]];
    assert history + e == h2 + [e[2]];
    HistoryGrows(history, e[0], 0);
    HistoryGrows(h1, e[1], 0);
    HistoryGrows(h2, e[2], 0);
  }

  lemma TickKeeps(history: seq<Event>, r: RadioId, m: Member)
    requires Consistent(history, r, m)
    ensures Consistent(history + TickEvents(m.node), r, m.(node := Ticked(m.node, Run(history)).0))
  {
    hide AfterPoll, Run, Next, Consistent, HopOf, BeaconOf, Increment, Ticked;
    var n, e := m.node, TickEvents(m.node);
    RadioOf(history, r, m);
    var h1 := history + [e[0]];
    var h2 := h1 + [e[1]];
    OthersKeep(history, e[0], r, m);
    PollKeeps(h1, r, m, DISCOVERY_FREQ, true);
    var m1 := m.(node := AfterPoll(n, Run(h1), DISCOVERY_FREQ, true));
    PollKeeps(h2, r, m1, HopOf(n.config, n.frameNumber), false);
    assert h2 + [e[2]] == history + e;
    FrameNumberIrrelevant(history + e, r, m.(node := Polling(n, history)), Increment(n.frameNumber));
    TickRuns(history, n);
  }

  lemma RadioOf(history: seq<Event>, r: RadioId, m: Member)
    requires Consistent(history, r, m)
    ensures m.node.config.radio == r && BeaconOf(m.node).Transmit?
  {
  }

  lemma FrameNumberIrrelevant(history: seq<Event>, r: RadioId, m: Member, k: U32)
    requires Consistent(history, r, m)
    ensures Consistent(history, r, m.(node := m.node.(frameNumber := k)))
  {
  }

  lemma ReadKeeps(history: seq<Event>, r: RadioId, m: Member)
    requires Consistent(history, r, m)
    ensures Consistent(history, r, AfterRead(m)) && Consistent(history, r, AfterListen(m))
  {
    hide ItemsOf, PeersMatch, Polled, Texts, Speeches;
    var data, voice := m.node.boxes.data, m.node.boxes.voice;
    if data != [] {
      assert m.read + data == (m.read + [data[0]]) + data[1..];
    }
    if voice != [] {
      assert m.heard + voice == (m.heard + [voice[0]]) + voice[1..];
    }
    SamePeers(m.node.config, m.node.boxes, AfterRead(m).node.boxes);
    SamePeers(m.node.config, m.node.boxes, AfterListen(m).node.boxes);
  }

  lemma SamePeers(c: Config, a: Boxes, b: Boxes)
    requires a.peers == b.peers && a.routing == b.routing
    ensures PeersMatch(c, a) <==> PeersMatch(c, b)
  {
  }

  lemma JoinIsConsistent(history: seq<Event>, c: Config, r: RadioId)
    requires Registrations(history) + 1 == r
    ensures Consistent(history + [Register], r, Joined(c, r))
  {
    NoFramesBefore(history, r, DISCOVERY_FREQ);
    assert NoBoxes(c.id).peers == [];
    assert Consistent(history, r, Joined(c, r));
    OthersKeep(history, Register, r, Joined(c, r));
  }

  /** Whoever polls, it is not `r`. */
  ghost predicate PollsNothing(events: seq<Event>, r: RadioId) {
    forall e :: e in events ==> !(e.Receive? && e.id == r)
  }

  lemma {:induction false} OthersKeepAll(history: seq<Event>, events: seq<Event>, r: RadioId, m: Member)
    requires Consistent(history, r, m) && PollsNothing(events, r)
    ensures Consistent(history + events, r, m)
  {
    hide Consistent;
    if events == [] {
      assert history + events == history;
    } else {
      OthersKeepAll(history, Init(events), r, m);
      assert history + events == (history + Init(events)) + [Last(events)];
      OthersKeep(history + Init(events), Last(events), r, m);
    }
  }

  // ------------------------------------------------------------- all members

  /** The members are the registered radios, each consistent. */
  ghost predicate WorldOk(w: World) {
    && (forall r :: r in w.members <==> IsRegistered(w.history, r))
    && (forall r :: r in w.members ==> Consistent(w.history, r, w.members[r]))
  }

  predicate Quiet(e: Event) {
    !e.Register? && !e.Unregister?
  }

  lemma {:induction false} QuietKeeps(history: seq<Event>, events: seq<Event>, r: RadioId)
    requires forall e :: e in events ==> Quiet(e)
    ensures Registrations(history + events) == Registrations(history)
    ensures IsRegistered(history + events, r) <==> IsRegistered(history, r)
  {
    if events == [] {
      assert history + events == history;
    } else {
      QuietKeeps(history, Init(events), r);
      assert Init(history + events) == history + Init(events);
      assert Last(events) in events;
    }
  }

  lemma StepMembership(w: World, s: Step, r: RadioId)
    requires WorldOk(w) && Registrations(Advance(w, s).history) + 1 < U32_LIMIT
    ensures Registrations(w.history) <= Registrations(Advance(w, s).history)
    ensures s.Join? ==> Run(w.history).nextId == Registrations(w.history) + 1 && Run(w.history).nextId !in w.members
    ensures r in MembersAfter(w, s) <==> IsRegistered(Advance(w, s).history, r)
  {
    hide Consistent, Run, Ticked, AfterRead, AfterListen, Joined, MessageFrame, SendOf, BeaconOf;
    var h, events := w.history, EventsOf(w, s);
    match s
    case Join(_) =>
      assert Init(h + events) == h;
      RunMembership(h);
    case Leave(id) =>
      if id in w.members {
        assert Init(h + events) == h;
      } else {
        assert h + events == h;
      }
    case _ =>
      AllQuiet(w, s);
      QuietKeeps(h, events, r);
  }

  lemma AllQuiet(w: World, s: Step)
    requires !s.Join? && !s.Leave?
    ensures forall e :: e in EventsOf(w, s) ==> Quiet(e)
  {
    hide MessageFrame, OnAir, HopOf;
  }

  lemma BystanderPollsNothing(w: World, s: Step, r: RadioId)
    requires s.Tick? && s.id in w.members ==> w.members[s.id].node.config.radio != r
    ensures PollsNothing(EventsOf(w, s), r)
  {
    hide MessageFrame, OnAir, HopOf, Run, Beacon;
  }

  /** A member other than the one the step is about is left alone. */
  lemma BystanderKeeps(w: World, s: Step, r: RadioId)
    requires WorldOk(w) && r in w.members && !(s.Tick? && s.id == r)
    ensures Consistent(w.history + EventsOf(w, s), r, w.members[r])
  {
    hide PollsNothing, EventsOf, ItemsOf, Polled, PeersMatch, IsRegistered;
    BystanderPollsNothing(w, s, r);
    OthersKeepAll(w.history, EventsOf(w, s), r, w.members[r]);
  }

  lemma MemberIs(w: World, s: Step, r: RadioId)
    requires r in MembersAfter(w, s)
    ensures s.Join? && r == Run(w.history).nextId ==> MembersAfter(w, s)[r] == Joined(s.config, r)
    ensures !(s.Join? && r == Run(w.history).nextId) ==>
              && r in w.members
              && MembersAfter(w, s)[r] ==
                 if s.Tick? && s.id == r then w.members[r].(node := Ticked(w.members[r].node, Run(w.history)).0)
                 else if s.Read? && s.id == r then AfterRead(w.members[r])
                 else if s.Listen? && s.id == r then AfterListen(w.members[r])
                 else w.members[r]
  {
    hide Run, Ticked, AfterRead, AfterListen, Joined;
  }

  lemma MemberKeeps(w: World, s: Step, r: RadioId)
    requires WorldOk(w) && Registrations(Advance(w, s).history) + 1 < U32_LIMIT && r in MembersAfter(w, s)
    ensures Consistent(Advance(w, s).history, r, MembersAfter(w, s)[r])
  {
    StepMembership(w, s, r);
    MemberIs(w, s, r);
    hide Consistent, Run, Ticked, AfterRead, AfterListen, Joined, TickEvents, MembersAfter, IsRegistered, Registrations;
    if s.Join? && r == Run(w.history).nextId {
      JoinIsConsistent(w.history, s.config, r);
    } else if s.Tick? && s.id == r {
      TickKeeps(w.history, r, w.members[r]);
    } else if (s.Read? || s.Listen?) && s.id == r {
      ReadKeeps(w.history, r, w.members[r]);
      assert w.history + EventsOf(w, s) == w.history;
    } else {
      BystanderKeeps(w, s, r);
    }
  }

  lemma {:induction false} PlayOk(steps: seq<Step>)
    requires Registrations(Play(steps).history) + 1 < U32_LIMIT
    ensures WorldOk(Play(steps))
  {
    hide Consistent, IsRegistered, MembersAfter, EventsOf, Registrations;
    if steps == [] {
      NothingRegistered();
    } else {
      var w, s := Play(Init(steps)), Last(steps);
      FewerBefore(w, s);
      PlayOk(Init(steps));
      forall r ensures r in MembersAfter(w, s) <==> IsRegistered(Advance(w, s).history, r) {
        StepMembership(w, s, r);
      }
      forall r | r in MembersAfter(w, s) ensures Consistent(Advance(w, s).history, r, MembersAfter(w, s)[r]) {
        MemberKeeps(w, s, r);
      }
    }
  }

  lemma NothingRegistered()
    ensures forall r :: !IsRegistered([], r)
  {
  }

  lemma FewerBefore(w: World, s: Step)
    ensures Registrations(w.history) <= Registrations(Advance(w, s).history)
  {
    MoreRegistrations(w.history, EventsOf(w, s));
  }

  lemma {:induction false} MoreRegistrations(a: seq<Event>, b: seq<Event>)
    ensures Registrations(a) <= Registrations(a + b)
  {
    if b == [] {
      assert a + b == a;
    } else {
      assert Init(a + b) == a + Init(b);
      MoreRegistrations(a, Init(b));
    }
  }

  // ---------------------------------------------------------------- the air

  function Plain(suite: Suite, message: Message): Bytes {
    match message case Words(payload) => payload case Sound(audio) => suite.encode(audio)
  }

  /** Whatever the engine makes of the plaintext has a size the length field can tell. */
  ghost predicate Sized(suite: Suite, s: Step) {
    s.Send? ==> forall k, text :: suite.seal(k, s.nonce, Plain(suite, s.message)) == Some(text) ==> |text| < U32_LIMIT
  }

  /** All nodes use one suite, and no message outgrows its length field. */
  ghost predicate Usual(suite: Suite, s: Step) {
    Sized(suite, s) && (s.Join? ==> s.config.suite == suite)
  }

  ghost predicate SameSuite(w: World, suite: Suite) {
    forall r :: r in w.members ==> w.members[r].node.config.suite == suite
  }

  ghost predicate AllFramed(events: seq<Event>) {
    forall e :: e in events && e.Transmit? ==> Framed(e)
  }

  lemma OnAirIsFramed(sender: RadioId, freq: Frequency, f: Frame)
    requires Fits(f)
    ensures Carried(Transmit(sender, freq, OnAir(f))) == Some(f) && Framed(Transmit(sender, freq, OnAir(f)))
  {
    hide ParseOne, Encode;
    SamplesRoundTrip(Encode(f));
    FrameRoundTrip(f, []);
    assert Encode(f) + [] == Encode(f);
  }

  lemma MessageFits(c: Config, s: Step)
    requires s.Send? && Sized(c.suite, s)
    ensures var frame := MessageFrame(c, s.dest, s.message, s.nonce); frame.Some? ==> Fits(frame.value)
  {
    var frame := MessageFrame(c, s.dest, s.message, s.nonce);
    if frame.Some? {
      assert c.suite.seal(c.tek.value, s.nonce, Plain(c.suite, s.message)) == Some(frame.value.payload);
    }
  }

  /** Every node transmits frames only: its beacons, and what it seals. */
  lemma StepIsFramed(w: World, s: Step, suite: Suite)
    requires SameSuite(w, suite) && Usual(suite, s)
    ensures AllFramed(EventsOf(w, s))
  {
    hide Framed, OnAir, HopOf, Run;
    match s
    case Tick(r) =>
      if r in w.members {
        var n := w.members[r].node;
        OnAirIsFramed(n.config.radio, DISCOVERY_FREQ, Beacon(n));
      }
    case Send(r, dest, message, nonce) =>
      if r in w.members {
        var n := w.members[r].node;
        var frame := MessageFrame(n.config, dest, message, nonce);
        MessageFits(n.config, s);
        if frame.Some? {
          OnAirIsFramed(n.config.radio, HopOf(n.config, n.frameNumber), frame.value);
        }
      }
    case _ =>
  }

  lemma StepKeepsSuite(w: World, s: Step, suite: Suite)
    requires SameSuite(w, suite) && Usual(suite, s)
    ensures SameSuite(Advance(w, s), suite)
  {
    forall r | r in MembersAfter(w, s) ensures MembersAfter(w, s)[r].node.config.suite == suite {
      MemberIs(w, s, r);
      hide MembersAfter, Ticked;
    }
  }

  lemma {:induction false} PlayIsFramed(steps: seq<Step>, suite: Suite)
    requires forall s :: s in steps ==> Usual(suite, s)
    ensures SameSuite(Play(steps), suite) && AllFramed(Play(steps).history)
  {
    hide Framed, EventsOf, MembersAfter, Usual, SameSuite;
    if steps == [] {
      NoMembers(suite);
    } else {
      PlayIsFramed(Init(steps), suite);
      assert Last(steps) in steps;
      StepIsFramed(Play(Init(steps)), Last(steps), suite);
      StepKeepsSuite(Play(Init(steps)), Last(steps), suite);
    }
  }

  lemma NoMembers(suite: Suite)
    ensures SameSuite(World([], map[]), suite)
  {
  }

  // --------------------------------------------------------------- plaintext

  /** Opening undoes sealing under the same key, and fails under any other. */
  ghost predicate Authentic(suite: Suite) {
    forall k, n, p, text, k' :: suite.seal(k, n, p) == Some(text) ==>
      suite.open(k', text) == if k' == k then Some(p) else None
  }

  predicate Readable(sender: Config, receiver: Config, dest: U32) {
    receiver.tek.Some? && sender.tek == receiver.tek && (dest == receiver.id || dest == 0)
  }

  /** A message as it reaches a user. */
  function Delivered(source: U32, suite: Suite, message: Message): Item {
    match message
    case Words(payload) => Text(ReceivedData(source, payload))
    case Sound(audio) => Speech(ReceivedVoice(source, suite.decode(suite.encode(audio))))
  }

  /** What a node makes of a message is that message, under the sender's id, to the nodes it is meant for that hold the
      sender's key, and nothing to any other. */
  lemma SealedIsReadable(sender: Config, receiver: Config, dest: U32, message: Message, nonce: nat, f: Frame)
    requires Authentic(sender.suite) && sender.suite == receiver.suite
    requires MessageFrame(sender, dest, message, nonce) == Some(f)
    ensures ItemsFrom(receiver, f) ==
            if Readable(sender, receiver, dest) then [Delivered(sender.id, sender.suite, message)] else []
  {
    var k, text := sender.tek.value, f.payload;
    assert sender.suite.seal(k, nonce, Plain(sender.suite, message)) == Some(text);
    if receiver.tek.Some? {
      assert receiver.suite.open(receiver.tek.value, text) ==
             if receiver.tek.value == k then Some(Plain(sender.suite, message)) else None;
    }
  }

  /** What a step sends out for `r` on `f`: a beacon, or what the sender's user typed or said. */
  function LatestTyped(w: World, s: Step, r: RadioId, f: Frequency): seq<Item> {
    if (s.Send? || s.Tick?) && s.id in w.members && r in w.members && s.id != r then
      var n := w.members[s.id].node;
      if s.Tick? then
        if f == DISCOVERY_FREQ && !LatestDropped(w.history + [BeaconOf(n)]) then [Peer(n.config.id)] else []
      else if MessageFrame(n.config, s.dest, s.message, s.nonce).Some? && HopOf(n.config, n.frameNumber) == f
              && !LatestDropped(w.history + EventsOf(w, s)) && Readable(n.config, w.members[r].node.config, s.dest) then
        [Delivered(n.config.id, n.config.suite, s.message)]
      else []
    else []
  }

  /** What the other nodes and their users have sent out for `r` on `f`, undropped, since it joined. */
  function Typed(steps: seq<Step>, r: RadioId, f: Frequency): seq<Item> {
    if steps == [] then [] else Typed(Init(steps), r, f) + LatestTyped(Play(Init(steps)), Last(steps), r, f)
  }

  /** What a history's latest events add to the frames sent. */
  function SentSince(history: seq<Event>, events: seq<Event>, r: RadioId, f: Frequency): seq<Frame> {
    if events == [] then [] else SentSince(history, Init(events), r, f) + LatestSentFrame(history + events, r, f)
  }

  lemma {:induction false} SentFramesGrow(history: seq<Event>, events: seq<Event>, r: RadioId, f: Frequency)
    ensures SentFrames(history + events, r, f) == SentFrames(history, r, f) + SentSince(history, events, r, f)
  {
    hide LatestSentFrame;
    if events == [] {
      assert history + events == history;
    } else {
      SentFramesGrow(history, Init(events), r, f);
      assert Init(history + events) == history + Init(events);
    }
  }

  lemma SentByOne(history: seq<Event>, e: Event, r: RadioId, f: Frequency)
    ensures SentSince(history, [e], r, f) == LatestSentFrame(history + [e], r, f)
  {
    assert Init([e]) == [];
  }

  lemma {:induction false} SilentAddsNothing(history: seq<Event>, events: seq<Event>, r: RadioId, f: Frequency)
    requires forall e :: e in events ==> !e.Transmit?
    ensures SentSince(history, events, r, f) == []
  {
    if events != [] {
      SilentAddsNothing(history, Init(events), r, f);
      assert Last(history + events) == Last(events) && Last(events) in events;
    }
  }

  /** What one transmitted frame adds. */
  lemma FrameAdds(history: seq<Event>, sender: RadioId, g: Frequency, frame: Frame, r: RadioId, f: Frequency)
    requires Fits(frame) && IsRegistered(history, r)
    ensures var h := history + [Transmit(sender, g, OnAir(frame))];
            LatestSentFrame(h, r, f) == if g == f && sender != r && !LatestDropped(h) then [frame] else []
  {
    hide LatestDropped, Carried, Framed, OnAir;
    OnAirIsFramed(sender, g, frame);
    assert Init(history + [Transmit(sender, g, OnAir(frame))]) == history;
  }

  lemma BeaconAdds(history: seq<Event>, n: Node, r: RadioId, f: Frequency, c: Config)
    requires IsRegistered(history, r)
    ensures Contents(c, SentSince(history, TickEvents(n), r, f)) ==
            if f == DISCOVERY_FREQ && n.config.radio != r && !LatestDropped(history + [BeaconOf(n)])
            then [Peer(n.config.id)] else []
  {
    BeaconIsPeer(c, n);
    hide LatestDropped, OnAir, HopOf, IsRegistered, LatestSentFrame, SentSince, Contents, ItemsFrom, Beacon, Fits;
    var e := TickEvents(n);
    FrameAdds(history, n.config.radio, DISCOVERY_FREQ, Beacon(n), r, f);
    SentByOne(history, e[0], r, f);
    PollAdds(history, e[..1], e[1], r, f);
    PollAdds(history, e[..2], e[2], r, f);
    assert e[..1] == [e[0]] && e[..1] + [e[1]] == e[..2] && e[..2] + [e[2]] == e;
    OneContent(c, Beacon(n));
    NoContent(c);
  }

  /** A beacon announces its sender to whoever polls it. */
  lemma BeaconIsPeer(c: Config, n: Node)
    ensures Fits(Beacon(n)) && ItemsFrom(c, Beacon(n)) == [Peer(n.config.id)]
  {
    BeaconLayout(n);
    hide Beacon;
  }

  lemma PollAdds(history: seq<Event>, events: seq<Event>, e: Event, r: RadioId, f: Frequency)
    requires e.Receive?
    ensures SentSince(history, events + [e], r, f) == SentSince(history, events, r, f)
  {
    assert Init(events + [e]) == events && Last(history + (events + [e])) == e;
  }

  lemma SealedAdds(history: seq<Event>, n: Node, dest: U32, message: Message, nonce: nat, frame: Frame,
                   r: RadioId, c: Config, f: Frequency)
    requires Authentic(c.suite) && n.config.suite == c.suite && MessageFrame(n.config, dest, message, nonce) == Some(frame)
    requires Fits(frame) && IsRegistered(history, r)
    ensures Contents(c, SentSince(history, [SendOf(n, frame)], r, f)) ==
            if HopOf(n.config, n.frameNumber) == f && n.config.radio != r && !LatestDropped(history + [SendOf(n, frame)])
               && Readable(n.config, c, dest)
            then [Delivered(n.config.id, n.config.suite, message)] else []
  {
    hide Contents, LatestSentFrame, LatestDropped, OnAir, HopOf, IsRegistered, ItemsFrom, MessageFrame, Authentic,
         SentSince, Readable, Fits;
    SentByOne(history, SendOf(n, frame), r, f);
    FrameAdds(history, n.config.radio, HopOf(n.config, n.frameNumber), frame, r, f);
    SealedIsReadable(n.config, c, dest, message, nonce, frame);
    OneContent(c, frame);
    NoContent(c);
  }

  lemma SendAdds(w: World, s: Step, r: RadioId, f: Frequency, suite: Suite)
    requires WorldOk(w) && r in w.members && s.Send? && s.id in w.members
    requires SameSuite(w, suite) && Usual(suite, s) && Authentic(suite)
    ensures Contents(w.members[r].node.config, SentSince(w.history, EventsOf(w, s), r, f)) == LatestTyped(w, s, r, f)
  {
    hide Contents, LatestDropped, HopOf, IsRegistered, Authentic, SentSince, Readable, SendOf, ItemsOf, Polled, PeersMatch;
    var n, c := w.members[s.id].node, w.members[r].node.config;
    assert n.config.radio == s.id && IsRegistered(w.history, r);
    var sealed := MessageFrame(n.config, s.dest, s.message, s.nonce);
    MessageFits(n.config, s);
    if sealed.Some? {
      SealedAdds(w.history, n, s.dest, s.message, s.nonce, sealed.value, r, c, f);
    } else {
      SilentAddsNothing(w.history, [], r, f);
      NoContent(c);
    }
  }

  lemma TickAdds(w: World, s: Step, r: RadioId, f: Frequency)
    requires WorldOk(w) && r in w.members && s.Tick? && s.id in w.members
    ensures Contents(w.members[r].node.config, SentSince(w.history, EventsOf(w, s), r, f)) == LatestTyped(w, s, r, f)
  {
    hide Contents, LatestDropped, HopOf, IsRegistered, SentSince, BeaconOf, PollFor, ItemsOf, Polled, PeersMatch;
    var n, c := w.members[s.id].node, w.members[r].node.config;
    assert n.config.radio == s.id && IsRegistered(w.history, r);
    BeaconAdds(w.history, n, r, f, c);
  }

  lemma OtherAdds(w: World, s: Step, r: RadioId, f: Frequency)
    requires r in w.members && ((s.Send? || s.Tick?) ==> s.id !in w.members)
    ensures Contents(w.members[r].node.config, SentSince(w.history, EventsOf(w, s), r, f)) == LatestTyped(w, s, r, f)
  {
    hide Contents, SentSince;
    NoContent(w.members[r].node.config);
    SilentAddsNothing(w.history, EventsOf(w, s), r, f);
  }

  lemma StepAdds(w: World, s: Step, r: RadioId, f: Frequency, suite: Suite)
    requires WorldOk(w) && r in w.members && SameSuite(w, suite) && Usual(suite, s) && Authentic(suite)
    ensures Contents(w.members[r].node.config, SentSince(w.history, EventsOf(w, s), r, f)) == LatestTyped(w, s, r, f)
  {
    hide WorldOk, SentSince, Contents, LatestTyped, Authentic, SameSuite, Usual, EventsOf;
    if s.Send? && s.id in w.members {
      SendAdds(w, s, r, f, suite);
    } else if s.Tick? && s.id in w.members {
      TickAdds(w, s, r, f);
    } else {
      OtherAdds(w, s, r, f);
    }
  }

  lemma {:induction false} NothingTyped(steps: seq<Step>, r: RadioId, f: Frequency)
    requires Registrations(Play(steps).history) < r
    ensures Typed(steps, r, f) == []
  {
    hide EventsOf, MembersAfter, Registrations, IsRegistered, Consistent, MessageFrame, LatestDropped, Readable, HopOf;
    if steps != [] {
      var w := Play(Init(steps));
      FewerBefore(w, Last(steps));
      NothingTyped(Init(steps), r, f);
      PlayOk(Init(steps));
      NothingBefore(w.history, r, f);
    }
  }

  /** The frames others have sent to `r` on `f` read, to `r`, as what their users typed. */
  lemma {:induction false} SentIsTyped(steps: seq<Step>, r: RadioId, f: Frequency, suite: Suite)
    requires Registrations(Play(steps).history) + 1 < U32_LIMIT && r in Play(steps).members
    requires Authentic(suite) && forall s :: s in steps ==> Usual(suite, s)
    ensures Contents(Play(steps).members[r].node.config, SentFrames(Play(steps).history, r, f)) == Typed(steps, r, f)
  {
    hide EventsOf, MembersAfter, Registrations, IsRegistered, Contents, SentFrames, Usual, Authentic, LatestTyped,
         SentSince, SameSuite, WorldOk;
    var w, s := Play(Init(steps)), Last(steps);
    FewerBefore(w, s);
    PlayOk(Init(steps));
    MemberIs(w, s, r);
    SentFramesGrow(w.history, EventsOf(w, s), r, f);
    if r in w.members {
      SentIsTyped(Init(steps), r, f, suite);
      PlayIsFramed(Init(steps), suite);
      assert s in steps;
      StepAdds(w, s, r, f, suite);
      var c := w.members[r].node.config;
      SameConfig(w, s, r);
      ContentsAppend(c, SentFrames(w.history, r, f), SentSince(w.history, EventsOf(w, s), r, f));
    } else {
      JoinAdds(w, s, r, f);
      NothingTyped(Init(steps), r, f);
      NoContent(Play(steps).members[r].node.config);
      NotYetTyped(w, s, r, f);
    }
  }

  lemma SameConfig(w: World, s: Step, r: RadioId)
    requires WorldOk(w) && Registrations(Advance(w, s).history) + 1 < U32_LIMIT && r in w.members
    requires r in MembersAfter(w, s)
    ensures MembersAfter(w, s)[r].node.config == w.members[r].node.config
  {
    StepMembership(w, s, r);
    MemberIs(w, s, r);
    hide MembersAfter, Ticked, WorldOk, EventsOf, Registrations;
  }

  lemma NotYetTyped(w: World, s: Step, r: RadioId, f: Frequency)
    requires r !in w.members
    ensures LatestTyped(w, s, r, f) == []
  {
  }

  lemma JoinAdds(w: World, s: Step, r: RadioId, f: Frequency)
    requires WorldOk(w) && Registrations(Advance(w, s).history) + 1 < U32_LIMIT && r !in w.members
    requires r in MembersAfter(w, s)
    ensures Registrations(w.history) < r
    ensures SentFrames(w.history, r, f) == [] && SentSince(w.history, EventsOf(w, s), r, f) == []
  {
    StepMembership(w, s, r);
    MemberIs(w, s, r);
    assert s.Join?;
    hide WorldOk, MembersAfter, IsRegistered, Run;
    NoFramesBefore(w.history, r, f);
    SilentAddsNothing(w.history, EventsOf(w, s), r, f);
  }

  // -------------------------------------------------------------- end to end

  /** What a message was to the node, with the frequency it came by. */
  datatype Tagged = Tagged(freq: Frequency, item: Item)

  function Untagged(tags: seq<Tagged>): seq<Item> {
    seq(|tags|, i requires 0 <= i < |tags| => tags[i].item)
  }

  /** The items that came by `f`. */
  function Via(tags: seq<Tagged>, f: Frequency): seq<Item> {
    if tags == [] then []
    else Via(Init(tags), f) + if Last(tags).freq == f then [Last(tags).item] else []
  }

  /** What arrivals are to the node, with the frequency of each. */
  function TaggedItems(c: Config, arrivals: seq<Arrival>): seq<Tagged> {
    if arrivals == [] then []
    else TaggedItems(c, Init(arrivals)) + Tag(Last(arrivals).freq, ItemsFrom(c, Last(arrivals).frame))
  }

  function Tag(f: Frequency, items: seq<Item>): seq<Tagged> {
    seq(|items|, i requires 0 <= i < |items| => Tagged(f, items[i]))
  }

  lemma {:induction false} TagsAreItems(c: Config, arrivals: seq<Arrival>)
    ensures Untagged(TaggedItems(c, arrivals)) == ItemsOf(c, arrivals)
  {
    hide ItemsFrom;
    if arrivals != [] {
      TagsAreItems(c, Init(arrivals));
      var last := Last(arrivals).frame;
      assert Frames(arrivals) == Frames(Init(arrivals)) + [last];
      ContentsAppend(c, Frames(Init(arrivals)), [last]);
      OneContent(c, last);
    }
  }

  lemma {:induction false} ViaAppend(a: seq<Tagged>, b: seq<Tagged>, f: Frequency)
    ensures Via(a + b, f) == Via(a, f) + Via(b, f)
  {
    if b == [] {
      assert a + b == a;
    } else {
      assert Init(a + b) == a + Init(b);
      ViaAppend(a, Init(b), f);
    }
  }

  lemma {:induction false} ViaTag(g: Frequency, items: seq<Item>, f: Frequency)
    ensures Via(Tag(g, items), f) == if g == f then items else []
  {
    if items != [] {
      assert Init(Tag(g, items)) == Tag(g, Init(items));
      ViaTag(g, Init(items), f);
      assert items == Init(items) + [Last(items)];
    }
  }

  lemma {:induction false} TagsByFrequency(c: Config, arrivals: seq<Arrival>, f: Frequency)
    ensures Via(TaggedItems(c, arrivals), f) == Contents(c, On(arrivals, f))
  {
    hide ItemsFrom, Via, Contents, Tag;
    if arrivals == [] {
      NoContent(c);
      ViaNothing(f);
    } else {
      TagsByFrequency(c, Init(arrivals), f);
      var last := Last(arrivals);
      ViaAppend(TaggedItems(c, Init(arrivals)), Tag(last.freq, ItemsFrom(c, last.frame)), f);
      ViaTag(last.freq, ItemsFrom(c, last.frame), f);
      var on := On(Init(arrivals), f);
      ContentsAppend(c, on, [last.frame]);
      OneContent(c, last.frame);
      assert on + [] == on && Contents(c, on) + [] == Contents(c, on);
    }
  }

  lemma ViaNothing(f: Frequency)
    ensures Via([], f) == []
  {
  }

  /** End to end, from the moment a node joins and whatever all nodes do: what its user has read and heard, then its
      inboxes, is made of one stream of messages per frequency; and on a frequency where no poll was left with an
      unfinished tail, that stream, then what the messages still buffered there are, is exactly what the other nodes and
      their users sent out for it there, in order and each once. */
  lemma EndToEnd(steps: seq<Step>, r: RadioId, suite: Suite) returns (tags: seq<Tagged>)
    requires Registrations(Play(steps).history) + 1 < U32_LIMIT && r in Play(steps).members
    requires Authentic(suite) && forall s :: s in steps ==> Usual(suite, s)
    ensures var m := Play(steps).members[r];
            && m.read + m.node.boxes.data == Texts(Untagged(tags))
            && m.heard + m.node.boxes.voice == Speeches(Untagged(tags))
            && tags == TaggedItems(m.node.config, Polled(Play(steps).history, r))
    ensures forall f :: ConsumedPolls(Play(steps).history, r, f) ==> Arrived(steps, r, f, Via(tags, f))
  {
    var h, m := Play(steps).history, Play(steps).members[r];
    PlayOk(steps);
    PlayIsFramed(steps, suite);
    assert IsRegistered(h, r) && Consistent(h, r, m);
    tags := TaggedItems(m.node.config, Polled(h, r));
    TagsAreItems(m.node.config, Polled(h, r));
    hide Play, IsRegistered, WorldOk, Registrations, Contents, Via, Untagged, TaggedItems, On, ConsumedPolls, Authentic,
         Usual, Framed;
    forall f | ConsumedPolls(h, r, f) ensures Arrived(steps, r, f, Via(tags, f)) {
      TagsByFrequency(m.node.config, Polled(h, r), f);
      FramedHistory(h, r, f);
      SentIsTyped(steps, r, f, suite);
      var pending := FramesArrive(h, r, f);
      ContentsAppend(m.node.config, On(Polled(h, r), f), pending);
    }
  }

  /** `items`, then what is buffered for `r` on `f`, is what was sent out for it. */
  ghost predicate Arrived(steps: seq<Step>, r: RadioId, f: Frequency, items: seq<Item>)
    requires r in Play(steps).members
  {
    exists pending ::
      && Buffered(Run(Play(steps).history), r, f) == BytesToSamples(EncodeAll(pending))
      && items + Contents(Play(steps).members[r].node.config, pending) == Typed(steps, r, f)
  }

  /** A node whose polls always empty the buffer meets that condition. */
  lemma DrainedArrives(steps: seq<Step>, r: RadioId, suite: Suite, f: Frequency)
    requires Registrations(Play(steps).history) + 1 < U32_LIMIT && r in Play(steps).members
    requires forall s :: s in steps ==> Usual(suite, s)
    requires var h := Play(steps).history;
             forall i :: 0 <= i < |h| && Polls(h[i], r, f) ==> |Buffered(Run(h[..i]), r, f)| <= POLL_SIZE
    ensures ConsumedPolls(Play(steps).history, r, f)
  {
    PlayOk(steps);
    PlayIsFramed(steps, suite);
    PlayPolls(steps);
    var h := Play(steps).history;
    hide Play, IsRegistered, WorldOk, Registrations, Usual, Run, Buffered, ConsumedPolls, Consistent, AllFramed;
    FramedHistory(h, r, f);
    assert forall i :: 0 <= i < |h| && Polls(h[i], r, f) ==> h[i] in h && h[i].max == POLL_SIZE;
    DrainingConsumes(h, r, f);
  }

  lemma FramedHistory(history: seq<Event>, r: RadioId, f: Frequency)
    requires AllFramed(history)
    ensures FramedTraffic(history, r, f)
  {
    hide Framed, IsRegistered;
  }

  lemma {:induction false} PlayPolls(steps: seq<Step>)
    ensures forall e :: e in Play(steps).history && e.Receive? ==> e.max == POLL_SIZE
  {
    if steps != [] {
      PlayPolls(Init(steps));
      hide MembersAfter, MessageFrame, OnAir, HopOf;
    }
  }

  /** The peers a member knows are its router's direct neighbors, and nothing else is. */
  lemma PeersAreNeighbors(steps: seq<Step>, r: RadioId)
    requires Registrations(Play(steps).history) + 1 < U32_LIMIT && r in Play(steps).members
    ensures var n := Play(steps).members[r].node;
            && n.boxes.routing.localId == n.config.id && n.config.id !in n.boxes.peers && NoRepeats(n.boxes.peers)
            && (forall p :: p in n.boxes.routing.direct <==> p in n.boxes.peers)
            && (forall p :: p in n.boxes.peers ==> n.boxes.routing.direct[p] == NEW_PEER_QUALITY)
  {
    PlayOk(steps);
    var n := Play(steps).members[r].node;
    assert Consistent(Play(steps).history, r, Play(steps).members[r]);
    NeighborsArePeers(n.config.id, n.boxes.peers);
  }

  // -------------------------------------------------------------- a tick's polls

  /** The events of a tick, one by one. */
  lemma TickHistory(history: seq<Event>, n: Node)
    ensures var b, p, q := BeaconOf(n), PollFor(n, DISCOVERY_FREQ), PollFor(n, HopOf(n.config, n.frameNumber));
            && history + TickEvents(n) == ((history + [b]) + [p]) + [q]
            && b.Transmit? && b.sender == n.config.radio
            && p.Receive? && p.id == n.config.radio && p.freq == DISCOVERY_FREQ && p.max == POLL_SIZE
            && q.Receive? && q.id == n.config.radio && q.freq == HopOf(n.config, n.frameNumber) && q.max == POLL_SIZE
  {
    hide OnAir, HopOf, Beacon;
  }

  /** The own beacon does not reach a node. */
  lemma OwnBeacon(history: seq<Event>, e: Event, r: RadioId, f: Frequency)
    requires Registrations(history) + 1 < U32_LIMIT && IsRegistered(history, r) && e.Transmit? && e.sender == r
    ensures Registrations(history + [e]) == Registrations(history) && IsRegistered(history + [e], r)
    ensures Buffered(Run(history + [e]), r, f) == Buffered(Run(history), r, f)
  {
    assert Init(history + [e]) == history;
    hide Run, Buffered, Next;
    BufferStep(history + [e], r, f);
    assert Buffered(Run(history), r, f) + [] == Buffered(Run(history), r, f);
  }

  lemma OwnPoll(history: seq<Event>, e: Event, r: RadioId, f: Frequency)
    requires Registrations(history) + 1 < U32_LIMIT && IsRegistered(history, r) && e.Receive? && e.id == r
    requires |Buffered(Run(history), r, f)| <= e.max
    ensures Registrations(history + [e]) == Registrations(history) && IsRegistered(history + [e], r)
    ensures Buffered(Run(history + [e]), r, f) == if f == e.freq then [] else Buffered(Run(history), r, f)
    ensures f == e.freq ==> Output(Run(history), e) == Buffered(Run(history), r, f)
  {
    HistoryGrows(history, e, r);
    assert Init(history + [e]) == history;
    hide Run, Buffered, Next, Output;
    ReceiveTakes(Run(history), e, r, f);
    var out, left := Output(Run(history), e), Buffered(Next(Run(history), e), r, f);
    if f == e.freq {
      assert |out| + |left| <= e.max;
      assert left == [] && out + left == out;
    }
  }

  /** A tick empties both frequencies it polls, when no more than one poll's worth was waiting. */
  lemma TickEmpties(history: seq<Event>, n: Node, f: Frequency)
    requires Registrations(history) + 1 < U32_LIMIT && IsRegistered(history, n.config.radio)
    requires |Buffered(Run(history), n.config.radio, f)| <= POLL_SIZE
    ensures var r := n.config.radio; var h1 := history + [BeaconOf(n)];
            var h2 := h1 + [PollFor(n, DISCOVERY_FREQ)]; var h3 := history + TickEvents(n);
            && Buffered(Run(h1), r, f) == Buffered(Run(history), r, f)
            && Buffered(Run(h2), r, f) == (if f == DISCOVERY_FREQ then [] else Buffered(Run(history), r, f))
            && (f == DISCOVERY_FREQ || f == HopOf(n.config, n.frameNumber) ==> Buffered(Run(h3), r, f) == [])
            && IsRegistered(h1, r) && IsRegistered(h2, r) && IsRegistered(h3, r)
            && Registrations(h1) == Registrations(h2) == Registrations(h3) == Registrations(history)
  {
    TickHistory(history, n);
    hide Run, Buffered, HopOf, IsRegistered, Registrations, BeaconOf, PollFor, TickEvents;
    var r, h1 := n.config.radio, history + [BeaconOf(n)];
    OwnBeacon(history, BeaconOf(n), r, f);
    OwnPoll(h1, PollFor(n, DISCOVERY_FREQ), r, f);
    OwnPoll(h1 + [PollFor(n, DISCOVERY_FREQ)], PollFor(n, HopOf(n.config, n.frameNumber)), r, f);
  }

  lemma PollConsumes(history: seq<Event>, e: Event, r: RadioId, f: Frequency)
    requires Registrations(history) + 1 < U32_LIMIT && IsRegistered(history, r) && Polls(e, r, f)
    requires AllFramed(history) && ConsumedPolls(history, r, f) && |Buffered(Run(history), r, f)| <= e.max
    ensures ConsumedPolls(history + [e], r, f)
  {
    hide Run, Buffered, Consumed, Output, ConsumedPolls, AllFramed, EncodeAll, BytesToSamples;
    assert Init(history + [e]) == history;
    FramedHistory(history, r, f);
    var p := FramesArrive(history, r, f);
    DrainedIsConsumed(Run(history), e, p);
    HypothesesShrink(history + [e], r, f);
  }

  lemma OtherConsumes(history: seq<Event>, e: Event, r: RadioId, f: Frequency)
    requires !Polls(e, r, f)
    ensures ConsumedPolls(history + [e], r, f) <==> ConsumedPolls(history, r, f)
  {
    assert Init(history + [e]) == history;
    HypothesesShrink(history + [e], r, f);
    hide ConsumedPolls, Run, Consumed, Output;
  }

  lemma TickConsumes(history: seq<Event>, n: Node, f: Frequency)
    requires var r := n.config.radio;
             && Registrations(history) + 1 < U32_LIMIT && IsRegistered(history, r)
             && AllFramed(history + TickEvents(n)) && ConsumedPolls(history, r, f)
             && |Buffered(Run(history), r, f)| <= POLL_SIZE
    ensures ConsumedPolls(history + TickEvents(n), n.config.radio, f)
  {
    TickHistory(history, n);
    TickEmpties(history, n, f);
    var r, b, p, q := n.config.radio, BeaconOf(n), PollFor(n, DISCOVERY_FREQ), PollFor(n, HopOf(n.config, n.frameNumber));
    var h1 := history + [b];
    var h2 := h1 + [p];
    FramedPrefix(h2, [q]);
    FramedPrefix(h1, [p]);
    hide Run, Buffered, HopOf, IsRegistered, Registrations, BeaconOf, PollFor, TickEvents, AllFramed, ConsumedPolls;
    OtherConsumes(history, b, r, f);
    if p.freq == f { PollConsumes(h1, p, r, f); } else { OtherConsumes(h1, p, r, f); }
    if q.freq == f { PollConsumes(h2, q, r, f); } else { OtherConsumes(h2, q, r, f); }
  }

  lemma FramedPrefix(a: seq<Event>, b: seq<Event>)
    requires AllFramed(a + b)
    ensures AllFramed(a)
  {
    hide Framed;
    assert forall e :: e in a ==> e in a + b;
  }

  /** After a tick that found at most one poll's worth waiting on a frequency it polls, nothing is left there, and all
      that was ever sent out for the node there has reached it. */
  lemma TickCatchesUp(steps: seq<Step>, r: RadioId, suite: Suite, f: Frequency)
    requires Registrations(Play(steps).history) + 1 < U32_LIMIT
    requires Authentic(suite) && forall s :: s in steps ==> Usual(suite, s)
    requires steps != [] && Last(steps) == Tick(r) && r in Play(Init(steps)).members
    requires var w := Play(Init(steps)); var n := w.members[r].node;
             && (f == DISCOVERY_FREQ || f == HopOf(n.config, n.frameNumber))
             && ConsumedPolls(w.history, r, f) && |Buffered(Run(w.history), r, f)| <= POLL_SIZE
    ensures r in Play(steps).members && Buffered(Run(Play(steps).history), r, f) == []
    ensures ConsumedPolls(Play(steps).history, r, f)
    ensures Via(TaggedItems(Play(steps).members[r].node.config, Polled(Play(steps).history, r)), f) == Typed(steps, r, f)
  {
    var w := Play(Init(steps));
    var n := w.members[r].node;
    FewerBefore(w, Last(steps));
    PlayOk(Init(steps));
    assert IsRegistered(w.history, r) && Consistent(w.history, r, w.members[r]) && n.config.radio == r;
    PlayIsFramed(steps, suite);
    assert Play(steps).history == w.history + TickEvents(n) && r in Play(steps).members;
    hide Play, IsRegistered, WorldOk, Registrations, Contents, Via, Untagged, TaggedItems, On, ConsumedPolls, Authentic,
         Usual, Framed, Run, Buffered, HopOf, TickEvents, Typed, AllFramed, Consistent;
    TickEmpties(w.history, n, f);
    TickConsumes(w.history, n, f);
    AllArrived(steps, r, suite, f);
  }

  /** With nothing left in the buffer, all has arrived. */
  lemma AllArrived(steps: seq<Step>, r: RadioId, suite: Suite, f: Frequency)
    requires Registrations(Play(steps).history) + 1 < U32_LIMIT && r in Play(steps).members
    requires Authentic(suite) && forall s :: s in steps ==> Usual(suite, s)
    requires ConsumedPolls(Play(steps).history, r, f) && Buffered(Run(Play(steps).history), r, f) == []
    ensures Via(TaggedItems(Play(steps).members[r].node.config, Polled(Play(steps).history, r)), f) == Typed(steps, r, f)
  {
    hide Play, IsRegistered, WorldOk, Registrations, Contents, Via, Untagged, TaggedItems, ConsumedPolls, Authentic, Usual,
         Run, Buffered, Typed, EncodeAll, BytesToSamples;
    var tags := EndToEnd(steps, r, suite);
    assert Arrived(steps, r, f, Via(tags, f));
    var c := Play(steps).members[r].node.config;
    var pending :| Buffered(Run(Play(steps).history), r, f) == BytesToSamples(EncodeAll(pending))
                   && Via(tags, f) + Contents(c, pending) == Typed(steps, r, f);
    NoneEncoded(pending);
    NoContent(c);
  }

  lemma NoneEncoded(frames: seq<Frame>)
    requires BytesToSamples(EncodeAll(frames)) == []
    ensures frames == []
  {
    assert |BytesToSamples(EncodeAll(frames))| == |EncodeAll(frames)|;
  }

  // ----------------------------------------------------------------- discovery

  /** What a tick of `r` polls on the discovery frequency, in its first poll. */
  function LatestHeard(w: World, s: Step, r: RadioId): seq<Frame> {
    if s == Tick(r) && r in w.members then
      var n := w.members[r].node;
      Parse(SamplesToBytes(Output(Run(w.history + [BeaconOf(n)]), PollFor(n, DISCOVERY_FREQ))))
    else []
  }

  /** All messages `r` has polled in its discovery polls. */
  function Heard(steps: seq<Step>, r: RadioId): seq<Frame> {
    if steps == [] then [] else Heard(Init(steps), r) + LatestHeard(Play(Init(steps)), Last(steps), r)
  }

  /** The ticks of `r` so far. */
  function Ticks(steps: seq<Step>, r: RadioId): nat {
    if steps == [] then 0
    else Ticks(Init(steps), r) + if Last(steps) == Tick(r) && r in Play(Init(steps)).members then 1 else 0
  }

  lemma {:induction false} NothingHeard(steps: seq<Step>, r: RadioId)
    requires Registrations(Play(steps).history) < r
    ensures Heard(steps, r) == [] && Ticks(steps, r) == 0
  {
    hide EventsOf, MembersAfter, Registrations, IsRegistered, Consistent;
    if steps != [] {
      var w := Play(Init(steps));
      FewerBefore(w, Last(steps));
      NothingHeard(Init(steps), r);
      PlayOk(Init(steps));
      NothingBefore(w.history, r, DISCOVERY_FREQ);
    }
  }

  lemma TickMember(w: World, r: RadioId, items: seq<Item>)
    requires r in w.members && w.members[r].node.boxes.peers == Known(w.members[r].node.config.id, items)
    ensures r in MembersAfter(w, Tick(r))
    ensures var n, n' := w.members[r].node, MembersAfter(w, Tick(r))[r].node;
            && n'.config == n.config && n'.frameNumber == (n.frameNumber + 1) % U32_LIMIT
            && n'.boxes.peers == Known(n.config.id, items + Contents(n.config, LatestHeard(w, Tick(r), r)))
  {
    hide Known, Contents, Run, Parse, SamplesToBytes, Output, HandleAll, HopOf, BeaconOf, PollFor, Ticked;
    var n, h := w.members[r].node, w.history;
    TickRuns(h, n);
    var h1 := h + [BeaconOf(n)];
    var n1 := AfterPoll(n, Run(h1), DISCOVERY_FREQ, true);
    HandleAllItems(n.config, n.boxes, Parse(SamplesToBytes(Output(Run(h1), PollFor(n, DISCOVERY_FREQ)))), true, items);
    var c2, q := Run(h1 + [PollFor(n, DISCOVERY_FREQ)]), PollFor(n1, HopOf(n.config, n.frameNumber));
    HandleAllItems(n.config, n1.boxes, Parse(SamplesToBytes(Output(c2, q))), false, items);
  }

  ghost predicate Attentive(m: Member, heard: seq<Frame>, ticks: nat) {
    && m.node.boxes.peers == Known(m.node.config.id, Contents(m.node.config, heard))
    && m.node.frameNumber == ticks % U32_LIMIT
  }

  lemma StaysAttentive(w: World, s: Step, r: RadioId, heard: seq<Frame>, ticks: nat)
    requires r in w.members && r in MembersAfter(w, s) && !(s.Join? && r == Run(w.history).nextId)
    requires Attentive(w.members[r], heard, ticks)
    ensures Attentive(MembersAfter(w, s)[r], heard + LatestHeard(w, s, r), ticks + if s == Tick(r) then 1 else 0)
  {
    hide Run, Contents, Known, LatestHeard, Ticked;
    var c := w.members[r].node.config;
    if s == Tick(r) {
      TickMember(w, r, Contents(c, heard));
      ContentsAppend(c, heard, LatestHeard(w, s, r));
      CountOn(ticks);
    } else {
      MemberIs(w, s, r);
      NotHeardNow(w, s, r);
      assert heard + [] == heard;
      hide MembersAfter;
    }
  }

  /** The peers a node knows are exactly those it has heard announced in its discovery polls, itself apart, each once, in
      the order they were first heard; and its frame number counts its ticks. */
  lemma {:induction false} PeersAreHeard(steps: seq<Step>, r: RadioId)
    requires Registrations(Play(steps).history) + 1 < U32_LIMIT && r in Play(steps).members
    ensures var n := Play(steps).members[r].node;
            && n.boxes.peers == Known(n.config.id, Contents(n.config, Heard(steps, r)))
            && n.frameNumber == Ticks(steps, r) % U32_LIMIT
  {
    hide EventsOf, MembersAfter, Registrations, IsRegistered, Contents, WorldOk, Known, LatestHeard, Run;
    var w, s := Play(Init(steps)), Last(steps);
    FewerBefore(w, s);
    PlayOk(Init(steps));
    if r !in w.members {
      JoinAdds(w, s, r, DISCOVERY_FREQ);
      NothingHeard(Init(steps), r);
      MemberIs(w, s, r);
      NotYetHeard(w, s, r, Play(steps).members[r].node.config);
    } else {
      PeersAreHeard(Init(steps), r);
      StepMembership(w, s, r);
      StaysAttentive(w, s, r, Heard(Init(steps), r), Ticks(Init(steps), r));
    }
  }

  lemma CountOn(k: nat)
    ensures (k % U32_LIMIT + 1) % U32_LIMIT == (k + 1) % U32_LIMIT
  {
  }

  lemma NotHeardNow(w: World, s: Step, r: RadioId)
    requires s != Tick(r)
    ensures LatestHeard(w, s, r) == []
  {
  }

  lemma NotYetHeard(w: World, s: Step, r: RadioId, c: Config)
    requires r !in w.members
    ensures LatestHeard(w, s, r) == [] && Known(c.id, Contents(c, [])) == []
  {
  }

  /** At every tick of `r` at most one poll's worth was waiting for it on `f`. */
  ghost predicate KeepsUp(steps: seq<Step>, r: RadioId, f: Frequency) {
    forall k :: 0 <= k < |steps| && steps[k] == Tick(r) ==>
      |Buffered(Run(Play(steps[..k]).history), r, f)| <= POLL_SIZE
  }

  lemma KeptUp(steps: seq<Step>, r: RadioId, f: Frequency)
    requires steps != [] && KeepsUp(steps, r, f)
    ensures KeepsUp(Init(steps), r, f)
    ensures Last(steps) == Tick(r) ==> |Buffered(Run(Play(Init(steps)).history), r, f)| <= POLL_SIZE
  {
    hide Play, Run, Buffered;
    assert forall k :: 0 <= k < |Init(steps)| ==> Init(steps)[..k] == steps[..k] && Init(steps)[k] == steps[k];
    assert steps[..|steps| - 1] == Init(steps);
  }

  lemma NorTheLast(events: seq<Event>, r: RadioId)
    requires events != [] && PollsNothing(events, r)
    ensures PollsNothing(Init(events), r) && !(Last(events).Receive? && Last(events).id == r)
  {
    assert Last(events) in events;
    assert forall e :: e in Init(events) ==> e in events;
  }

  lemma {:induction false} OthersPollNothing(history: seq<Event>, events: seq<Event>, r: RadioId, f: Frequency)
    requires PollsNothing(events, r)
    ensures ConsumedPolls(history + events, r, f) <==> ConsumedPolls(history, r, f)
    ensures Polled(history + events, r) == Polled(history, r)
  {
    hide PollsNothing, ConsumedPolls, Polled, Run, Output, Next, Parse, SamplesToBytes, Arrivals;
    if events == [] {
      assert history + events == history;
    } else {
      NorTheLast(events, r);
      OthersPollNothing(history, Init(events), r, f);
      assert history + events == (history + Init(events)) + [Last(events)];
      OtherConsumes(history + Init(events), Last(events), r, f);
      HistoryGrows(history + Init(events), Last(events), r);
      assert Polled(history, r) + [] == Polled(history, r);
    }
  }

  /** A node that keeps up is never left with an unfinished tail. */
  lemma {:induction false} KeepingUpConsumes(steps: seq<Step>, r: RadioId, suite: Suite, f: Frequency)
    requires Registrations(Play(steps).history) + 1 < U32_LIMIT && r in Play(steps).members
    requires KeepsUp(steps, r, f) && forall s :: s in steps ==> Usual(suite, s)
    ensures ConsumedPolls(Play(steps).history, r, f)
  {
    hide EventsOf, MembersAfter, Registrations, IsRegistered, ConsumedPolls, Run, Buffered, KeepsUp, Usual, AllFramed,
         Consistent;
    var w, s := Play(Init(steps)), Last(steps);
    FewerBefore(w, s);
    PlayOk(Init(steps));
    KeptUp(steps, r, f);
    PlayIsFramed(steps, suite);
    if r !in w.members {
      JoinAdds(w, s, r, f);
      NeverPolled(w.history, r, f);
      NewcomerPollsNothing(w, s, r);
      OthersPollNothing(w.history, EventsOf(w, s), r, f);
    } else {
      KeepingUpConsumes(Init(steps), r, suite, f);
      MemberRadio(w, r);
      if s == Tick(r) {
        assert EventsOf(w, s) == TickEvents(w.members[r].node) by { TicksEvents(w, r); }
        TickConsumes(w.history, w.members[r].node, f);
      } else {
        OtherTicks(w, s, r);
        OthersPollNothing(w.history, EventsOf(w, s), r, f);
      }
    }
  }

  lemma MemberRadio(w: World, r: RadioId)
    requires WorldOk(w) && r in w.members
    ensures w.members[r].node.config.radio == r && IsRegistered(w.history, r)
  {
    hide ItemsOf, Polled, PeersMatch, IsRegistered;
  }

  lemma TicksEvents(w: World, r: RadioId)
    requires r in w.members
    ensures EventsOf(w, Tick(r)) == TickEvents(w.members[r].node)
  {
  }

  lemma OtherTicks(w: World, s: Step, r: RadioId)
    requires WorldOk(w) && s != Tick(r)
    ensures PollsNothing(EventsOf(w, s), r)
  {
    if s.Tick? && s.id in w.members {
      MemberRadio(w, s.id);
    }
    hide WorldOk, EventsOf, PollsNothing;
    BystanderPollsNothing(w, s, r);
  }

  lemma NewcomerPollsNothing(w: World, s: Step, r: RadioId)
    requires WorldOk(w) && r !in w.members && r in MembersAfter(w, s)
    ensures PollsNothing(EventsOf(w, s), r)
  {
    MemberIs(w, s, r);
    hide WorldOk, Run, MembersAfter;
  }

  /** When a tick finds no more than one poll's worth of beacons, its first poll takes all of them. */
  lemma TickPolled(history: seq<Event>, n: Node)
    requires Registrations(history) + 1 < U32_LIMIT && IsRegistered(history, n.config.radio)
    requires |Buffered(Run(history), n.config.radio, DISCOVERY_FREQ)| <= POLL_SIZE
    ensures var r := n.config.radio; var p := PollFor(n, DISCOVERY_FREQ);
            On(Polled(history + TickEvents(n), r), DISCOVERY_FREQ) ==
            On(Polled(history, r), DISCOVERY_FREQ) + Parse(SamplesToBytes(Output(Run(history + [BeaconOf(n)]), p)))
  {
    TickHistory(history, n);
    TickEmpties(history, n, DISCOVERY_FREQ);
    hide Run, Buffered, HopOf, IsRegistered, Registrations, BeaconOf, PollFor, TickEvents, On, Polled, Parse, Output,
         SamplesToBytes, Arrivals;
    var r, b, p, q := n.config.radio, BeaconOf(n), PollFor(n, DISCOVERY_FREQ), PollFor(n, HopOf(n.config, n.frameNumber));
    var h1 := history + [b];
    var h2 := h1 + [p];
    HistoryGrows(history, b, r);
    HistoryGrows(h1, p, r);
    HistoryGrows(h2, q, r);
    assert Polled(history, r) + [] == Polled(history, r);
    var first, second := Parse(SamplesToBytes(Output(Run(h1), p))), Parse(SamplesToBytes(Output(Run(h2), q)));
    OnAppend(Polled(h1, r), Arrivals(p.freq, first), DISCOVERY_FREQ);
    OnAppend(Polled(h2, r), Arrivals(q.freq, second), DISCOVERY_FREQ);
    OnArrivals(p.freq, first, DISCOVERY_FREQ);
    OnArrivals(q.freq, second, DISCOVERY_FREQ);
    if q.freq == DISCOVERY_FREQ {
      OwnPoll(h2, q, r, DISCOVERY_FREQ);
      EmptyPoll();
    }
    var on := On(Polled(h2, r), DISCOVERY_FREQ);
    assert on + [] == on;
  }

  lemma EmptyPoll()
    ensures Parse(SamplesToBytes([])) == []
  {
    NothingLeft(SamplesToBytes([]));
  }

  /** So a node that keeps up with the discovery frequency hears all it polls there in its discovery polls. */
  lemma {:induction false} HeardIsPolled(steps: seq<Step>, r: RadioId)
    requires Registrations(Play(steps).history) + 1 < U32_LIMIT && r in Play(steps).members
    requires KeepsUp(steps, r, DISCOVERY_FREQ)
    ensures Heard(steps, r) == On(Polled(Play(steps).history, r), DISCOVERY_FREQ)
  {
    hide EventsOf, MembersAfter, Registrations, IsRegistered, Run, Buffered, KeepsUp, Consistent, Polled, On, LatestHeard;
    var w, s := Play(Init(steps)), Last(steps);
    FewerBefore(w, s);
    PlayOk(Init(steps));
    KeptUp(steps, r, DISCOVERY_FREQ);
    if r !in w.members {
      JoinAdds(w, s, r, DISCOVERY_FREQ);
      NoFramesBefore(w.history, r, DISCOVERY_FREQ);
      NewcomerPollsNothing(w, s, r);
      OthersPollNothing(w.history, EventsOf(w, s), r, DISCOVERY_FREQ);
      NothingHeard(Init(steps), r);
      OnNothing(DISCOVERY_FREQ);
      NotYetHeard(w, s, r, Play(steps).members[r].node.config);
    } else {
      HeardIsPolled(Init(steps), r);
      MemberRadio(w, r);
      if s == Tick(r) {
        TicksEvents(w, r);
        TickPolled(w.history, w.members[r].node);
        HearsPoll(w, r);
      } else {
        OtherTicks(w, s, r);
        OthersPollNothing(w.history, EventsOf(w, s), r, DISCOVERY_FREQ);
        NotHeardNow(w, s, r);
        assert Heard(Init(steps), r) + [] == Heard(Init(steps), r);
      }
    }
  }

  lemma HearsPoll(w: World, r: RadioId)
    requires r in w.members
    ensures var n := w.members[r].node;
            LatestHeard(w, Tick(r), r) ==
            Parse(SamplesToBytes(Output(Run(w.history + [BeaconOf(n)]), PollFor(n, DISCOVERY_FREQ))))
  {
  }

  /** Discovery. After a tick of a node that has kept up with the discovery frequency, its peers are exactly the ids of
      the other nodes whose ticks have put a beacon on the air, undropped, since it joined: each once, in the order of
      their first beacons, and never itself. */
  lemma Discovery(steps: seq<Step>, r: RadioId, suite: Suite)
    requires Registrations(Play(steps).history) + 1 < U32_LIMIT
    requires Authentic(suite) && forall s :: s in steps ==> Usual(suite, s)
    requires steps != [] && Last(steps) == Tick(r) && r in Play(Init(steps)).members && KeepsUp(steps, r, DISCOVERY_FREQ)
    ensures r in Play(steps).members
    ensures var n := Play(steps).members[r].node; var sent := Typed(steps, r, DISCOVERY_FREQ);
            && n.boxes.peers == Known(n.config.id, sent)
            && forall id :: id in n.boxes.peers <==> id != n.config.id && Peer(id) in sent
  {
    var w := Play(Init(steps));
    FewerBefore(w, Last(steps));
    assert r in Play(steps).members;
    hide EventsOf, MembersAfter, Registrations, IsRegistered, Run, Buffered, KeepsUp, Consistent, Polled, On, Typed,
         Heard, TaggedItems, Via, Contents, Known, ConsumedPolls, Usual, Authentic;
    PlayOk(Init(steps));
    KeptUp(steps, r, DISCOVERY_FREQ);
    KeepingUpConsumes(Init(steps), r, suite, DISCOVERY_FREQ);
    TickCatchesUp(steps, r, suite, DISCOVERY_FREQ);
    PeersAreHeard(steps, r);
    HeardIsPolled(steps, r);
    var c := Play(steps).members[r].node.config;
    TagsByFrequency(c, Polled(Play(steps).history, r), DISCOVERY_FREQ);
    KnownExactly(c.id, Typed(steps, r, DISCOVERY_FREQ));
  }
}
