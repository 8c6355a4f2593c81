/** SimChannel: a broadcast medium with one FIFO per radio and frequency. */
module Channels {
  import opened Common

  type Frequency = nat
  type RadioId = U32
  type Buffers = map<RadioId, map<Frequency, seq<Sample>>>

  datatype Channel = Channel(
    nextId: RadioId, partitionActive: bool, transmitCount: U32, rxBuffers: Buffers, registered: seq<RadioId>)

  datatype Event =
    | Register
    | Unregister(id: RadioId)
    | SetPartition(active: bool)
    | Transmit(sender: RadioId, freq: Frequency, samples: seq<Sample>)
    | Receive(id: RadioId, freq: Frequency, max: nat)

  const FRESH := Channel(1, false, 0, map[], [])

  function Buffered(c: Channel, r: RadioId, f: Frequency): seq<Sample> {
    if r in c.rxBuffers && f in c.rxBuffers[r] then c.rxBuffers[r][f] else []
  }

  function Removed(ids: seq<RadioId>, id: RadioId): seq<RadioId> {
    if ids == [] then []
    else if ids[0] == id then Removed(ids[1..], id)
    else [ids[0]] + Removed(ids[1..], id)
  }

  /** `rx_buffers_[r][f].insert(end, samples)`; both maps create missing entries. */
  function Append(b: Buffers, r: RadioId, f: Frequency, samples: seq<Sample>): Buffers {
    var inner := if r in b then b[r] else map[];
    b[r := inner[f := (if f in inner then inner[f] else []) + samples]]
  }

  function Deliver(b: Buffers, ids: seq<RadioId>, sender: RadioId, f: Frequency, samples: seq<Sample>): Buffers {
    if ids == [] then b
    else
      var most := Deliver(b, ids[..|ids| - 1], sender, f, samples);
      var r := ids[|ids| - 1];
      if r == sender then most else Append(most, r, f, samples)
  }

  function Min(a: nat, b: nat): nat {
    if a < b then a else b
  }

  function Output(c: Channel, e: Event): seq<Sample> {
    if e.Receive? then var b := Buffered(c, e.id, e.freq); b[..Min(e.max, |b|)] else []
  }

  function Next(c: Channel, e: Event): Channel {
    match e
    case Register =>
      c.(nextId := Increment(c.nextId), registered := c.registered + [c.nextId], rxBuffers := c.rxBuffers[c.nextId := map[]])
    case Unregister(id) =>
      c.(registered := Removed(c.registered, id), rxBuffers := c.rxBuffers - {id})
    case SetPartition(active) =>
      c.(partitionActive := active, transmitCount := 0)
    case Transmit(sender, freq, samples) =>
      var counted := if c.partitionActive then c.(transmitCount := Increment(c.transmitCount)) else c;
      if counted.partitionActive && counted.transmitCount % 2 == 0 then counted
      else counted.(rxBuffers := Deliver(c.rxBuffers, c.registered, sender, freq, samples))
    case Receive(id, freq, max) =>
      if id in c.rxBuffers && freq in c.rxBuffers[id] then
        var inner: map<Frequency, seq<Sample>> := c.rxBuffers[id];
        c.(rxBuffers := c.rxBuffers[id := inner[freq := inner[freq][Min(max, |inner[freq]|)..]]])
      else c
  }

  class SimChannel {
    var nextId: RadioId
    var partitionActive: bool
    var transmitCount: U32
    var rxBuffers: Buffers
    var registered: seq<RadioId>

    function View(): Channel
      reads this
    {
      Channel(nextId, partitionActive, transmitCount, rxBuffers, registered)
    }

    constructor ()
      ensures View() == FRESH
    {
      nextId, partitionActive, transmitCount, rxBuffers, registered := 1, false, 0, map[], [];
    }

    method RegisterRadio() returns (id: RadioId)
      modifies this
      ensures View() == Next(old(View()), Register) && id == old(nextId)
    {
      id := nextId;
      nextId := Increment(nextId);
      registered := registered + [id];
      rxBuffers := rxBuffers[id := map[]];
    }

    method UnregisterRadio(id: RadioId)
      modifies this
      ensures View() == Next(old(View()), Unregister(id))
    {
      var kept: seq<RadioId> := [];
      for i := 0 to |registered|
        invariant registered == old(registered) && View() == old(View())
        invariant Removed(registered, id) == kept + Removed(registered[i..], id)
      {
        assert registered[i..][1..] == registered[i + 1..];
        if registered[i] != id {
          kept := kept + [registered[i]];
        }
      }
      registered := kept;
      rxBuffers := rxBuffers - {id};
    }

    method SetPartitionActive(active: bool)
      modifies this
      ensures View() == Next(old(View()), SetPartition(active))
    {
      partitionActive, transmitCount := active, 0;
    }

    method TransmitSamples(sender: RadioId, freq: Frequency, samples: seq<Sample>)
      modifies this
      ensures View() == Next(old(View()), Transmit(sender, freq, samples))
    {
      if partitionActive {
        transmitCount := Increment(transmitCount);
        if transmitCount % 2 == 0 {
          return;
        }
      }
      ghost var before := View();
      for i := 0 to |registered|
        invariant registered == before.registered
        invariant View() == before.(rxBuffers := Deliver(old(rxBuffers), registered[..i], sender, freq, samples))
      {
        assert registered[..i + 1][..i] == registered[..i];
        if registered[i] != sender {
          rxBuffers := Append(rxBuffers, registered[i], freq, samples);
        }
      }
      assert registered[..|registered|] == registered;
    }

    method ReceiveSamples(id: RadioId, freq: Frequency, max: nat) returns (samples: seq<Sample>)
      modifies this
      ensures View() == Next(old(View()), Receive(id, freq, max))
      ensures samples == Output(old(View()), Receive(id, freq, max))
    {
      if id !in rxBuffers || freq !in rxBuffers[id] {
        return [];
      }
      var inner: map<Frequency, seq<Sample>> := rxBuffers[id];
      var count := Min(max, |inner[freq]|);
      samples := inner[freq][..count];
      rxBuffers := rxBuffers[id := inner[freq := inner[freq][count..]]];
    }
  }

  // --------------------------------------------------------- what a run means

  function Run(events: seq<Event>): Channel {
    if events == [] then FRESH else Next(Run(Init(events)), Last(events))
  }

  function Registrations(events: seq<Event>): nat {
    if events == [] then 0 else Registrations(Init(events)) + if Last(events).Register? then 1 else 0
  }

  /** The k-th registration hands out the id k; it lasts until that id is unregistered. */
  predicate IsRegistered(events: seq<Event>, r: RadioId) {
    events != [] &&
    match Last(events)
    case Register => IsRegistered(Init(events), r) || r == Registrations(events)
    case Unregister(id) => id != r && IsRegistered(Init(events), r)
    case _ => IsRegistered(Init(events), r)
  }

  /** Whether partition mode is on, by the latest switch. */
  predicate Partitioned(events: seq<Event>) {
    events != [] &&
    if Last(events).SetPartition? then Last(events).active else Partitioned(Init(events))
  }

  /** Transmissions since partition mode was last switched, either way. */
  function SinceSwitch(events: seq<Event>): nat {
    if events == [] || Last(events).SetPartition? then 0
    else SinceSwitch(Init(events)) + if Last(events).Transmit? then 1 else 0
  }

  /** With partition mode on every second transmission is lost. */
  predicate LatestDropped(events: seq<Event>) {
    Partitioned(events) && SinceSwitch(events) % 2 == 0
  }

  /** What the latest event hands to radio `r` from `f`. */
  function LatestTaken(events: seq<Event>, r: RadioId, f: Frequency): seq<Sample>
    requires events != []
  {
    var e := Last(events);
    if e.Receive? && e.id == r && e.freq == f then Output(Run(Init(events)), e) else []
  }

  /** What the latest event puts on the air for radio `r` on `f`. */
  function LatestSent(events: seq<Event>, r: RadioId, f: Frequency): seq<Sample>
    requires events != []
  {
    var e := Last(events);
    if e.Transmit? && e.freq == f && e.sender != r && IsRegistered(events, r) && !LatestDropped(events)
    then e.samples else []
  }

  /** Everything radio `r` has received on `f`. */
  function Taken(events: seq<Event>, r: RadioId, f: Frequency): seq<Sample> {
    if events == [] then [] else Taken(Init(events), r, f) + LatestTaken(events, r, f)
  }

  /** Everything others transmitted on `f`, undropped, while `r` was registered. */
  function Sent(events: seq<Event>, r: RadioId, f: Frequency): seq<Sample> {
    if events == [] then [] else Sent(Init(events), r, f) + LatestSent(events, r, f)
  }

  lemma {:induction false} RemovedContents(ids: seq<RadioId>, id: RadioId)
    requires NoRepeats(ids)
    ensures NoRepeats(Removed(ids, id))
    ensures forall x :: x in Removed(ids, id) <==> x in ids && x != id
  {
    if ids != [] {
      RemovedContents(ids[1..], id);
      assert ids == [ids[0]] + ids[1..];
      var rest := Removed(ids[1..], id);
      assert forall i :: 0 <= i < |rest| ==> rest[i] in rest;
    }
  }

  lemma AppendMeaning(c: Channel, r: RadioId, f: Frequency, samples: seq<Sample>, x: RadioId, g: Frequency)
    requires r in c.rxBuffers
    ensures Buffered(c.(rxBuffers := Append(c.rxBuffers, r, f, samples)), x, g) ==
            Buffered(c, x, g) + if x == r && g == f then samples else []
  {
  }

  /** A broadcast reaches every listed radio but the sender, once, on its own frequency only. */
  lemma {:induction false} DeliverMeaning(c: Channel, ids: seq<RadioId>, sender: RadioId, f: Frequency, samples: seq<Sample>,
                                          x: RadioId, g: Frequency)
    requires NoRepeats(ids) && forall r :: r in ids ==> r in c.rxBuffers
    ensures Deliver(c.rxBuffers, ids, sender, f, samples).Keys == c.rxBuffers.Keys
    ensures Buffered(c.(rxBuffers := Deliver(c.rxBuffers, ids, sender, f, samples)), x, g) ==
            Buffered(c, x, g) + if x in ids && x != sender && g == f then samples else []
  {
    if ids != [] {
      var init, last := ids[..|ids| - 1], ids[|ids| - 1];
      assert ids == init + [last];
      DeliverMeaning(c, init, sender, f, samples, x, g);
      var most := Deliver(c.rxBuffers, init, sender, f, samples);
      if last != sender {
        AppendMeaning(c.(rxBuffers := most), last, f, samples, x, g);
        hide Buffered;
        assert Buffered(c, x, g) + [] == Buffered(c, x, g);
      }
    }
  }

  lemma {:induction false} DeliverKeys(b: Buffers, ids: seq<RadioId>, sender: RadioId, f: Frequency, samples: seq<Sample>)
    requires forall r :: r in ids ==> r in b
    ensures Deliver(b, ids, sender, f, samples).Keys == b.Keys
  {
    if ids != [] {
      DeliverKeys(b, ids[..|ids| - 1], sender, f, samples);
    }
  }

  /** The ids in force, read off the history. */
  ghost predicate Membership(c: Channel, events: seq<Event>) {
    && c.nextId == Registrations(events) + 1
    && NoRepeats(c.registered)
    && (forall r :: r in c.registered <==> r in c.rxBuffers)
    && (forall r :: r in c.registered <==> IsRegistered(events, r))
    && (forall r :: r in c.registered ==> r < c.nextId)
  }

  lemma {:induction false} RunMembership(events: seq<Event>)
    requires Registrations(events) + 1 < U32_LIMIT
    ensures Membership(Run(events), events)
  {
    if events != [] {
      RunMembership(Init(events));
      MembershipStep(Run(Init(events)), events);
    }
  }

  lemma AppendContents(ids: seq<RadioId>, id: RadioId)
    requires NoRepeats(ids) && id !in ids
    ensures NoRepeats(ids + [id]) && forall x :: x in ids + [id] <==> x in ids || x == id
  {
    assert forall i :: 0 <= i < |ids| ==> ids[i] in ids;
  }

  lemma MembershipStep(c: Channel, events: seq<Event>)
    requires events != [] && Registrations(events) + 1 < U32_LIMIT && Membership(c, Init(events))
    ensures Membership(Next(c, Last(events)), events)
  {
    hide Deliver, Run, NoRepeats;
    if Last(events).Register? {
      RegisterKeeps(c, events);
    } else if Last(events).Unregister? {
      RemovedContents(c.registered, Last(events).id);
    } else if Last(events).Transmit? {
      var e := Last(events);
      DeliverKeys(c.rxBuffers, c.registered, e.sender, e.freq, e.samples);
      hide Increment;
    }
  }

  lemma RegisterKeeps(c: Channel, events: seq<Event>)
    requires events != [] && Last(events).Register? && Registrations(events) + 1 < U32_LIMIT
    requires Membership(c, Init(events))
    ensures Membership(Next(c, Register), events)
  {
    hide NoRepeats;
    AppendContents(c.registered, c.nextId);
  }

  /** The partition fields, read off the history; the counter may wrap at 32 bits. */
  lemma {:induction false} RunPartition(events: seq<Event>)
    ensures Run(events).partitionActive == Partitioned(events)
    ensures Partitioned(events) ==> Run(events).transmitCount == SinceSwitch(events) % U32_LIMIT
  {
    if events != [] {
      RunPartition(Init(events));
      AddOne(SinceSwitch(Init(events)));
      hide Deliver, Run, Membership;
    }
  }

  lemma AddOne(n: nat)
    ensures (n % U32_LIMIT + 1) % U32_LIMIT == (n + 1) % U32_LIMIT
  {
  }

  /** An id that has not been handed out yet has no history. */
  lemma {:induction false} NothingBefore(events: seq<Event>, r: RadioId, f: Frequency)
    requires Registrations(events) < r
    ensures !IsRegistered(events, r) && Taken(events, r, f) == [] && Sent(events, r, f) == []
  {
    if events != [] {
      NothingBefore(Init(events), r, f);
      RunMembership(Init(events));
    }
  }

  /** Whether the latest transmission is dropped is decided by the history alone; the counter's wrap does not show. */
  lemma DropRule(events: seq<Event>)
    requires events != [] && Last(events).Transmit?
    ensures var c := Run(Init(events));
            LatestDropped(events) <==> c.partitionActive && Increment(c.transmitCount) % 2 == 0
  {
    RunPartition(Init(events));
    var n := SinceSwitch(Init(events));
    AddOne(n);
    Parity(n + 1);
  }

  /** One event: what leaves a buffer is handed out, what enters it was broadcast. */
  lemma StepBuffer(c: Channel, e: Event, r: RadioId, f: Frequency)
    requires NoRepeats(c.registered) && forall x :: x in c.registered ==> x in c.rxBuffers
    requires e.Register? ==> c.nextId !in c.rxBuffers
    requires !(e.Unregister? && e.id == r)
    ensures (if e.Receive? && e.id == r && e.freq == f then Output(c, e) else []) + Buffered(Next(c, e), r, f)
         == Buffered(c, r, f)
            + if e.Transmit? && e.freq == f && e.sender != r && r in c.registered
                 && !(c.partitionActive && Increment(c.transmitCount) % 2 == 0) then e.samples else []
  {
    hide Deliver, Increment;
    match e
    case Transmit(sender, freq, samples) => DeliverMeaning(c, c.registered, sender, freq, samples, r, f);
    case _ =>
  }

  /** What a radio asks for it gets: as much as it asked for, or all there is; the rest stays, and nobody else notices. */
  lemma ReceiveTakes(c: Channel, e: Event, r: RadioId, f: Frequency)
    requires e.Receive?
    ensures var out, left := Output(c, e), Buffered(Next(c, e), e.id, e.freq);
            && out + left == Buffered(c, e.id, e.freq)
            && |out| <= e.max && (left == [] || |out| == e.max)
    ensures (r, f) != (e.id, e.freq) ==> Buffered(Next(c, e), r, f) == Buffered(c, r, f)
  {
  }

  lemma BufferStep(events: seq<Event>, r: RadioId, f: Frequency)
    requires events != [] && Registrations(events) + 1 < U32_LIMIT && IsRegistered(events, r)
    ensures LatestTaken(events, r, f) + Buffered(Run(events), r, f)
         == Buffered(Run(Init(events)), r, f) + LatestSent(events, r, f)
  {
    var before, e := Init(events), Last(events);
    var c := Run(before);
    RunMembership(before);
    assert Run(events) == Next(c, e);
    hide Run, Next, Output, Buffered, LatestDropped, Increment;
    StepBuffer(c, e, r, f);
    if e.Transmit? {
      DropRule(events);
    }
  }

  /** Nothing is lost, duplicated or reordered: what a registered radio has received on a frequency, followed by what
      is still buffered for it, is what the others transmitted there since it registered. */
  lemma {:induction false} Conservation(events: seq<Event>, r: RadioId, f: Frequency)
    requires Registrations(events) + 1 < U32_LIMIT && IsRegistered(events, r)
    ensures Taken(events, r, f) + Buffered(Run(events), r, f) == Sent(events, r, f)
  {
    var before := Init(events);
    hide Run, Next, LatestTaken, LatestSent, Buffered;
    assert Taken(before, r, f) + Buffered(Run(before), r, f) == Sent(before, r, f) by {
      if IsRegistered(before, r) {
        Conservation(before, r, f);
      } else {
        NothingBefore(before, r, f);
        NotBuffered(before, r, f);
      }
    }
    BufferStep(events, r, f);
    Splice(Taken(before, r, f), LatestTaken(events, r, f), Buffered(Run(events), r, f),
           Buffered(Run(before), r, f), LatestSent(events, r, f));
  }

  lemma Splice<T>(taken: seq<T>, out: seq<T>, after: seq<T>, before: seq<T>, sent: seq<T>)
    requires out + after == before + sent
    ensures (taken + out) + after == (taken + before) + sent
  {
    assert taken + (out + after) == (taken + out) + after;
    assert taken + (before + sent) == (taken + before) + sent;
  }

  lemma NotBuffered(events: seq<Event>, r: RadioId, f: Frequency)
    requires Registrations(events) + 1 < U32_LIMIT && !IsRegistered(events, r)
    ensures Buffered(Run(events), r, f) == []
  {
    RunMembership(events);
  }

  /** The 32-bit transmit counter may wrap: its parity does not notice. */
  lemma Parity(n: nat)
    ensures n % U32_LIMIT % 2 == n % 2
  {
  }
}
