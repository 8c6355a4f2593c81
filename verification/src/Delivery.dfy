/** Framed messages over the channel: what a polling radio reads is what the others sent. */
module Delivery {
  import opened Common
  import opened Framing
  import opened Channels

  /** A frame as samples on the air. */
  function OnAir(f: Frame): seq<Sample> {
    BytesToSamples(Encode(f))
  }

  /** The frame a transmission carries, when it carries one. */
  function Carried(e: Event): Option<Frame>
    requires e.Transmit?
  {
    ParseOne(SamplesToBytes(e.samples))
  }

  /** The transmission is one complete frame whose size its header can tell. */
  predicate Framed(e: Event)
    requires e.Transmit?
  {
    Carried(e).Some? && Fits(Carried(e).value) && e.samples == OnAir(Carried(e).value)
  }

  /** Every transmission others make on `f` while `r` is registered is a frame. */
  ghost predicate FramedTraffic(events: seq<Event>, r: RadioId, f: Frequency) {
    forall i :: 0 <= i < |events| && HeardBy(events[i], r, f) && IsRegistered(events[..i], r) ==> Framed(events[i])
  }

  predicate HeardBy(e: Event, r: RadioId, f: Frequency) {
    e.Transmit? && e.freq == f && e.sender != r
  }

  /** Frames others transmitted on `f`, undropped, while `r` was registered. */
  function SentFrames(events: seq<Event>, r: RadioId, f: Frequency): seq<Frame> {
    if events == [] then [] else SentFrames(Init(events), r, f) + LatestSentFrame(events, r, f)
  }

  function LatestSentFrame(events: seq<Event>, r: RadioId, f: Frequency): seq<Frame>
    requires events != []
  {
    var e := Last(events);
    if e.Transmit? && e.freq == f && e.sender != r && IsRegistered(events, r) && !LatestDropped(events)
       && Carried(e).Some?
    then [Carried(e).value] else []
  }

  datatype Arrival = Arrival(freq: Frequency, frame: Frame)

  function Arrivals(f: Frequency, frames: seq<Frame>): seq<Arrival> {
    seq(|frames|, i requires 0 <= i < |frames| => Arrival(f, frames[i]))
  }

  /** The frames radio `r` parses out of its polls, poll by poll. */
  function Polled(events: seq<Event>, r: RadioId): seq<Arrival> {
    if events == [] then [] else Polled(Init(events), r) + LatestPolled(events, r)
  }

  function LatestPolled(events: seq<Event>, r: RadioId): seq<Arrival>
    requires events != []
  {
    var e := Last(events);
    if e.Receive? && e.id == r then Arrivals(e.freq, Parse(SamplesToBytes(Output(Run(Init(events)), e)))) else []
  }

  /** The arrivals on one frequency. */
  function On(arrivals: seq<Arrival>, f: Frequency): seq<Frame> {
    if arrivals == [] then []
    else On(arrivals[..|arrivals| - 1], f) +
         if arrivals[|arrivals| - 1].freq == f then [arrivals[|arrivals| - 1].frame] else []
  }

  /** The first `n` bytes of the encoded frames end where a frame ends. */
  predicate CutsCleanly(frames: seq<Frame>, n: nat) {
    |EncodeAll(frames[..Complete(frames, n)])| == n
  }

  predicate Polls(e: Event, r: RadioId, f: Frequency) {
    e.Receive? && e.id == r && e.freq == f
  }

  /** The parse loop used up every byte it was given. */
  predicate Consumed(samples: seq<Sample>) {
    |EncodeAll(Parse(SamplesToBytes(samples)))| == |samples|
  }

  /** No poll of `f` by `r` leaves its parse loop with an unfinished tail. */
  ghost predicate ConsumedPolls(events: seq<Event>, r: RadioId, f: Frequency) {
    forall i :: 0 <= i < |events| && Polls(events[i], r, f) ==> Consumed(Output(Run(events[..i]), events[i]))
  }

  lemma EncodeSplit(frames: seq<Frame>, k: nat)
    requires k <= |frames|
    ensures EncodeAll(frames) == EncodeAll(frames[..k]) + EncodeAll(frames[k..])
  {
    hide EncodeAll;
    assert frames == frames[..k] + frames[k..];
    EncodeAllAppend(frames[..k], frames[k..]);
  }

  lemma ParseAll(frames: seq<Frame>)
    requires forall f :: f in frames ==> Fits(f)
    ensures Parse(EncodeAll(frames)) == frames && CutsCleanly(frames, |EncodeAll(frames)|)
  {
    hide EncodeAll, Parse, Complete, Fits;
    var n := |EncodeAll(frames)|;
    var k := Complete(frames, n);
    ParseCutStream(frames, n);
    assert EncodeAll(frames)[..n] == EncodeAll(frames);
    if k < |frames| {
      EncodeSplit(frames, k + 1);
    } else {
      assert frames[..k] == frames;
    }
  }

  lemma RestIs(frames: seq<Frame>, k: nat, rest: seq<Frame>)
    requires k <= |frames|
    ensures frames[..k] + rest == frames <==> rest == frames[k..]
  {
    assert frames == frames[..k] + frames[k..];
    assert (frames[..k] + rest)[k..] == rest;
  }

  /** One poll of an encoded backlog hands over the complete messages in the part taken. The part taken and the part
      left parse to the messages sent, exactly when the cut falls between two of them. */
  lemma PollSplits(frames: seq<Frame>, n: nat)
    requires n <= |EncodeAll(frames)| && forall f :: f in frames ==> Fits(f)
    ensures Parse(EncodeAll(frames)[..n]) == frames[..Complete(frames, n)]
    ensures Parse(EncodeAll(frames)[..n]) + Parse(EncodeAll(frames)[n..]) == frames <==> CutsCleanly(frames, n)
  {
    hide EncodeAll, Parse, Complete, Fits;
    var k, data := Complete(frames, n), EncodeAll(frames);
    ParseCutStream(frames, n);
    EncodeSplit(frames, k);
    RestIs(frames, k, Parse(data[n..]));
    ParseIsPrefix(data[n..]);
    if CutsCleanly(frames, n) {
      assert data[n..] == EncodeAll(frames[k..]);
      ParseAll(frames[k..]);
    }
  }

  lemma OneEncoded(f: Frame)
    ensures EncodeAll([f]) == Encode(f) && |OnAir(f)| == |Encode(f)|
  {
    hide Encode;
    assert [f][1..] == [];
    assert Encode(f) + [] == Encode(f);
  }

  /** After an unclean cut the tail may even parse, to a message nobody sent: cut behind the header of a message whose
      payload is itself an encoded message. */
  lemma TornTailForges(msgType: Byte, src: U32, dst: U32, g: Frame)
    requires |Encode(g)| < U32_LIMIT
    ensures var f := Frame(msgType, src, dst, Encode(g));
            && Fits(f) && !CutsCleanly([f], HEADER_SIZE)
            && Parse(Encode(f)[..HEADER_SIZE]) == [] && Parse(Encode(f)[HEADER_SIZE..]) == [g]
  {
    var f := Frame(msgType, src, dst, Encode(g));
    OneEncoded(f);
    OneEncoded(g);
    assert Encode(f)[HEADER_SIZE..] == Encode(g);
    hide EncodeAll, Encode, Complete;
    PollSplits([f], HEADER_SIZE);
    CutFrame(f, HEADER_SIZE);
    ParseAll([g]);
    ParseAll([f]);
    NothingEncoded();
  }

  lemma NothingEncoded()
    ensures EncodeAll([]) == []
  {
  }

  lemma {:induction false} PartIsNoLonger(frames: seq<Frame>, f: Frame)
    requires f in frames
    ensures |Encode(f)| <= |EncodeAll(frames)|
  {
    hide Encode;
    if f != frames[0] {
      PartIsNoLonger(frames[1..], f);
    }
  }

  /** A message longer than a radio's polls is never handed over, whatever else is on the air. */
  lemma {:induction false} OversizedFrameIsLost(events: seq<Event>, r: RadioId, max: nat)
    requires forall e :: e in events && e.Receive? && e.id == r ==> e.max <= max
    ensures forall a :: a in Polled(events, r) ==> |Encode(a.frame)| <= max
  {
    hide Run, Output, Parse, Encode, SamplesToBytes, EncodeAll;
    if events != [] {
      var e := Last(events);
      assert e in events;
      OversizedFrameIsLost(Init(events), r, max);
      forall a | a in LatestPolled(events, r) ensures |Encode(a.frame)| <= max {
        var out := Output(Run(Init(events)), e);
        OutputIsShort(Run(Init(events)), e);
        ParseIsPrefix(SamplesToBytes(out));
        PartIsNoLonger(Parse(SamplesToBytes(out)), a.frame);
        SameSize(out);
      }
    }
  }

  lemma SameSize(samples: seq<Sample>)
    ensures |SamplesToBytes(samples)| == |samples|
  {
  }

  lemma OutputIsShort(c: Channel, e: Event)
    requires e.Receive?
    ensures |Output(c, e)| <= e.max
  {
  }

  // ------------------------------------------------------------ conservation

  lemma SamplesConcat(a: Bytes, b: Bytes)
    ensures BytesToSamples(a + b) == BytesToSamples(a) + BytesToSamples(b)
  {
  }

  lemma SamplesSlice(a: Bytes, n: nat)
    requires n <= |a|
    ensures BytesToSamples(a)[..n] == BytesToSamples(a[..n]) && BytesToSamples(a)[n..] == BytesToSamples(a[n..])
  {
  }

  lemma {:induction false} OnAppend(a: seq<Arrival>, b: seq<Arrival>, f: Frequency)
    ensures On(a + b, f) == On(a, f) + On(b, f)
  {
    if b == [] {
      assert a + b == a;
    } else {
      var init := b[..|b| - 1];
      assert (a + b)[..|a + b| - 1] == a + init;
      OnAppend(a, init, f);
    }
  }

  lemma {:induction false} OnArrivals(g: Frequency, frames: seq<Frame>, f: Frequency)
    ensures On(Arrivals(g, frames), f) == if g == f then frames else []
  {
    if frames != [] {
      var init := frames[..|frames| - 1];
      assert Arrivals(g, frames)[..|frames| - 1] == Arrivals(g, init);
      OnArrivals(g, init, f);
      assert frames == init + [frames[|frames| - 1]];
    }
  }

  lemma {:induction false} NoFramesBefore(events: seq<Event>, r: RadioId, f: Frequency)
    requires Registrations(events) < r
    ensures SentFrames(events, r, f) == [] && Polled(events, r) == []
  {
    if events != [] {
      NoFramesBefore(Init(events), r, f);
      NothingBefore(events, r, f);
      NothingBefore(Init(events), r, f);
      RunMembership(Init(events));
    }
  }

  lemma HypothesesShrink(events: seq<Event>, r: RadioId, f: Frequency)
    requires events != []
    ensures FramedTraffic(events, r, f) ==> FramedTraffic(Init(events), r, f)
    ensures var latest := Polls(Last(events), r, f) ==> Consumed(Output(Run(Init(events)), Last(events)));
            ConsumedPolls(events, r, f) <==> ConsumedPolls(Init(events), r, f) && latest
  {
    hide Consumed, Framed, Run, Output, IsRegistered;
    assert forall i :: 0 <= i < |events| ==> Init(events)[..i] == events[..i];
    assert forall i :: 0 <= i < |events| - 1 ==> Init(events)[i] == events[i];
  }

  /** Draining the buffer at every poll is one way never to be left with a tail. */
  lemma {:induction false} DrainingConsumes(events: seq<Event>, r: RadioId, f: Frequency)
    requires Registrations(events) + 1 < U32_LIMIT && IsRegistered(events, r) && FramedTraffic(events, r, f)
    requires forall i :: 0 <= i < |events| && Polls(events[i], r, f) ==> |Buffered(Run(events[..i]), r, f)| <= events[i].max
    ensures ConsumedPolls(events, r, f)
  {
    var before := Init(events);
    assert forall i :: 0 <= i < |before| ==> before[..i] == events[..i] && before[i] == events[i];
    assert before == events[..|before|];
    HypothesesShrink(events, r, f);
    hide FramedTraffic, ConsumedPolls, Run, Consumed, Output, EncodeAll, BytesToSamples;
    if IsRegistered(before, r) {
      DrainingConsumes(before, r, f);
      if Polls(Last(events), r, f) {
        var p := FramesArrive(before, r, f);
        DrainedIsConsumed(Run(before), Last(events), p);
      }
    } else {
      NeverPolled(before, r, f);
    }
  }

  lemma DrainedIsConsumed(c: Channel, e: Event, p: seq<Frame>)
    requires e.Receive? && Buffered(c, e.id, e.freq) == BytesToSamples(EncodeAll(p)) && forall q :: q in p ==> Fits(q)
    requires |Buffered(c, e.id, e.freq)| <= e.max
    ensures Consumed(Output(c, e))
  {
    var data := EncodeAll(p);
    assert Output(c, e) == BytesToSamples(data);
    SamplesRoundTrip(data);
    ParseAll(p);
  }

  /** Before a radio is registered its polls take nothing. */
  lemma {:induction false} NeverPolled(events: seq<Event>, r: RadioId, f: Frequency)
    requires Registrations(events) < r
    ensures ConsumedPolls(events, r, f)
  {
    if events != [] {
      NeverPolled(Init(events), r, f);
      HypothesesShrink(events, r, f);
      NothingBefore(Init(events), r, f);
      NothingBefore(events, r, f);
      RunMembership(Init(events));
      NothingConsumed();
    }
  }

  lemma NothingConsumed()
    ensures Consumed([])
  {
    assert SamplesToBytes([]) == [];
  }

  /** End to end on one frequency: the frames `r` has parsed out of its polls, followed by those still buffered, are
      the frames the others sent since it registered, in order and each once. */
  lemma {:induction false} FramesArrive(events: seq<Event>, r: RadioId, f: Frequency) returns (pending: seq<Frame>)
    requires Registrations(events) + 1 < U32_LIMIT && IsRegistered(events, r)
    requires FramedTraffic(events, r, f) && ConsumedPolls(events, r, f)
    ensures On(Polled(events, r), f) + pending == SentFrames(events, r, f)
    ensures Buffered(Run(events), r, f) == BytesToSamples(EncodeAll(pending))
    ensures forall p :: p in pending ==> Fits(p)
  {
    var before := Init(events);
    assert !IsRegistered(before, r) ==> Registrations(before) < r;
    hide Run, Buffered, Parse, EncodeAll, ConsumedPolls, FramedTraffic, BytesToSamples, LatestPolled, LatestSentFrame, On,
         IsRegistered, Fits, Consumed, Output;
    var p: seq<Frame> := [];
    HypothesesShrink(events, r, f);
    if IsRegistered(before, r) {
      p := FramesArrive(before, r, f);
    } else {
      NoFramesBefore(before, r, f);
      NotBuffered(before, r, f);
      NoBytes();
      OnNothing(f);
    }
    pending := LatestEvent(events, r, f, p);
    OnAppend(Polled(before, r), LatestPolled(events, r), f);
    Splice(On(Polled(before, r), f), On(LatestPolled(events, r), f), pending, p, LatestSentFrame(events, r, f));
  }

  lemma OnNothing(f: Frequency)
    ensures On([], f) == []
  {
  }

  lemma NoBytes()
    ensures BytesToSamples(EncodeAll([])) == []
  {
  }

  /** The latest event moves frames from the backlog to the arrivals, or adds one to the backlog. */
  lemma LatestEvent(events: seq<Event>, r: RadioId, f: Frequency, p: seq<Frame>) returns (pending: seq<Frame>)
    requires events != [] && Registrations(events) + 1 < U32_LIMIT && IsRegistered(events, r)
    requires FramedTraffic(events, r, f)
    requires Polls(Last(events), r, f) ==> Consumed(Output(Run(Init(events)), Last(events)))
    requires Buffered(Run(Init(events)), r, f) == BytesToSamples(EncodeAll(p)) && forall q :: q in p ==> Fits(q)
    ensures On(LatestPolled(events, r), f) + pending == p + LatestSentFrame(events, r, f)
    ensures Buffered(Run(events), r, f) == BytesToSamples(EncodeAll(pending))
    ensures forall q :: q in pending ==> Fits(q)
  {
    hide Run, Buffered, Consumed;
    BufferStep(events, r, f);
    if Polls(Last(events), r, f) {
      pending := PollEvent(events, r, f, p);
    } else {
      pending := OtherEvent(events, r, f, p);
    }
  }

  lemma OtherEvent(events: seq<Event>, r: RadioId, f: Frequency, p: seq<Frame>) returns (pending: seq<Frame>)
    requires events != [] && !Polls(Last(events), r, f)
    requires FramedTraffic(events, r, f) && forall q :: q in p ==> Fits(q)
    requires Buffered(Run(Init(events)), r, f) == BytesToSamples(EncodeAll(p))
    requires LatestTaken(events, r, f) + Buffered(Run(events), r, f)
          == Buffered(Run(Init(events)), r, f) + LatestSent(events, r, f)
    ensures On(LatestPolled(events, r), f) + pending == p + LatestSentFrame(events, r, f)
    ensures Buffered(Run(events), r, f) == BytesToSamples(EncodeAll(pending))
    ensures forall q :: q in pending ==> Fits(q)
  {
    hide Run, Buffered, EncodeAll, BytesToSamples, LatestSent, LatestSentFrame, FramedTraffic, Fits, OnAir;
    SentIsFramed(events, r, f);
    NothingPolled(events, r, f);
    var sent := LatestSentFrame(events, r, f);
    pending := p + sent;
    assert LatestTaken(events, r, f) + Buffered(Run(events), r, f) == Buffered(Run(events), r, f);
    assert On(LatestPolled(events, r), f) + pending == pending;
    if sent != [] {
      SendEvent(p, sent[0]);
    } else {
      assert p + sent == p;
      assert Buffered(Run(Init(events)), r, f) + [] == Buffered(Run(Init(events)), r, f);
    }
  }

  lemma SentIsFramed(events: seq<Event>, r: RadioId, f: Frequency)
    requires events != [] && FramedTraffic(events, r, f)
    ensures LatestSentFrame(events, r, f) == [] ==> LatestSent(events, r, f) == []
    ensures LatestSentFrame(events, r, f) != [] ==>
              var frame := LatestSentFrame(events, r, f)[0];
              LatestSentFrame(events, r, f) == [frame] && Fits(frame) && LatestSent(events, r, f) == OnAir(frame)
  {
    hide LatestDropped, Carried, OnAir;
    assert events[..|events| - 1] == Init(events);
    assert HeardBy(Last(events), r, f) && IsRegistered(events, r) ==> IsRegistered(Init(events), r);
  }

  lemma NothingPolled(events: seq<Event>, r: RadioId, f: Frequency)
    requires events != [] && !Polls(Last(events), r, f)
    ensures LatestTaken(events, r, f) == [] && On(LatestPolled(events, r), f) == []
  {
    hide Run, Output, Parse, SamplesToBytes, On;
    var e := Last(events);
    OnNothing(f);
    if e.Receive? && e.id == r {
      OnArrivals(e.freq, Parse(SamplesToBytes(Output(Run(Init(events)), e))), f);
    }
  }

  lemma SendEvent(p: seq<Frame>, frame: Frame)
    ensures BytesToSamples(EncodeAll(p + [frame])) == BytesToSamples(EncodeAll(p)) + OnAir(frame)
  {
    EncodeAllAppend(p, [frame]);
    assert EncodeAll([frame]) == Encode(frame);
    hide EncodeAll, Encode, BytesToSamples;
    SamplesConcat(EncodeAll(p), Encode(frame));
  }

  lemma PollEvent(events: seq<Event>, r: RadioId, f: Frequency, p: seq<Frame>) returns (pending: seq<Frame>)
    requires events != [] && Polls(Last(events), r, f) && Consumed(Output(Run(Init(events)), Last(events)))
    requires Buffered(Run(Init(events)), r, f) == BytesToSamples(EncodeAll(p)) && forall q :: q in p ==> Fits(q)
    requires LatestTaken(events, r, f) + Buffered(Run(events), r, f)
          == Buffered(Run(Init(events)), r, f) + LatestSent(events, r, f)
    ensures On(LatestPolled(events, r), f) + pending == p + LatestSentFrame(events, r, f)
    ensures Buffered(Run(events), r, f) == BytesToSamples(EncodeAll(pending))
    ensures forall q :: q in pending ==> Fits(q)
  {
    hide EncodeAll, Parse, Complete, Run, SamplesToBytes, On, Fits;
    var e, data := Last(events), EncodeAll(p);
    var n := Min(e.max, |data|);
    var k := Complete(p, n);
    pending := p[k..];
    ParseCutStream(p, n);
    SamplesSlice(data, n);
    SamplesRoundTrip(data[..n]);
    assert |Buffered(Run(Init(events)), r, f)| == |data|;
    assert Output(Run(Init(events)), e) == BytesToSamples(data[..n]);
    hide Buffered, BytesToSamples;
    EncodeSplit(p, k);
    assert |EncodeAll(p[..k])| == n;
    assert data[n..] == EncodeAll(p[k..]);
    TakeRest(Output(Run(Init(events)), e), Buffered(Run(events), r, f), Buffered(Run(Init(events)), r, f), n);
    OnArrivals(f, p[..k], f);
  }

  lemma TakeRest(out: seq<Sample>, after: seq<Sample>, before: seq<Sample>, n: nat)
    requires n <= |before| && out == before[..n] && out + after == before + []
    ensures after == before[n..]
  {
    assert (out + after)[n..] == after;
  }

  // ---------------------------------------------------------------- exactness

  lemma {:induction false} SentSize(events: seq<Event>, r: RadioId, f: Frequency)
    requires FramedTraffic(events, r, f)
    ensures |Sent(events, r, f)| == |EncodeAll(SentFrames(events, r, f))|
  {
    hide LatestSent, LatestSentFrame, FramedTraffic, EncodeAll, Framed, Encode;
    if events != [] {
      HypothesesShrink(events, r, f);
      SentSize(Init(events), r, f);
      SentIsFramed(events, r, f);
      EncodeAllAppend(SentFrames(Init(events), r, f), LatestSentFrame(events, r, f));
      NothingEncoded();
      if LatestSentFrame(events, r, f) != [] {
        OneEncoded(LatestSentFrame(events, r, f)[0]);
      }
    } else {
      NothingEncoded();
    }
  }

  /** The messages polled never account for more than what was taken, and account for all of it only when no poll was
      left with a tail. */
  lemma {:induction false} ParsedSize(events: seq<Event>, r: RadioId, f: Frequency)
    ensures |EncodeAll(On(Polled(events, r), f))| <= |Taken(events, r, f)|
    ensures |EncodeAll(On(Polled(events, r), f))| == |Taken(events, r, f)| ==> ConsumedPolls(events, r, f)
  {
    hide Run, Output, Parse, EncodeAll, SamplesToBytes, On, ConsumedPolls, FramedTraffic, LatestPolled, LatestTaken;
    OnNothing(f);
    NothingEncoded();
    if events == [] {
      NoPolls(r, f);
    } else {
      ParsedSize(Init(events), r, f);
      HypothesesShrink(events, r, f);
      OnAppend(Polled(Init(events), r), LatestPolled(events, r), f);
      EncodeAllAppend(On(Polled(Init(events), r), f), On(LatestPolled(events, r), f));
      LatestParsed(events, r, f);
    }
  }

  lemma NoPolls(r: RadioId, f: Frequency)
    ensures ConsumedPolls([], r, f)
  {
  }

  lemma LatestParsed(events: seq<Event>, r: RadioId, f: Frequency)
    requires events != []
    ensures var parsed := |EncodeAll(On(LatestPolled(events, r), f))|; var taken := |LatestTaken(events, r, f)|;
            && parsed <= taken
            && (parsed == taken && Polls(Last(events), r, f) ==> Consumed(Output(Run(Init(events)), Last(events))))
  {
    hide Run, Output, Parse, EncodeAll, SamplesToBytes, On;
    var e, out := Last(events), Output(Run(Init(events)), Last(events));
    if Polls(e, r, f) {
      OnArrivals(f, Parse(SamplesToBytes(out)), f);
      ParseIsPrefix(SamplesToBytes(out));
      SameSize(out);
    } else {
      NothingPolled(events, r, f);
      NothingEncoded();
    }
  }

  /** Whether everything sent on the frequency arrives or is still waiting, in order and each once. */
  ghost predicate AllAccounted(events: seq<Event>, r: RadioId, f: Frequency) {
    exists pending :: On(Polled(events, r), f) + pending == SentFrames(events, r, f)
                      && Buffered(Run(events), r, f) == BytesToSamples(EncodeAll(pending))
  }

  /** The condition of `FramesArrive` is exact: one poll left with an unfinished tail spoils the account for good, even
      if later polls find something to parse. */
  lemma FramesArriveExactly(events: seq<Event>, r: RadioId, f: Frequency)
    requires Registrations(events) + 1 < U32_LIMIT && IsRegistered(events, r) && FramedTraffic(events, r, f)
    ensures AllAccounted(events, r, f) <==> ConsumedPolls(events, r, f)
  {
    hide Run, Buffered, EncodeAll, On, ConsumedPolls, FramedTraffic, BytesToSamples, Polled, SentFrames, Taken, Sent;
    if ConsumedPolls(events, r, f) {
      var pending := FramesArrive(events, r, f);
    } else if AllAccounted(events, r, f) {
      var pending :| On(Polled(events, r), f) + pending == SentFrames(events, r, f)
                     && Buffered(Run(events), r, f) == BytesToSamples(EncodeAll(pending));
      Conservation(events, r, f);
      SentSize(events, r, f);
      ParsedSize(events, r, f);
      EncodeAllAppend(On(Polled(events, r), f), pending);
      SamplesSize(EncodeAll(pending));
    }
  }

  lemma SamplesSize(data: Bytes)
    ensures |BytesToSamples(data)| == |data|
  {
  }
}
