/** JitterBuffer: reorders voice frames by sequence number. */
module Jitter {
  import opened Common

  type Audio = seq<int>

  datatype State = State(depth: nat, next: U32, firstPush: bool, buffer: map<U32, Audio>)

  function Empty(depth: nat): State {
    State(depth, 0, true, map[])
  }

  /** Drop the lowest frames while there are too many; losing the expected one moves the expectation on. */
  function Evict(s: State): State
    decreases |s.buffer|
  {
    if |s.buffer| <= s.depth then s
    else
      var k := Smallest(s.buffer.Keys);
      Evict(s.(next := if k == s.next then Increment(s.next) else s.next, buffer := s.buffer - {k}))
  }

  /** Before the first pop the lowest number held is the one expected. */
  function Inserted(s: State, n: U32, frame: Audio): State {
    var b := s.buffer[n := frame];
    assert n in b.Keys;
    s.(buffer := b, next := if s.firstPush then Smallest(b.Keys) else s.next)
  }

  function Push(s: State, n: U32, frame: Audio): State {
    Evict(Inserted(s, n, frame))
  }

  function Popped(s: State): Option<Audio> {
    if s.next in s.buffer then Some(s.buffer[s.next]) else None
  }

  function Pop(s: State): State {
    if s.next in s.buffer then s.(firstPush := false, buffer := s.buffer - {s.next}, next := Increment(s.next))
    else s.(firstPush := false)
  }

  class JitterBuffer {
    const depth: nat
    var next: U32
    var firstPush: bool
    var buffer: map<U32, Audio>

    function View(): State
      reads this
    {
      State(depth, next, firstPush, buffer)
    }

    constructor (depth: nat)
      ensures View() == Empty(depth)
    {
      this.depth := depth;
      next, firstPush, buffer := 0, true, map[];
    }

    method PushFrame(n: U32, frame: Audio)
      modifies this
      ensures View() == Push(old(View()), n, frame)
    {
      buffer := buffer[n := frame];
      assert n in buffer.Keys;
      if firstPush {
        next := Smallest(buffer.Keys);
      }
      while |buffer| > depth
        invariant Evict(View()) == Push(old(View()), n, frame)
        decreases |buffer|
      {
        var k := Smallest(buffer.Keys);
        if k == next {
          next := Increment(next);
        }
        buffer := buffer - {k};
      }
    }

    method PopFrame() returns (frame: Option<Audio>)
      modifies this
      ensures View() == Pop(old(View())) && frame == Popped(old(View()))
    {
      firstPush := false;
      if next !in buffer {
        return None;
      }
      frame := Some(buffer[next]);
      buffer := buffer - {next};
      next := Increment(next);
    }

    method Reset()
      modifies this
      ensures View() == Empty(depth)
    {
      buffer, next, firstPush := map[], 0, true;
    }
  }

  // -------------------------------------------------------------------- runs

  datatype Op = Put(n: U32, frame: Audio) | Take

  datatype Played = Played(n: U32, frame: Audio)

  function Next(s: State, op: Op): State {
    match op
    case Put(n, frame) => Push(s, n, frame)
    case Take => Pop(s)
  }

  function Run(s: State, ops: seq<Op>): State {
    if ops == [] then s else Next(Run(s, ops[..|ops| - 1]), ops[|ops| - 1])
  }

  /** The frames handed out over a run, with their sequence numbers. */
  function Output(s: State, ops: seq<Op>): seq<Played> {
    if ops == [] then []
    else
      var init := ops[..|ops| - 1];
      var t := Run(s, init);
      Output(s, init) + if ops[|ops| - 1].Take? && Popped(t).Some? then [Played(t.next, Popped(t).value)] else []
  }

  function LastPushed(ops: seq<Op>, n: U32): Option<Audio> {
    if ops == [] then None
    else
      var op := ops[|ops| - 1];
      if op.Put? && op.n == n then Some(op.frame) else LastPushed(ops[..|ops| - 1], n)
  }

  lemma {:induction false} EvictFacts(s: State)
    ensures var t := Evict(s);
            && |t.buffer| <= s.depth && t.depth == s.depth && t.firstPush == s.firstPush
            && (forall k :: k in t.buffer ==> k in s.buffer && t.buffer[k] == s.buffer[k])
            && (s.next !in s.buffer ==> t.next == s.next)
            && (s.depth > 0 ==> s.next <= t.next)
    decreases |s.buffer|
  {
    if |s.buffer| > s.depth {
      var k := Smallest(s.buffer.Keys);
      if s.depth > 0 {
        SmallestOfMany(s.buffer.Keys);
      }
      EvictFacts(s.(next := if k == s.next then Increment(s.next) else s.next, buffer := s.buffer - {k}));
    }
  }

  /** The least of two or more numbers is not the last 32-bit number. */
  lemma SmallestOfMany(s: set<U32>)
    requires |s| > 1
    ensures Smallest(s) + 1 < U32_LIMIT
  {
    var k := Smallest(s);
    var rest := s - {k};
    assert |rest| == |s| - 1;
    assert rest != {};
    var x :| x in rest;
  }

  /** The buffer never exceeds its depth, and holds under each number the frame last pushed under it. */
  lemma {:induction false} RunBuffer(depth: nat, ops: seq<Op>)
    ensures var s := Run(Empty(depth), ops);
            |s.buffer| <= depth && s.depth == depth && forall k :: k in s.buffer ==> LastPushed(ops, k) == Some(s.buffer[k])
  {
    if ops != [] {
      var init, op := ops[..|ops| - 1], ops[|ops| - 1];
      RunBuffer(depth, init);
      var s := Run(Empty(depth), init);
      match op
      case Put(n, frame) => EvictFacts(Inserted(s, n, frame));
      case Take =>
        assert s.next in s.buffer ==> s.buffer.Keys - {s.next} < s.buffer.Keys;
    }
  }

  /** What a pop hands out is the frame last pushed under its number. */
  lemma PoppedIsLastPushed(depth: nat, ops: seq<Op>)
    ensures var s := Run(Empty(depth), ops); Popped(s).Some? ==> LastPushed(ops, s.next) == Popped(s)
  {
    RunBuffer(depth, ops);
  }

  predicate Increasing(out: seq<Played>) {
    forall i, j :: 0 <= i < j < |out| ==> out[i].n < out[j].n
  }

  /** The frames played so far, against the state they left behind: they lie below the expectation, unless it has
      wrapped to 0 for good. */
  ghost predicate InOrder(s: State, out: seq<Played>, noZero: bool) {
    && Increasing(out) && (s.firstPush ==> out == []) && (s.depth == 0 ==> out == [])
    && (noZero ==> 0 !in s.buffer)
    && (!noZero ==> U32_LIMIT - 1 !in s.buffer)
    && ((forall i :: 0 <= i < |out| ==> out[i].n < s.next) || (noZero && s.next == 0 && !s.firstPush))
  }

  lemma PushInOrder(s: State, out: seq<Played>, noZero: bool, n: U32, frame: Audio)
    requires InOrder(s, out, noZero) && n != if noZero then 0 else U32_LIMIT - 1
    ensures InOrder(Push(s, n, frame), out, noZero)
  {
    EvictFacts(Inserted(s, n, frame));
    hide Evict;
  }

  lemma PopInOrder(s: State, out: seq<Played>, noZero: bool)
    requires InOrder(s, out, noZero) && (s.depth == 0 ==> s.buffer == map[])
    ensures InOrder(Pop(s), out + if Popped(s).Some? then [Played(s.next, Popped(s).value)] else [], noZero)
  {
  }

  lemma {:induction false} OutputInOrder(depth: nat, ops: seq<Op>, noZero: bool)
    requires forall op :: op in ops && op.Put? ==> op.n != if noZero then 0 else U32_LIMIT - 1
    ensures InOrder(Run(Empty(depth), ops), Output(Empty(depth), ops), noZero)
  {
    if ops != [] {
      var init, op := ops[..|ops| - 1], ops[|ops| - 1];
      assert op in ops;
      OutputInOrder(depth, init, noZero);
      RunBuffer(depth, init);
      var s := Run(Empty(depth), init);
      hide InOrder, Push, Pop, Popped;
      match op
      case Put(n, frame) =>
        PushInOrder(s, Output(Empty(depth), init), noZero, n, frame);
        assert Output(Empty(depth), ops) == Output(Empty(depth), init);
      case Take => PopInOrder(s, Output(Empty(depth), init), noZero);
    }
  }

  predicate PushesOnly(ops: seq<Op>, numbers: set<U32>) {
    forall op :: op in ops && op.Put? ==> op.n in numbers
  }

  /** Frames come out in strictly increasing order over every run that pushes only the given numbers, if and only if
      those do not include both the first and the last 32-bit number (or the buffer holds nothing at all). */
  lemma OrderedExactly(depth: nat, numbers: set<U32>)
    ensures (forall ops :: PushesOnly(ops, numbers) ==> Increasing(Output(Empty(depth), ops)))
            <==> depth == 0 || !(0 in numbers && U32_LIMIT - 1 in numbers)
  {
    if depth > 0 && 0 in numbers && U32_LIMIT - 1 in numbers {
      WrapBreaksOrder(depth, [], []);
      var ops := [Put(U32_LIMIT - 1, []), Take, Put(0, []), Take];
      assert PushesOnly(ops, numbers);
      var out := Output(Empty(depth), ops);
      assert out[0].n > out[1].n;
    } else {
      forall ops | PushesOnly(ops, numbers) ensures Increasing(Output(Empty(depth), ops)) {
        if depth == 0 {
          NothingFits(ops);
        } else {
          OutputInOrder(depth, ops, 0 !in numbers);
        }
      }
    }
  }

  lemma {:induction false} NothingFits(ops: seq<Op>)
    ensures Output(Empty(0), ops) == []
  {
    if ops != [] {
      NothingFits(ops[..|ops| - 1]);
      RunBuffer(0, ops[..|ops| - 1]);
    }
  }

  lemma Fits(s: State, n: U32, frame: Audio)
    requires |s.buffer[n := frame]| <= s.depth
    ensures Push(s, n, frame) == Inserted(s, n, frame)
  {
  }

  lemma RunLast(s: State, ops: seq<Op>, op: Op)
    ensures Run(s, ops + [op]) == Next(Run(s, ops), op)
    ensures Output(s, ops + [op]) == Output(s, ops) +
              if op.Take? && Popped(Run(s, ops)).Some? then [Played(Run(s, ops).next, Popped(Run(s, ops)).value)] else []
  {
    assert (ops + [op])[..|ops|] == ops;
  }

  /** At any depth, popping frame 2^32 - 1 wraps the expectation, and frame 0 is played after it. */
  lemma WrapBreaksOrder(depth: nat, a: Audio, b: Audio)
    requires depth > 0
    ensures Output(Empty(depth), [Put(U32_LIMIT - 1, a), Take, Put(0, b), Take]) == [Played(U32_LIMIT - 1, a), Played(0, b)]
  {
    hide Push, Pop;
    var n: U32 := U32_LIMIT - 1;
    var s0, x1, x2, x3, x4 := Empty(depth), Put(n, a), Take, Put(0, b), Take;
    LastFrame(depth, a);
    FirstFrame(depth, b);
    RunLast(s0, [], x1);
    RunLast(s0, [x1], x2);
    RunLast(s0, [x1, x2], x3);
    RunLast(s0, [x1, x2, x3], x4);
    assert [] + [x1] == [x1] && [x1] + [x2] == [x1, x2] && [x1, x2] + [x3] == [x1, x2, x3];
    assert [x1, x2, x3] + [x4] == [x1, x2, x3, x4];
  }

  lemma LastFrame(depth: nat, a: Audio)
    requires depth > 0
    ensures var s := Push(Empty(depth), U32_LIMIT - 1, a);
            s.next == U32_LIMIT - 1 && Popped(s) == Some(a) && Pop(s) == State(depth, 0, false, map[])
  {
    var n: U32 := U32_LIMIT - 1;
    assert Inserted(Empty(depth), n, a) == State(depth, n, true, map[n := a]) by {
      assert map[n := a].Keys == {n};
    }
    Fits(Empty(depth), n, a);
    assert map[n := a] - {n} == map[];
  }

  lemma FirstFrame(depth: nat, b: Audio)
    requires depth > 0
    ensures Push(State(depth, 0, false, map[]), 0, b) == State(depth, 0, false, map[0 := b])
  {
    Fits(State(depth, 0, false, map[]), 0, b);
  }

  /** Once popping has begun and the expected frame is missing, nothing comes out until that frame is pushed. */
  lemma {:induction false} Starves(s: State, ops: seq<Op>)
    requires !s.firstPush && s.next !in s.buffer
    requires forall op :: op in ops && op.Put? ==> op.n != s.next
    ensures var t := Run(s, ops); !t.firstPush && t.next == s.next && t.next !in t.buffer
    ensures Output(s, ops) == []
  {
    if ops != [] {
      var init, op := ops[..|ops| - 1], ops[|ops| - 1];
      assert op in ops;
      Starves(s, init);
      if op.Put? {
        var t := Run(s, init);
        EvictFacts(Inserted(t, op.n, op.frame));
      }
    }
  }

  // ------------------------------------------------------------- reordering

  function Pushes(base: nat, frames: seq<Audio>): seq<Op>
    requires base + |frames| <= U32_LIMIT
  {
    seq(|frames|, i requires 0 <= i < |frames| => Put(base + i, frames[i]))
  }

  function Takes(n: nat): seq<Op> {
    seq(n, _ => Take)
  }

  function PlayedInOrder(base: nat, frames: seq<Audio>): seq<Played>
    requires base + |frames| <= U32_LIMIT
  {
    seq(|frames|, i requires 0 <= i < |frames| => Played(base + i, frames[i]))
  }

  ghost predicate SameOps(a: seq<Op>, b: seq<Op>) {
    forall op :: op in a <==> op in b
  }

  /** The buffer holds exactly the frames from the n-th on, numbered from `base`. */
  ghost predicate HoldsFrom(b: map<U32, Audio>, base: nat, frames: seq<Audio>, n: nat) {
    && (forall k :: k in b <==> base + n <= k < base + |frames|)
    && (forall k :: k in b ==> b[k] == frames[k - base])
  }

  lemma {:induction false} RangeSize(s: set<U32>, base: nat, n: nat)
    requires forall k :: k in s ==> base <= k < base + n
    ensures |s| <= n
  {
    if n == 0 {
      assert s == {};
    } else {
      var last := base + n - 1;
      var rest := set k | k in s && k != last;
      RangeSize(rest, base, n - 1);
      assert s <= rest + {last as nat};
      assert last in s ==> s == rest + {last};
      assert last !in s ==> s == rest;
    }
  }

  /** The state while a stretch of frames is being pushed: everything pushed so far is held. */
  ghost predicate Filled(s: State, base: nat, frames: seq<Audio>, ops: seq<Op>)
  {
    && s.firstPush
    && (forall k :: k in s.buffer ==> base <= k < base + |frames| && s.buffer[k] == frames[k - base])
    && (forall k, f :: Put(k, f) in ops ==> k in s.buffer)
    && (s.buffer.Keys != {} ==> s.next == Smallest(s.buffer.Keys))
  }

  lemma FillStep(s: State, base: nat, frames: seq<Audio>, ops: seq<Op>, i: nat)
    requires Filled(s, base, frames, ops) && i < |frames| <= s.depth && base + |frames| <= U32_LIMIT
    ensures Filled(Push(s, base + i, frames[i]), base, frames, ops + [Put(base + i, frames[i])])
    ensures Push(s, base + i, frames[i]).depth == s.depth
  {
    var b := s.buffer[base + i := frames[i]];
    assert |b| <= s.depth by {
      RangeSize(b.Keys, base, |frames|);
      assert |b| == |b.Keys|;
    }
    hide Smallest, Evict;
    Fits(s, base + i, frames[i]);
    hide Push;
  }

  lemma NothingFilled(depth: nat, base: nat, frames: seq<Audio>)
    ensures Filled(Empty(depth), base, frames, [])
  {
  }

  lemma IndexOf(base: nat, frames: seq<Audio>, op: Op) returns (i: nat)
    requires base + |frames| <= U32_LIMIT && op in Pushes(base, frames)
    ensures i < |frames| && op == Put(base + i, frames[i])
  {
    i :| 0 <= i < |frames| && Pushes(base, frames)[i] == op;
  }

  /** Pushing frames out of a consecutive stretch no longer than the depth, before any pop: none is evicted. */
  lemma {:induction false} Filling(depth: nat, base: nat, frames: seq<Audio>, ops: seq<Op>)
    requires base + |frames| <= U32_LIMIT && |frames| <= depth
    requires forall op :: op in ops ==> op in Pushes(base, frames)
    ensures Filled(Run(Empty(depth), ops), base, frames, ops) && Run(Empty(depth), ops).depth == depth
  {
    hide Filled, Push, Pushes;
    if ops == [] {
      NothingFilled(depth, base, frames);
    } else {
      var init, op := ops[..|ops| - 1], ops[|ops| - 1];
      assert ops == init + [op];
      Filling(depth, base, frames, init);
      assert op in ops;
      var i := IndexOf(base, frames, op);
      FillStep(Run(Empty(depth), init), base, frames, init, i);
    }
  }

  lemma {:induction false} Draining(s: State, base: nat, frames: seq<Audio>, n: nat)
    requires base + |frames| <= U32_LIMIT && n <= |frames|
    requires HoldsFrom(s.buffer, base, frames, 0) && (frames != [] ==> s.next == base)
    ensures Output(s, Takes(n)) == PlayedInOrder(base, frames[..n])
    ensures HoldsFrom(Run(s, Takes(n)).buffer, base, frames, n)
    ensures n < |frames| ==> Run(s, Takes(n)).next == base + n
  {
    if n > 0 {
      assert Takes(n)[..n - 1] == Takes(n - 1);
      Draining(s, base, frames, n - 1);
      hide Output, Run;
      DrainOne(Run(s, Takes(n - 1)), base, frames, n - 1);
      LastOutput(s, n);
      assert PlayedInOrder(base, frames[..n]) == PlayedInOrder(base, frames[..n - 1]) + [Played(base + (n - 1), frames[n - 1])];
    }
  }

  lemma LastOutput(s: State, n: nat)
    requires n > 0
    ensures var t := Run(s, Takes(n - 1));
            && Run(s, Takes(n)) == Pop(t)
            && Output(s, Takes(n)) == Output(s, Takes(n - 1)) + if Popped(t).Some? then [Played(t.next, Popped(t).value)] else []
  {
    assert Takes(n)[..n - 1] == Takes(n - 1);
  }

  lemma DrainOne(t: State, base: nat, frames: seq<Audio>, n: nat)
    requires base + |frames| <= U32_LIMIT && n < |frames|
    requires HoldsFrom(t.buffer, base, frames, n) && t.next == base + n
    ensures Popped(t) == Some(frames[n]) && HoldsFrom(Pop(t).buffer, base, frames, n + 1)
    ensures n + 1 < |frames| ==> Pop(t).next == base + n + 1
  {
    assert base + n in t.buffer;
  }

  lemma {:induction false} RunConcat(s: State, a: seq<Op>, b: seq<Op>)
    ensures Run(s, a + b) == Run(Run(s, a), b)
    ensures Output(s, a + b) == Output(s, a) + Output(Run(s, a), b)
  {
    if b == [] {
      assert a + b == a;
    } else {
      assert (a + b)[..|a + b| - 1] == a + b[..|b| - 1];
      RunConcat(s, a, b[..|b| - 1]);
    }
  }

  lemma {:induction false} NothingPlayed(s: State, ops: seq<Op>)
    requires forall op :: op in ops ==> op.Put?
    ensures Output(s, ops) == []
  {
    if ops != [] {
      assert ops[|ops| - 1] in ops;
      NothingPlayed(s, ops[..|ops| - 1]);
    }
  }

  /** Consecutively numbered frames, no more than the depth, pushed in any order (and with any repetitions) before the
      first pop, come out in sequence; the pop after that returns nothing. */
  lemma Reorders(depth: nat, base: nat, frames: seq<Audio>, ops: seq<Op>)
    requires base + |frames| <= U32_LIMIT && |frames| <= depth
    requires SameOps(ops, Pushes(base, frames))
    ensures Output(Empty(depth), ops + Takes(|frames|)) == PlayedInOrder(base, frames)
    ensures Popped(Run(Empty(depth), ops + Takes(|frames|))) == None
  {
    var s, n := Run(Empty(depth), ops), |frames|;
    Filling(depth, base, frames, ops);
    AllFilled(s, base, frames, ops);
    forall op | op in ops ensures op.Put? {
      assert op in Pushes(base, frames);
    }
    hide Run, Output, Filled;
    NothingPlayed(Empty(depth), ops);
    Draining(s, base, frames, n);
    RunConcat(Empty(depth), ops, Takes(n));
    assert frames[..n] == frames;
  }

  lemma AllFilled(s: State, base: nat, frames: seq<Audio>, ops: seq<Op>)
    requires base + |frames| <= U32_LIMIT && Filled(s, base, frames, ops) && SameOps(ops, Pushes(base, frames))
    ensures HoldsFrom(s.buffer, base, frames, 0) && (frames != [] ==> s.next == base)
  {
    forall k | base <= k < base + |frames| ensures k in s.buffer {
      assert Pushes(base, frames)[k - base] == Put(k, frames[k - base]);
      assert Put(k, frames[k - base]) in ops;
    }
    if frames != [] {
      assert base in s.buffer.Keys;
    }
  }

  // --------------------------------------------------------------- stranding

  /** Whether the first pop finds a frame, given what is held with the latest frame pushed: nothing is evicted, or the
      number after the evicted one is held. */
  predicate InReach(depth: nat, held: map<U32, Audio>)
    requires held.Keys != {}
  {
    |held| <= depth || (Smallest(held.Keys) + 1 < U32_LIMIT && Smallest(held.Keys) + 1 in held)
  }

  /** A push before the first pop leaves the expectation on a frame that is held exactly when `InReach` says so. */
  lemma PushReaches(s: State, n: U32, frame: Audio)
    requires s.firstPush && |s.buffer| <= s.depth
    ensures n in s.buffer[n := frame].Keys
    ensures Popped(Push(s, n, frame)).Some? <==> InReach(s.depth, s.buffer[n := frame])
  {
    var b := s.buffer[n := frame];
    assert n in b.Keys;
    var t := Inserted(s, n, frame);
    assert b.Keys == s.buffer.Keys + {n} && |b| == |b.Keys| <= |s.buffer| + 1;
    if |b| <= s.depth {
      Fits(s, n, frame);
    } else {
      EvictOne(t);
    }
  }

  /** What a push holds on to and expects, in any reachable state: everything when it fits; otherwise all but the lowest
      number, and losing the expected one moves the expectation on by one. */
  lemma PushExactly(s: State, n: U32, frame: Audio, least: U32)
    requires |s.buffer| <= s.depth
    requires var held := s.buffer[n := frame]; least in held && forall k :: k in held ==> least <= k
    ensures var held := s.buffer[n := frame]; var expected := if s.firstPush then least else s.next;
            Push(s, n, frame) ==
            if |held| <= s.depth then State(s.depth, expected, s.firstPush, held)
            else State(s.depth, if least == expected then (expected + 1) % U32_LIMIT else expected, s.firstPush, held - {least})
  {
    hide Evict;
    var b := s.buffer[n := frame];
    assert n in b.Keys && Smallest(b.Keys) == least;
    HeldSize(s.buffer, n, frame);
    if |b| <= s.depth {
      Fits(s, n, frame);
    } else {
      DropOne(Inserted(s, n, frame));
    }
  }

  lemma HeldSize(buffer: map<U32, Audio>, n: U32, frame: Audio)
    ensures |buffer[n := frame]| <= |buffer| + 1
  {
    var b := buffer[n := frame];
    assert b.Keys == buffer.Keys + {n} && |b| == |b.Keys|;
  }

  lemma DropOne(t: State)
    requires |t.buffer| == t.depth + 1
    ensures var k := Smallest(t.buffer.Keys);
            Evict(t) == t.(next := if k == t.next then Increment(t.next) else t.next, buffer := t.buffer - {k})
  {
    OneLess(t.buffer, Smallest(t.buffer.Keys));
  }

  lemma OneLess(buffer: map<U32, Audio>, k: U32)
    requires k in buffer
    ensures |buffer - {k}| == |buffer| - 1
  {
    var rest := buffer - {k};
    assert rest.Keys == buffer.Keys - {k} && |rest| == |rest.Keys|;
  }

  /** The frames an eviction keeps are the highest that fit: as many as the depth allows, and none of those dropped has
      a higher number than one kept. */
  lemma {:induction false} EvictKeepsHighest(s: State)
    ensures var t := Evict(s);
            && |t.buffer| == (if |s.buffer| <= s.depth then |s.buffer| else s.depth)
            && (forall k :: k in t.buffer ==> k in s.buffer && t.buffer[k] == s.buffer[k])
            && (forall k, l :: k in t.buffer && l in s.buffer && l !in t.buffer ==> l < k)
    decreases |s.buffer|
  {
    if |s.buffer| > s.depth {
      var k := Smallest(s.buffer.Keys);
      var rest := s.buffer - {k};
      OneLess(s.buffer, k);
      EvictKeepsHighest(s.(next := if k == s.next then Increment(s.next) else s.next, buffer := rest));
    }
  }

  /** Whether frame `k` has been pushed, and not played since. */
  predicate Waiting(depth: nat, ops: seq<Op>, k: U32) {
    ops != [] &&
    var op, before := ops[|ops| - 1], ops[..|ops| - 1];
    if op.Put? then op.n == k || Waiting(depth, before, k)
    else Waiting(depth, before, k) && !PlayedNow(depth, ops, k)
  }

  predicate PlayedNow(depth: nat, ops: seq<Op>, k: U32)
    requires ops != []
  {
    var out := Output(Empty(depth), ops);
    |out| > |Output(Empty(depth), ops[..|ops| - 1])| && out[|out| - 1].n == k
  }

  function AllWaiting(depth: nat, ops: seq<Op>): set<U32> {
    set op | op in ops && op.Put? && Waiting(depth, ops, op.n) :: op.n
  }

  /** As long as no more frames wait at any time than the depth allows, nothing is lost: the buffer holds exactly what
      was pushed and not played. */
  lemma {:induction false} NothingLost(depth: nat, ops: seq<Op>)
    requires forall i :: 0 <= i <= |ops| ==> |AllWaiting(depth, ops[..i])| <= depth
    ensures forall k :: k in Run(Empty(depth), ops).buffer <==> Waiting(depth, ops, k)
  {
    if ops != [] {
      var init, op := ops[..|ops| - 1], ops[|ops| - 1];
      assert forall i :: 0 <= i <= |init| ==> init[..i] == ops[..i];
      assert ops[..|ops|] == ops;
      NothingLost(depth, init);
      hide AllWaiting, Push, Pop, Popped;
      if op.Put? {
        PushWaits(depth, ops, Run(Empty(depth), init));
      } else {
        PopWaits(depth, ops, Run(Empty(depth), init));
      }
    }
  }

  lemma PushWaits(depth: nat, ops: seq<Op>, s: State)
    requires ops != [] && ops[|ops| - 1].Put? && s == Run(Empty(depth), ops[..|ops| - 1])
    requires |AllWaiting(depth, ops)| <= depth
    requires forall k :: k in s.buffer <==> Waiting(depth, ops[..|ops| - 1], k)
    ensures var op := ops[|ops| - 1]; forall k :: k in Push(s, op.n, op.frame).buffer <==> Waiting(depth, ops, k)
  {
    hide AllWaiting, Run, Evict;
    var op := ops[|ops| - 1];
    var b := s.buffer[op.n := op.frame];
    WaitingArePushed(depth, ops);
    assert b.Keys == AllWaiting(depth, ops) && |b| == |b.Keys|;
    RunBuffer(depth, ops[..|ops| - 1]);
    Fits(s, op.n, op.frame);
  }

  lemma PopWaits(depth: nat, ops: seq<Op>, s: State)
    requires ops != [] && ops[|ops| - 1].Take? && s == Run(Empty(depth), ops[..|ops| - 1])
    requires forall k :: k in s.buffer <==> Waiting(depth, ops[..|ops| - 1], k)
    ensures forall k :: k in Pop(s).buffer <==> Waiting(depth, ops, k)
  {
    hide Run;
    var out := Output(Empty(depth), ops[..|ops| - 1]);
    if Popped(s).Some? {
      assert Output(Empty(depth), ops) == out + [Played(s.next, Popped(s).value)];
    } else {
      assert Output(Empty(depth), ops) == out;
    }
  }

  lemma {:induction false} WaitingArePushed(depth: nat, ops: seq<Op>)
    ensures forall k :: k in AllWaiting(depth, ops) <==> Waiting(depth, ops, k)
  {
    if ops != [] {
      WaitingArePushed(depth, ops[..|ops| - 1]);
      assert ops == ops[..|ops| - 1] + [ops[|ops| - 1]];
      hide PlayedNow;
      forall k | Waiting(depth, ops, k) ensures k in AllWaiting(depth, ops) {
        if Waiting(depth, ops[..|ops| - 1], k) {
          var op :| op in ops[..|ops| - 1] && op.Put? && op.n == k;
          assert op in ops;
        } else {
          assert ops[|ops| - 1] in ops;
        }
      }
    }
  }

  /** One frame too many: the lowest, which is the expected one, goes. */
  lemma EvictOne(t: State)
    requires |t.buffer| == t.depth + 1 && t.next == Smallest(t.buffer.Keys)
    ensures Popped(Evict(t)).Some? <==> t.next + 1 < U32_LIMIT && t.next + 1 in t.buffer
  {
    var k := t.next;
    DropOne(t);
    hide Evict;
    if k == U32_LIMIT - 1 {
      assert forall x :: x in t.buffer.Keys ==> x == k;
    }
  }

  /** Over runs: frames are pushed before the first pop, the last of them `n`. If the number after the one evicted is
      held (or none is), the first pop plays a frame; otherwise nothing is played, however often popping is tried and
      whatever else is pushed, until the expected number itself arrives. */
  lemma StrandsExactly(depth: nat, puts: seq<Op>, n: U32, frame: Audio, later: seq<Op>)
    requires forall op :: op in puts ==> op.Put?
    requires forall op :: op in later && op.Put? ==> op.n != Run(Empty(depth), puts + [Put(n, frame)]).next
    ensures var held := Run(Empty(depth), puts).buffer[n := frame]; var ops := puts + [Put(n, frame)] + [Take];
            && n in held.Keys
            && (InReach(depth, held) ==> |Output(Empty(depth), ops)| == 1)
            && (!InReach(depth, held) ==> Output(Empty(depth), ops + later) == [])
  {
    var all := puts + [Put(n, frame)];
    var s, t := Run(Empty(depth), puts), Run(Empty(depth), all);
    RunBuffer(depth, puts);
    StillFirst(depth, puts);
    RunLast(Empty(depth), puts, Put(n, frame));
    PushReaches(s, n, frame);
    NothingPlayed(Empty(depth), all);
    RunLast(Empty(depth), all, Take);
    if !InReach(depth, s.buffer[n := frame]) {
      hide InReach, Push;
      Starves(Pop(t), later);
      RunConcat(Empty(depth), all + [Take], later);
    }
  }

  lemma {:induction false} StillFirst(depth: nat, puts: seq<Op>)
    requires forall op :: op in puts ==> op.Put?
    ensures Run(Empty(depth), puts).firstPush
  {
    if puts != [] {
      var init, op := puts[..|puts| - 1], puts[|puts| - 1];
      assert op in puts;
      StillFirst(depth, init);
      EvictFacts(Inserted(Run(Empty(depth), init), op.n, op.frame));
    }
  }

  /** An instance: at any positive depth d, the numbers 3, ..., d + 2 are held and 1 arrives last. It is evicted at
      once, and the expectation stays at 2, behind everything held. */
  lemma EvictionCanStrand(s: State, frame: Audio)
    requires s.firstPush && |s.buffer| == s.depth > 0 && forall k :: k in s.buffer ==> k > 2
    ensures Popped(Push(s, 1, frame)) == None
  {
    var b := s.buffer[1 := frame];
    PushReaches(s, 1, frame);
    assert b.Keys == s.buffer.Keys + {1} && |b.Keys| == |s.buffer| + 1;
    assert Smallest(b.Keys) == 1;
  }
}
