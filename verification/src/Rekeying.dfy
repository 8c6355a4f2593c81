/** Over-the-air rekeying, in terms of key values: epochs over a network that may lose, reorder and repeat messages. */
module Rekeying {
  import opened Common

  type Key = Bytes

  /** Key wrap and unwrap under a key-encryption key; either may fail. */
  datatype KeyWrap = KeyWrap(wrap: (Key, Key) -> Option<Bytes>, unwrap: (Key, Bytes) -> Option<Key>)

  /** Unwrapping undoes wrapping under the same key, and fails under any other. */
  ghost predicate Sound(kw: KeyWrap) {
    forall k, x, b, k' :: kw.wrap(k, x) == Some(b) ==> kw.unwrap(k', b) == if k' == k then Some(x) else None
  }

  datatype Message = Message(epoch: U32, wrappedTek: Bytes, wrappedFhek: Bytes)

  datatype Keys = Keys(kek: Option<Key>, tek: Option<Key>, fhek: Option<Key>, epoch: U32)

  const NO_KEYS := Keys(None, None, None, 0)

  /** What a key manager is asked to do. A key of `None` stands for an engine that fails or declines. */
  datatype Op =
    | SetKek(key: Option<Key>)
    | SetTek(key: Option<Key>)
    | SetFhek(key: Option<Key>)
    | RotateTek(key: Option<Key>)
    | Generate
    | Process(msg: Message)
    | Zeroize

  predicate Opens(kw: KeyWrap, kek: Key, m: Message) {
    kw.unwrap(kek, m.wrappedTek).Some? && kw.unwrap(kek, m.wrappedFhek).Some?
  }

  /** The message a `Generate` would emit. */
  function Emitted(kw: KeyWrap, s: Keys): Option<Message> {
    if s.kek.None? || s.tek.None? || s.fhek.None? then None
    else
      var wt, wf := kw.wrap(s.kek.value, s.tek.value), kw.wrap(s.kek.value, s.fhek.value);
      if wt.None? || wf.None? then None else Some(Message(Increment(s.epoch), wt.value, wf.value))
  }

  predicate Accepts(kw: KeyWrap, s: Keys, m: Message) {
    s.kek.Some? && m.epoch > s.epoch && Opens(kw, s.kek.value, m)
  }

  function Act(kw: KeyWrap, s: Keys, op: Op): Keys {
    match op
    case SetKek(key) => if key.None? then s else s.(kek := key)
    case SetTek(key) => if key.None? then s else s.(tek := key)
    case SetFhek(key) => if key.None? then s else s.(fhek := key)
    case RotateTek(key) => if key.None? then s else s.(tek := key, epoch := Increment(s.epoch))
    case Generate => if Emitted(kw, s).None? then s else s.(epoch := Increment(s.epoch))
    case Process(m) =>
      if Accepts(kw, s, m) then
        s.(tek := kw.unwrap(s.kek.value, m.wrappedTek), fhek := kw.unwrap(s.kek.value, m.wrappedFhek), epoch := m.epoch)
      else s
    case Zeroize => NO_KEYS
  }

  function Run(kw: KeyWrap, s: Keys, ops: seq<Op>): Keys {
    if ops == [] then s else Act(kw, Run(kw, s, ops[..|ops| - 1]), ops[|ops| - 1])
  }

  // ---------------------------------------------------- keys from the history

  /** The key-encryption key last installed since the last zeroization. */
  function KekOf(ops: seq<Op>): Option<Key> {
    if ops == [] then None
    else
      match Last(ops)
      case SetKek(key) => if key.Some? then key else KekOf(Init(ops))
      case Zeroize => None
      case _ => KekOf(Init(ops))
  }

  /** A message presented after `ops` is taken: it is newer, and both its keys unwrap. */
  predicate TakenAfter(kw: KeyWrap, ops: seq<Op>, m: Message)
    decreases |ops|, 1
  {
    && KekOf(ops).Some? && EpochOf(kw, ops) < m.epoch
    && kw.unwrap(KekOf(ops).value, m.wrappedTek).Some? && kw.unwrap(KekOf(ops).value, m.wrappedFhek).Some?
  }

  /** The traffic key last installed, rotated in, or taken from a message, since the last zeroization. */
  function TekOf(kw: KeyWrap, ops: seq<Op>): Option<Key>
    decreases |ops|, 0
  {
    if ops == [] then None
    else
      match Last(ops)
      case SetTek(key) => if key.Some? then key else TekOf(kw, Init(ops))
      case RotateTek(key) => if key.Some? then key else TekOf(kw, Init(ops))
      case Process(m) =>
        if TakenAfter(kw, Init(ops), m) then kw.unwrap(KekOf(Init(ops)).value, m.wrappedTek) else TekOf(kw, Init(ops))
      case Zeroize => None
      case _ => TekOf(kw, Init(ops))
  }

  /** The hopping key last installed, or taken from a message, since the last zeroization. */
  function FhekOf(kw: KeyWrap, ops: seq<Op>): Option<Key>
    decreases |ops|, 0
  {
    if ops == [] then None
    else
      match Last(ops)
      case SetFhek(key) => if key.Some? then key else FhekOf(kw, Init(ops))
      case Process(m) =>
        if TakenAfter(kw, Init(ops), m) then kw.unwrap(KekOf(Init(ops)).value, m.wrappedFhek) else FhekOf(kw, Init(ops))
      case Zeroize => None
      case _ => FhekOf(kw, Init(ops))
  }

  /** A message is emitted after `ops`: all three keys are there and both wraps succeed. */
  predicate SentAfter(kw: KeyWrap, ops: seq<Op>)
    decreases |ops|, 1
  {
    && KekOf(ops).Some? && TekOf(kw, ops).Some? && FhekOf(kw, ops).Some?
    && kw.wrap(KekOf(ops).value, TekOf(kw, ops).value).Some? && kw.wrap(KekOf(ops).value, FhekOf(kw, ops).value).Some?
  }

  /** One up for every rotation that succeeds and every message emitted, on to the number of a message taken, and back
      to 0 by zeroization. */
  function EpochOf(kw: KeyWrap, ops: seq<Op>): U32
    decreases |ops|, 0
  {
    if ops == [] then 0
    else
      var before := EpochOf(kw, Init(ops));
      match Last(ops)
      case RotateTek(key) => if key.Some? then (before + 1) % U32_LIMIT else before
      case Generate => if SentAfter(kw, Init(ops)) then (before + 1) % U32_LIMIT else before
      case Process(m) => if TakenAfter(kw, Init(ops), m) then m.epoch else before
      case Zeroize => 0
      case _ => before
  }

  /** What a key manager holds after any run, read off the run alone. */
  lemma {:induction false} KeysFromHistory(kw: KeyWrap, ops: seq<Op>)
    ensures Run(kw, NO_KEYS, ops) == Keys(KekOf(ops), TekOf(kw, ops), FhekOf(kw, ops), EpochOf(kw, ops))
  {
    if ops != [] {
      KeysFromHistory(kw, Init(ops));
      EmitsAfter(kw, Init(ops));
      if Last(ops).Process? {
        AcceptsAfter(kw, Init(ops), Last(ops).msg);
      }
      hide Accepts, Emitted, TakenAfter, SentAfter;
    }
  }

  lemma AcceptsAfter(kw: KeyWrap, ops: seq<Op>, m: Message)
    requires Run(kw, NO_KEYS, ops) == Keys(KekOf(ops), TekOf(kw, ops), FhekOf(kw, ops), EpochOf(kw, ops))
    ensures Accepts(kw, Run(kw, NO_KEYS, ops), m) <==> TakenAfter(kw, ops, m)
  {
    hide Run, KekOf, TekOf, FhekOf, EpochOf;
  }

  lemma EmitsAfter(kw: KeyWrap, ops: seq<Op>)
    requires Run(kw, NO_KEYS, ops) == Keys(KekOf(ops), TekOf(kw, ops), FhekOf(kw, ops), EpochOf(kw, ops))
    ensures Emitted(kw, Run(kw, NO_KEYS, ops)).Some? <==> SentAfter(kw, ops)
  {
    hide Run, KekOf, TekOf, FhekOf, EpochOf;
  }

  /** Rotate, then rekey: every receiver that can open the message and is not ahead of it ends with the key rotated in,
      two epochs on. */
  lemma RotationReaches(kw: KeyWrap, sender: Keys, key: Key, receiver: Keys)
    requires Sound(kw) && receiver.kek.Some? && receiver.kek == sender.kek && sender.epoch + 2 < U32_LIMIT
    requires var m := Emitted(kw, Act(kw, sender, RotateTek(Some(key))));
             m.Some? && receiver.epoch < m.value.epoch
    ensures var m := Emitted(kw, Act(kw, sender, RotateTek(Some(key)))).value;
            Act(kw, receiver, Process(m)) == Keys(receiver.kek, Some(key), sender.fhek, sender.epoch + 2)
  {
    RekeyRoundTrip(kw, Act(kw, sender, RotateTek(Some(key))), receiver);
  }

  // --------------------------------------------------------------- receivers

  /** A receiver handed these messages, in this order. */
  function Receive(kw: KeyWrap, s: Keys, ms: seq<Message>): Keys {
    if ms == [] then s else Act(kw, Receive(kw, s, ms[..|ms| - 1]), Process(ms[|ms| - 1]))
  }

  /** The keys of message `m`, installed. */
  function Installed(kw: KeyWrap, s: Keys, m: Message): Keys
    requires s.kek.Some?
  {
    s.(tek := kw.unwrap(s.kek.value, m.wrappedTek), fhek := kw.unwrap(s.kek.value, m.wrappedFhek), epoch := m.epoch)
  }

  /** `m` is a highest message a receiver in state `s` can use. */
  ghost predicate Top(kw: KeyWrap, s: Keys, ms: seq<Message>, m: Message) {
    && m in ms && Accepts(kw, s, m)
    && (forall n :: n in ms && Accepts(kw, s, n) ==> n.epoch <= m.epoch)
  }

  /** A receiver ends with the keys of a highest usable message, or as it started when there is none. */
  lemma {:induction false} ReceiverTakesTop(kw: KeyWrap, s: Keys, ms: seq<Message>)
    ensures (Receive(kw, s, ms) == s && forall n :: n in ms ==> !Accepts(kw, s, n)) ||
            exists m :: Top(kw, s, ms, m) && Receive(kw, s, ms) == Installed(kw, s, m)
  {
    if ms != [] {
      var init, last := ms[..|ms| - 1], ms[|ms| - 1];
      assert forall n :: n in ms <==> n in init || n == last;
      ReceiverTakesTop(kw, s, init);
      var r := Receive(kw, s, init);
      if Accepts(kw, r, last) {
        assert Top(kw, s, ms, last);
        assert Receive(kw, s, ms) == Installed(kw, s, last);
      } else if exists m :: Top(kw, s, init, m) && r == Installed(kw, s, m) {
        var m :| Top(kw, s, init, m) && r == Installed(kw, s, m);
        assert Top(kw, s, ms, m);
      }
    }
  }

  ghost predicate SameMessages(a: seq<Message>, b: seq<Message>) {
    forall m :: m in a <==> m in b
  }

  /** All highest usable messages carry the same keys. */
  ghost predicate TopsAgree(kw: KeyWrap, s: Keys, ms: seq<Message>) {
    forall m, n :: Top(kw, s, ms, m) && Top(kw, s, ms, n) ==> Installed(kw, s, m) == Installed(kw, s, n)
  }

  /** Receivers that start alike and get the same set of messages, in whatever order and with whatever repetitions,
      end alike, provided the highest messages agree. */
  lemma Converge(kw: KeyWrap, s: Keys, a: seq<Message>, b: seq<Message>)
    requires SameMessages(a, b) && TopsAgree(kw, s, a)
    ensures Receive(kw, s, a) == Receive(kw, s, b)
  {
    hide Installed, Accepts, Receive;
    ReceiverTakesTop(kw, s, a);
    ReceiverTakesTop(kw, s, b);
    assert forall m :: Top(kw, s, a, m) <==> Top(kw, s, b, m);
  }

  /** The proviso is exact: the outcome is independent of order and repetition if and only if the highest usable
      messages agree. */
  lemma ConvergeExactly(kw: KeyWrap, s: Keys, a: seq<Message>)
    ensures (forall b :: SameMessages(a, b) ==> Receive(kw, s, b) == Receive(kw, s, a)) <==> TopsAgree(kw, s, a)
  {
    if TopsAgree(kw, s, a) {
      forall b | SameMessages(a, b) ensures Receive(kw, s, b) == Receive(kw, s, a) {
        Converge(kw, s, a, b);
      }
    } else {
      var m, n :| Top(kw, s, a, m) && Top(kw, s, a, n) && Installed(kw, s, m) != Installed(kw, s, n);
      TopFirst(kw, s, m, a);
      TopFirst(kw, s, n, a);
      assert SameMessages(a, [m] + a) && SameMessages(a, [n] + a);
    }
  }

  /** Once a highest message is in, nothing in the set displaces it. */
  lemma {:induction false} TopStays(kw: KeyWrap, s: Keys, m: Message, ms: seq<Message>)
    requires Accepts(kw, s, m) && forall n :: n in ms && Accepts(kw, s, n) ==> n.epoch <= m.epoch
    ensures Receive(kw, Installed(kw, s, m), ms) == Installed(kw, s, m)
  {
    if ms != [] {
      TopStays(kw, s, m, ms[..|ms| - 1]);
    }
  }

  lemma {:induction false} ReceiveFrom(kw: KeyWrap, s: Keys, m: Message, ms: seq<Message>)
    ensures Receive(kw, s, [m] + ms) == Receive(kw, Act(kw, s, Process(m)), ms)
  {
    if ms == [] {
      assert [m] + ms == [m] && [m][..0] == [];
    } else {
      ReceiveFrom(kw, s, m, ms[..|ms| - 1]);
      assert ([m] + ms)[..|ms|] == [m] + ms[..|ms| - 1];
    }
  }

  lemma TopFirst(kw: KeyWrap, s: Keys, m: Message, ms: seq<Message>)
    requires Top(kw, s, ms, m)
    ensures Receive(kw, s, [m] + ms) == Installed(kw, s, m)
  {
    ReceiveFrom(kw, s, m, ms);
    TopStays(kw, s, m, ms);
  }

  // ------------------------------------------------------------------ senders

  /** The message emitted by the i-th operation of a run, if it emits one. */
  function EmittedAt(kw: KeyWrap, s: Keys, ops: seq<Op>, i: nat): Option<Message>
    requires i < |ops|
  {
    if ops[i].Generate? then Emitted(kw, Run(kw, s, ops[..i])) else None
  }

  /** No zeroization, and no counter about to wrap, in a stretch of the run. */
  ghost predicate Steady(kw: KeyWrap, s: Keys, ops: seq<Op>, from: nat) {
    forall k :: from <= k < |ops| ==> !ops[k].Zeroize? && Run(kw, s, ops[..k]).epoch + 1 < U32_LIMIT
  }

  lemma {:induction false} EpochGrows(kw: KeyWrap, s: Keys, ops: seq<Op>, i: nat, j: nat)
    requires i <= j <= |ops| && Steady(kw, s, ops, i)
    ensures Run(kw, s, ops[..i]).epoch <= Run(kw, s, ops[..j]).epoch
    decreases j
  {
    if i < j {
      EpochGrows(kw, s, ops, i, j - 1);
      assert ops[..j][..j - 1] == ops[..j - 1];
    }
  }

  /** The messages of one sender carry strictly increasing epochs, between zeroizations and short of a wrap. */
  lemma EpochsIncrease(kw: KeyWrap, s: Keys, ops: seq<Op>, i: nat, j: nat)
    requires i < j < |ops| && Steady(kw, s, ops, i)
    requires EmittedAt(kw, s, ops, i).Some? && EmittedAt(kw, s, ops, j).Some?
    ensures EmittedAt(kw, s, ops, i).value.epoch < EmittedAt(kw, s, ops, j).value.epoch
  {
    assert ops[..i + 1][..i] == ops[..i];
    EpochGrows(kw, s, ops, i + 1, j);
  }

  /** The message of a sender whose counter wraps is useless: no receiver accepts it, whatever its state. */
  lemma WrappedIsRejected(kw: KeyWrap, sender: Keys, receiver: Keys)
    requires sender.epoch + 1 == U32_LIMIT && Emitted(kw, sender).Some?
    ensures !Accepts(kw, receiver, Emitted(kw, sender).value)
  {
  }

  /** An emitted message gives a receiver with the same key-encryption key and an older epoch the sender's own keys and
      epoch, and gives a receiver with another key-encryption key nothing. */
  lemma RekeyRoundTrip(kw: KeyWrap, sender: Keys, receiver: Keys)
    requires Sound(kw) && Emitted(kw, sender).Some? && receiver.kek.Some?
    ensures var m := Emitted(kw, sender).value; var r := Act(kw, receiver, Process(m));
            r == if receiver.kek == sender.kek && m.epoch > receiver.epoch
                 then receiver.(tek := sender.tek, fhek := sender.fhek, epoch := m.epoch) else receiver
  {
    var m := Emitted(kw, sender).value;
    assert kw.wrap(sender.kek.value, sender.tek.value) == Some(m.wrappedTek);
    assert kw.wrap(sender.kek.value, sender.fhek.value) == Some(m.wrappedFhek);
  }

  /** Any two receivers of one sender's messages converge. */
  lemma OneSenderConverges(kw: KeyWrap, sender: Keys, ops: seq<Op>, s: Keys, a: seq<Message>, b: seq<Message>)
    requires Steady(kw, sender, ops, 0)
    requires forall m :: m in a ==> exists i :: 0 <= i < |ops| && EmittedAt(kw, sender, ops, i) == Some(m)
    requires SameMessages(a, b)
    ensures Receive(kw, s, a) == Receive(kw, s, b)
  {
    hide Receive, EmittedAt, Installed, Accepts;
    forall m, n | Top(kw, s, a, m) && Top(kw, s, a, n) ensures m == n {
      var i :| 0 <= i < |ops| && EmittedAt(kw, sender, ops, i) == Some(m);
      var j :| 0 <= j < |ops| && EmittedAt(kw, sender, ops, j) == Some(n);
      if i < j {
        EpochsIncrease(kw, sender, ops, i, j);
      } else if j < i {
        EpochsIncrease(kw, sender, ops, j, i);
      }
    }
    Converge(kw, s, a, b);
  }
}
