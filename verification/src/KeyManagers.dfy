/** HsmKeyHandle and KeyManager: who owns which key object in the HSM. */
module KeyManagers {
  import opened Common
  import opened Rekeying

  /** The engine as a store of key objects; `destroyed` logs every destruction. */
  datatype Store = Store(objects: map<nat, Key>, next: nat, destroyed: seq<nat>)

  datatype Slot = Kek | Tek | Fhek

  /** The handles a key manager holds. */
  datatype Manager = Manager(kek: Option<nat>, tek: Option<nat>, fhek: Option<nat>, epoch: U32)
  {
    function Get(k: Slot): Option<nat> {
      match k case Kek => kek case Tek => tek case Fhek => fhek
    }

    function With(k: Slot, h: Option<nat>): Manager {
      match k case Kek => this.(kek := h) case Tek => this.(tek := h) case Fhek => this.(fhek := h)
    }
  }

  const NO_OBJECTS := Store(map[], 1, [])
  const NO_HANDLES := Manager(None, None, None, 0)

  function Create(st: Store, key: Key): Store {
    st.(objects := st.objects[st.next := key], next := st.next + 1)
  }

  function Destroy(st: Store, h: Option<nat>): Store {
    if h.None? then st else st.(objects := st.objects - {h.value}, destroyed := st.destroyed + [h.value])
  }

  function KeyAt(st: Store, h: Option<nat>): Option<Key> {
    if h.Some? && h.value in st.objects then Some(st.objects[h.value]) else None
  }

  /** The key values behind a manager's handles. */
  function KeysOf(st: Store, m: Manager): Keys {
    Keys(KeyAt(st, m.kek), KeyAt(st, m.tek), KeyAt(st, m.fhek), m.epoch)
  }

  /** Move-assign a new key object into a slot: the new object exists before the old one is destroyed. */
  function Put(st: Store, m: Manager, k: Slot, key: Option<Key>): (Store, Manager) {
    if key.None? then (st, m) else (Destroy(Create(st, key.value), m.Get(k)), m.With(k, Some(st.next)))
  }

  /** A key object created and destroyed again when its temporary handle goes out of scope. */
  function Transient(st: Store, key: Option<Key>): Store {
    if key.None? then st else Destroy(Create(st, key.value), Some(st.next))
  }

  function Apply(kw: KeyWrap, st: Store, m: Manager, op: Op): (Store, Manager) {
    match op
    case SetKek(key) => Put(st, m, Kek, key)
    case SetTek(key) => Put(st, m, Tek, key)
    case SetFhek(key) => Put(st, m, Fhek, key)
    case RotateTek(key) =>
      var (st', m') := Put(st, m, Tek, key);
      (st', if key.None? then m' else m'.(epoch := Increment(m.epoch)))
    case Generate =>
      (st, if Emitted(kw, KeysOf(st, m)).None? then m else m.(epoch := Increment(m.epoch)))
    case Process(msg) =>
      var kek := KeyAt(st, m.kek);
      if kek.None? || msg.epoch <= m.epoch then (st, m)
      else
        var tek, fhek := kw.unwrap(kek.value, msg.wrappedTek), kw.unwrap(kek.value, msg.wrappedFhek);
        if tek.None? || fhek.None? then (Transient(Transient(st, tek), fhek), m)
        else
          var both := Create(Create(st, tek.value), fhek.value);
          (Destroy(Destroy(both, m.tek), m.fhek),
           Manager(m.kek, Some(st.next), Some(st.next + 1), msg.epoch))
    case Zeroize =>
      (Destroy(Destroy(Destroy(st, m.kek), m.tek), m.fhek), NO_HANDLES)
  }

  // ------------------------------------------------------------------ objects

  class Hsm {
    const kw: KeyWrap
    var objects: map<nat, Key>
    var next: nat
    ghost var destroyed: seq<nat>

    ghost function View(): Store
      reads this
    {
      Store(objects, next, destroyed)
    }

    constructor (kw: KeyWrap)
      ensures this.kw == kw && View() == NO_OBJECTS
    {
      this.kw := kw;
      objects, next, destroyed := map[], 1, [];
    }

    /** A new key object, generated, imported or unwrapped, under a handle of its own. */
    method NewObject(key: Key) returns (h: KeyHandle)
      requires next > 0
      modifies this
      ensures fresh(h) && h.engine == this && h.handle == old(next)
      ensures View() == Create(old(View()), key)
    {
      h := new KeyHandle(this, next);
      objects := objects[next := key];
      next := next + 1;
    }

    method UnwrapKey(kek: nat, wrapped: Bytes) returns (h: KeyHandle?)
      requires next > 0 && kek in objects
      modifies this
      ensures var key := kw.unwrap(old(objects)[kek], wrapped);
              if key.None? then h == null && View() == old(View())
              else h != null && fresh(h) && h.engine == this && h.handle == old(next)
                   && View() == Create(old(View()), key.value)
    {
      var key := kw.unwrap(objects[kek], wrapped);
      if key.None? {
        return null;
      }
      h := NewObject(key.value);
    }

    method DestroyKey(h: nat)
      modifies this
      ensures View() == Destroy(old(View()), Some(h))
    {
      objects := objects - {h};
      destroyed := destroyed + [h];
    }
  }

  /** Move-only owner of a key object. */
  class KeyHandle {
    var engine: Hsm?
    var handle: nat

    ghost function Held(): Option<nat>
      reads this
    {
      if engine == null then None else Some(handle)
    }

    constructor Empty()
      ensures engine == null && handle == 0
    {
      engine, handle := null, 0;
    }

    constructor (engine: Hsm, handle: nat)
      ensures this.engine == engine && this.handle == handle
    {
      this.engine, this.handle := engine, handle;
    }

    /** Destroy the object held, if any, and hold nothing. */
    method Reset(ghost hsm: Hsm)
      requires engine == null || (engine == hsm && handle != 0)
      modifies this, hsm
      ensures engine == null && handle == if old(engine) == null then old(handle) else 0
      ensures hsm.View() == Destroy(old(hsm.View()), old(Held()))
    {
      if engine != null && handle != 0 {
        engine.DestroyKey(handle);
        engine, handle := null, 0;
      }
    }

    /** Move construction: the source is left empty. */
    constructor MoveFrom(o: KeyHandle)
      modifies o
      ensures engine == old(o.engine) && handle == old(o.handle)
      ensures o.engine == null && o.handle == 0
    {
      engine, handle := o.engine, o.handle;
      new;
      o.engine, o.handle := null, 0;
    }

    /** Move assignment: destroy what is held, take over what the source holds, leave the source empty. */
    method MoveAssign(o: KeyHandle, ghost hsm: Hsm)
      requires engine == null || (engine == hsm && handle != 0)
      modifies this, o, hsm
      ensures this == o ==> engine == old(engine) && handle == old(handle) && hsm.View() == old(hsm.View())
      ensures this != o ==>
                && engine == old(o.engine) && handle == old(o.handle) && o.engine == null && o.handle == 0
                && hsm.View() == Destroy(old(hsm.View()), old(Held()))
    {
      if this != o {
        Reset(hsm);
        engine, handle := o.engine, o.handle;
        o.engine, o.handle := null, 0;
      }
    }
  }

  class KeyManager {
    const hsm: Hsm
    const kek: KeyHandle
    const tek: KeyHandle
    const fhek: KeyHandle
    var epoch: U32

    ghost predicate SlotOk(h: KeyHandle)
      reads h, hsm
    {
      h.engine == null || (h.engine == hsm && h.handle in hsm.objects && 0 < h.handle < hsm.next)
    }

    ghost predicate Valid()
      reads this, hsm, kek, tek, fhek
    {
      && kek != tek && kek != fhek && tek != fhek && hsm.next > 0
      && SlotOk(kek) && SlotOk(tek) && SlotOk(fhek)
      && (kek.engine != null && tek.engine != null ==> kek.handle != tek.handle)
      && (kek.engine != null && fhek.engine != null ==> kek.handle != fhek.handle)
      && (tek.engine != null && fhek.engine != null ==> tek.handle != fhek.handle)
    }

    ghost function View(): Manager
      reads this, kek, tek, fhek
    {
      Manager(kek.Held(), tek.Held(), fhek.Held(), epoch)
    }

    constructor (hsm: Hsm)
      requires hsm.next > 0
      ensures Valid() && this.hsm == hsm && View() == NO_HANDLES
      ensures fresh(kek) && fresh(tek) && fresh(fhek)
    {
      this.hsm := hsm;
      kek := new KeyHandle.Empty();
      tek := new KeyHandle.Empty();
      fhek := new KeyHandle.Empty();
      epoch := 0;
    }

    /** `slot = hsm.generate_key(...)` or `slot = import_raw_or_throw(...)`; no key means the engine threw. */
    method Install(slot: KeyHandle, ghost k: Slot, key: Option<Key>) returns (ok: bool)
      requires Valid() && slot == match k case Kek => kek case Tek => tek case Fhek => fhek
      modifies hsm, slot
      ensures Valid() && ok == key.Some?
      ensures (hsm.View(), View()) == Put(old(hsm.View()), old(View()), k, key)
    {
      if key.None? {
        return false;
      }
      var temp := hsm.NewObject(key.value);
      slot.MoveAssign(temp, hsm);
      return true;
    }

    method SetKekRaw(key: Option<Key>) returns (ok: bool)
      requires Valid()
      modifies hsm, kek
      ensures Valid() && (hsm.View(), View()) == Apply(hsm.kw, old(hsm.View()), old(View()), SetKek(key))
    {
      ok := Install(kek, Kek, key);
    }

    method SetTekRaw(key: Option<Key>) returns (ok: bool)
      requires Valid()
      modifies hsm, tek
      ensures Valid() && (hsm.View(), View()) == Apply(hsm.kw, old(hsm.View()), old(View()), SetTek(key))
    {
      ok := Install(tek, Tek, key);
    }

    method SetFhekRaw(key: Option<Key>) returns (ok: bool)
      requires Valid()
      modifies hsm, fhek
      ensures Valid() && (hsm.View(), View()) == Apply(hsm.kw, old(hsm.View()), old(View()), SetFhek(key))
    {
      ok := Install(fhek, Fhek, key);
    }

    method Rotate(key: Option<Key>) returns (ok: bool)
      requires Valid()
      modifies this, hsm, tek
      ensures Valid() && (hsm.View(), View()) == Apply(hsm.kw, old(hsm.View()), old(View()), RotateTek(key))
    {
      ok := Install(tek, Tek, key);
      if ok {
        epoch := Increment(epoch);
      }
    }

    method GenerateOtarMessage() returns (m: Option<Message>)
      requires Valid()
      modifies this
      ensures Valid() && (hsm.View(), View()) == Apply(hsm.kw, old(hsm.View()), old(View()), Generate)
      ensures m == Emitted(hsm.kw, KeysOf(old(hsm.View()), old(View())))
    {
      if kek.engine == null || tek.engine == null || fhek.engine == null {
        return None;
      }
      var wt := hsm.kw.wrap(hsm.objects[kek.handle], hsm.objects[tek.handle]);
      var wf := hsm.kw.wrap(hsm.objects[kek.handle], hsm.objects[fhek.handle]);
      if wt.None? || wf.None? {
        return None;
      }
      epoch := Increment(epoch);
      return Some(Message(epoch, wt.value, wf.value));
    }

    method ProcessOtarMessage(msg: Message) returns (ok: bool)
      requires Valid()
      modifies this, hsm, tek, fhek
      ensures Valid() && (hsm.View(), View()) == Apply(hsm.kw, old(hsm.View()), old(View()), Process(msg))
      ensures ok == Accepts(hsm.kw, KeysOf(old(hsm.View()), old(View())), msg)
    {
      if kek.engine == null || msg.epoch <= epoch {
        return false;
      }
      ok := UnwrapAndInstall(msg);
      if ok {
        epoch := msg.epoch;
      }
    }

    ghost function Unwrapped(wrapped: Bytes): Option<Key>
      requires Valid() && kek.engine != null
      reads this, hsm, kek, tek, fhek
    {
      hsm.kw.unwrap(hsm.objects[kek.handle], wrapped)
    }

    /** Unwrap both keys; install both, or neither. */
    method UnwrapAndInstall(msg: Message) returns (ok: bool)
      requires Valid() && kek.engine != null
      modifies hsm, tek, fhek
      ensures Valid() && ok == (old(Unwrapped(msg.wrappedTek)).Some? && old(Unwrapped(msg.wrappedFhek)).Some?)
      ensures !ok ==>
                && View() == old(View())
                && hsm.View() == Transient(Transient(
                     old(hsm.View()), old(Unwrapped(msg.wrappedTek))), old(Unwrapped(msg.wrappedFhek)))
      ensures ok ==>
                && View() == old(View()).(tek := Some(old(hsm.next)), fhek := Some(old(hsm.next) + 1))
                && hsm.View() == Destroy(Destroy(
                     Create(Create(old(hsm.View()), old(Unwrapped(msg.wrappedTek)).value), old(Unwrapped(msg.wrappedFhek)).value),
                     old(tek.Held())), old(fhek.Held()))
    {
      hide Destroy, Transient;
      ghost var st, tekKey, fhekKey := hsm.View(), Unwrapped(msg.wrappedTek), Unwrapped(msg.wrappedFhek);
      var t := hsm.UnwrapKey(kek.handle, msg.wrappedTek);
      var f := hsm.UnwrapKey(kek.handle, msg.wrappedFhek);
      ok := t != null && f != null;
      hide Create;
      if ok {
        TakeBoth(t, f);
      } else {
        DropTemporaries(t, f, st, tekKey, fhekKey);
      }
    }

    /** Temporary handles going out of scope. */
    method DropTemporaries(t: KeyHandle?, f: KeyHandle?, ghost st: Store, ghost tekKey: Option<Key>,
                           ghost fhekKey: Option<Key>)
      requires Valid() && (t == null <==> tekKey.None?) && (f == null <==> fhekKey.None?) && (t == null || f == null)
      requires {t, f} !! {kek, tek, fhek} && st.next > 0
      requires t != null ==> t.engine == hsm && t.handle == st.next && hsm.View() == Create(st, tekKey.value)
      requires f != null ==> f.engine == hsm && f.handle == st.next && hsm.View() == Create(st, fhekKey.value)
      requires t == null && f == null ==> hsm.View() == st
      requires forall h: KeyHandle :: h in {kek, tek, fhek} && h.engine != null ==> h.handle < st.next
      modifies hsm, (if t == null then {} else {t}), (if f == null then {} else {f})
      ensures Valid() && View() == old(View()) && hsm.View() == Transient(Transient(st, tekKey), fhekKey)
    {
      if t != null {
        t.Reset(hsm);
      }
      if f != null {
        f.Reset(hsm);
      }
    }

    method TakeBoth(t: KeyHandle, f: KeyHandle)
      requires Valid() && {t, f} !! {kek, tek, fhek} && t != f
      requires t.engine == hsm && f.engine == hsm && t.handle in hsm.objects && f.handle in hsm.objects
      requires 0 < t.handle < f.handle < hsm.next
      requires forall h: KeyHandle :: h in {kek, tek, fhek} && h.engine != null ==> h.handle < t.handle
      modifies hsm, tek, fhek, t, f
      ensures Valid()
      ensures hsm.View() == Destroy(Destroy(old(hsm.View()), old(tek.Held())), old(fhek.Held()))
      ensures View() == old(View()).(tek := Some(old(t.handle)), fhek := Some(old(f.handle)))
    {
      tek.MoveAssign(t, hsm);
      fhek.MoveAssign(f, hsm);
    }

    method ZeroizeKeys()
      requires Valid()
      modifies this, hsm, kek, tek, fhek
      ensures Valid() && (hsm.View(), View()) == Apply(hsm.kw, old(hsm.View()), old(View()), Zeroize)
    {
      kek.Reset(hsm);
      tek.Reset(hsm);
      fhek.Reset(hsm);
      epoch := 0;
    }
  }

  // ---------------------------------------------------------------- ownership

  /** Every object ever created is live or has been destroyed once, never both. */
  ghost predicate Accounted(st: Store) {
    && st.next > 0
    && (forall h :: h in st.objects || h in st.destroyed <==> 0 < h < st.next)
    && (forall h :: h in st.objects ==> h !in st.destroyed)
    && NoRepeats(st.destroyed)
  }

  datatype Place = Place(manager: nat, slot: Slot)

  function At(ms: seq<Manager>, p: Place): Option<nat> {
    if p.manager < |ms| then ms[p.manager].Get(p.slot) else None
  }

  /** The live objects are exactly the handles held, and no object is held in two places. */
  ghost predicate Owned(st: Store, ms: seq<Manager>) {
    && Accounted(st)
    && (forall p :: At(ms, p).Some? ==> At(ms, p).value in st.objects)
    && (forall h :: h in st.objects ==> exists p :: At(ms, p) == Some(h))
    && (forall p, q :: At(ms, p).Some? && At(ms, p) == At(ms, q) ==> p == q)
  }

  lemma AppendDistinct(s: seq<nat>, h: nat)
    requires NoRepeats(s) && h !in s
    ensures NoRepeats(s + [h]) && forall x :: x in s + [h] <==> x in s || x == h
  {
  }

  lemma CreateDestroy(st: Store, key: Key, h: Option<nat>)
    requires Accounted(st) && (h.Some? ==> h.value in st.objects || h.value == st.next)
    ensures Accounted(Destroy(Create(st, key), h))
  {
    hide NoRepeats;
    assert st.next !in st.destroyed && st.next !in st.objects;
    if h.Some? { AppendDistinct(st.destroyed, h.value); }
  }

  lemma JustDestroy(st: Store, h: Option<nat>)
    requires Accounted(st) && (h.Some? ==> h.value in st.objects)
    ensures Accounted(Destroy(st, h))
  {
    hide NoRepeats;
    if h.Some? { AppendDistinct(st.destroyed, h.value); }
  }

  lemma AtWith(ms: seq<Manager>, i: nat, k: Slot, h: Option<nat>)
    requires i < |ms|
    ensures At(ms, Place(i, k)) == ms[i].Get(k)
    ensures forall p :: At(ms[i := ms[i].With(k, h)], p) == if p == Place(i, k) then h else At(ms, p)
  {
  }

  /** Exchanging what one place holds, and the live objects with it. */
  lemma Reassign(st: Store, ms: seq<Manager>, st': Store, ms': seq<Manager>, here: Place, h: Option<nat>)
    requires Owned(st, ms) && Accounted(st')
    requires forall p :: At(ms', p) == if p == here then h else At(ms, p)
    requires h.Some? ==> h.value !in st.objects
    requires forall x :: x in st'.objects <==> (x in st.objects && At(ms, here) != Some(x)) || h == Some(x)
    ensures Owned(st', ms')
  {
    hide At, Accounted;
    forall p | At(ms', p).Some? ensures At(ms', p).value in st'.objects {
      assert p != here ==> At(ms, p) == At(ms', p) && At(ms, p) != At(ms, here);
    }
    forall x | x in st'.objects ensures exists p :: At(ms', p) == Some(x) {
      if h == Some(x) {
        assert At(ms', here) == Some(x);
      } else {
        var p :| At(ms, p) == Some(x);
        assert At(ms', p) == Some(x);
      }
    }
    forall p, q | At(ms', p).Some? && At(ms', p) == At(ms', q) ensures p == q {
      assert p != here ==> At(ms, p) == At(ms', p);
      assert q != here ==> At(ms, q) == At(ms', q);
    }
  }

  lemma PutOwned(st: Store, ms: seq<Manager>, i: nat, k: Slot, key: Option<Key>)
    requires Owned(st, ms) && i < |ms|
    ensures Owned(Put(st, ms[i], k, key).0, ms[i := Put(st, ms[i], k, key).1])
  {
    assert ms[i := ms[i]] == ms;
    if key.Some? {
      var st' := Destroy(Create(st, key.value), ms[i].Get(k));
      AtWith(ms, i, k, Some(st.next));
      assert At(ms, Place(i, k)).Some? ==> At(ms, Place(i, k)).value in st.objects;
      CreateDestroy(st, key.value, ms[i].Get(k));
      assert st.next !in st.objects;
      hide At, Owned, Accounted;
      Reassign(st, ms, st', ms[i := ms[i].With(k, Some(st.next))], Place(i, k), Some(st.next));
    }
  }

  lemma ClearOwned(st: Store, ms: seq<Manager>, i: nat, k: Slot)
    requires Owned(st, ms) && i < |ms|
    ensures Owned(Destroy(st, ms[i].Get(k)), ms[i := ms[i].With(k, None)])
  {
    var st' := Destroy(st, ms[i].Get(k));
    AtWith(ms, i, k, None);
    assert At(ms, Place(i, k)).Some? ==> At(ms, Place(i, k)).value in st.objects;
    JustDestroy(st, ms[i].Get(k));
    hide At, Owned, Accounted;
    Reassign(st, ms, st', ms[i := ms[i].With(k, None)], Place(i, k), None);
  }

  lemma TransientOwned(st: Store, ms: seq<Manager>, key: Option<Key>)
    requires Owned(st, ms)
    ensures Owned(Transient(st, key), ms)
  {
    if key.Some? {
      CreateDestroy(st, key.value, Some(st.next));
      assert Transient(st, key).objects == st.objects;
    }
  }

  lemma EpochOwned(st: Store, ms: seq<Manager>, i: nat, e: U32)
    requires Owned(st, ms) && i < |ms|
    ensures Owned(st, ms[i := ms[i].(epoch := e)])
  {
    var ms' := ms[i := ms[i].(epoch := e)];
    assert forall p :: At(ms', p) == At(ms, p);
    hide At, Accounted;
    forall h | h in st.objects ensures exists p :: At(ms', p) == Some(h) {
      var p :| At(ms, p) == Some(h);
      assert At(ms', p) == Some(h);
    }
  }

  /** Creating both objects before destroying either old one comes to the same as installing one after the other. */
  lemma BothIsTwoPuts(st: Store, m: Manager, tek: Key, fhek: Key)
    requires m.tek != Some(st.next + 1) && m.tek != Some(st.next)
    ensures var both := Create(Create(st, tek), fhek);
            var (st1, m1) := Put(st, m, Tek, Some(tek));
            Put(st1, m1, Fhek, Some(fhek)) ==
            (Destroy(Destroy(both, m.tek), m.fhek), Manager(m.kek, Some(st.next), Some(st.next + 1), m.epoch))
  {
    var both := Create(Create(st, tek), fhek);
    var (st1, m1) := Put(st, m, Tek, Some(tek));
    assert Create(st1, fhek).objects == Destroy(both, m.tek).objects;
  }

  /** No operation of any manager breaks ownership, whether it succeeds, fails, or fails half way. */
  lemma ApplyOwned(kw: KeyWrap, st: Store, ms: seq<Manager>, i: nat, op: Op)
    requires Owned(st, ms) && i < |ms|
    ensures Owned(Apply(kw, st, ms[i], op).0, ms[i := Apply(kw, st, ms[i], op).1])
  {
    var m := ms[i];
    assert ms[i := m] == ms;
    match op
    case SetKek(key) => PutOwned(st, ms, i, Kek, key);
    case SetTek(key) => PutOwned(st, ms, i, Tek, key);
    case SetFhek(key) => PutOwned(st, ms, i, Fhek, key);
    case RotateTek(key) =>
      PutOwned(st, ms, i, Tek, key);
      var ms1 := ms[i := Put(st, m, Tek, key).1];
      EpochOwned(Put(st, m, Tek, key).0, ms1, i, Increment(m.epoch));
      assert ms1[i := ms1[i].(epoch := Increment(m.epoch))] == ms[i := ms1[i].(epoch := Increment(m.epoch))];
    case Generate => EpochOwned(st, ms, i, Increment(m.epoch));
    case Process(msg) => ProcessOwned(kw, st, ms, i, msg);
    case Zeroize => ZeroizeOwned(st, ms, i);
  }

  lemma HeldIsLive(st: Store, ms: seq<Manager>, i: nat, k: Slot)
    requires Owned(st, ms) && i < |ms|
    ensures ms[i].Get(k).Some? ==> ms[i].Get(k).value in st.objects && ms[i].Get(k).value < st.next
  {
    assert At(ms, Place(i, k)) == ms[i].Get(k);
  }

  lemma TwoPutsOwned(st: Store, ms: seq<Manager>, i: nat, tek: Option<Key>, fhek: Option<Key>, e: U32)
    requires Owned(st, ms) && i < |ms|
    ensures var (st1, m1) := Put(st, ms[i], Tek, tek); var (st2, m2) := Put(st1, m1, Fhek, fhek);
            Owned(st2, ms[i := m2.(epoch := e)])
  {
    hide Owned, Put;
    PutOwned(st, ms, i, Tek, tek);
    var (st1, m1) := Put(st, ms[i], Tek, tek);
    PutOwned(st1, ms[i := m1], i, Fhek, fhek);
    var (st2, m2) := Put(st1, m1, Fhek, fhek);
    assert ms[i := m1][i := m2] == ms[i := m2];
    EpochOwned(st2, ms[i := m2], i, e);
    assert ms[i := m2][i := m2.(epoch := e)] == ms[i := m2.(epoch := e)];
  }

  lemma ProcessOwned(kw: KeyWrap, st: Store, ms: seq<Manager>, i: nat, msg: Message)
    requires Owned(st, ms) && i < |ms|
    ensures Owned(Apply(kw, st, ms[i], Process(msg)).0, ms[i := Apply(kw, st, ms[i], Process(msg)).1])
  {
    hide Owned;
    var m, kek := ms[i], KeyAt(st, ms[i].kek);
    assert ms[i := m] == ms;
    if kek.Some? && msg.epoch > m.epoch {
      var tek, fhek := kw.unwrap(kek.value, msg.wrappedTek), kw.unwrap(kek.value, msg.wrappedFhek);
      if tek.None? || fhek.None? {
        TransientOwned(st, ms, tek);
        TransientOwned(Transient(st, tek), ms, fhek);
      } else {
        HeldIsLive(st, ms, i, Tek);
        BothIsTwoPuts(st, m, tek.value, fhek.value);
        TwoPutsOwned(st, ms, i, tek, fhek, msg.epoch);
        hide Put, Destroy, Create;
      }
    }
  }

  lemma ZeroizeOwned(st: Store, ms: seq<Manager>, i: nat)
    requires Owned(st, ms) && i < |ms|
    ensures Owned(Destroy(Destroy(Destroy(st, ms[i].kek), ms[i].tek), ms[i].fhek), ms[i := NO_HANDLES])
  {
    hide Owned, Destroy;
    var m := ms[i];
    var m1 := m.With(Kek, None);
    var m2 := m1.With(Tek, None);
    var m3 := m2.With(Fhek, None);
    ClearOwned(st, ms, i, Kek);
    ClearOwned(Destroy(st, m.kek), ms[i := m1], i, Tek);
    assert ms[i := m1][i := m2] == ms[i := m2];
    ClearOwned(Destroy(Destroy(st, m.kek), m.tek), ms[i := m2], i, Fhek);
    assert ms[i := m2][i := m3] == ms[i := m3];
    EpochOwned(Destroy(Destroy(Destroy(st, m.kek), m.tek), m.fhek), ms[i := m3], i, 0);
    assert ms[i := m3][i := NO_HANDLES] == ms[i := NO_HANDLES];
  }

  // --------------------------------------------------- handles refine key values

  /** What one operation does to the keys behind the handles: the acting manager's keys change as in `Act`, and every
      other manager keeps its own. */
  lemma ApplyRefines(kw: KeyWrap, st: Store, ms: seq<Manager>, i: nat, op: Op)
    requires Owned(st, ms) && i < |ms|
    ensures var (st', m') := Apply(kw, st, ms[i], op);
            && KeysOf(st', m') == Act(kw, KeysOf(st, ms[i]), op)
            && forall j :: 0 <= j < |ms| && j != i ==> KeysOf(st', ms[j]) == KeysOf(st, ms[j])
  {
    var m := ms[i];
    assert At(ms, Place(i, Kek)) == m.kek && At(ms, Place(i, Tek)) == m.tek && At(ms, Place(i, Fhek)) == m.fhek;
    assert st.next !in st.objects && st.next + 1 !in st.objects;
    var st' := Apply(kw, st, m, op).0;
    ApplyRefinesOwn(kw, st, m, op);
    forall j | 0 <= j < |ms| && j != i ensures KeysOf(st', ms[j]) == KeysOf(st, ms[j]) {
      OthersKept(kw, st, ms, i, op, Place(j, Kek));
      OthersKept(kw, st, ms, i, op, Place(j, Tek));
      OthersKept(kw, st, ms, i, op, Place(j, Fhek));
    }
  }

  lemma ApplyRefinesOwn(kw: KeyWrap, st: Store, m: Manager, op: Op)
    requires forall k: Slot :: m.Get(k).Some? ==> m.Get(k).value in st.objects
    requires st.next !in st.objects && st.next + 1 !in st.objects
    requires forall k: Slot, l: Slot :: m.Get(k).Some? && m.Get(k) == m.Get(l) ==> k == l
    ensures KeysOf(Apply(kw, st, m, op).0, Apply(kw, st, m, op).1) == Act(kw, KeysOf(st, m), op)
  {
    assert m.Get(Kek) == m.kek && m.Get(Tek) == m.tek && m.Get(Fhek) == m.fhek;
    assert KeyAt(st, m.kek).Some? <==> m.kek.Some?;
  }

  lemma OthersKept(kw: KeyWrap, st: Store, ms: seq<Manager>, i: nat, op: Op, p: Place)
    requires Owned(st, ms) && i < |ms| && p.manager < |ms| && p.manager != i
    ensures KeyAt(Apply(kw, st, ms[i], op).0, At(ms, p)) == KeyAt(st, At(ms, p))
  {
    var m := ms[i];
    assert At(ms, Place(i, Kek)) == m.kek && At(ms, Place(i, Tek)) == m.tek && At(ms, Place(i, Fhek)) == m.fhek;
    assert st.next !in st.objects && st.next + 1 !in st.objects;
    hide Owned, Accounted, KeysOf;
  }

  // --------------------------------------------------------------------- runs

  datatype Call = Call(manager: nat, op: Op)

  /** Calls on any of several managers sharing one engine; calls on no manager are ignored. */
  function RunCalls(kw: KeyWrap, n: nat, calls: seq<Call>): (r: (Store, seq<Manager>))
    ensures |r.1| == n
  {
    if calls == [] then (NO_OBJECTS, seq(n, _ => NO_HANDLES))
    else
      var (st, ms) := RunCalls(kw, n, calls[..|calls| - 1]);
      var c := calls[|calls| - 1];
      if c.manager >= n then (st, ms)
      else
        var (st', m') := Apply(kw, st, ms[c.manager], c.op);
        (st', ms[c.manager := m'])
  }

  /** The operations one manager is asked to do. */
  function OpsOf(calls: seq<Call>, i: nat): seq<Op> {
    if calls == [] then []
    else OpsOf(calls[..|calls| - 1], i) + if calls[|calls| - 1].manager == i then [calls[|calls| - 1].op] else []
  }

  /** Over every run, failed imports and half-failed rekeys included: the live key objects are exactly the handles held,
      each by one slot of one manager; all others have been destroyed, each once; and each manager's keys are what its
      own operations alone make of them. */
  lemma {:induction false} RunOwned(kw: KeyWrap, n: nat, calls: seq<Call>)
    ensures var (st, ms) := RunCalls(kw, n, calls);
            Owned(st, ms) && forall i :: 0 <= i < n ==> KeysOf(st, ms[i]) == Rekeying.Run(kw, NO_KEYS, OpsOf(calls, i))
  {
    if calls == [] {
      StartOwned(n);
    } else {
      var init, c := calls[..|calls| - 1], calls[|calls| - 1];
      RunOwned(kw, n, init);
      var (st, ms) := RunCalls(kw, n, init);
      hide Owned, Apply, Act, KeysOf;
      if c.manager < n {
        ApplyOwned(kw, st, ms, c.manager, c.op);
        ApplyRefines(kw, st, ms, c.manager, c.op);
      }
      forall i | 0 <= i < n
        ensures KeysOf(RunCalls(kw, n, calls).0, RunCalls(kw, n, calls).1[i]) == Rekeying.Run(kw, NO_KEYS, OpsOf(calls, i))
      {
        if i == c.manager {
          RunOne(kw, OpsOf(init, i), c.op);
        } else {
          assert OpsOf(calls, i) == OpsOf(init, i);
        }
      }
    }
  }

  /** What each of several managers holds through its handles, read off its own operations alone. */
  lemma HeldFromHistory(kw: KeyWrap, n: nat, calls: seq<Call>, i: nat)
    requires i < n
    ensures var (st, ms) := RunCalls(kw, n, calls); var ops := OpsOf(calls, i);
            && KeyAt(st, ms[i].kek) == KekOf(ops) && KeyAt(st, ms[i].tek) == TekOf(kw, ops)
            && KeyAt(st, ms[i].fhek) == FhekOf(kw, ops) && ms[i].epoch == EpochOf(kw, ops)
  {
    RunOwned(kw, n, calls);
    KeysFromHistory(kw, OpsOf(calls, i));
    hide RunCalls, OpsOf, Owned, KekOf, TekOf, FhekOf, EpochOf;
  }

  lemma RunOne(kw: KeyWrap, ops: seq<Op>, op: Op)
    ensures Rekeying.Run(kw, NO_KEYS, ops + [op]) == Act(kw, Rekeying.Run(kw, NO_KEYS, ops), op)
  {
    assert (ops + [op])[..|ops|] == ops;
  }

  lemma StartOwned(n: nat)
    ensures Owned(NO_OBJECTS, seq(n, _ => NO_HANDLES))
    ensures KeysOf(NO_OBJECTS, NO_HANDLES) == NO_KEYS
  {
    var ms := seq(n, _ => NO_HANDLES);
    assert forall p :: At(ms, p) == None;
  }

  /** Zeroization leaves a manager no handle, and none of its key objects alive. */
  lemma ZeroizeLeavesNothing(kw: KeyWrap, st: Store, ms: seq<Manager>, i: nat)
    requires Owned(st, ms) && i < |ms|
    ensures var (st', m') := Apply(kw, st, ms[i], Zeroize);
            && m' == NO_HANDLES
            && forall k: Slot :: ms[i].Get(k).Some? ==> ms[i].Get(k).value !in st'.objects && ms[i].Get(k).value in st'.destroyed
  {
    var m, st' := ms[i], Apply(kw, st, ms[i], Zeroize).0;
    forall k: Slot | m.Get(k).Some? ensures m.Get(k).value !in st'.objects && m.Get(k).value in st'.destroyed {
      match k case Kek => case Tek => case Fhek =>
    }
  }
}
