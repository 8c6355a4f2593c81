/** Types shared by every component. */
module Common {
  datatype Option<+T> = None | Some(value: T)

  const U32_LIMIT: nat := 0x1_0000_0000

  /** An unsigned 32-bit integer of the source. */
  type U32 = n: nat | n < U32_LIMIT witness 0

  /** An unsigned 8-bit integer of the source. */
  type Byte = n: nat | n < 256 witness 0

  type Bytes = seq<Byte>

  /** A complex baseband sample. */
  datatype Sample = Sample(re: real, im: real)

  /** `++x` on an unsigned 32-bit counter. */
  function Increment(n: U32): (r: U32)
    ensures n + 1 < U32_LIMIT ==> r == n + 1
    ensures n + 1 == U32_LIMIT ==> r == 0
  {
    (n + 1) % U32_LIMIT
  }

  function Last<T>(s: seq<T>): T
    requires s != []
  {
    s[|s| - 1]
  }

  function Init<T>(s: seq<T>): seq<T>
    requires s != []
  {
    s[..|s| - 1]
  }

  predicate NoRepeats<T(==)>(s: seq<T>) {
    forall i, j :: 0 <= i < j < |s| ==> s[i] != s[j]
  }

  lemma SmallestExists(s: set<U32>) returns (m: U32)
    requires s != {}
    ensures m in s && forall x :: x in s ==> m <= x
    decreases |s|
  {
    m :| m in s;
    var rest := s - {m};
    if rest != {} {
      var r := SmallestExists(rest);
      assert forall x :: x in s ==> x == m || x in rest;
      if r < m { m := r; }
    } else {
      assert forall x :: x in s ==> x in rest || x == m;
    }
  }

  lemma HasSmallest(s: set<U32>)
    requires s != {}
    ensures exists m :: m in s && forall x :: x in s ==> m <= x
  {
    var m := SmallestExists(s);
  }

  /** First key of an ordered map. */
  function Smallest(s: set<U32>): (m: U32)
    requires s != {}
    ensures m in s && forall x :: x in s ==> m <= x
  {
    HasSmallest(s);
    var m :| m in s && forall x :: x in s ==> m <= x;
    m
  }

  /** A 32-bit integer from its four bytes. */
  lemma Digits(v: nat)
    ensures v == v / 0x100_0000 * 0x100_0000 + v / 0x1_0000 % 256 * 0x1_0000 + v / 256 % 256 * 256 + v % 256
  {
    assert v / 256 / 256 == v / 0x1_0000;
    assert v / 0x1_0000 / 256 == v / 0x100_0000;
  }
}
