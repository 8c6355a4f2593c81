/** HopSequencer: hop frequencies from a block cipher over (slot, frame, hop index, attempt), with a blacklist. */
module Hopping {
  import opened Common

  const U64_LIMIT: nat := 0x1_0000_0000_0000_0000
  type Frequency = n: nat | n < U64_LIMIT witness 0

  type Block = b: seq<Byte> | |b| == 16 witness [0, 0, 0, 0, 0, 0, 0, 0, 0, 0, 0, 0, 0, 0, 0, 0]

  const KEY_SIZE: nat := 32
  const MAX_ATTEMPTS: nat := 10

  /** The encryption of one block under a 32-byte key. */
  type BlockCipher = (Bytes, Block) -> Block

  datatype Band = Band(minFreq: Frequency, maxFreq: Frequency, spacing: Frequency)

  datatype Error = BadKey | EmptyBand | ZeroSpacing | BandTooNarrow

  function Check(key: Bytes, band: Band): Option<Error> {
    if |key| != KEY_SIZE then Some(BadKey)
    else if band.minFreq >= band.maxFreq then Some(EmptyBand)
    else if band.spacing == 0 then Some(ZeroSpacing)
    else if (band.maxFreq - band.minFreq) / band.spacing == 0 then Some(BandTooNarrow)
    else None
  }

  predicate Usable(band: Band) {
    band.minFreq < band.maxFreq && 0 < band.spacing <= band.maxFreq - band.minFreq
  }

  /** What the constructor's checks let through, and which one fails first. */
  lemma ChecksAreExact(key: Bytes, band: Band)
    ensures Check(key, band) == None <==> |key| == KEY_SIZE && Usable(band)
    ensures Check(key, band) == Some(BadKey) <==> |key| != KEY_SIZE
    ensures Check(key, band) == Some(EmptyBand) <==> |key| == KEY_SIZE && band.maxFreq <= band.minFreq
    ensures Check(key, band) == Some(ZeroSpacing) <==> |key| == KEY_SIZE && band.minFreq < band.maxFreq && band.spacing == 0
    ensures Check(key, band) == Some(BandTooNarrow) <==>
              |key| == KEY_SIZE && band.minFreq < band.maxFreq && band.maxFreq - band.minFreq < band.spacing
  {
    if band.minFreq < band.maxFreq && band.spacing > 0 {
      var w, s: nat := band.maxFreq - band.minFreq, band.spacing;
      if w < s { SmallQuotient(w, s); } else { LargeQuotient(w, s); }
    }
  }

  lemma SmallQuotient(w: nat, s: nat)
    requires w < s
    ensures w / s == 0
  {
  }

  lemma LargeQuotient(w: nat, s: nat)
    requires 0 < s <= w
    ensures w / s > 0
  {
    assert w == s * (w / s) + w % s;
  }

  function Channels(band: Band): (n: nat)
    requires Usable(band)
    ensures n > 0 && n * band.spacing <= band.maxFreq - band.minFreq
  {
    LargeQuotient(band.maxFreq - band.minFreq, band.spacing);
    (band.maxFreq - band.minFreq) / band.spacing
  }

  function LittleEndian4(n: U32): (b: Bytes)
    ensures |b| == 4
  {
    [n % 256, n / 256 % 256, n / 0x1_0000 % 256, n / 0x100_0000]
  }

  /** [slot][0 0 0][frame, little endian][hop index][0 x 6][attempt] */
  function InputBlock(slot: Byte, frame: U32, hopIndex: Byte, attempt: Byte): Block {
    [slot, 0, 0, 0] + LittleEndian4(frame) + [hopIndex, 0, 0, 0, 0, 0, 0, attempt]
  }

  /** No two queries share a cipher input. */
  lemma InputBlockInjective(s1: Byte, f1: U32, h1: Byte, a1: Byte, s2: Byte, f2: U32, h2: Byte, a2: Byte)
    requires InputBlock(s1, f1, h1, a1) == InputBlock(s2, f2, h2, a2)
    ensures s1 == s2 && f1 == f2 && h1 == h2 && a1 == a2
  {
    var b1, b2 := InputBlock(s1, f1, h1, a1), InputBlock(s2, f2, h2, a2);
    assert b1[0] == s1 && b2[0] == s2 && b1[8] == h1 && b2[8] == h2 && b1[15] == a1 && b2[15] == a2;
    assert b1[4..8] == LittleEndian4(f1) && b2[4..8] == LittleEndian4(f2);
    SameFrame(f1, f2);
  }

  lemma SameFrame(m: U32, n: U32)
    requires LittleEndian4(m) == LittleEndian4(n)
    ensures m == n
  {
    var a, b := LittleEndian4(m), LittleEndian4(n);
    assert a[0] == b[0] && a[1] == b[1] && a[2] == b[2] && a[3] == b[3];
    Digits(m);
    Digits(n);
  }

  /** The first `|b|` bytes read as a little-endian integer. */
  function FromLittleEndian(b: Bytes): nat {
    if b == [] then 0 else b[0] + 256 * FromLittleEndian(b[1..])
  }

  datatype Sequencer = Sequencer(encrypt: BlockCipher, key: Bytes, band: Band)

  function ChannelIndex(q: Sequencer, slot: Byte, frame: U32, hopIndex: Byte, attempt: Byte): (i: nat)
    requires Usable(q.band)
    ensures i < Channels(q.band)
  {
    FromLittleEndian(q.encrypt(q.key, InputBlock(slot, frame, hopIndex, attempt))[..8]) % Channels(q.band)
  }

  /** The value of the first eight bytes, each worth 256 times the one before it. */
  function Weighed(x: Block): nat {
    x[0] as int + 0x100 * x[1] as int + 0x1_0000 * x[2] as int + 0x100_0000 * x[3] as int
    + 0x1_0000_0000 * x[4] as int + 0x100_0000_0000 * x[5] as int + 0x1_0000_0000_0000 * x[6] as int
    + 0x100_0000_0000_0000 * x[7] as int
  }

  /** The cipher input and the channel picked, in weights of bytes: byte 0 is the slot, bytes 4 to 7 the frame number,
      least significant first, byte 8 the hop index, byte 15 the attempt, and all others are 0; the channel is the value of
      the first eight bytes of the output, least significant first, modulo the number of channels. */
  lemma ChannelByWeights(q: Sequencer, slot: Byte, frame: U32, hopIndex: Byte, attempt: Byte)
    requires Usable(q.band)
    ensures var b := InputBlock(slot, frame, hopIndex, attempt);
            && b[0] == slot && b[1] == b[2] == b[3] == 0
            && b[4] as int + 256 * b[5] as int + 0x1_0000 * b[6] as int + 0x100_0000 * b[7] as int == frame
            && b[8] == hopIndex && b[9] == b[10] == b[11] == b[12] == b[13] == b[14] == 0 && b[15] == attempt
    ensures var x := q.encrypt(q.key, InputBlock(slot, frame, hopIndex, attempt));
            ChannelIndex(q, slot, frame, hopIndex, attempt) ==
            Weighed(x) % ((q.band.maxFreq - q.band.minFreq) / q.band.spacing)
    ensures Candidate(q, slot, frame, hopIndex, attempt) ==
            q.band.minFreq + ChannelIndex(q, slot, frame, hopIndex, attempt) * q.band.spacing
  {
    Digits(frame);
    EightBytes(q.encrypt(q.key, InputBlock(slot, frame, hopIndex, attempt)));
  }

  lemma EightBytes(x: Block)
    ensures FromLittleEndian(x[..8]) == Weighed(x)
  {
    var b := x[..8];
    assert b[1..][1..] == b[2..] && b[2..][1..] == b[3..] && b[3..][1..] == b[4..] && b[4..][1..] == b[5..];
    assert b[5..][1..] == b[6..] && b[6..][1..] == b[7..] && b[7..][1..] == b[8..] == [];
    assert FromLittleEndian(b[6..]) == x[6] + 256 * FromLittleEndian(b[7..]);
    assert FromLittleEndian(b[4..]) == x[4] + 256 * FromLittleEndian(b[5..]);
    assert FromLittleEndian(b[2..]) == x[2] + 256 * FromLittleEndian(b[3..]);
  }

  lemma BandArithmetic(band: Band, i: nat)
    requires Usable(band) && i < Channels(band)
    ensures i * band.spacing < U64_LIMIT && band.minFreq + i * band.spacing < band.maxFreq
  {
    var n, s := Channels(band), band.spacing;
    hide Channels;
    StepBelow(i, n, s);
  }

  lemma StepBelow(i: nat, n: nat, s: nat)
    requires i < n
    ensures i * s + s <= n * s
  {
    var d: nat := n - 1 - i;
    assert n * s == i * s + s + d * s;
  }

  /** The frequency proposed at one attempt: on the grid, in the band, computed without 64-bit overflow. */
  function Candidate(q: Sequencer, slot: Byte, frame: U32, hopIndex: Byte, attempt: Byte): (f: Frequency)
    requires Usable(q.band)
    ensures q.band.minFreq <= f < q.band.maxFreq
    ensures exists i :: 0 <= i < Channels(q.band) && f == q.band.minFreq + i * q.band.spacing
  {
    var i := ChannelIndex(q, slot, frame, hopIndex, attempt);
    BandArithmetic(q.band, i);
    q.band.minFreq + i * q.band.spacing
  }

  /** The attempt `get_hop_frequency` settles for, trying from `attempt` on. */
  function Settled(q: Sequencer, slot: Byte, frame: U32, hopIndex: Byte, bad: set<Frequency>, attempt: nat): (a: nat)
    requires Usable(q.band) && attempt <= MAX_ATTEMPTS
    ensures attempt <= a <= MAX_ATTEMPTS
    ensures forall k :: attempt <= k < a ==> Candidate(q, slot, frame, hopIndex, k) in bad
    ensures a < MAX_ATTEMPTS ==> Candidate(q, slot, frame, hopIndex, a) !in bad
    decreases MAX_ATTEMPTS - attempt
  {
    if attempt == MAX_ATTEMPTS || Candidate(q, slot, frame, hopIndex, attempt) !in bad then attempt
    else Settled(q, slot, frame, hopIndex, bad, attempt + 1)
  }

  class HopSequencer {
    const encrypt: BlockCipher
    const key: Bytes
    const band: Band
    var blacklist: set<Frequency>

    function View(): Sequencer {
      Sequencer(encrypt, key, band)
    }

    constructor (encrypt: BlockCipher, key: Bytes, band: Band)
      requires Check(key, band) == None
      ensures this.encrypt == encrypt && this.key == key && this.band == band && blacklist == {}
    {
      this.encrypt, this.key, this.band := encrypt, key, band;
      blacklist := {};
    }

    /** Construction with the checks of the source: an error instead of an exception. */
    static method Make(encrypt: BlockCipher, key: Bytes, band: Band) returns (s: HopSequencer?, e: Option<Error>)
      ensures e == Check(key, band) && (s == null <==> e.Some?)
      ensures s != null ==> fresh(s) && Usable(s.band) && s.View() == Sequencer(encrypt, key, band) && s.blacklist == {}
    {
      e := Check(key, band);
      s := null;
      if e.None? {
        ChecksAreExact(key, band);
        s := new HopSequencer(encrypt, key, band);
      }
    }

    /** The first candidate not blacklisted among attempts 0 to 10, else the candidate of attempt 10. */
    method GetHopFrequency(slot: Byte, frame: U32, hopIndex: Byte) returns (freq: Frequency)
      requires Usable(band)
      ensures exists a :: 0 <= a <= MAX_ATTEMPTS && freq == Candidate(View(), slot, frame, hopIndex, a)
                && (forall k :: 0 <= k < a ==> Candidate(View(), slot, frame, hopIndex, k) in blacklist)
                && (a < MAX_ATTEMPTS ==> freq !in blacklist)
      ensures freq == HopFrequency(View(), slot, frame, hopIndex, blacklist)
    {
      freq := Candidate(View(), slot, frame, hopIndex, 0);
      if blacklist == {} {
        return;
      }
      var attempt := 1;
      while attempt <= MAX_ATTEMPTS
        invariant 1 <= attempt <= MAX_ATTEMPTS + 1
        invariant freq == Candidate(View(), slot, frame, hopIndex, attempt - 1)
        invariant forall k :: 0 <= k < attempt - 1 ==> Candidate(View(), slot, frame, hopIndex, k) in blacklist
        invariant Settled(View(), slot, frame, hopIndex, blacklist, 0)
               == Settled(View(), slot, frame, hopIndex, blacklist, attempt - 1)
      {
        if freq !in blacklist {
          return;
        }
        freq := Candidate(View(), slot, frame, hopIndex, attempt);
        attempt := attempt + 1;
      }
    }

    method BlacklistFrequency(f: Frequency)
      modifies this
      ensures blacklist == old(blacklist) + {f}
    {
      blacklist := blacklist + {f};
    }

    method ClearBlacklist()
      modifies this
      ensures blacklist == {}
    {
      blacklist := {};
    }
  }

  function HopFrequency(q: Sequencer, slot: Byte, frame: U32, hopIndex: Byte, bad: set<Frequency>): Frequency
    requires Usable(q.band)
  {
    Candidate(q, slot, frame, hopIndex, Settled(q, slot, frame, hopIndex, bad, 0))
  }

  /** Enlarging the blacklist moves a hop only when its old frequency is newly blacklisted; and if the new frequency is
      still blacklisted, then every one of the ten attempts before it was. */
  lemma LargerBlacklist(q: Sequencer, slot: Byte, frame: U32, hopIndex: Byte, bad: set<Frequency>, worse: set<Frequency>)
    requires Usable(q.band) && bad <= worse
    ensures var f, f' := HopFrequency(q, slot, frame, hopIndex, bad), HopFrequency(q, slot, frame, hopIndex, worse);
            && (f' != f ==> f in worse && f !in bad)
            && (f' in worse ==> forall k :: 0 <= k <= MAX_ATTEMPTS ==> Candidate(q, slot, frame, hopIndex, k) in worse)
  {
    var a, b := Settled(q, slot, frame, hopIndex, bad, 0), Settled(q, slot, frame, hopIndex, worse, 0);
    assert a <= b;
  }
}
