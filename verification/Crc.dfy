/**
 CRC-32. The specification is the table-driven form of section 8 of RFC 1952; the
 kernel's bit-at-a-time loop is shown to compute it for every input.
 */
module Crc {

  type Byte = b: nat | b < 256

  const POLYNOMIAL: bv32 := 0xedb8_8320

  function Xor(x: bv32, y: bv32): bv32 {
    x ^ y
  }

  function Half(c: bv32): bv32 {
    c >> 1
  }

  function HighBytes(c: bv32): bv32 {
    c >> 8
  }

  function LowByte(c: bv32): bv32 {
    c & 0xff
  }

  /** A byte in the low bits of a word. */
  function Bits(b: Byte): bv32 {
    (b as bv8) as bv32
  }

  /** One bit of long division. */
  function Round(c: bv32): bv32 {
    if c & 1 == 1 then Xor(POLYNOMIAL, Half(c)) else Half(c)
  }

  function Rounds(c: bv32, n: nat): bv32
    decreases n
  {
    if n == 0 then c else Rounds(Round(c), n - 1)
  }

  /** The table, indexed by a low byte: eight rounds. */
  function TableEntry(n: bv32): bv32 {
    Rounds(n, 8)
  }

  /** One byte of the table-driven update. */
  function TableStep(c: bv32, b: Byte): bv32 {
    Xor(TableEntry(LowByte(Xor(c, Bits(b)))), HighBytes(c))
  }

  function UpdateCrc(c: bv32, bytes: seq<Byte>): bv32
    decreases |bytes|
  {
    if bytes == [] then c else UpdateCrc(TableStep(c, bytes[0]), bytes[1..])
  }

  function Crc32(bytes: seq<Byte>): (r: nat)
    ensures r < 0x1_0000_0000
  {
    Xor(UpdateCrc(0xffff_ffff, bytes), 0xffff_ffff) as nat
  }

  lemma EightRounds(c: bv32)
    ensures Rounds(c, 8) == Round(Round(Round(Round(Round(Round(Round(Round(c))))))))
  {
    hide Round;
    assert Rounds(c, 8) == Rounds(Round(Round(Round(Round(c)))), 4);
  }

  lemma UpdateOne(c: bv32, b: Byte, rest: seq<Byte>)
    ensures UpdateCrc(c, [b] + rest) == UpdateCrc(TableStep(c, b), rest)
  {
    hide TableStep;
    assert ([b] + rest)[1..] == rest;
  }

  lemma CheckFirst()
    ensures TableStep(0xffff_ffff, 0x31) == 0x7c23_1048
    ensures TableStep(0x7c23_1048, 0x32) == 0xb0ac_bb32
    ensures TableStep(0xb0ac_bb32, 0x33) == 0x77b7_9c2d
    ensures TableStep(0x77b7_9c2d, 0x34) == 0x641c_1f5c
    ensures TableStep(0x641c_1f5c, 0x35) == 0x340a_c5e3
  {
    hide Rounds;
    EightRounds(0xce);
    EightRounds(0x7a);
    EightRounds(0x01);
    EightRounds(0x19);
    EightRounds(0x69);
  }

  lemma CheckLast()
    ensures TableStep(0x340a_c5e3, 0x36) == 0xf68d_2c9e
    ensures TableStep(0xf68d_2c9e, 0x37) == 0xaffc_9660
    ensures TableStep(0xaffc_9660, 0x38) == 0x651f_2550
    ensures TableStep(0x651f_2550, 0x39) == 0x340b_c6d9
  {
    hide Rounds;
    EightRounds(0xd5);
    EightRounds(0xa9);
    EightRounds(0x58);
    EightRounds(0x69);
  }

  /** The published check value: the checksum of the nine digits from 1 to 9. */
  lemma CheckValue()
    ensures Crc32([0x31, 0x32, 0x33, 0x34, 0x35, 0x36, 0x37, 0x38, 0x39]) == 0xcbf4_3926
  {
    CheckFirst();
    CheckLast();
    hide TableStep;
    UpdateOne(0xffff_ffff, 0x31, [0x32, 0x33, 0x34, 0x35, 0x36, 0x37, 0x38, 0x39]);
    UpdateOne(0x7c23_1048, 0x32, [0x33, 0x34, 0x35, 0x36, 0x37, 0x38, 0x39]);
    UpdateOne(0xb0ac_bb32, 0x33, [0x34, 0x35, 0x36, 0x37, 0x38, 0x39]);
    UpdateOne(0x77b7_9c2d, 0x34, [0x35, 0x36, 0x37, 0x38, 0x39]);
    UpdateOne(0x641c_1f5c, 0x35, [0x36, 0x37, 0x38, 0x39]);
    UpdateOne(0x340a_c5e3, 0x36, [0x37, 0x38, 0x39]);
    UpdateOne(0xf68d_2c9e, 0x37, [0x38, 0x39]);
    UpdateOne(0xaffc_9660, 0x38, [0x39]);
    UpdateOne(0x651f_2550, 0x39, []);
  }

  // ------------------------------------------------------- why the two forms agree

  /** The masked form of one round used by the kernel. */
  lemma MaskedRound(c: bv32)
    ensures (c >> 1) ^ (POLYNOMIAL & (0 - (c & 1))) == Round(c)
  {
    if c & 1 == 1 {
      assert 0 - (c & 1) == 0xffff_ffff;
    } else {
      assert c & 1 == 0;
    }
  }

  lemma HalfXor(x: bv32, y: bv32)
    ensures Half(Xor(x, y)) == Xor(Half(x), Half(y))
  {
  }

  lemma LowXor(x: bv32, y: bv32)
    ensures Xor(x, y) & 1 == (x & 1) ^ (y & 1)
    ensures (x & 1 == 0 || x & 1 == 1) && (y & 1 == 0 || y & 1 == 1)
  {
  }

  lemma XorAssoc(a: bv32, b: bv32, c: bv32)
    ensures Xor(Xor(a, b), c) == Xor(a, Xor(b, c))
  {
  }

  lemma XorComm(a: bv32, b: bv32)
    ensures Xor(a, b) == Xor(b, a)
  {
  }

  lemma XorCancel(p: bv32, a: bv32)
    ensures Xor(p, Xor(p, a)) == a
  {
  }

  lemma XorMoves(p: bv32, a: bv32, b: bv32)
    ensures Xor(Xor(p, a), b) == Xor(p, Xor(a, b)) && Xor(a, Xor(p, b)) == Xor(p, Xor(a, b))
    ensures Xor(Xor(p, a), Xor(p, b)) == Xor(a, b)
  {
    hide Xor;
    XorAssoc(p, a, b);
    XorAssoc(a, p, b);
    XorComm(a, p);
    XorAssoc(p, a, Xor(p, b));
    XorCancel(p, Xor(a, b));
  }

  /** Division is linear. */
  lemma RoundLinear(x: bv32, y: bv32)
    ensures Round(Xor(x, y)) == Xor(Round(x), Round(y))
  {
    hide Xor, Half;
    HalfXor(x, y);
    LowXor(x, y);
    XorMoves(POLYNOMIAL, Half(x), Half(y));
  }

  lemma {:induction false} RoundsLinear(x: bv32, y: bv32, n: nat)
    ensures Rounds(Xor(x, y), n) == Xor(Rounds(x, n), Rounds(y, n))
    decreases n
  {
    hide Round, Xor;
    if 0 < n {
      RoundLinear(x, y);
      RoundsLinear(Round(x), Round(y), n - 1);
    }
  }

  function Halves(c: bv32, n: nat): bv32
    decreases n
  {
    if n == 0 then c else Halves(Half(c), n - 1)
  }

  /** The lowest `n` bits are clear. */
  predicate Clear(c: bv32, n: nat)
    decreases n
  {
    n == 0 || (c & 1 == 0 && Clear(Half(c), n - 1))
  }

  /** Rounds on a word whose low bits are clear only shift it. */
  lemma {:induction false} ClearRounds(c: bv32, n: nat)
    requires Clear(c, n)
    ensures Rounds(c, n) == Halves(c, n)
    decreases n
  {
    hide Half;
    if 0 < n {
      ClearRounds(Half(c), n - 1);
    }
  }

  lemma EightClear(c: bv32)
    requires c & 0xff == 0
    ensures Clear(c, 8)
  {
    assert Half(c) & 0x7f == 0;
    FourClear(Half(Half(Half(Half(c)))));
    assert Clear(Half(Half(Half(c))), 5);
    assert Clear(Half(Half(c)), 6);
    assert Clear(Half(c), 7);
  }

  lemma FourClear(c: bv32)
    requires c & 0x0f == 0
    ensures Clear(c, 4)
  {
    assert Clear(Half(Half(Half(c))), 1);
    assert Clear(Half(Half(c)), 2);
    assert Clear(Half(c), 3);
  }

  lemma {:induction false} HalvesAdd(c: bv32, m: nat, n: nat)
    ensures Halves(c, m + n) == Halves(Halves(c, m), n)
    decreases m
  {
    hide Half;
    if 0 < m {
      HalvesAdd(Half(c), m - 1, n);
    }
  }

  function Quarter(c: bv32): bv32 {
    c >> 2
  }

  lemma TwoHalves(c: bv32)
    ensures Halves(c, 2) == Quarter(c)
  {
    assert Halves(Half(c), 1) == Halves(Half(Half(c)), 0);
  }

  lemma FourQuarters(c: bv32)
    ensures Quarter(Quarter(Quarter(Quarter(c)))) == HighBytes(c)
  {
  }

  lemma EightHalves(c: bv32)
    ensures Halves(c, 8) == HighBytes(c)
  {
    hide Half, Halves, Quarter, HighBytes;
    var q := Quarter(c);
    var r := Quarter(q);
    HalvesAdd(c, 2, 6);
    HalvesAdd(q, 2, 4);
    HalvesAdd(r, 2, 2);
    TwoHalves(c);
    TwoHalves(q);
    TwoHalves(r);
    TwoHalves(Quarter(r));
    FourQuarters(c);
  }

  /** The bits above the low byte. */
  function Upper(c: bv32): bv32 {
    c & 0xffff_ff00
  }

  lemma UpperRounds(c: bv32)
    ensures Rounds(Upper(c), 8) == HighBytes(c)
  {
    hide Round, Rounds, Halves, Clear;
    EightClear(Upper(c));
    ClearRounds(Upper(c), 8);
    EightHalves(Upper(c));
  }

  lemma SplitByte(x: bv32)
    ensures x == Xor(LowByte(x), Upper(x))
  {
  }

  /** A byte reaches only the low bits. */
  lemma ByteIsLow(c: bv32, b: Byte)
    ensures Upper(Xor(c, Bits(b))) == Upper(c)
  {
  }

  /** Eight rounds with a byte mixed in are one step of the table. */
  lemma StepIsTableStep(c: bv32, b: Byte)
    ensures Rounds(Xor(c, Bits(b)), 8) == TableStep(c, b)
  {
    hide Round, Rounds, Bits, Xor, LowByte, Upper, HighBytes;
    var x := Xor(c, Bits(b));
    SplitByte(x);
    RoundsLinear(LowByte(x), Upper(x), 8);
    ByteIsLow(c, b);
    UpperRounds(c);
  }

  lemma {:induction false} UpdateAppend(c: bv32, bytes: seq<Byte>, b: Byte)
    ensures UpdateCrc(c, bytes + [b]) == TableStep(UpdateCrc(c, bytes), b)
    decreases |bytes|
  {
    hide TableStep;
    if bytes == [] {
      assert [b][1..] == [];
    } else {
      assert (bytes + [b])[1..] == bytes[1..] + [b];
      UpdateAppend(TableStep(c, bytes[0]), bytes[1..], b);
    }
  }

  /** The inner loop: eight shifts, no table. */
  method EightShifts(c: bv32) returns (r: bv32)
    ensures r == Rounds(c, 8)
  {
    hide Round;
    r := c;
    var k := 0;
    while k < 8
      invariant 0 <= k <= 8 && Rounds(r, 8 - k) == Rounds(c, 8)
    {
      var mask := 0 - (r & 1);
      MaskedRound(r);
      r := (r >> 1) ^ (POLYNOMIAL & mask);
      k := k + 1;
    }
  }

  /** The kernel's bitwise loop over the bytes. */
  method ComputeCrc32(bytes: seq<Byte>) returns (r: nat)
    ensures r == Crc32(bytes)
  {
    hide Round, Rounds, TableStep, Xor, Bits;
    var crc: bv32 := 0xffff_ffff;
    var i := 0;
    while i < |bytes|
      invariant 0 <= i <= |bytes| && crc == UpdateCrc(0xffff_ffff, bytes[..i])
    {
      StepIsTableStep(crc, bytes[i]);
      UpdateAppend(0xffff_ffff, bytes[..i], bytes[i]);
      assert bytes[..i + 1] == bytes[..i] + [bytes[i]];
      crc := EightShifts(Xor(crc, Bits(bytes[i])));
      i := i + 1;
    }
    assert bytes[..i] == bytes;
    return Xor(crc, 0xffff_ffff) as nat;
  }
}
