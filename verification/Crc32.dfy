/** The CRC-32 of src/net/Crc32.h: the bit-serial register of section 8 of RFC 1952 as the reference,
    the table-driven loop as the implementation, and what the checksum detects. */
module Crc32 {
  import opened Abi
  import Wire = NetProtocol

  /** A 32-bit register. Wrapping the bits keeps the algebra below free of bit-level reasoning. */
  datatype Reg = R(bits: bv32)

  const INITIAL := R(0xFFFF_FFFF)

  function XorBits(a: bv32, b: bv32): bv32 { a ^ b }
  function Xor(a: Reg, b: Reg): Reg { R(XorBits(a.bits, b.bits)) }
  predicate Odd(a: Reg) { a.bits & 1 == 1 }
  function Half(a: Reg): Reg { R(a.bits >> 1) }
  function LowByte(a: Reg): Reg { R(a.bits & 0xFF) }
  function HighBytes(a: Reg): Reg { R(a.bits & 0xFFFF_FF00) }
  function Shr8(a: Reg): Reg { R(a.bits >> 8) }
  function Shl8(a: Reg): Reg { R(a.bits << 8) }
  function Of(b: byte): Reg { R(b as bv32) }

  /** One bit through the register; 0xEDB88320 is the reflected generator polynomial. */
  function StepBits(c: bv32): bv32 {
    if c & 1 == 1 then 0xEDB8_8320 ^ (c >> 1) else c >> 1
  }

  function BitStep(c: Reg): Reg { R(StepBits(c.bits)) }

  function Steps(c: Reg, n: nat): Reg
    decreases n
  {
    if n == 0 then c else Steps(BitStep(c), n - 1)
  }

  /** The reference: shift each byte through the register, bit by bit. */
  function Serial(c: Reg, data: Blob): Reg
    decreases |data|
  {
    if data == [] then c else Serial(Steps(Xor(c, Of(data[0])), 8), data[1..])
  }

  /** The four bytes of a register, least significant first. */
  function Bytes(r: Reg): (b: Blob)
    ensures |b| == 4
  {
    [Index(r), Index(Shr8(r)), Index(Shr8(Shr8(r))), Index(Shr8(Shr8(Shr8(r))))]
  }

  /** The register as an unsigned number. */
  function ToU32(r: Reg): uint32 {
    Wire.U32(Bytes(r))
  }

  function Value(data: Blob): uint32 {
    ToU32(Xor(Serial(INITIAL, data), INITIAL))
  }

  // ----- bit facts -----

  lemma Parity(x: bv32)
    ensures x & 1 == 0 || x & 1 == 1
  {
  }

  lemma XorCommutes(x: Reg, y: Reg)
    ensures Xor(x, y) == Xor(y, x)
  {
  }

  lemma XorAssociates(x: Reg, y: Reg, z: Reg)
    ensures Xor(Xor(x, y), z) == Xor(x, Xor(y, z))
  {
  }

  lemma XorTwice(x: Reg, y: Reg)
    ensures Xor(Xor(x, y), y) == x
  {
  }

  lemma XorZero(x: Reg)
    ensures Xor(x, R(0)) == x
  {
  }

  lemma XorCancels(c: Reg, x: Reg, y: Reg)
    requires Xor(c, x) == Xor(c, y)
    ensures x == y
  {
    hide *;
    XorCommutes(c, x);
    XorCommutes(c, y);
    XorTwice(x, c);
    XorTwice(y, c);
  }

  lemma XorBothOdd(x: bv32, y: bv32)
    requires x & 1 == 1 && y & 1 == 1
    ensures (x ^ y) & 1 == 0 && (x ^ y) >> 1 == ((0xEDB8_8320 ^ (x >> 1)) ^ (0xEDB8_8320 ^ (y >> 1)))
  {
  }

  lemma XorOneOdd(x: bv32, y: bv32)
    requires x & 1 == 1 && y & 1 == 0
    ensures (x ^ y) & 1 == 1 && 0xEDB8_8320 ^ ((x ^ y) >> 1) == ((0xEDB8_8320 ^ (x >> 1)) ^ (y >> 1))
  {
  }

  lemma XorNoneOdd(x: bv32, y: bv32)
    requires x & 1 == 0 && y & 1 == 0
    ensures (x ^ y) & 1 == 0 && (x ^ y) >> 1 == (x >> 1) ^ (y >> 1)
  {
  }

  lemma Commutes(x: bv32, y: bv32)
    ensures x ^ y == y ^ x
  {
  }

  lemma StepBitsLinear(x: bv32, y: bv32)
    ensures StepBits(x ^ y) == StepBits(x) ^ StepBits(y)
  {
    Parity(x);
    Parity(y);
    if x & 1 == 1 {
      if y & 1 == 1 { XorBothOdd(x, y); } else { XorOneOdd(x, y); }
    } else if y & 1 == 1 {
      XorOneOdd(y, x);
      Commutes(x, y);
      Commutes(StepBits(x), StepBits(y));
    } else {
      XorNoneOdd(x, y);
    }
  }

  lemma SameBits(a: Reg, b: Reg)
    requires a.bits == b.bits
    ensures a == b
  {
  }

  lemma StepBitsXor(x: bv32, y: bv32)
    ensures StepBits(XorBits(x, y)) == XorBits(StepBits(x), StepBits(y))
  {
    hide StepBits;
    StepBitsLinear(x, y);
  }

  lemma BitStepLinear(x: Reg, y: Reg)
    ensures BitStep(Xor(x, y)) == Xor(BitStep(x), BitStep(y))
  {
    hide StepBits, XorBits;
    StepBitsXor(x.bits, y.bits);
  }

  /** The register is linear over exclusive or. */
  lemma {:induction false} StepsLinear(x: Reg, y: Reg, n: nat)
    ensures Steps(Xor(x, y), n) == Xor(Steps(x, n), Steps(y, n))
    decreases n
  {
    hide BitStep, Xor;
    if n > 0 {
      BitStepLinear(x, y);
      StepsLinear(BitStep(x), BitStep(y), n - 1);
    }
  }

  lemma {:induction false} StepsAdd(c: Reg, m: nat, n: nat)
    ensures Steps(c, m + n) == Steps(Steps(c, m), n)
    decreases m
  {
    hide BitStep;
    if m > 0 { StepsAdd(BitStep(c), m - 1, n); }
  }

  // ----- a register whose low byte is clear just shifts -----

  function Halves(y: Reg, n: nat): Reg
    decreases n
  {
    if n == 0 then y else Halves(Half(y), n - 1)
  }

  predicate LowClear(y: Reg, n: nat)
    decreases n
  {
    n == 0 || (!Odd(y) && LowClear(Half(y), n - 1))
  }

  lemma EvenStep(y: Reg)
    requires !Odd(y)
    ensures BitStep(y) == Half(y)
  {
  }

  lemma {:induction false} ClearSteps(y: Reg, n: nat)
    requires LowClear(y, n)
    ensures Steps(y, n) == Halves(y, n)
    decreases n
  {
    hide Odd, Half, BitStep;
    if n > 0 {
      EvenStep(y);
      ClearSteps(Half(y), n - 1);
    }
  }

  predicate NibbleClear(y: Reg) { y.bits & 0xF == 0 }
  predicate ByteClear(y: Reg) { y.bits & 0xFF == 0 }
  function Shr4(y: Reg): Reg { R(y.bits >> 4) }

  lemma FourEven(y: bv32)
    requires y & 0xF == 0
    ensures y & 1 != 1 && (y >> 1) & 1 != 1 && ((y >> 1) >> 1) & 1 != 1 && (((y >> 1) >> 1) >> 1) & 1 != 1
  {
  }

  lemma UnrollFour(y: Reg, n: nat)
    ensures Halves(y, 4 + n) == Halves(Half(Half(Half(Half(y)))), n)
    ensures !Odd(y) && !Odd(Half(y)) && !Odd(Half(Half(y))) && !Odd(Half(Half(Half(y))))
           && LowClear(Half(Half(Half(Half(y)))), n)
      ==> LowClear(y, 4 + n)
  {
    hide Odd, Half;
    var a, b, c := Half(y), Half(Half(y)), Half(Half(Half(y)));
    assert Halves(y, 4 + n) == Halves(a, 3 + n);
    assert Halves(a, 3 + n) == Halves(b, 2 + n);
    assert Halves(b, 2 + n) == Halves(c, 1 + n);
    assert LowClear(c, 1 + n) == (!Odd(c) && LowClear(Half(c), n));
    assert LowClear(b, 2 + n) == (!Odd(b) && LowClear(c, 1 + n));
    assert LowClear(a, 3 + n) == (!Odd(a) && LowClear(b, 2 + n));
  }

  lemma HalfFourBits(y: Reg)
    ensures Half(Half(Half(Half(y)))).bits == Shr4(y).bits
  {
  }

  lemma HalfFourTimes(y: Reg)
    ensures Half(Half(Half(Half(y)))) == Shr4(y)
  {
    hide *;
    HalfFourBits(y);
    SameBits(Half(Half(Half(Half(y)))), Shr4(y));
  }

  lemma EvenFourTimes(y: Reg)
    requires NibbleClear(y)
    ensures !Odd(y) && !Odd(Half(y)) && !Odd(Half(Half(y))) && !Odd(Half(Half(Half(y))))
  {
    FourEven(y.bits);
  }

  lemma LowNibble(y: bv32)
    requires y & 0xFF == 0
    ensures y & 0xF == 0
  {
  }

  lemma HighNibble(y: bv32)
    requires y & 0xFF == 0
    ensures (y >> 4) & 0xF == 0
  {
  }

  lemma FirstNibble(y: Reg)
    requires ByteClear(y)
    ensures NibbleClear(y)
  {
    LowNibble(y.bits);
  }

  lemma SecondNibble(y: Reg)
    requires ByteClear(y)
    ensures NibbleClear(Shr4(y))
  {
    HighNibble(y.bits);
  }

  lemma ShrTwiceBits(y: Reg)
    ensures Shr4(Shr4(y)).bits == Shr8(y).bits
  {
  }

  lemma ShrTwice(y: Reg)
    ensures Shr4(Shr4(y)) == Shr8(y)
  {
    hide *;
    ShrTwiceBits(y);
    SameBits(Shr4(Shr4(y)), Shr8(y));
  }

  lemma HighPartShifts(y: Reg)
    requires ByteClear(y)
    ensures Steps(y, 8) == Shr8(y)
  {
    hide *;
    FirstNibble(y);
    SecondNibble(y);
    ShrTwice(y);
    HalfFourTimes(y);
    HalfFourTimes(Shr4(y));
    EvenFourTimes(y);
    EvenFourTimes(Shr4(y));
    UnrollFour(Shr4(y), 0);
    UnrollFour(y, 4);
    NoHalves(Shr8(y));
    ClearSteps(y, 8);
  }

  lemma NoHalves(y: Reg)
    ensures Halves(y, 0) == y && LowClear(y, 0)
  {
  }

  lemma BytesJoin(x: bv32)
    ensures (x & 0xFF) ^ (x & 0xFFFF_FF00) == x
  {
  }

  lemma LowByteCleared(x: bv32)
    ensures (x & 0xFFFF_FF00) & 0xFF == 0
  {
  }

  lemma HighBytesShift(x: Reg)
    ensures Shr8(HighBytes(x)).bits == Shr8(x).bits
  {
  }

  lemma SplitJoins(x: Reg)
    ensures Xor(LowByte(x), HighBytes(x)) == x
  {
    BytesJoin(x.bits);
  }

  lemma SplitClears(x: Reg)
    ensures ByteClear(HighBytes(x))
  {
    LowByteCleared(x.bits);
  }

  lemma SplitShifts(x: Reg)
    ensures Shr8(HighBytes(x)) == Shr8(x)
  {
    hide *;
    HighBytesShift(x);
    SameBits(Shr8(HighBytes(x)), Shr8(x));
  }

  lemma SplitLow(x: Reg)
    ensures Xor(LowByte(x), HighBytes(x)) == x && ByteClear(HighBytes(x)) && Shr8(HighBytes(x)) == Shr8(x)
  {
    hide *;
    SplitJoins(x);
    SplitClears(x);
    SplitShifts(x);
  }

  lemma LowBitsShiftOutBits(c: Reg, b: Reg)
    requires b.bits < 256
    ensures Shr8(Xor(c, b)).bits == Shr8(c).bits
  {
  }

  lemma LowBitsShiftOut(c: Reg, b: Reg)
    requires b.bits < 256
    ensures Shr8(Xor(c, b)) == Shr8(c)
  {
    hide *;
    LowBitsShiftOutBits(c, b);
    SameBits(Shr8(Xor(c, b)), Shr8(c));
  }

  /** The table step: one lookup and one shift do the work of eight bit steps. */
  lemma TableStep(c: Reg, b: Reg)
    requires b.bits < 256
    ensures Xor(Steps(LowByte(Xor(c, b)), 8), Shr8(c)) == Steps(Xor(c, b), 8)
  {
    hide *;
    SplitLow(Xor(c, b));
    LowBitsShiftOut(c, b);
    StepsLinear(LowByte(Xor(c, b)), HighBytes(Xor(c, b)), 8);
    HighPartShifts(HighBytes(Xor(c, b)));
  }

  lemma ByteIsSmall(b: byte)
    ensures Of(b).bits < 256
  {
  }

  // ----- the implementation -----

  lemma {:induction false} SerialAppend(c: Reg, a: Blob, b: Blob)
    ensures Serial(c, a + b) == Serial(Serial(c, a), b)
    decreases |a|
  {
    hide Steps, Of, Xor;
    if a == [] {
      assert a + b == b;
    } else {
      assert (a + b)[1..] == a[1..] + b;
      SerialAppend(Steps(Xor(c, Of(a[0])), 8), a[1..], b);
    }
  }

  lemma SerialOne(c: Reg, b: byte)
    ensures Serial(c, [b]) == Steps(Xor(c, Of(b)), 8)
  {
    hide Steps, Of, Xor;
    assert [b][1..] == [];
  }

  lemma SerialNext(c: Reg, data: Blob, i: nat)
    requires i < |data|
    ensures Serial(c, data[..i + 1]) == Steps(Xor(Serial(c, data[..i]), Of(data[i])), 8)
  {
    hide *;
    assert data[..i + 1] == data[..i] + [data[i]];
    SerialAppend(c, data[..i], [data[i]]);
    SerialOne(Serial(c, data[..i]), data[i]);
  }

  function Entry(i: byte): Reg { Steps(Of(i), 8) }

  /** `x & 0xFF` as an array index. */
  function Index(x: Reg): byte {
    Masked(x.bits);
    LowInt(x.bits & 0xFF)
  }

  function LowInt(y: bv32): byte
    requires y < 256
  {
    y as int
  }

  lemma LowIntOf(y: bv32)
    requires y < 256
    ensures Of(LowInt(y)) == R(y)
  {
    RoundTrip(y);
  }

  lemma IndexOf(x: Reg)
    ensures Of(Index(x)) == LowByte(x)
  {
    hide Of, LowInt;
    Masked(x.bits);
    LowIntOf(x.bits & 0xFF);
  }

  lemma Masked(y: bv32)
    ensures y & 0xFF < 256
  {
  }

  lemma RoundTrip(y: bv32)
    requires y < 256
    ensures 0 <= y as int < 256 && (y as int) as bv32 == y
  {
  }

  /** One iteration of the table-driven loop. */
  lemma TableIteration(crc: Reg, b: byte)
    ensures Xor(Entry(Index(Xor(crc, Of(b)))), Shr8(crc)) == Steps(Xor(crc, Of(b)), 8)
  {
    hide Steps, Xor, Shr8, Of, Index;
    ByteIsSmall(b);
    IndexOf(Xor(crc, Of(b)));
    TableStep(crc, Of(b));
  }

  /** The process-wide lookup table, filled by the first call. */
  class Table {
    const table: array<Reg>
    var init: bool

    ghost predicate Valid()
      reads this, table
    {
      table.Length == 256 && (init ==> forall i: byte :: table[i] == Entry(i))
    }

    constructor ()
      ensures Valid() && fresh(table) && !init
    {
      table := new Reg[256](_ => R(0));
      init := false;
    }

    method Fill()
      requires Valid()
      modifies this, table
      ensures Valid() && init
    {
      hide Steps, BitStep, Of;
      var i := 0;
      while i < 256
        invariant 0 <= i <= 256
        invariant forall j: int | 0 <= j < i :: table[j] == Entry(j)
        decreases 256 - i
      {
        var c, k := Of(i), 0;
        while k < 8
          invariant 0 <= k <= 8 && Steps(c, 8 - k) == Steps(Of(i), 8)
          invariant forall j: int | 0 <= j < i :: table[j] == Entry(j)
        {
          EntryStep(c, 8 - k);
          c := BitStep(c);
          k := k + 1;
        }
        StepsNone(c);
        table[i] := c;
        i := i + 1;
      }
      init := true;
    }

    /** `crc32`: the table-driven loop computes the bit-serial CRC of every byte sequence. */
    method Crc32(data: Blob) returns (r: uint32)
      requires Valid()
      modifies this, table
      ensures Valid() && init
      ensures r == Value(data)
    {
      if !init { Fill(); }
      hide Steps, Serial, Xor, Shr8, Of, Entry, Index, ToU32;
      var crc, i := INITIAL, 0;
      SerialNone(INITIAL, data);
      while i < |data|
        invariant 0 <= i <= |data| && Valid() && init
        invariant crc == Serial(INITIAL, data[..i])
      {
        SerialNext(INITIAL, data, i);
        TableIteration(crc, data[i]);
        crc := Xor(table[Index(Xor(crc, Of(data[i])))], Shr8(crc));
        i := i + 1;
      }
      assert data[..i] == data;
      r := ToU32(Xor(crc, INITIAL));
    }
  }

  lemma SerialNone(c: Reg, data: Blob)
    ensures Serial(c, data[..0]) == c
  {
  }

  lemma EntryStep(c: Reg, n: nat)
    requires n > 0
    ensures Steps(c, n) == Steps(BitStep(c), n - 1)
  {
    hide BitStep;
  }

  // ----- what the checksum detects -----

  function Unstep(c: Reg): Reg {
    if c.bits & 0x8000_0000 != 0 then R(((c.bits ^ 0xEDB8_8320) << 1) | 1) else R(c.bits << 1)
  }

  lemma UnstepOdd(c: bv32)
    requires c & 1 == 1
    ensures (0xEDB8_8320 ^ (c >> 1)) & 0x8000_0000 != 0
    ensures ((((0xEDB8_8320 ^ (c >> 1)) ^ 0xEDB8_8320) << 1) | 1) == c
  {
  }

  lemma UnstepEven(c: bv32)
    requires c & 1 == 0
    ensures (c >> 1) & 0x8000_0000 == 0 && (c >> 1) << 1 == c
  {
  }

  lemma UnstepUndoes(c: Reg)
    ensures Unstep(BitStep(c)) == c
  {
    Parity(c.bits);
    if Odd(c) { UnstepOdd(c.bits); } else { UnstepEven(c.bits); }
  }

  lemma StepHigh(c: bv32)
    requires c & 0x8000_0000 != 0
    ensures (((c ^ 0xEDB8_8320) << 1) | 1) & 1 == 1
    ensures 0xEDB8_8320 ^ ((((c ^ 0xEDB8_8320) << 1) | 1) >> 1) == c
  {
  }

  lemma StepLow(c: bv32)
    requires c & 0x8000_0000 == 0
    ensures (c << 1) & 1 == 0 && (c << 1) >> 1 == c
  {
  }

  lemma StepUndoes(c: Reg)
    ensures BitStep(Unstep(c)) == c
  {
    if c.bits & 0x8000_0000 != 0 { StepHigh(c.bits); } else { StepLow(c.bits); }
  }

  function Unsteps(c: Reg, n: nat): Reg
    decreases n
  {
    if n == 0 then c else Unstep(Unsteps(c, n - 1))
  }

  lemma {:induction false} UnstepsUndo(c: Reg, n: nat)
    ensures Unsteps(Steps(c, n), n) == c
    decreases n
  {
    hide BitStep, Unstep;
    if n > 0 {
      UnstepsUndo(BitStep(c), n - 1);
      UnstepUndoes(c);
    }
  }

  lemma {:induction false} StepsUndo(c: Reg, n: nat)
    ensures Steps(Unsteps(c, n), n) == c
    decreases n
  {
    hide BitStep, Unstep;
    if n > 0 {
      StepUndoes(Unsteps(c, n - 1));
      StepsUndo(c, n - 1);
    }
  }

  /** For each byte the register update is a bijection: every register value has exactly one
      predecessor. */
  lemma ByteUpdateIsBijective(b: byte, after: Reg, c: Reg)
    ensures Serial(c, [b]) == after <==> c == Xor(Unsteps(after, 8), Of(b))
  {
    hide *;
    SerialOne(c, b);
    UnstepsUndo(Xor(c, Of(b)), 8);
    StepsUndo(after, 8);
    XorTwice(c, Of(b));
    XorTwice(Unsteps(after, 8), Of(b));
  }

  /** Different registers stay different through any common suffix. */
  lemma {:induction false} SerialInjective(c: Reg, d: Reg, data: Blob)
    requires Serial(c, data) == Serial(d, data)
    ensures c == d
    decreases |data|
  {
    hide Steps, Of, Xor;
    if data != [] {
      var b := Of(data[0]);
      SerialInjective(Steps(Xor(c, b), 8), Steps(Xor(d, b), 8), data[1..]);
      UnstepsUndo(Xor(c, b), 8);
      UnstepsUndo(Xor(d, b), 8);
      XorTwice(c, b);
      XorTwice(d, b);
    }
  }

  /** Up to four bytes as one little-endian word. */
  function Word(x: Blob): Reg
    decreases |x|
  {
    if x == [] then R(0) else Xor(Of(x[0]), Shl8(Word(x[1..])))
  }

  /** `w` uses at most the low `n` bytes. */
  predicate Fits(w: Reg, n: nat) {
    match n
    case 0 => w.bits == 0
    case 1 => w.bits < 0x100
    case 2 => w.bits < 0x1_0000
    case 3 => w.bits < 0x100_0000
    case _ => true
  }

  lemma Grow0(b: bv32)
    requires b < 256
    ensures b ^ (0 << 8) < 0x100
  {
  }

  lemma Grow1(b: bv32, w: bv32)
    requires b < 256 && w < 0x100
    ensures b ^ (w << 8) < 0x1_0000
  {
  }

  lemma Grow2(b: bv32, w: bv32)
    requires b < 256 && w < 0x1_0000
    ensures b ^ (w << 8) < 0x100_0000
  {
  }

  lemma Grow(b: Reg, w: Reg, n: nat)
    requires b.bits < 256 && Fits(w, n) && n <= 2
    ensures Fits(Xor(b, Shl8(w)), n + 1)
  {
    if n == 0 { Grow0(b.bits); } else if n == 1 { Grow1(b.bits, w.bits); } else { Grow2(b.bits, w.bits); }
  }

  lemma {:induction false} WordFits(x: Blob)
    requires |x| <= 3
    ensures Fits(Word(x), |x|)
    decreases |x|
  {
    hide Fits, Xor, Shl8, Of;
    if x == [] {
      ZeroFits();
    } else {
      WordFits(x[1..]);
      ByteIsSmall(x[0]);
      Grow(Of(x[0]), Word(x[1..]), |x| - 1);
    }
  }

  lemma ZeroFits()
    ensures Fits(R(0), 0)
  {
  }

  lemma ShiftBack(w: bv32)
    requires w < 0x100_0000
    ensures (w << 8) & 0xFF == 0 && (w << 8) >> 8 == w
  {
  }

  lemma SmallFits(w: Reg, n: nat)
    requires n <= 3 && Fits(w, n)
    ensures w.bits < 0x100_0000
  {
  }

  lemma Unpack(b: bv32, w: bv32)
    requires b < 256 && w < 0x100_0000
    ensures (b ^ (w << 8)) & 0xFF == b && (b ^ (w << 8)) >> 8 == w
  {
  }

  /** Up to four bytes enter the register as one word. */
  lemma {:induction false} WordEnters(c: Reg, x: Blob)
    requires |x| <= 4
    ensures Serial(c, x) == Steps(Xor(c, Word(x)), 8 * |x|)
    decreases |x|
  {
    hide Steps, Xor, Of, Shl8, Fits;
    if x == [] {
      XorZero(c);
      StepsNone(c);
    } else {
      var b, rest := Of(x[0]), Word(x[1..]);
      WordFits(x[1..]);
      SmallFits(rest, |x| - 1);
      WordEnters(Steps(Xor(c, b), 8), x[1..]);
      ShlSteps(rest);
      StepsLinear(Xor(c, b), Shl8(rest), 8);
      XorAssociates(c, b, Shl8(rest));
      StepsAdd(Xor(c, Word(x)), 8, 8 * |x[1..]|);
    }
  }

  lemma ShlClear(w: Reg)
    requires w.bits < 0x100_0000
    ensures ByteClear(Shl8(w)) && Shr8(Shl8(w)) == w
  {
    ShiftBack(w.bits);
  }

  lemma ShlSteps(w: Reg)
    requires w.bits < 0x100_0000
    ensures Steps(Shl8(w), 8) == w
  {
    hide *;
    ShlClear(w);
    HighPartShifts(Shl8(w));
  }

  lemma StepsNone(c: Reg)
    ensures Steps(c, 0) == c
  {
  }

  ghost function AsBits(i: byte): (b: bv32)
    ensures b < 256 && b as int == i
  {
    if i == 0 then 0 else
      var p := AsBits(i - 1);
      NextIndex(p);
      p + 1
  }

  lemma NextIndex(b: bv32)
    requires b < 256 && b as int < 255
    ensures b + 1 < 256 && (b + 1) as int == b as int + 1
  {
    assert b < 255;
  }

  lemma OfAsBits(b: byte)
    ensures Of(b).bits == AsBits(b)
  {
    assert (AsBits(b) as int) as bv32 == AsBits(b);
  }

  lemma BitsInjective(a: byte, b: byte)
    requires Of(a) == Of(b)
    ensures a == b
  {
    hide Of, AsBits;
    OfAsBits(a);
    OfAsBits(b);
  }

  lemma UnpackWords(a: Reg, v: Reg, b: Reg, w: Reg)
    requires a.bits < 256 && b.bits < 256 && v.bits < 0x100_0000 && w.bits < 0x100_0000
    requires Xor(a, Shl8(v)) == Xor(b, Shl8(w))
    ensures a == b && v == w
  {
    Unpack(a.bits, v.bits);
    Unpack(b.bits, w.bits);
  }

  lemma {:induction false} WordInjective(x: Blob, y: Blob)
    requires |x| == |y| <= 4 && Word(x) == Word(y)
    ensures x == y
    decreases |x|
  {
    hide Xor, Shl8, Of, Fits;
    if x != [] {
      ByteIsSmall(x[0]);
      ByteIsSmall(y[0]);
      WordFits(x[1..]);
      WordFits(y[1..]);
      SmallFits(Word(x[1..]), |x| - 1);
      SmallFits(Word(y[1..]), |x| - 1);
      UnpackWords(Of(x[0]), Word(x[1..]), Of(y[0]), Word(y[1..]));
      BitsInjective(x[0], y[0]);
      WordInjective(x[1..], y[1..]);
      assert x == [x[0]] + x[1..] && y == [y[0]] + y[1..];
    }
  }

  lemma SameValue(a: Blob, b: Blob)
    requires Value(a) == Value(b)
    ensures Serial(INITIAL, a) == Serial(INITIAL, b)
  {
    hide Serial, Xor, ToU32;
    SameU32(Xor(Serial(INITIAL, a), INITIAL), Xor(Serial(INITIAL, b), INITIAL));
    SameXor(Serial(INITIAL, a), Serial(INITIAL, b));
  }

  lemma SameU32(p: Reg, q: Reg)
    requires ToU32(p) == ToU32(q)
    ensures p == q
  {
    hide Word, Bytes, Wire.Le, Wire.OfLe;
    WordOfBytes(p);
    WordOfBytes(q);
    Wire.LeOfLe(Bytes(p));
    Wire.LeOfLe(Bytes(q));
  }

  lemma JoinBytes(x: bv32)
    ensures (x & 0xFF) ^ ((((x >> 8) & 0xFF) ^ (((((x >> 8) >> 8) & 0xFF) ^ ((((((x >> 8) >> 8) >> 8) & 0xFF)
              ^ (0 << 8)) << 8)) << 8)) << 8) == x
  {
  }

  lemma JoinRegs(r: Reg)
    ensures var a, b, c := Shr8(r), Shr8(Shr8(r)), Shr8(Shr8(Shr8(r)));
      Xor(LowByte(r), Shl8(Xor(LowByte(a), Shl8(Xor(LowByte(b), Shl8(Xor(LowByte(c), Shl8(R(0))))))))) == r
  {
    JoinBytes(r.bits);
  }

  lemma WordOne(x: byte, rest: Blob)
    ensures Word([x] + rest) == Xor(Of(x), Shl8(Word(rest)))
    ensures Word([]) == R(0)
  {
    hide Xor, Of, Shl8;
    assert ([x] + rest)[1..] == rest;
  }

  /** A register is the word of its bytes. */
  lemma WordOfBytes(r: Reg)
    ensures Word(Bytes(r)) == r
  {
    hide Of, Index, Word, Xor, Shl8, Shr8, LowByte;
    var a, b, c := Shr8(r), Shr8(Shr8(r)), Shr8(Shr8(Shr8(r)));
    IndexOf(r);
    IndexOf(a);
    IndexOf(b);
    IndexOf(c);
    WordOne(Index(c), []);
    WordOne(Index(b), [Index(c)] + []);
    WordOne(Index(a), [Index(b)] + ([Index(c)] + []));
    WordOne(Index(r), [Index(a)] + ([Index(b)] + ([Index(c)] + [])));
    assert Bytes(r) == [Index(r)] + ([Index(a)] + ([Index(b)] + ([Index(c)] + [])));
    JoinRegs(r);
  }

  lemma SameXor(a: Reg, b: Reg)
    requires Xor(a, INITIAL) == Xor(b, INITIAL)
    ensures a == b
  {
    hide Xor;
    XorTwice(a, INITIAL);
    XorTwice(b, INITIAL);
  }

  /** Burst detection: two buffers of equal length that differ only inside four consecutive bytes
      never have the same checksum. */
  lemma BurstIsDetected(before: Blob, x: Blob, y: Blob, after: Blob)
    requires |x| == |y| <= 4 && x != y
    ensures Value(before + x + after) != Value(before + y + after)
  {
    hide *;
    if Value(before + x + after) == Value(before + y + after) {
      var c := Serial(INITIAL, before);
      SameValue(before + x + after, before + y + after);
      SerialAppend(INITIAL, before + x, after);
      SerialAppend(INITIAL, before + y, after);
      SerialAppend(INITIAL, before, x);
      SerialAppend(INITIAL, before, y);
      SerialInjective(Serial(c, x), Serial(c, y), after);
      WordEnters(c, x);
      WordEnters(c, y);
      UnstepsUndo(Xor(c, Word(x)), 8 * |x|);
      UnstepsUndo(Xor(c, Word(y)), 8 * |y|);
      XorCancels(c, Word(x), Word(y));
      WordInjective(x, y);
    }
  }

  // ----- the checksum in numbers -----

  function Eight(c: bv32): bv32 {
    StepBits(StepBits(StepBits(StepBits(StepBits(StepBits(StepBits(StepBits(c))))))))
  }

  lemma EightSteps(c: bv32)
    ensures Steps(R(c), 8) == R(Eight(c))
  {
    hide StepBits;
    var d := StepBits(StepBits(StepBits(StepBits(c))));
    FourSteps(c);
    FourSteps(d);
    StepsAdd(R(c), 4, 4);
  }

  lemma FourSteps(c: bv32)
    ensures Steps(R(c), 4) == R(StepBits(StepBits(StepBits(StepBits(c)))))
  {
    hide StepBits;
    var d := StepBits(StepBits(c));
    assert Steps(R(c), 2) == R(d) && Steps(R(d), 2) == R(StepBits(StepBits(d)));
    StepsAdd(R(c), 2, 2);
  }

  /** A register of all ones, after 32 steps. */
  lemma OnesAfterWord()
    ensures Steps(R(0xFFFF_FFFF), 32) == R(0xDEBB_20E3)
  {
    hide Steps, Eight;
    EightSteps(0xFFFF_FFFF);
    EightSteps(0x2DFD_1072);
    EightSteps(0xBE26_ED00);
    EightSteps(0x00BE_26ED);
    assert Eight(0xFFFF_FFFF) == 0x2DFD_1072 && Eight(0x2DFD_1072) == 0xBE26_ED00 by { EightValues(); }
    assert Eight(0xBE26_ED00) == 0x00BE_26ED && Eight(0x00BE_26ED) == 0xDEBB_20E3 by { EightValues(); }
    StepsAdd(R(0xFFFF_FFFF), 8, 8);
    StepsAdd(R(0xFFFF_FFFF), 16, 8);
    StepsAdd(R(0xFFFF_FFFF), 24, 8);
  }

  lemma EightValues()
    ensures Eight(0xFFFF_FFFF) == 0x2DFD_1072 && Eight(0x2DFD_1072) == 0xBE26_ED00
    ensures Eight(0xBE26_ED00) == 0x00BE_26ED && Eight(0x00BE_26ED) == 0xDEBB_20E3
  {
  }

  /** The residue law: a buffer followed by its own checksum, least significant byte first, always leaves the
      same register. */
  lemma ResidueLaw(data: Blob)
    ensures Serial(R(0xFFFF_FFFF), data + Wire.Le(Value(data), 4)) == R(0xDEBB_20E3)
  {
    hide Serial, Steps, Xor, Word, Bytes, Wire.Le, Wire.OfLe;
    var ones := R(0xFFFF_FFFF);
    var c := Serial(ones, data);
    var x := Xor(c, ones);
    Wire.LeOfLe(Bytes(x));
    SerialAppend(ones, data, Bytes(x));
    WordEnters(c, Bytes(x));
    WordOfBytes(x);
    XorAgain(c, ones);
    OnesAfterWord();
  }

  lemma XorAgain(a: Reg, b: Reg)
    ensures Xor(a, Xor(a, b)) == b
  {
    hide Xor;
    XorCommutes(a, b);
    XorCommutes(a, Xor(b, a));
    XorTwice(b, a);
  }

  lemma OneMore(c: bv32, b: byte, data: Blob)
    ensures Serial(R(c), [b] + data) == Serial(R(Eight(c ^ Of(b).bits)), data)
  {
    hide Steps, Of, Eight;
    assert ([b] + data)[1..] == data;
    EightSteps(c ^ Of(b).bits);
  }

  /** One zero byte has the checksum 0xD202EF8D. */
  lemma ZeroByteChecksum()
    ensures Value([0]) == 0xD202_EF8D
  {
    hide Serial, Eight, Wire.OfLe, Bytes;
    var none: Blob := [];
    OneMore(0xFFFF_FFFF, 0, none);
    assert Of(0).bits == 0;
    assert Eight(0xFFFF_FFFF ^ 0) == 0x2DFD_1072 by { EightValues(); }
    SerialNone(R(0x2DFD_1072), none);
    assert [0] + none == [0] && none[..0] == none;
    assert Xor(R(0x2DFD_1072), R(0xFFFF_FFFF)) == R(0xD202_EF8D);
    NumberOf();
  }

  lemma NumberOf()
    ensures ToU32(R(0xD202_EF8D)) == 0xD202_EF8D
  {
    hide Wire.OfLe;
    var r := R(0xD202_EF8D);
    assert Index(r) == 0x8D && Index(Shr8(r)) == 0xEF;
    assert Index(Shr8(Shr8(r))) == 0x02 && Index(Shr8(Shr8(Shr8(r)))) == 0xD2;
    FourBytes(0x8D, 0xEF, 0x02, 0xD2);
  }

  lemma FourBytes(a: byte, b: byte, c: byte, d: byte)
    ensures Wire.OfLe([a, b, c, d]) == a + 0x100 * b + 0x1_0000 * c + 0x100_0000 * d
  {
    var x := [a, b, c, d];
    assert x[1..] == [b, c, d] && [b, c, d][1..] == [c, d] && [c, d][1..] == [d] && [d][1..] == [];
    assert Wire.OfLe([d]) == d && Wire.OfLe([c, d]) == c + 0x100 * d;
    assert Wire.OfLe([b, c, d]) == b + 0x100 * (c + 0x100 * d);
  }

  /** The digits "123456789" have the checksum 0xCBF43926. */
  lemma DigitsChecksum()
    ensures Value([0x31, 0x32, 0x33, 0x34, 0x35, 0x36, 0x37, 0x38, 0x39]) == 0xCBF4_3926
  {
    hide Serial, Eight, Bytes, ToU32, Of;
    DigitSteps();
    DigitBits();
    var none: Blob := [];
    var d9 := [0x39] + none;
    var d8 := [0x38] + d9;
    var d7 := [0x37] + d8;
    var d6 := [0x36] + d7;
    var d5 := [0x35] + d6;
    var d4 := [0x34] + d5;
    var d3 := [0x33] + d4;
    var d2 := [0x32] + d3;
    Digit(0xFFFF_FFFF, 0x31, 0x31, 0x7C23_1048, d2);
    Digit(0x7C23_1048, 0x32, 0x32, 0xB0AC_BB32, d3);
    Digit(0xB0AC_BB32, 0x33, 0x33, 0x77B7_9C2D, d4);
    Digit(0x77B7_9C2D, 0x34, 0x34, 0x641C_1F5C, d5);
    Digit(0x641C_1F5C, 0x35, 0x35, 0x340A_C5E3, d6);
    Digit(0x340A_C5E3, 0x36, 0x36, 0xF68D_2C9E, d7);
    Digit(0xF68D_2C9E, 0x37, 0x37, 0xAFFC_9660, d8);
    Digit(0xAFFC_9660, 0x38, 0x38, 0x651F_2550, d9);
    Digit(0x651F_2550, 0x39, 0x39, 0x340B_C6D9, none);
    assert [0x31] + d2 == [0x31, 0x32, 0x33, 0x34, 0x35, 0x36, 0x37, 0x38, 0x39];
    SerialNone(R(0x340B_C6D9), none);
    assert none[..0] == none;
    assert Xor(R(0x340B_C6D9), R(0xFFFF_FFFF)) == R(0xCBF4_3926);
    DigitsNumber();
  }

  lemma Digit(c: bv32, b: byte, bits: bv32, after: bv32, data: Blob)
    requires Of(b).bits == bits && Eight(c ^ bits) == after
    ensures Serial(R(c), [b] + data) == Serial(R(after), data)
  {
    hide *;
    OneMore(c, b, data);
  }

  lemma DigitBits()
    ensures Of(0x31).bits == 0x31 && Of(0x32).bits == 0x32 && Of(0x33).bits == 0x33
    ensures Of(0x34).bits == 0x34 && Of(0x35).bits == 0x35 && Of(0x36).bits == 0x36
    ensures Of(0x37).bits == 0x37 && Of(0x38).bits == 0x38 && Of(0x39).bits == 0x39
  {
  }

  lemma DigitSteps()
    ensures Eight(0xFFFF_FFFF ^ 0x31) == 0x7C23_1048
    ensures Eight(0x7C23_1048 ^ 0x32) == 0xB0AC_BB32
    ensures Eight(0xB0AC_BB32 ^ 0x33) == 0x77B7_9C2D
    ensures Eight(0x77B7_9C2D ^ 0x34) == 0x641C_1F5C
    ensures Eight(0x641C_1F5C ^ 0x35) == 0x340A_C5E3
    ensures Eight(0x340A_C5E3 ^ 0x36) == 0xF68D_2C9E
    ensures Eight(0xF68D_2C9E ^ 0x37) == 0xAFFC_9660
    ensures Eight(0xAFFC_9660 ^ 0x38) == 0x651F_2550
    ensures Eight(0x651F_2550 ^ 0x39) == 0x340B_C6D9
  {
  }

  lemma DigitsNumber()
    ensures ToU32(R(0xCBF4_3926)) == 0xCBF4_3926
  {
    hide Wire.OfLe;
    var r := R(0xCBF4_3926);
    assert Index(r) == 0x26 && Index(Shr8(r)) == 0x39;
    assert Index(Shr8(Shr8(r))) == 0xF4 && Index(Shr8(Shr8(Shr8(r)))) == 0xCB;
    FourBytes(0x26, 0x39, 0xF4, 0xCB);
  }
}
