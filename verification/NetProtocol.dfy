/** The wire codec (src/net/NetProtocol.cpp): a tag byte, then fields packed little-endian. */
module NetProtocol {
  import opened Abi

  const HELLO: byte := 1
  const STATE_SYNC: byte := 2
  const INPUT: byte := 3
  const CHECKSUM: byte := 4

  /** `coreId` holds exactly 64 bytes. */
  datatype Hello = Hello(abiVersion: uint32, coreId: Blob, contentHash: uint64, inputDelay: uint32, startFrame: uint64)
  datatype StateSync = StateSync(frame: uint64, blob: Blob)
  datatype Input = Input(frame: uint64, port: byte, state: InputState)
  datatype Checksum = Checksum(frame: uint64, crc: uint32)

  // ----- little-endian integers -----

  function Pow256(n: nat): (p: nat)
    ensures p > 0
    decreases n
  {
    if n == 0 then 1 else 256 * Pow256(n - 1)
  }

  /** The low `n` bytes of `v`, least significant first. */
  function Le(v: nat, n: nat): (b: Blob)
    ensures |b| == n
    decreases n
  {
    if n == 0 then [] else [v % 256] + Le(v / 256, n - 1)
  }

  function OfLe(b: Blob): (v: nat)
    ensures v < Pow256(|b|)
  {
    if b == [] then 0 else b[0] + 256 * OfLe(b[1..])
  }

  lemma {:induction false} OfLeLe(v: nat, n: nat)
    requires v < Pow256(n)
    ensures OfLe(Le(v, n)) == v
    decreases n
  {
    if n > 0 {
      assert Le(v, n)[1..] == Le(v / 256, n - 1);
      OfLeLe(v / 256, n - 1);
    }
  }

  lemma {:induction false} LeOfLe(b: Blob)
    ensures Le(OfLe(b), |b|) == b
  {
    if b != [] {
      LeOfLe(b[1..]);
      assert OfLe(b) % 256 == b[0] && OfLe(b) / 256 == OfLe(b[1..]);
    }
  }

  lemma Widths()
    ensures Pow256(1) == 0x100 && Pow256(2) == 0x1_0000
    ensures Pow256(4) == 0x1_0000_0000 && Pow256(8) == 0x1_0000_0000_0000_0000
  {
    assert Pow256(3) == 0x100_0000;
    assert Pow256(4) == 0x1_0000_0000;
    assert Pow256(5) == 0x100_0000_0000;
    assert Pow256(6) == 0x1_0000_0000_0000;
    assert Pow256(7) == 0x100_0000_0000_0000;
  }

  // ----- the formats -----

  function AxisWord(a: int16): uint16 { if a < 0 then a + 0x1_0000 else a }
  function AxisOf(w: uint16): int16 { if w >= 0x8000 then w - 0x1_0000 else w }

  function AxesBytes(axes: seq<int16>): (b: Blob)
    ensures |b| == 2 * |axes|
  {
    if axes == [] then [] else Le(AxisWord(axes[0]), 2) + AxesBytes(axes[1..])
  }

  function Word(b: Blob): uint16
    requires |b| == 2
  {
    Widths();
    OfLe(b)
  }

  function AxesOf(b: Blob): (axes: seq<int16>)
    requires |b| % 2 == 0
    ensures |axes| == |b| / 2
  {
    if b == [] then [] else [AxisOf(Word(b[..2]))] + AxesOf(b[2..])
  }

  function InputBytes(s: InputState): (b: Blob)
    requires s.WellFormed()
    ensures |b| == 274
  {
    s.keys + AxesBytes(s.axes) + Le(s.buttons, 2)
  }

  function InputOf(b: Blob): (s: InputState)
    requires |b| == 274
    ensures s.WellFormed()
  {
    Pad(b[..256], AxesOf(b[256..272]), Word(b[272..]))
  }

  function U32(b: Blob): uint32
    requires |b| == 4
  {
    Widths();
    OfLe(b)
  }

  function U64(b: Blob): uint64
    requires |b| == 8
  {
    Widths();
    OfLe(b)
  }

  function HelloBytes(h: Hello): Blob {
    [HELLO] + Le(h.abiVersion, 4) + h.coreId + Le(h.contentHash, 8) + Le(h.inputDelay, 4) + Le(h.startFrame, 8)
  }

  function StateSyncBytes(s: StateSync): Blob {
    [STATE_SYNC] + Le(s.frame, 8) + Le(|s.blob| % 0x1_0000_0000, 4) + s.blob
  }

  function InputMsgBytes(m: Input): Blob
    requires m.state.WellFormed()
  {
    [INPUT] + Le(m.frame, 8) + [m.port] + InputBytes(m.state)
  }

  function ChecksumBytes(c: Checksum): Blob {
    [CHECKSUM] + Le(c.frame, 8) + Le(c.crc, 4)
  }

  function DecodedHello(m: Blob): Option<Hello> {
    if |m| >= 89 && m[0] == HELLO
    then Some(Hello(U32(m[1..5]), m[5..68] + [0], U64(m[69..77]), U32(m[77..81]), U64(m[81..89])))
    else None
  }

  function DecodedStateSync(m: Blob): Option<StateSync> {
    if |m| >= 13 && m[0] == STATE_SYNC && |m| >= 13 + U32(m[9..13])
    then Some(StateSync(U64(m[1..9]), m[13..13 + U32(m[9..13])]))
    else None
  }

  function DecodedInput(m: Blob): Option<Input> {
    if |m| >= 284 && m[0] == INPUT then Some(Input(U64(m[1..9]), m[9], InputOf(m[10..284]))) else None
  }

  function DecodedChecksum(m: Blob): Option<Checksum> {
    if |m| >= 13 && m[0] == CHECKSUM then Some(Checksum(U64(m[1..9]), U32(m[9..13]))) else None
  }

  // ----- round trips -----

  lemma {:induction false} AxesRoundTrip(axes: seq<int16>)
    ensures AxesOf(AxesBytes(axes)) == axes
  {
    if axes != [] {
      Widths();
      OfLeLe(AxisWord(axes[0]), 2);
      assert AxesBytes(axes)[..2] == Le(AxisWord(axes[0]), 2);
      assert AxesBytes(axes)[2..] == AxesBytes(axes[1..]);
      AxesRoundTrip(axes[1..]);
    }
  }

  lemma {:induction false} AxesBack(b: Blob)
    requires |b| % 2 == 0
    ensures AxesBytes(AxesOf(b)) == b
  {
    if b != [] {
      AxesBack(b[2..]);
      LeOfLe(b[..2]);
      assert AxesOf(b)[1..] == AxesOf(b[2..]);
      assert AxisWord(AxesOf(b)[0]) == OfLe(b[..2]);
      assert b == b[..2] + b[2..];
    }
  }

  lemma InputStateRoundTrip(s: InputState)
    requires s.WellFormed()
    ensures InputOf(InputBytes(s)) == s
  {
    hide Le, OfLe, Pow256, AxesBytes, AxesOf;
    Widths();
    var b := InputBytes(s);
    assert b[..256] == s.keys;
    assert b[256..272] == AxesBytes(s.axes);
    assert b[272..] == Le(s.buttons, 2);
    AxesRoundTrip(s.axes);
    OfLeLe(s.buttons, 2);
  }

  lemma InputStateBack(b: Blob)
    requires |b| == 274
    ensures InputBytes(InputOf(b)) == b
  {
    hide Le, OfLe, Pow256, AxesBytes, AxesOf;
    AxesBack(b[256..272]);
    LeOfLe(b[272..]);
    assert b == b[..256] + b[256..272] + b[272..];
  }

  /** A hello reads back exactly when its 64-byte id ends in a zero byte, as the sessions build it. */
  lemma HelloRoundTrip(h: Hello)
    requires |h.coreId| == 64
    ensures DecodedHello(HelloBytes(h)) == Some(h) <==> h.coreId[63] == 0
  {
    hide Le, OfLe, Pow256, AxesBytes, AxesOf, InputBytes, InputOf;
    Widths();
    var b := HelloBytes(h);
    OfLeLe(h.abiVersion, 4);
    OfLeLe(h.contentHash, 8);
    OfLeLe(h.inputDelay, 4);
    OfLeLe(h.startFrame, 8);
    assert b[1..5] == Le(h.abiVersion, 4);
    assert b[5..68] == h.coreId[..63];
    assert b[69..77] == Le(h.contentHash, 8);
    assert b[77..81] == Le(h.inputDelay, 4);
    assert b[81..89] == Le(h.startFrame, 8);
    assert h.coreId == h.coreId[..63] + [h.coreId[63]];
    assert (h.coreId[..63] + [0])[63] == 0;
  }

  /** A state-sync message reads back exactly when its blob is shorter than 2^32 bytes; a longer one
      comes back cut to its length modulo 2^32. */
  lemma StateSyncRoundTrip(s: StateSync)
    ensures DecodedStateSync(StateSyncBytes(s)) == Some(StateSync(s.frame, s.blob[..|s.blob| % 0x1_0000_0000]))
    ensures DecodedStateSync(StateSyncBytes(s)) == Some(s) <==> |s.blob| < 0x1_0000_0000
  {
    hide Le, OfLe, Pow256, AxesBytes, AxesOf, InputBytes, InputOf;
    Widths();
    var b, len := StateSyncBytes(s), |s.blob| % 0x1_0000_0000;
    OfLeLe(s.frame, 8);
    OfLeLe(len, 4);
    assert b[1..9] == Le(s.frame, 8);
    assert b[9..13] == Le(len, 4);
    assert b[13..13 + len] == s.blob[..len];
    if len == |s.blob| { assert s.blob[..len] == s.blob; }
  }

  lemma InputRoundTrip(m: Input)
    requires m.state.WellFormed()
    ensures DecodedInput(InputMsgBytes(m)) == Some(m)
  {
    hide Le, OfLe, Pow256, AxesBytes, AxesOf, InputBytes, InputOf;
    Widths();
    var b := InputMsgBytes(m);
    OfLeLe(m.frame, 8);
    assert b[1..9] == Le(m.frame, 8);
    assert b[10..284] == InputBytes(m.state);
    InputStateRoundTrip(m.state);
  }

  lemma ChecksumRoundTrip(c: Checksum)
    ensures DecodedChecksum(ChecksumBytes(c)) == Some(c)
  {
    hide Le, OfLe, Pow256, AxesBytes, AxesOf, InputBytes, InputOf;
    Widths();
    var b := ChecksumBytes(c);
    OfLeLe(c.frame, 8);
    OfLeLe(c.crc, 4);
    assert b[1..9] == Le(c.frame, 8);
    assert b[9..13] == Le(c.crc, 4);
  }

  // ----- what decoders accept loses nothing -----

  /** Re-encoding a decoded message gives back the bytes that were read. */
  lemma StateSyncReencodes(m: Blob)
    requires DecodedStateSync(m).Some?
    ensures StateSyncBytes(DecodedStateSync(m).value) <= m
  {
    hide Le, OfLe, Pow256, AxesBytes, AxesOf, InputBytes, InputOf;
    var len := U32(m[9..13]);
    LeOfLe(m[1..9]);
    LeOfLe(m[9..13]);
    assert m[..13 + len] == [m[0]] + m[1..9] + m[9..13] + m[13..13 + len];
  }

  lemma InputReencodes(m: Blob)
    requires DecodedInput(m).Some?
    ensures InputMsgBytes(DecodedInput(m).value) <= m
  {
    hide Le, OfLe, Pow256, AxesBytes, AxesOf, InputBytes, InputOf;
    LeOfLe(m[1..9]);
    InputStateBack(m[10..284]);
    assert m[..284] == [m[0]] + m[1..9] + [m[9]] + m[10..284];
  }

  lemma ChecksumReencodes(m: Blob)
    requires DecodedChecksum(m).Some?
    ensures ChecksumBytes(DecodedChecksum(m).value) <= m
  {
    hide Le, OfLe, Pow256, AxesBytes, AxesOf, InputBytes, InputOf;
    LeOfLe(m[1..9]);
    LeOfLe(m[9..13]);
    assert m[..13] == [m[0]] + m[1..9] + m[9..13];
  }

  /** A hello gives back its bytes exactly when the last byte of its id was already zero. */
  lemma HelloReencodes(m: Blob)
    requires DecodedHello(m).Some?
    ensures HelloBytes(DecodedHello(m).value) <= m <==> m[68] == 0
  {
    hide Le, OfLe, Pow256, AxesBytes, AxesOf, InputBytes, InputOf;
    var h := DecodedHello(m).value;
    LeOfLe(m[1..5]);
    LeOfLe(m[69..77]);
    LeOfLe(m[77..81]);
    LeOfLe(m[81..89]);
    var b := HelloBytes(h);
    assert b == [m[0]] + m[1..5] + (m[5..68] + [0]) + m[69..77] + m[77..81] + m[81..89];
    assert b[68] == 0;
    if m[68] == 0 {
      assert m[..89] == [m[0]] + m[1..5] + (m[5..68] + [m[68]]) + m[69..77] + m[77..81] + m[81..89];
    }
  }

  // ----- byte by byte -----

  function Two(low: nat, high: nat): nat { low + 0x100 * high }

  /** Four bytes, least significant first. */
  function Four(b: Blob): (v: nat)
    requires |b| == 4
    ensures v < 0x1_0000_0000
  {
    Two(b[0], b[1]) + 0x1_0000 * Two(b[2], b[3])
  }

  lemma OfLeFour(b: Blob)
    requires |b| == 4
    ensures OfLe(b) == Four(b)
  {
    OfLeTwo(b);
    OfLeTwo(b[2..]);
    assert b[2..][2..] == [] && OfLe([]) == 0;
  }

  lemma OfLeTwo(b: Blob)
    requires |b| >= 2
    ensures OfLe(b) == Two(b[0], b[1]) + 0x1_0000 * OfLe(b[2..])
  {
    assert OfLe(b[1..]) == b[1] + 0x100 * OfLe(b[1..][1..]) && b[1..][1..] == b[2..];
  }

  /** Where each field of a hello is. */
  lemma HelloLayout(m: Blob)
    ensures DecodedHello(m).Some? <==> |m| >= 89 && m[0] == 1
    ensures DecodedHello(m).Some?
       ==> DecodedHello(m).value
             == Hello(Four(m[1..5]), m[5..68] + [0], U64(m[69..77]), Four(m[77..81]), U64(m[81..89]))
  {
    hide OfLe, Four, Pow256;
    if |m| >= 89 {
      OfLeFour(m[1..5]);
      OfLeFour(m[77..81]);
    }
  }

  /** Where each field of a state message is. Its blob is as long as the length field says. */
  lemma StateSyncLayout(m: Blob)
    ensures |m| < 13 ==> DecodedStateSync(m) == None
    ensures |m| >= 13 ==>
              var blobEnd := 13 + OfLe(m[9..13]);
              && (DecodedStateSync(m).Some? <==> m[0] == 2 && |m| >= blobEnd)
              && (DecodedStateSync(m).Some? ==> DecodedStateSync(m).value.blob == m[13..blobEnd])
              && OfLe(m[9..13]) == Four(m[9..13])
    ensures DecodedStateSync(m).Some? ==> DecodedStateSync(m).value.frame == U64(m[1..9])
  {
    hide OfLe, Four, Pow256;
    if |m| >= 13 {
      OfLeFour(m[9..13]);
    }
  }

  /** Where each field of an input message is: 256 keys, eight axes in two's complement, the buttons. */
  lemma InputLayout(m: Blob)
    ensures DecodedInput(m).Some? <==> |m| >= 284 && m[0] == 3
    ensures DecodedInput(m).Some? ==>
              var i := DecodedInput(m).value;
              && i.frame == U64(m[1..9]) && i.port == m[9] && i.state.keys == m[10..266]
              && i.state.buttons == Two(m[282], m[283])
              && |i.state.axes| == 8
              && forall k | 0 <= k < 8 ::
                   var w := Two(m[266 + 2 * k], m[267 + 2 * k]);
                   i.state.axes[k] == if w < 0x8000 then w else w - 0x1_0000
  {
    hide OfLe, Four, Pow256, AxesOf;
    if |m| >= 284 {
      var b := m[10..284];
      assert b[..256] == m[10..266];
      WordIs(b[272..]);
      forall k | 0 <= k < 8
        ensures AxesOf(b[256..272])[k]
             == var w := Two(m[266 + 2 * k], m[267 + 2 * k]); if w < 0x8000 then w else w - 0x1_0000
      {
        AxesAt(b[256..272], k);
        assert b[256..272][2 * k] == m[266 + 2 * k] && b[256..272][2 * k + 1] == m[267 + 2 * k];
      }
    }
  }

  lemma WordIs(b: Blob)
    requires |b| == 2
    ensures Word(b) == Two(b[0], b[1])
  {
    OfLeTwo(b);
    assert b[2..] == [] && OfLe([]) == 0;
  }

  lemma {:induction false} AxesAt(b: Blob, k: nat)
    requires |b| % 2 == 0 && 2 * k + 1 < |b|
    ensures var w := Two(b[2 * k], b[2 * k + 1]);
      AxesOf(b)[k] == if w < 0x8000 then w else w - 0x1_0000
    decreases k
  {
    if k == 0 { WordIs(b[..2]); } else { AxesAt(b[2..], k - 1); }
  }

  /** Where each field of a checksum message is. */
  lemma ChecksumLayout(m: Blob)
    ensures DecodedChecksum(m).Some? <==> |m| >= 13 && m[0] == 4
    ensures DecodedChecksum(m).Some? ==> DecodedChecksum(m).value == Checksum(U64(m[1..9]), Four(m[9..13]))
  {
    hide OfLe, Four, Pow256;
    if |m| >= 13 {
      OfLeFour(m[9..13]);
    }
  }

  // ----- the code -----

  lemma {:induction false} LeSnoc(v: nat, n: nat)
    ensures Le(v, n + 1) == Le(v, n) + [(v / Pow256(n)) % 256]
    decreases n
  {
    if n == 0 {
      assert v / 1 == v;
    } else {
      LeSnoc(v / 256, n - 1);
      DivDiv(v, n - 1);
    }
  }

  lemma DivDiv(v: nat, n: nat)
    ensures (v / 256) / Pow256(n) == v / Pow256(n + 1)
  {
    var p := Pow256(n);
    var q, r := (v / 256) / p, (v / 256) % p;
    assert v / 256 == p * q + r;
    assert v == 256 * (p * q + r) + v % 256;
    assert 256 * (p * q) == (256 * p) * q;
    QuotientIs(v, 256 * p, q, 256 * r + v % 256);
  }

  lemma QuotientIs(v: nat, d: nat, q: nat, r: nat)
    requires d > 0 && v == d * q + r && r < d
    ensures v / d == q
  {
    var k := v / d;
    assert v == d * k + v % d;
    MulOrder(d, q, k);
    MulOrder(d, k, q);
  }

  lemma {:induction false} MulOrder(d: nat, a: nat, b: nat)
    ensures a < b ==> d * a + d <= d * b
    decreases b
  {
    if a < b {
      MulOrder(d, a, b - 1);
      MulNext(d, b - 1);
    }
  }

  lemma MulNext(d: nat, k: nat)
    ensures d * (k + 1) == d * k + d
  {
  }

  /** The `put_*` loop: byte `i` is `v >> 8 i`. */
  method Put(b: Blob, v: nat, n: nat) returns (r: Blob)
    ensures r == b + Le(v, n)
  {
    r := b;
    var i, p: nat := 0, 1;
    while i < n
      invariant 0 <= i <= n && p == Pow256(i)
      invariant r == b + Le(v, i)
    {
      LeSnoc(v, i);
      r := r + [(v / p) % 256];
      i, p := i + 1, 256 * p;
    }
  }

  lemma {:induction false} OfLeSnoc(b: Blob, x: byte)
    ensures OfLe(b + [x]) == OfLe(b) + x * Pow256(|b|)
  {
    if b == [] {
      assert b + [x] == [x] && [x][1..] == [] && x * 1 == x;
    } else {
      assert (b + [x])[1..] == b[1..] + [x];
      OfLeSnoc(b[1..], x);
      ShiftUp(x, Pow256(|b| - 1), OfLe(b[1..]));
    }
  }

  lemma ShiftUp(x: nat, p: nat, v: nat)
    ensures 256 * (v + x * p) == 256 * v + x * (256 * p)
  {
  }

  /** The `get_*` loop: refuses to read past the end, otherwise advances the offset. */
  method Get(p: Blob, o: nat, n: nat) returns (ok: bool, o': nat, v: nat)
    ensures ok <==> o + n <= |p|
    ensures ok ==> o' == o + n && v == OfLe(p[o..o + n])
    ensures !ok ==> o' == o
  {
    if o + n > |p| { return false, o, 0; }
    v := 0;
    var i, w: nat := 0, 1;
    while i < n
      invariant 0 <= i <= n && w == Pow256(i)
      invariant v == OfLe(p[o..o + i])
    {
      OfLeSnoc(p[o..o + i], p[o + i]);
      assert p[o..o + (i + 1)] == p[o..o + i] + [p[o + i]];
      v := v + p[o + i] * w;
      i, w := i + 1, 256 * w;
    }
    ok, o' := true, o + n;
  }

  method PutInput(b: Blob, s: InputState) returns (r: Blob)
    requires s.WellFormed()
    ensures r == b + InputBytes(s)
  {
    r := b + s.keys;
    var i := 0;
    while i < 8
      invariant 0 <= i <= 8
      invariant r == b + s.keys + AxesBytes(s.axes[..i])
    {
      r := Put(r, AxisWord(s.axes[i]), 2);
      AxesSnoc(s.axes[..i], s.axes[i]);
      assert s.axes[..i + 1] == s.axes[..i] + [s.axes[i]];
      i := i + 1;
    }
    assert s.axes[..8] == s.axes;
    r := Put(r, s.buttons, 2);
  }

  lemma {:induction false} AxesSnoc(axes: seq<int16>, a: int16)
    ensures AxesBytes(axes + [a]) == AxesBytes(axes) + Le(AxisWord(a), 2)
  {
    if axes == [] {
      assert axes + [a] == [a] && [a][1..] == [];
    } else {
      assert (axes + [a])[1..] == axes[1..] + [a];
      AxesSnoc(axes[1..], a);
    }
  }

  lemma {:induction false} AxesOfSnoc(b: Blob, w: Blob)
    requires |b| % 2 == 0 && |w| == 2
    ensures AxesOf(b + w) == AxesOf(b) + [AxisOf(Word(w))]
  {
    if b == [] {
      assert b + w == w && w[2..] == [] && w[..2] == w;
    } else {
      assert (b + w)[2..] == b[2..] + w && (b + w)[..2] == b[..2];
      AxesOfSnoc(b[2..], w);
    }
  }

  method GetInput(p: Blob, o: nat) returns (ok: bool, s: InputState)
    ensures ok <==> o + 274 <= |p|
    ensures ok ==> s == InputOf(p[o..o + 274])
  {
    s := Neutral();
    if o + 256 > |p| { return false, s; }
    var keys, at := p[o..o + 256], o + 256;
    var axes: seq<int16>, i := [], 0;
    while i < 8
      invariant 0 <= i <= 8 && at == o + 256 + 2 * i && at <= |p|
      invariant axes == AxesOf(p[o + 256..at])
    {
      var got, next, a := Get(p, at, 2);
      if !got { return false, s; }
      Widths();
      AxesOfSnoc(p[o + 256..at], p[at..at + 2]);
      assert p[o + 256..at + 2] == p[o + 256..at] + p[at..at + 2];
      axes, at, i := axes + [AxisOf(a)], next, i + 1;
    }
    var got, next, bt := Get(p, at, 2);
    if !got { return false, s; }
    Widths();
    var all := p[o..o + 274];
    assert all[..256] == keys && all[256..272] == p[o + 256..at] && all[272..] == p[at..at + 2];
    return true, Pad(keys, axes, bt);
  }

  method EncodeHello(h: Hello) returns (b: Blob)
    ensures b == HelloBytes(h)
  {
    b := Put([HELLO], h.abiVersion, 4);
    b := b + h.coreId;
    b := Put(b, h.contentHash, 8);
    b := Put(b, h.inputDelay, 4);
    b := Put(b, h.startFrame, 8);
  }

  method EncodeStateSync(s: StateSync) returns (b: Blob)
    ensures b == StateSyncBytes(s)
  {
    b := Put([STATE_SYNC], s.frame, 8);
    b := Put(b, |s.blob| % 0x1_0000_0000, 4);
    b := b + s.blob;
  }

  method EncodeInput(m: Input) returns (b: Blob)
    requires m.state.WellFormed()
    ensures b == InputMsgBytes(m) && DecodedInput(b) == Some(m)
  {
    b := Put([INPUT], m.frame, 8);
    b := b + [m.port];
    b := PutInput(b, m.state);
    assert b == InputMsgBytes(m);
    InputRoundTrip(m);
  }

  method EncodeChecksum(c: Checksum) returns (b: Blob)
    ensures b == ChecksumBytes(c) && DecodedChecksum(b) == Some(c)
  {
    b := Put([CHECKSUM], c.frame, 8);
    b := Put(b, c.crc, 4);
    ChecksumRoundTrip(c);
  }

  method DecodeHello(m: Blob) returns (r: Option<Hello>)
    ensures r == DecodedHello(m)
  {
    if m == [] || m[0] != HELLO { return None; }
    Widths();
    var ok, o, abi := Get(m, 1, 4);
    if !ok { return None; }
    if o + 64 > |m| { return None; }
    var id := m[o..o + 63] + [0];
    o := o + 64;
    var hash, delay, start;
    ok, o, hash := Get(m, o, 8);
    if !ok { return None; }
    ok, o, delay := Get(m, o, 4);
    if !ok { return None; }
    ok, o, start := Get(m, o, 8);
    if !ok { return None; }
    return Some(Hello(abi, id, hash, delay, start));
  }

  method DecodeStateSync(m: Blob) returns (r: Option<StateSync>)
    ensures r == DecodedStateSync(m)
  {
    if m == [] || m[0] != STATE_SYNC { return None; }
    Widths();
    var ok, o, frame := Get(m, 1, 8);
    if !ok { return None; }
    var len;
    ok, o, len := Get(m, o, 4);
    if !ok { return None; }
    if o + len > |m| { return None; }
    return Some(StateSync(frame, m[o..o + len]));
  }

  method DecodeInput(m: Blob) returns (r: Option<Input>)
    ensures r == DecodedInput(m)
  {
    if m == [] || m[0] != INPUT { return None; }
    Widths();
    var ok, o, frame := Get(m, 1, 8);
    if !ok { return None; }
    if o + 1 > |m| { return None; }
    var port := m[o];
    var state;
    ok, state := GetInput(m, o + 1);
    if !ok { return None; }
    return Some(Input(frame, port, state));
  }

  method DecodeChecksum(m: Blob) returns (r: Option<Checksum>)
    ensures r == DecodedChecksum(m)
  {
    if m == [] || m[0] != CHECKSUM { return None; }
    Widths();
    var ok, o, frame := Get(m, 1, 8);
    if !ok { return None; }
    var crc;
    ok, o, crc := Get(m, o, 4);
    if !ok { return None; }
    return Some(Checksum(frame, crc));
  }
}
