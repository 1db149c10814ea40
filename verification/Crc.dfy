/**
  The 16-bit CRC service functions of CoreMark (coremark/core_util.c).

  `Crcu8` is the bitwise loop of the source.  It is specified by the reflected
  CRC-16 register step (polynomial 0xA001), and the algebra of that register is
  proved for messages of any length: the update is linear, it permutes the
  register, and every error burst of at most 16 bits changes the checksum.
*/
module Crc {

  function Xor(a: bv16, b: bv16): bv16 {
    a ^ b
  }

  /** One shift of the reflected CRC-16 register with input bit 0. */
  function Step(c: bv16): bv16 {
    (c >> 1) ^ (0xA001 * (c & 1))
  }

  /** The register step run backwards. */
  function Unstep(c: bv16): bv16 {
    ((c ^ (0xA001 * (c >> 15))) << 1) | (c >> 15)
  }

  /** The register step is a bijection: `Unstep` undoes it from both sides. */
  lemma UnstepInvertsStep(c: bv16)
    ensures Unstep(Step(c)) == c
    ensures Step(Unstep(c)) == c
  {
  }

  lemma StepLinear(a: bv16, b: bv16)
    ensures Step(Xor(a, b)) == Xor(Step(a), Step(b))
  {
  }

  /** Feed a bit string, first bit first, into the register. */
  function CrcBits(bits: seq<bool>, c: bv16): bv16 {
    if bits == [] then c else CrcBits(bits[1..], Step(Xor(c, Bit(bits[0]))))
  }

  function Bit(b: bool): bv16 {
    if b then 1 else 0
  }

  lemma {:induction false} CrcBitsConcat(x: seq<bool>, y: seq<bool>, c: bv16)
    ensures CrcBits(x + y, c) == CrcBits(y, CrcBits(x, c))
    decreases |x|
  {
    hide Step, Xor, Bit;
    if x == [] {
      assert x + y == y;
    } else {
      assert (x + y)[1..] == x[1..] + y;
      CrcBitsConcat(x[1..], y, Step(Xor(c, Bit(x[0]))));
    }
  }

  lemma XorInjective(a: bv16, b: bv16, m: bv16)
    requires Xor(a, m) == Xor(b, m)
    ensures a == b
  {
    assert (a ^ m) ^ m == a && (b ^ m) ^ m == b;
  }

  /** For every fixed message the update permutes the register. */
  lemma {:induction false} CrcBitsInjective(bits: seq<bool>, a: bv16, b: bv16)
    requires CrcBits(bits, a) == CrcBits(bits, b)
    ensures a == b
    decreases |bits|
  {
    if bits != [] {
      var m := Bit(bits[0]);
      hide *;
      var a', b' := Xor(a, m), Xor(b, m);
      Unfold(bits, a);
      Unfold(bits, b);
      CrcBitsInjective(bits[1..], Step(a'), Step(b'));
      UnstepInvertsStep(a');
      UnstepInvertsStep(b');
      XorInjective(a, b, m);
    }
  }

  lemma Unfold(bits: seq<bool>, c: bv16)
    requires bits != []
    ensures CrcBits(bits, c) == CrcBits(bits[1..], Step(Xor(c, Bit(bits[0]))))
  {
  }

  // ---- Linearity and error detection ----------------------------------------

  function XorBits(x: seq<bool>, y: seq<bool>): (z: seq<bool>)
    requires |x| == |y|
    ensures |z| == |x|
  {
    seq(|x|, i requires 0 <= i < |x| => x[i] != y[i])
  }

  lemma XorAssoc(a: bv16, b: bv16, c: bv16)
    ensures Xor(Xor(a, b), c) == Xor(a, Xor(b, c))
  {
  }

  lemma XorComm(a: bv16, b: bv16)
    ensures Xor(a, b) == Xor(b, a)
  {
  }

  lemma FeedLinear(a: bv16, b: bv16, p: bool, q: bool)
    ensures Step(Xor(Xor(a, b), Bit(p != q))) == Xor(Step(Xor(a, Bit(p))), Step(Xor(b, Bit(q))))
  {
    var m, n := Bit(p), Bit(q);
    assert Bit(p != q) == Xor(m, n);
    StepLinear(Xor(a, m), Xor(b, n));
    Regroup(a, b, m, n);
  }

  lemma Regroup(a: bv16, b: bv16, m: bv16, n: bv16)
    ensures Xor(Xor(a, m), Xor(b, n)) == Xor(Xor(a, b), Xor(m, n))
  {
    hide Xor;
    XorAssoc(a, m, Xor(b, n));
    XorAssoc(m, b, n);
    XorAssoc(b, m, n);
    XorAssoc(a, b, Xor(m, n));
    XorComm(m, b);
  }

  /** The checksum is linear over GF(2) in message and register together. */
  lemma {:induction false} CrcBitsLinear(x: seq<bool>, y: seq<bool>, a: bv16, b: bv16)
    requires |x| == |y|
    ensures CrcBits(XorBits(x, y), Xor(a, b)) == Xor(CrcBits(x, a), CrcBits(y, b))
    decreases |x|
  {
    hide Step, Xor, Bit;
    if x != [] {
      FeedLinear(a, b, x[0], y[0]);
      assert XorBits(x, y)[1..] == XorBits(x[1..], y[1..]);
      CrcBitsLinear(x[1..], y[1..], Step(Xor(a, Bit(x[0]))), Step(Xor(b, Bit(y[0]))));
    } else {
      assert XorBits(x, y) == [];
    }
  }

  /** The low `n` bits, as a mask. */
  function Mask(n: nat): bv16 {
    if n == 0 then 0 else Push(Mask(n - 1))
  }

  function Push(m: bv16): bv16 {
    (m << 1) | 1
  }

  lemma StepInsideMask(x: bv16, m: bv16)
    requires m & 0x8000 == 0 && Step(x) & m == Step(x)
    ensures x & Push(m) == x && x & 1 == 0
  {
  }

  lemma XorInsideMask(x: bv16, m: bv16, b: bv16)
    requires m & 1 == 1 && Xor(x, b) & m == Xor(x, b) && (b == 0 || b == 1)
    ensures x & m == x
  {
    if b == 0 {} else {}
  }

  lemma {:induction false} MaskTop(n: nat)
    requires n < 16
    ensures Mask(n) & 0x8000 == 0 && Mask(n + 1) & 1 == 1
  {
    assert Mask(0) == 0 && Mask(1) == 1 && Mask(2) == 3 && Mask(3) == 7;
    assert Mask(4) == 0xf && Mask(5) == 0x1f && Mask(6) == 0x3f && Mask(7) == 0x7f;
    assert Mask(8) == 0xff && Mask(9) == 0x1ff && Mask(10) == 0x3ff && Mask(11) == 0x7ff;
    assert Mask(12) == 0xfff && Mask(13) == 0x1fff && Mask(14) == 0x3fff && Mask(15) == 0x7fff;
  }

  /** A register that `|w|` more bits bring to zero has only its low `|w|` bits set. */
  lemma {:induction false} ClearedRegisterIsSmall(w: seq<bool>, r: bv16)
    requires |w| <= 16 && CrcBits(w, r) == 0
    ensures r & Mask(|w|) == r
    decreases |w|
  {
    hide Step, Xor;
    if w != [] {
      var b := Bit(w[0]);
      var x := Xor(r, b);
      ClearedRegisterIsSmall(w[1..], Step(x));
      MaskTop(|w| - 1);
      assert Mask(|w|) == Push(Mask(|w| - 1));
      StepInsideMask(x, Mask(|w| - 1));
      XorInsideMask(r, Mask(|w|), b);
    }
  }

  lemma {:induction false} SilentBits(d: seq<bool>)
    requires forall i :: 0 <= i < |d| ==> !d[i]
    ensures CrcBits(d, 0) == 0
    decreases |d|
  {
    if d != [] {
      assert Step(Xor(0, Bit(false))) == 0;
      SilentBits(d[1..]);
    }
  }

  lemma ShortBurst(d: seq<bool>)
    requires 0 < |d| <= 16 && d[0]
    ensures CrcBits(d, 0) != 0
  {
    MaskTop(|d| - 1);
    TopBitLost(Mask(|d| - 1));
    assert Step(Xor(0, Bit(true))) == 0xA001;
    if CrcBits(d[1..], 0xA001) == 0 {
      ClearedRegisterIsSmall(d[1..], 0xA001);
    }
  }

  lemma TopBitLost(m: bv16)
    requires m & 0x8000 == 0
    ensures 0xA001 & m != 0xA001
  {
  }

  lemma BurstPattern(d: seq<bool>, k: nat)
    requires k < |d| && d[k]
    requires forall i :: 0 <= i < |d| && (i < k || k + 16 <= i) ==> !d[i]
    ensures CrcBits(d, 0) != 0
  {
    hide Step, Xor, Bit, Mask;
    var e := if k + 16 <= |d| then k + 16 else |d|;
    var mid, tail := d[k..e], d[e..];
    assert d == d[..k] + (mid + tail);
    SilentBits(d[..k]);
    SilentBits(tail);
    CrcBitsConcat(d[..k], mid + tail, 0);
    CrcBitsConcat(mid, tail, 0);
    ShortBurst(mid);
    if CrcBits(d, 0) == 0 {
      CrcBitsInjective(tail, CrcBits(mid, 0), 0);
    }
  }

  /** Index of the first position where two messages differ. */
  lemma {:induction false} FirstDifference(x: seq<bool>, y: seq<bool>) returns (k: nat)
    requires |x| == |y| && x != y
    ensures k < |x| && x[k] != y[k]
    ensures forall i :: 0 <= i < k ==> x[i] == y[i]
  {
    k := 0;
    while k < |x| && x[k] == y[k]
      invariant k <= |x|
      invariant forall i :: 0 <= i < k ==> x[i] == y[i]
    {
      k := k + 1;
    }
  }

  /**
    Error detection: two messages of equal length whose differences lie within 16
    consecutive bits never share a checksum, whatever the initial register.
  */
  lemma BurstDetected(x: seq<bool>, y: seq<bool>, lo: nat, c: bv16)
    requires |x| == |y| && x != y
    requires forall i :: 0 <= i < |x| && (i < lo || lo + 16 <= i) ==> x[i] == y[i]
    ensures CrcBits(x, c) != CrcBits(y, c)
  {
    hide Step, Bit, Mask;
    var k := FirstDifference(x, y);
    BurstPattern(XorBits(x, y), k);
    CrcBitsLinear(x, y, c, c);
    XorSelf(c);
    if CrcBits(x, c) == CrcBits(y, c) {
      XorSelf(CrcBits(x, c));
    }
  }

  lemma XorSelf(c: bv16)
    ensures Xor(c, c) == 0
  {
  }

  // ---- crcu8, crcu16, crcu32 and crc16 ---------------------------------------

  /** The low `n` bits of a value, least significant first. */
  function LowBits(d: bv16, n: nat): (bits: seq<bool>)
    ensures |bits| == n
  {
    if n == 0 then [] else [Odd(d)] + LowBits(Half(d), n - 1)
  }

  predicate Odd(d: bv16) {
    d & 1 == 1
  }

  function Half(d: bv16): bv16 {
    d >> 1
  }

  function ByteBits(b: bv8): (bits: seq<bool>)
    ensures |bits| == 8
  {
    LowBits(b as bv16, 8)
  }

  /** What `crcu8` computes: the eight data bits fed in, least significant first. */
  function CrcByte(data: bv8, crc: bv16): bv16 {
    CrcBits(ByteBits(data), crc)
  }

  lemma TurnOnOne(d: bv8, c: bv16)
    requires (d & 1) ^ (((c & 0xff) as bv8) & 1) == 1
    ensures ((c ^ 0x4002) >> 1) | 0x8000 == Step(Xor(c, (d & 1) as bv16))
  {
  }

  lemma TurnOnZero(d: bv8, c: bv16)
    requires (d & 1) ^ (((c & 0xff) as bv8) & 1) != 1
    ensures (c >> 1) & 0x7fff == Step(Xor(c, (d & 1) as bv16))
  {
  }

  lemma WidenedShift(d: bv8)
    ensures (d >> 1) as bv16 == Half(d as bv16)
    ensures (d & 1) as bv16 == (d as bv16) & 1
  {
  }

  lemma LowBit(d: bv16)
    ensures d & 1 == Bit(Odd(d))
  {
  }

  method Crcu8(data: bv8, crc: bv16) returns (r: bv16)
    ensures r == CrcByte(data, crc)
  {
    hide Step, Xor, Bit;
    var d, c := data, crc;
    var i := 0;
    while i < 8
      invariant 0 <= i <= 8
      invariant CrcBits(LowBits(d as bv16, 8 - i), c) == CrcByte(data, crc)
    {
      var x16 := (d & 1) ^ (((c & 0xff) as bv8) & 1);
      WidenedShift(d);
      LowBit(d as bv16);
      ghost var bits := LowBits(d as bv16, 8 - i);
      assert bits[1..] == LowBits((d >> 1) as bv16, 7 - i);
      Unfold(bits, c);
      if x16 == 1 {
        TurnOnOne(d, c);
        c := ((c ^ 0x4002) >> 1) | 0x8000;
      } else {
        TurnOnZero(d, c);
        c := (c >> 1) & 0x7fff;
      }
      d := d >> 1;
      i := i + 1;
    }
    r := c;
  }

  function Low8(v: bv16): bv8 {
    (v & 0xff) as bv8
  }

  function High8(v: bv16): bv8 {
    (v >> 8) as bv8
  }

  /** The checksum of a byte message: a left fold of `crcu8`. */
  function CrcBytes(m: seq<bv8>, crc: bv16): bv16 {
    if m == [] then crc else CrcBytes(m[1..], CrcByte(m[0], crc))
  }

  method Crcu16(newval: bv16, crc: bv16) returns (r: bv16)
    ensures r == CrcBytes([Low8(newval), High8(newval)], crc)
  {
    hide CrcByte;
    r := Crcu8((newval & 0xff) as bv8, crc);
    r := Crcu8((newval >> 8) as bv8, r);
    CrcTwo(Low8(newval), High8(newval), crc);
  }

  lemma CrcTwo(a: bv8, b: bv8, crc: bv16)
    ensures CrcBytes([a, b], crc) == CrcByte(b, CrcByte(a, crc))
  {
    hide CrcByte;
    assert [a, b][1..] == [b];
    assert CrcBytes([b], CrcByte(a, crc)) == CrcBytes([], CrcByte(b, CrcByte(a, crc)));
  }

  /** `crc16` only reinterprets its argument as unsigned. */
  method Crc16(newval: bv16, crc: bv16) returns (r: bv16)
    ensures r == CrcBytes([Low8(newval), High8(newval)], crc)
  {
    r := Crcu16(newval, crc);
  }

  function LittleEndian(v: bv32): seq<bv8> {
    [(v & 0xff) as bv8, ((v >> 8) & 0xff) as bv8, ((v >> 16) & 0xff) as bv8, (v >> 24) as bv8]
  }

  /** The bytes of a word, weighted by the powers of 256, add up to it. */
  lemma LittleEndianSum(v: bv32)
    ensures var b := LittleEndian(v);
      && |b| == 4
      && (b[0] as bv32) + 0x100 * (b[1] as bv32) + 0x1_0000 * (b[2] as bv32) + 0x100_0000 * (b[3] as bv32) == v
  {
  }

  lemma HalfWordSum(v: bv16)
    ensures (Low8(v) as bv16) + 0x100 * (High8(v) as bv16) == v
  {
  }

  /** A small number as a byte, by its binary digits. */
  function Binary(n: nat): bv8
    requires n < 0x100
  {
    if n == 0 then 0 else Doubled(Binary(n / 2), n % 2 == 1)
  }

  function Doubled(b: bv8, odd: bool): bv8 {
    if odd then b * 2 + 1 else b * 2
  }

  lemma DoubledNumber(b: bv8, odd: bool)
    requires b as int < 0x80
    ensures Doubled(b, odd) as int == 2 * (b as int) + if odd then 1 else 0
  {
  }

  lemma {:induction false} BinaryNumber(n: nat)
    requires n < 0x100
    ensures Binary(n) as int == n
    decreases n
  {
    hide Doubled;
    if n > 0 {
      BinaryNumber(n / 2);
      DoubledNumber(Binary(n / 2), n % 2 == 1);
    }
  }

  /** The low byte of a number. */
  function ByteOf(x: int): bv8 {
    Binary(x % 0x100)
  }

  lemma ByteNumber(x: int)
    ensures ByteOf(x) as int == x % 0x100
  {
    BinaryNumber(x % 0x100);
  }

  /** A number in 16 bits. */
  function HalfOf(x: int): bv16 {
    (ByteOf(x) as bv16) + ((ByteOf(x / 0x100) as bv16) << 8)
  }

  /** A number in 32 bits. */
  function WordOf(x: int): bv32 {
    (HalfOf(x) as bv32) + ((HalfOf(x / 0x1_0000) as bv32) << 16)
  }

  lemma JoinedHalf(a: bv8, b: bv8)
    ensures var v := (a as bv16) + ((b as bv16) << 8); Low8(v) == a && High8(v) == b
  {
  }

  lemma JoinedWord(a: bv16, b: bv16)
    ensures LittleEndian((a as bv32) + ((b as bv32) << 16)) == [Low8(a), High8(a), Low8(b), High8(b)]
  {
  }

  lemma HalfBytes(x: int)
    ensures Low8(HalfOf(x)) == ByteOf(x) && High8(HalfOf(x)) == ByteOf(x / 0x100)
  {
    hide ByteOf, Low8, High8;
    JoinedHalf(ByteOf(x), ByteOf(x / 0x100));
  }

  lemma BytesAdd(x: int)
    ensures x % 0x100 + 0x100 * ((x / 0x100) % 0x100) == x % 0x1_0000
  {
  }

  /** The two bytes of a half word hold the number modulo 2^16. */
  lemma HalfNumber(x: int)
    ensures Low8(HalfOf(x)) as int == x % 0x100 && High8(HalfOf(x)) as int == (x / 0x100) % 0x100
    ensures (Low8(HalfOf(x)) as int) + 0x100 * (High8(HalfOf(x)) as int) == x % 0x1_0000
  {
    hide ByteOf, Low8, High8, HalfOf;
    HalfBytes(x);
    ByteNumber(x);
    ByteNumber(x / 0x100);
    BytesAdd(x);
  }

  /** The four bytes of a word, two by two, hold the number modulo 2^32. */
  lemma WordBytes(x: int)
    ensures var h, k := HalfOf(x), HalfOf(x / 0x1_0000);
      LittleEndian(WordOf(x)) == [Low8(h), High8(h), Low8(k), High8(k)]
  {
    hide HalfOf, Low8, High8, LittleEndian;
    JoinedWord(HalfOf(x), HalfOf(x / 0x1_0000));
  }

  lemma HalvesAdd(x: int)
    ensures x % 0x1_0000 + 0x1_0000 * ((x / 0x1_0000) % 0x1_0000) == x % 0x1_0000_0000
  {
  }

  function Weighted(b: seq<bv8>): int
    requires |b| == 4
  {
    (b[0] as int) + 0x100 * (b[1] as int) + 0x1_0000 * (b[2] as int) + 0x100_0000 * (b[3] as int)
  }

  lemma WeightedHalves(a: bv8, b: bv8, c: bv8, d: bv8)
    ensures Weighted([a, b, c, d]) == (a as int) + 0x100 * (b as int) + 0x1_0000 * ((c as int) + 0x100 * (d as int))
  {
  }

  /** The four bytes of a word hold the number modulo 2^32. */
  lemma WordNumber(x: int)
    ensures |LittleEndian(WordOf(x))| == 4 && Weighted(LittleEndian(WordOf(x))) == x % 0x1_0000_0000
  {
    hide HalfOf, Low8, High8, WordOf, Weighted;
    var h, k := HalfOf(x), HalfOf(x / 0x1_0000);
    WordBytes(x);
    HalfNumber(x);
    HalfNumber(x / 0x1_0000);
    WeightedHalves(Low8(h), High8(h), Low8(k), High8(k));
    HalvesAdd(x);
  }

  lemma HalvesOf(v: bv32)
    ensures Low8((v & 0xffff) as bv16) == (v & 0xff) as bv8
    ensures High8((v & 0xffff) as bv16) == ((v >> 8) & 0xff) as bv8
    ensures Low8((v >> 16) as bv16) == ((v >> 16) & 0xff) as bv8
    ensures High8((v >> 16) as bv16) == (v >> 24) as bv8
  {
  }

  method Crcu32(newval: bv32, crc: bv16) returns (r: bv16)
    ensures r == CrcBytes(LittleEndian(newval), crc)
  {
    r := Crc16((newval & 0xffff) as bv16, crc);
    r := Crc16((newval >> 16) as bv16, r);
    HalvesOf(newval);
    CrcBytesConcat([Low8((newval & 0xffff) as bv16), High8((newval & 0xffff) as bv16)],
                   [Low8((newval >> 16) as bv16), High8((newval >> 16) as bv16)], crc);
  }

  lemma {:induction false} CrcBytesConcat(x: seq<bv8>, y: seq<bv8>, c: bv16)
    ensures CrcBytes(x + y, c) == CrcBytes(y, CrcBytes(x, c))
    decreases |x|
  {
    hide CrcByte;
    if x == [] {
      assert x + y == y;
    } else {
      assert (x + y)[1..] == x[1..] + y;
      CrcBytesConcat(x[1..], y, CrcByte(x[0], c));
    }
  }

  /** A byte message as the bit string that reaches the register. */
  function MessageBits(m: seq<bv8>): (bits: seq<bool>)
    ensures |bits| == 8 * |m|
  {
    if m == [] then [] else ByteBits(m[0]) + MessageBits(m[1..])
  }

  lemma {:induction false} CrcBytesIsCrcBits(m: seq<bv8>, c: bv16)
    ensures CrcBytes(m, c) == CrcBits(MessageBits(m), c)
    decreases |m|
  {
    hide Step, Xor, Bit, ByteBits;
    if m != [] {
      CrcBytesIsCrcBits(m[1..], CrcByte(m[0], c));
      CrcBitsConcat(ByteBits(m[0]), MessageBits(m[1..]), c);
    }
  }

  lemma {:induction false} MessageBitsConcat(x: seq<bv8>, y: seq<bv8>)
    ensures MessageBits(x + y) == MessageBits(x) + MessageBits(y)
    decreases |x|
  {
    hide ByteBits;
    if x == [] {
      assert x + y == y;
    } else {
      assert (x + y)[1..] == x[1..] + y;
      MessageBitsConcat(x[1..], y);
    }
  }

  /** The low `n` bits of a value, in place. */
  function Keep(d: bv16, n: nat): bv16 {
    d & Mask(n)
  }

  lemma SameLowBits(a: bv16, b: bv16, n: nat)
    requires n > 0 && Odd(a) == Odd(b) && Keep(Half(a), n - 1) == Keep(Half(b), n - 1)
    ensures Keep(a, n) == Keep(b, n)
  {
    hide Odd, Half, Push;
    SameLowBitsUnder(a, b, Mask(n - 1));
  }

  lemma SameLowBitsUnder(a: bv16, b: bv16, m: bv16)
    requires Odd(a) == Odd(b) && Half(a) & m == Half(b) & m
    ensures a & Push(m) == b & Push(m)
  {
  }

  lemma {:induction false} LowBitsDetermine(a: bv16, b: bv16, n: nat)
    requires LowBits(a, n) == LowBits(b, n)
    ensures Keep(a, n) == Keep(b, n)
    decreases n
  {
    if n == 0 {
      KeepNone(a);
      KeepNone(b);
    } else {
      hide Odd, Half, Keep;
      assert LowBits(a, n)[0] == Odd(a) && LowBits(b, n)[0] == Odd(b);
      assert LowBits(a, n)[1..] == LowBits(Half(a), n - 1) && LowBits(b, n)[1..] == LowBits(Half(b), n - 1);
      LowBitsDetermine(Half(a), Half(b), n - 1);
      SameLowBits(a, b, n);
    }
  }

  lemma KeepNone(a: bv16)
    ensures Keep(a, 0) == 0
  {
  }

  lemma KeepByte(a: bv8)
    ensures Keep(a as bv16, 8) == a as bv16
  {
    MaskTop(8);
    assert Mask(8) == 0xff by { assert Mask(4) == 0xf; }
  }

  lemma ByteBitsInjective(a: bv8, b: bv8)
    requires ByteBits(a) == ByteBits(b)
    ensures a == b
  {
    LowBitsDetermine(a as bv16, b as bv16, 8);
    KeepByte(a);
    KeepByte(b);
  }

  /**
    Two byte messages that agree everywhere except in two adjacent bytes have
    different checksums.
  */
  lemma AdjacentBytesDetected(p: seq<bv8>, x: (bv8, bv8), y: (bv8, bv8), s: seq<bv8>, c: bv16)
    requires x != y
    ensures CrcBytes(p + [x.0, x.1] + s, c) != CrcBytes(p + [y.0, y.1] + s, c)
  {
    hide Step, Xor, Bit, ByteBits, CrcBits;
    var wx, wy := PairBits(x), PairBits(y);
    var mx, my := p + [x.0, x.1] + s, p + [y.0, y.1] + s;
    MessageSplit(p, x, s);
    MessageSplit(p, y, s);
    if wx == wy {
      assert wx[..8] == wy[..8] && wx[8..] == wy[8..];
      PairBitsInjective(x, y);
    }
    var xb, yb := MessageBits(mx), MessageBits(my);
    assert xb[|MessageBits(p)|..|MessageBits(p)| + 16] == wx;
    assert yb[|MessageBits(p)|..|MessageBits(p)| + 16] == wy;
    BurstDetected(xb, yb, |MessageBits(p)|, c);
    CrcBytesIsCrcBits(mx, c);
    CrcBytesIsCrcBits(my, c);
  }

  function PairBits(x: (bv8, bv8)): (bits: seq<bool>)
    ensures |bits| == 16
  {
    ByteBits(x.0) + ByteBits(x.1)
  }

  lemma PairBitsInjective(x: (bv8, bv8), y: (bv8, bv8))
    requires PairBits(x) == PairBits(y)
    ensures x == y
  {
    hide ByteBits;
    var a, b := ByteBits(x.0), ByteBits(y.0);
    assert PairBits(x)[..8] == a && PairBits(y)[..8] == b;
    assert PairBits(x)[8..] == ByteBits(x.1) && PairBits(y)[8..] == ByteBits(y.1);
    ByteBitsInjective(x.0, y.0);
    ByteBitsInjective(x.1, y.1);
  }

  lemma MessageSplit(p: seq<bv8>, x: (bv8, bv8), s: seq<bv8>)
    ensures MessageBits(p + [x.0, x.1] + s) == MessageBits(p) + PairBits(x) + MessageBits(s)
  {
    hide ByteBits;
    assert [x.0, x.1][1..] == [x.1];
    assert MessageBits([x.1]) == ByteBits(x.1) + [];
    MessageBitsConcat(p, [x.0, x.1]);
    MessageBitsConcat(p + [x.0, x.1], s);
  }

  // ---- Data in, or data xored into the register ------------------------------

  function Zeros(n: nat): (z: seq<bool>)
    ensures |z| == n
  {
    if n == 0 then [] else [false] + Zeros(n - 1)
  }

  lemma ShiftStep(c: bv16, d: bv16)
    ensures Xor(Step(Xor(c, d & 1)), Half(d)) == Step(Xor(c, d))
  {
  }

  lemma XorZero(c: bv16)
    ensures Xor(c, 0) == c
  {
  }

  lemma HalfKept(d: bv16, n: nat)
    requires n > 0 && Keep(d, n) == d
    ensures Keep(Half(d), n - 1) == Half(d)
  {
    hide Odd, Half, Push;
    HalfKeptUnder(d, Mask(n - 1));
  }

  lemma HalfKeptUnder(d: bv16, m: bv16)
    requires d & Push(m) == d
    ensures Half(d) & m == Half(d)
  {
  }

  /** Feeding `n` data bits equals shifting `n` zeros into crc xor data. */
  lemma {:induction false} FeedIsShift(d: bv16, n: nat, c: bv16)
    requires Keep(d, n) == d
    ensures CrcBits(LowBits(d, n), c) == CrcBits(Zeros(n), Xor(c, d))
    decreases n
  {
    hide Step, Xor, Bit, Half, Odd, Keep;
    if n == 0 {
      KeepNone(d);
      XorZero(c);
    } else {
      HalfKept(d, n);
      FeedIsShift(Half(d), n - 1, Step(Xor(c, d & 1)));
      FeedOne(d, n, c);
    }
  }

  lemma FeedOne(d: bv16, n: nat, c: bv16)
    requires n > 0
    ensures CrcBits(LowBits(d, n), c) == CrcBits(LowBits(Half(d), n - 1), Step(Xor(c, d & 1)))
    ensures CrcBits(Zeros(n), Xor(c, d)) == CrcBits(Zeros(n - 1), Xor(Step(Xor(c, d & 1)), Half(d)))
  {
    hide Step, Xor, Bit, Half, Odd;
    ShiftStep(c, d);
    LowBit(d);
    Unfold(LowBits(d, n), c);
    assert LowBits(d, n)[1..] == LowBits(Half(d), n - 1);
    assert Zeros(n)[1..] == Zeros(n - 1);
    NoBit();
    XorZero(Xor(c, d));
    Unfold(Zeros(n), Xor(c, d));
  }

  lemma NoBit()
    ensures Bit(false) == 0
  {
  }

  lemma {:induction false} ShiftingZero(n: nat)
    ensures CrcBits(Zeros(n), 0) == 0
    decreases n
  {
    if n != 0 {
      assert Step(Xor(0, Bit(false))) == 0;
      assert Zeros(n)[1..] == Zeros(n - 1);
      ShiftingZero(n - 1);
    }
  }

  function ShiftRight(v: bv16, m: nat): bv16 {
    if m == 0 then v else ShiftRight(Half(v), m - 1)
  }

  lemma {:induction false} LowBitsSplit(v: bv16, m: nat, n: nat)
    ensures LowBits(v, m + n) == LowBits(v, m) + LowBits(ShiftRight(v, m), n)
    decreases m
  {
    hide Odd, Half;
    if m != 0 {
      LowBitsSplit(Half(v), m - 1, n);
    }
  }

  /** Only the kept bits reach the register. */
  lemma {:induction false} LowBitsOfSame(a: bv16, b: bv16, n: nat)
    requires Keep(a, n) == Keep(b, n)
    ensures LowBits(a, n) == LowBits(b, n)
    decreases n
  {
    hide Odd, Half, Keep;
    if n != 0 {
      HalvesSame(a, b, n);
      LowBitsOfSame(Half(a), Half(b), n - 1);
    }
  }

  lemma HalvesSame(a: bv16, b: bv16, n: nat)
    requires n > 0 && Keep(a, n) == Keep(b, n)
    ensures Odd(a) == Odd(b) && Keep(Half(a), n - 1) == Keep(Half(b), n - 1)
  {
    hide Odd, Half, Push;
    HalvesSameUnder(a, b, Mask(n - 1));
  }

  lemma HalvesSameUnder(a: bv16, b: bv16, m: bv16)
    requires a & Push(m) == b & Push(m)
    ensures Odd(a) == Odd(b) && Half(a) & m == Half(b) & m
  {
  }

  lemma {:induction false} ShiftRightAdds(v: bv16, m: nat, n: nat)
    ensures ShiftRight(v, m + n) == ShiftRight(ShiftRight(v, m), n)
    decreases m
  {
    hide Half;
    if m != 0 {
      ShiftRightAdds(Half(v), m - 1, n);
    }
  }

  lemma ShiftRight2(v: bv16)
    ensures ShiftRight(v, 2) == v >> 2
  {
    assert ShiftRight(Half(v), 1) == ShiftRight(Half(Half(v)), 0);
  }

  lemma ShiftRight8(v: bv16)
    ensures ShiftRight(v, 8) == High8(v) as bv16
  {
    ShiftRightAdds(v, 2, 2);
    ShiftRightAdds(v, 4, 4);
    var w := ShiftRight(v, 4);
    ShiftRightAdds(w, 2, 2);
    ShiftRight2(v);
    ShiftRight2(v >> 2);
    ShiftRight2(v >> 4);
    ShiftRight2(v >> 6);
  }

  lemma WordBits(v: bv16)
    ensures PairBits((Low8(v), High8(v))) == LowBits(v, 16)
  {
    LowBitsSplit(v, 8, 8);
    ShiftRight8(v);
    KeepLow8(v);
    hide *;
    LowBitsOfSame(v, Low8(v) as bv16, 8);
    WordBitsParts(v);
  }

  lemma WordBitsParts(v: bv16)
    ensures PairBits((Low8(v), High8(v))) == LowBits(Low8(v) as bv16, 8) + LowBits(High8(v) as bv16, 8)
  {
    hide LowBits, Low8, High8;
  }

  lemma KeepLow8(v: bv16)
    ensures Keep(v, 8) == Keep(Low8(v) as bv16, 8)
  {
    Mask8();
  }

  lemma Mask8()
    ensures Mask(8) == 0xff
  {
    assert Mask(4) == 0xf;
  }

  /** `crcu16(c, c)` is 0 for every c. */
  lemma SelfChecksumIsZero(c: bv16)
    ensures CrcBytes([Low8(c), High8(c)], c) == 0
  {
    hide *;
    WordIsMessage(c);
    CrcBytesIsCrcBits([Low8(c), High8(c)], c);
    KeepAll(c);
    FeedIsShift(c, 16, c);
    XorSelf(c);
    ShiftingZero(16);
  }

  lemma WordIsMessage(c: bv16)
    ensures MessageBits([Low8(c), High8(c)]) == LowBits(c, 16)
  {
    WordBits(c);
    MessageSplit([], (Low8(c), High8(c)), []);
    assert [] + [Low8(c), High8(c)] + [] == [Low8(c), High8(c)];
  }

  lemma KeepAll(c: bv16)
    ensures Keep(c, 16) == c
  {
    assert Mask(4) == 0xf && Mask(8) == 0xff && Mask(12) == 0xfff && Mask(16) == 0xffff;
  }
}
