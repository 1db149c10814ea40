/**
  Byte-addressed data memory and the reference meaning of RV32 loads and stores,
  together with the byte-lane logic of the load/store unit
  (rtl/backend/execute/lsu/LoadStoreQueue.sv, rtl/backend/execute/lsu/StoreBuffer.sv).

  The D-cache and its backing store are a flat memory that is read and written in
  the order in which requests are accepted.
*/
module DataMemory {

  type Byte = x: int | 0 <= x < 256

  /** A 32-bit word as its four byte lanes, least significant first. */
  type Word = w: seq<Byte> | |w| == 4 witness [0, 0, 0, 0]

  type Memory = nat -> Byte

  /** `mem_access_t`. */
  datatype Access = MemByte | MemHalf | MemWord | MemByteU | MemHalfU

  /** A Store with its address, width and data register. */
  datatype Store = Store(address: nat, access: Access, data: Word)

  function Size(access: Access): nat {
    match access
    case MemByte | MemByteU => 1
    case MemHalf | MemHalfU => 2
    case MemWord => 4
  }

  /** The complement of `addressMisaligned`. */
  predicate Aligned(address: nat, access: Access) {
    address % Size(access) == 0
  }

  predicate StoreAccess(access: Access) {
    access.MemByte? || access.MemHalf? || access.MemWord?
  }

  predicate WellFormed(s: Store) {
    StoreAccess(s.access) && Aligned(s.address, s.access)
  }

  // ---- Reference meaning -------------------------------------------------------

  /** Address `a` is one of the bytes an access touches. */
  predicate Touches(address: nat, access: Access, a: nat) {
    address <= a < address + Size(access)
  }

  function Apply(m: Memory, s: Store): Memory {
    (a: nat) => if Touches(s.address, s.access, a) then s.data[a - s.address] else m(a)
  }

  function ApplyAll(m: Memory, ss: seq<Store>): Memory {
    if ss == [] then m else Apply(ApplyAll(m, ss[..|ss| - 1]), ss[|ss| - 1])
  }

  /** Sign or zero extension of the loaded bytes. */
  function Extend(access: Access, b0: Byte, b1: Byte, b2: Byte, b3: Byte): Word {
    match access
    case MemByte => var s := if b0 >= 128 then 255 else 0; [b0, s, s, s]
    case MemHalf => var s := if b1 >= 128 then 255 else 0; [b0, b1, s, s]
    case MemByteU => [b0, 0, 0, 0]
    case MemHalfU => [b0, b1, 0, 0]
    case MemWord => [b0, b1, b2, b3]
  }

  /** The value a load returns from memory. */
  function LoadValue(m: Memory, address: nat, access: Access): Word {
    Extend(access, m(address), m(address + 1), m(address + 2), m(address + 3))
  }

  // ---- Values as numbers -------------------------------------------------------

  /** An `n`-bit pattern as a two's-complement number. */
  function TwosComplement(x: nat, half: nat): int {
    if x < half then x else x - 2 * half
  }

  function LittleEndian(b0: nat, b1: nat, b2: nat, b3: nat): nat {
    b0 + 0x100 * b1 + 0x1_0000 * b2 + 0x100_0000 * b3
  }

  /** The word a register holds, as a signed 32-bit number. */
  function Int32(w: Word): int {
    TwosComplement(LittleEndian(w[0], w[1], w[2], w[3]), 0x8000_0000)
  }

  /** The number a load of the bytes `b0`, `b1`, .. stands for: LB and LH are signed, LBU and LHU are not. */
  function LoadedNumber(access: Access, b0: Byte, b1: Byte, b2: Byte, b3: Byte): int {
    match access
    case MemByte => TwosComplement(b0, 0x80)
    case MemHalf => TwosComplement(LittleEndian(b0, b1, 0, 0), 0x8000)
    case MemByteU => b0
    case MemHalfU => LittleEndian(b0, b1, 0, 0)
    case MemWord => TwosComplement(LittleEndian(b0, b1, b2, b3), 0x8000_0000)
  }

  /** The register after a load holds the number of the bytes read. */
  lemma LoadValueNumber(m: Memory, address: nat, access: Access)
    ensures Int32(LoadValue(m, address, access)) ==
      LoadedNumber(access, m(address), m(address + 1), m(address + 2), m(address + 3))
  {
    ExtendNumber(access, m(address), m(address + 1), m(address + 2), m(address + 3));
  }

  lemma ExtendNumber(access: Access, b0: Byte, b1: Byte, b2: Byte, b3: Byte)
    ensures Int32(Extend(access, b0, b1, b2, b3)) == LoadedNumber(access, b0, b1, b2, b3)
  {
  }

  /** A Store writes 8, 16 or 32 bits of its register, which a Load of the same width reads back, and no other byte. */
  lemma StoreThenLoad(m: Memory, s: Store, a: nat)
    requires StoreAccess(s.access)
    ensures Int32(LoadValue(Apply(m, s), s.address, s.access)) ==
      LoadedNumber(s.access, s.data[0], s.data[1], s.data[2], s.data[3])
    ensures a < s.address || a >= s.address + (if s.access.MemByte? then 1 else if s.access.MemHalf? then 2 else 4)
      ==> Apply(m, s)(a) == m(a)
  {
    hide LoadValue, Int32, TwosComplement, LittleEndian;
    var n := Apply(m, s);
    LoadValueNumber(n, s.address, s.access);
    StoredByte(m, s, 0);
    StoredByte(m, s, 1);
    StoredByte(m, s, 2);
    StoredByte(m, s, 3);
  }

  lemma StoredByte(m: Memory, s: Store, k: nat)
    ensures k < Size(s.access) ==> Apply(m, s)(s.address + k) == s.data[k]
  {
    assert k < Size(s.access) ==> Touches(s.address, s.access, s.address + k);
  }

  /** Words with the same number are the same. */
  lemma Int32Injective(v: Word, w: Word)
    requires Int32(v) == Int32(w)
    ensures v == w
  {
    SameNumber(v[0], v[1], v[2], v[3]);
    SameNumber(w[0], w[1], w[2], w[3]);
    FirstDigit(v[0], LittleEndian(v[1], v[2], v[3], 0), w[0], LittleEndian(w[1], w[2], w[3], 0));
    FirstDigit(v[1], LittleEndian(v[2], v[3], 0, 0), w[1], LittleEndian(w[2], w[3], 0, 0));
    FirstDigit(v[2], v[3], w[2], w[3]);
  }

  lemma SameNumber(b0: Byte, b1: Byte, b2: Byte, b3: Byte)
    ensures LittleEndian(b0, b1, b2, b3) == b0 + 0x100 * LittleEndian(b1, b2, b3, 0)
    ensures LittleEndian(b0, b1, b2, b3) < 0x1_0000_0000
  {
  }

  lemma FirstDigit(a: Byte, x: nat, b: Byte, y: nat)
    requires a + 0x100 * x == b + 0x100 * y
    ensures a == b && x == y
  {
  }

  /** A load depends only on the bytes it touches. */
  lemma LoadValueLocal(m: Memory, m': Memory, address: nat, access: Access)
    requires forall a :: Touches(address, access, a) ==> m(a) == m'(a)
    ensures LoadValue(m, address, access) == LoadValue(m', address, access)
  {
    assert Touches(address, access, address);
    assert Size(access) >= 2 ==> Touches(address, access, address + 1);
    assert Size(access) == 4 ==> Touches(address, access, address + 2) && Touches(address, access, address + 3);
  }

  predicate Disjoint(s: Store, address: nat, access: Access) {
    s.address + Size(s.access) <= address || address + Size(access) <= s.address
  }

  predicate Covers(s: Store, address: nat, access: Access) {
    s.address <= address && address + Size(access) <= s.address + Size(s.access)
  }

  lemma {:induction false} ApplyAllConcat(m: Memory, x: seq<Store>, y: seq<Store>)
    ensures ApplyAll(m, x + y) == ApplyAll(ApplyAll(m, x), y)
    decreases |y|
  {
    if y == [] {
      assert x + y == x;
    } else {
      assert (x + y)[..|x + y| - 1] == x + y[..|y| - 1];
      ApplyAllConcat(m, x, y[..|y| - 1]);
    }
  }

  lemma ApplyAllSnoc(m: Memory, x: seq<Store>, s: Store)
    ensures ApplyAll(m, x + [s]) == Apply(ApplyAll(m, x), s)
  {
    assert (x + [s])[..|x|] == x;
  }

  /** Stores that touch none of the loaded bytes do not change the loaded value. */
  lemma {:induction false} DisjointStores(m: Memory, ss: seq<Store>, address: nat, access: Access)
    requires forall i :: 0 <= i < |ss| ==> Disjoint(ss[i], address, access)
    ensures forall a :: Touches(address, access, a) ==> ApplyAll(m, ss)(a) == m(a)
    decreases |ss|
  {
    if ss != [] {
      DisjointStores(m, ss[..|ss| - 1], address, access);
    }
  }
}
