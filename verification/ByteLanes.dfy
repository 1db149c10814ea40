/**
  The byte-lane functions that LoadStoreQueue.sv and StoreBuffer.sv define for
  themselves, and what they mean for aligned accesses.  The two modules differ on
  misaligned accesses; the execution unit turns those into exceptions and uses
  neither answer.
*/
module ByteLanes {
  import opened DataMemory

  /** `loadByteMask` of the LSQ, one lane at a time. */
  predicate QueueLoadMask(access: Access, offset: nat, lane: nat) {
    match access
    case MemByte | MemByteU => lane == offset
    case MemHalf | MemHalfU => lane == offset || lane == offset + 1
    case MemWord => true
  }

  /** `storeByteMask` of the LSQ. */
  predicate QueueStoreMask(access: Access, offset: nat, lane: nat) {
    if access.MemByte? then lane == offset
    else if access.MemHalf? then offset != 3 && (lane == offset || lane == offset + 1)
    else true
  }

  /** `loadByteMask` of the Store Buffer. */
  predicate BufferLoadMask(access: Access, offset: nat, lane: nat) {
    match access
    case MemByte | MemByteU => lane == offset
    case MemHalf | MemHalfU => offset != 3 && (lane == offset || lane == offset + 1)
    case MemWord => offset == 0
  }

  /** `storeByteMask` of the Store Buffer. */
  predicate BufferStoreMask(access: Access, offset: nat, lane: nat) {
    if access.MemByte? then lane == offset
    else if access.MemHalf? then offset != 3 && (lane == offset || lane == offset + 1)
    else offset == 0
  }

  /** `expandStoreData` / `alignStoreData`: the data shifted to its lanes, zero elsewhere. */
  function Expand(data: Word, access: Access, offset: nat): Word {
    if access.MemByte? then seq(4, l requires 0 <= l < 4 => if l == offset then data[0] else 0)
    else if access.MemHalf? then
      seq(4, l requires 0 <= l < 4 => if l == offset then data[0] else if l == offset + 1 then data[1] else 0)
    else data
  }

  function Shifted(raw: Word, offset: nat, lane: nat): Byte {
    if lane + offset < 4 then raw[lane + offset] else 0
  }

  /** `formatForwardedLoad` / `formatLoadData`. */
  function Format(raw: Word, access: Access, offset: nat): Word {
    if access.MemWord? then raw
    else
      Extend(access, Shifted(raw, offset, 0), Shifted(raw, offset, 1),
             Shifted(raw, offset, 2), Shifted(raw, offset, 3))
  }

  /** The formatted word holds the number of the lanes from `offset` on. */
  lemma FormatNumber(raw: Word, access: Access, offset: nat)
    requires offset + Size(access) <= 4
    ensures Int32(Format(raw, access, offset)) == LoadedNumber(access, raw[offset],
      Shifted(raw, offset, 1), Shifted(raw, offset, 2), Shifted(raw, offset, 3))
    ensures Size(access) >= 2 ==> Shifted(raw, offset, 1) == raw[offset + 1]
  {
    ExtendNumber(access, Shifted(raw, offset, 0), Shifted(raw, offset, 1),
                 Shifted(raw, offset, 2), Shifted(raw, offset, 3));
  }

  /** Lane `l` of the word of `address` is one of the bytes the access touches. */
  predicate LaneTouched(address: nat, access: Access, l: nat) {
    Touches(address, access, address / 4 * 4 + l)
  }

  lemma AlignedOffset(address: nat, access: Access)
    requires Aligned(address, access)
    ensures address % 4 + Size(access) <= 4 && address == address / 4 * 4 + address % 4
  {
    if access.MemHalf? || access.MemHalfU? {
      assert address % 2 == 0 && (address % 4) % 2 == 0;
    }
  }

  lemma MasksAreTouchedLanes(address: nat, access: Access, l: nat)
    requires Aligned(address, access) && l < 4
    ensures QueueLoadMask(access, address % 4, l) <==> LaneTouched(address, access, l)
    ensures BufferLoadMask(access, address % 4, l) <==> LaneTouched(address, access, l)
    ensures StoreAccess(access) ==> (QueueStoreMask(access, address % 4, l) <==> LaneTouched(address, access, l))
    ensures StoreAccess(access) ==> (BufferStoreMask(access, address % 4, l) <==> LaneTouched(address, access, l))
  {
    AlignedOffset(address, access);
  }

  /** `(olderStoreMask & queryLoadMask) != 0` in the same word. */
  predicate Overlaps(s: Store, address: nat, access: Access) {
    && s.address / 4 == address / 4
    && exists l :: 0 <= l < 4 && QueueStoreMask(s.access, s.address % 4, l) && QueueLoadMask(access, address % 4, l)
  }

  /** `(olderStoreMask & queryLoadMask) == queryLoadMask`. */
  predicate MaskCovers(s: Store, address: nat, access: Access) {
    forall l :: 0 <= l < 4 && QueueLoadMask(access, address % 4, l) ==> QueueStoreMask(s.access, s.address % 4, l)
  }

  lemma OverlapIsSharedByte(s: Store, address: nat, access: Access)
    requires WellFormed(s) && Aligned(address, access)
    ensures Overlaps(s, address, access) <==> !Disjoint(s, address, access)
  {
    AlignedOffset(address, access);
    AlignedOffset(s.address, s.access);
    forall l | 0 <= l < 4
      ensures QueueStoreMask(s.access, s.address % 4, l) == LaneTouched(s.address, s.access, l)
      ensures QueueLoadMask(access, address % 4, l) == LaneTouched(address, access, l)
    {
      MasksAreTouchedLanes(s.address, s.access, l);
      MasksAreTouchedLanes(address, access, l);
    }
    if !Disjoint(s, address, access) {
      var a := if s.address < address then address else s.address;
      assert a / 4 == address / 4 == s.address / 4;
      var l := a - address / 4 * 4;
      assert LaneTouched(s.address, s.access, l) && LaneTouched(address, access, l);
      assert QueueStoreMask(s.access, s.address % 4, l) && QueueLoadMask(access, address % 4, l);
    }
  }

  lemma CoverIsContainment(s: Store, address: nat, access: Access)
    requires WellFormed(s) && Aligned(address, access) && s.address / 4 == address / 4
    ensures MaskCovers(s, address, access) <==> Covers(s, address, access)
  {
    AlignedOffset(address, access);
    AlignedOffset(s.address, s.access);
    forall l | 0 <= l < 4
      ensures QueueStoreMask(s.access, s.address % 4, l) == LaneTouched(s.address, s.access, l)
      ensures QueueLoadMask(access, address % 4, l) == LaneTouched(address, access, l)
    {
      MasksAreTouchedLanes(s.address, s.access, l);
      MasksAreTouchedLanes(address, access, l);
    }
    if MaskCovers(s, address, access) {
      var first, last := address % 4, address % 4 + Size(access) - 1;
      assert LaneTouched(address, access, first) && LaneTouched(address, access, last);
      assert QueueLoadMask(access, address % 4, first) && QueueLoadMask(access, address % 4, last);
    }
  }

  lemma ExpandAt(s: Store, a: nat)
    requires WellFormed(s) && Touches(s.address, s.access, a)
    ensures a / 4 == s.address / 4 && Expand(s.data, s.access, s.address % 4)[a % 4] == s.data[a - s.address]
  {
    AlignedOffset(s.address, s.access);
  }

  /** A forwarded Load sees what it would read from memory right after the Store. */
  lemma ForwardIsLoad(m: Memory, s: Store, address: nat, access: Access)
    requires WellFormed(s) && Aligned(address, access) && Covers(s, address, access)
    ensures Format(Expand(s.data, s.access, s.address % 4), access, address % 4) ==
      LoadValue(Apply(m, s), address, access)
  {
    AlignedOffset(address, access);
    AlignedOffset(s.address, s.access);
    forall i | 0 <= i < Size(access)
      ensures Shifted(Expand(s.data, s.access, s.address % 4), address % 4, i) == Apply(m, s)(address + i)
    {
      ExpandAt(s, address + i);
    }
    var raw := Expand(s.data, s.access, s.address % 4);
    assert Shifted(raw, address % 4, 0) == Apply(m, s)(address);
    if Size(access) >= 2 {
      assert Shifted(raw, address % 4, 1) == Apply(m, s)(address + 1);
    }
    if access.MemWord? {
      assert Shifted(raw, 0, 2) == Apply(m, s)(address + 2) && Shifted(raw, 0, 3) == Apply(m, s)(address + 3);
      assert raw == [raw[0], raw[1], raw[2], raw[3]];
    }
  }
}
