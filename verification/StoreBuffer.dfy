/**
  The Store Buffer (rtl/backend/execute/lsu/StoreBuffer.sv): a ring of retired
  cacheable Stores.  The class keeps the ring with its wrapping pointers and is
  specified by the FIFO `Contents()`; the byte-merging lookup is specified by the
  memory that the buffered Stores would produce.
*/
module StoreBuffers {
  import opened DataMemory
  import opened ByteLanes

  /** A pointer plus an increment of at most one turn. */
  function AddPtr(base: nat, increment: nat, depth: nat): nat {
    if base + increment >= depth then base + increment - depth else base + increment
  }

  /** `incrementPtr`. */
  function IncrementPtr(pointer: nat, depth: nat): nat
    requires depth > 0
  {
    if pointer == depth - 1 then 0 else pointer + 1
  }

  /** `subtractPtr` for at most one turn. */
  function SubtractPtr(pointer: nat, decrement: nat, depth: nat): nat
    requires decrement <= depth && pointer < depth
  {
    if pointer >= decrement then pointer - decrement else pointer + depth - decrement
  }

  // ---- The byte-merging lookup -------------------------------------------------

  predicate NewLane(s: Store, address: nat, access: Access, l: nat) {
    BufferStoreMask(s.access, s.address % 4, l) && BufferLoadMask(access, address % 4, l)
  }

  /** `queryCoveredMask | (queryStoreMask & queryLoadMask)` */
  function MergedMask(s: Store, address: nat, access: Access, covered: seq<bool>): (r: seq<bool>)
    requires |covered| == 4
    ensures |r| == 4
  {
    seq(4, l requires 0 <= l < 4 => covered[l] || NewLane(s, address, access, l))
  }

  /** The raw word with the lanes of `queryNewMask` taken from the Store. */
  function MergedRaw(s: Store, address: nat, access: Access, covered: seq<bool>, raw: Word): Word
    requires |covered| == 4
  {
    seq(4, l requires 0 <= l < 4 =>
      if NewLane(s, address, access, l) && !covered[l] then Expand(s.data, s.access, s.address % 4)[l] else raw[l])
  }

  ghost predicate Written(ss: seq<Store>, a: nat) {
    exists i :: 0 <= i < |ss| && Touches(ss[i].address, ss[i].access, a)
  }

  /** After `ss`, byte `a` holds `b` whatever was below. */
  ghost predicate Fixed(ss: seq<Store>, a: nat, b: Byte) {
    forall m :: ApplyAll(m, ss)(a) == b
  }

  /** `ss` leaves byte `a` as it was. */
  ghost predicate Kept(ss: seq<Store>, a: nat) {
    forall m: Memory :: ApplyAll(m, ss)(a) == m(a)
  }

  /** What the lookup knows about lane `l` after visiting the Stores `ss`. */
  ghost predicate LaneMerged(ss: seq<Store>, address: nat, access: Access, l: nat, covered: bool, b: Byte) {
    var a := address / 4 * 4 + l;
    if Touches(address, access, a) then
      covered == Written(ss, a) && if covered then Fixed(ss, a, b) else Kept(ss, a)
    else !covered
  }

  ghost predicate Merged(ss: seq<Store>, address: nat, access: Access, covered: seq<bool>, raw: Word)
    requires |covered| == 4
  {
    forall l :: 0 <= l < 4 ==> LaneMerged(ss, address, access, l, covered[l], raw[l])
  }

  lemma ApplyFirst(m: Memory, s: Store, ss: seq<Store>)
    ensures ApplyAll(m, [s] + ss) == ApplyAll(Apply(m, s), ss)
  {
    ApplyAllConcat(m, [s], ss);
    assert [s][..0] == [];
    assert ApplyAll(m, [s]) == Apply(m, s);
  }

  lemma WrittenFirst(s: Store, ss: seq<Store>, a: nat)
    ensures Written([s] + ss, a) <==> Touches(s.address, s.access, a) || Written(ss, a)
  {
    if Touches(s.address, s.access, a) {
      assert ([s] + ss)[0] == s;
    } else if Written(ss, a) {
      var i :| 0 <= i < |ss| && Touches(ss[i].address, ss[i].access, a);
      assert ([s] + ss)[i + 1] == ss[i];
    }
  }

  /** An older Store decides a lane only when no younger one did. */
  lemma LaneStep(s: Store, ss: seq<Store>, address: nat, access: Access, l: nat, covered: bool, b: Byte)
    requires WellFormed(s) && Aligned(address, access) && l < 4 && s.address / 4 == address / 4
    requires LaneMerged(ss, address, access, l, covered, b)
    ensures LaneMerged([s] + ss, address, access, l, covered || NewLane(s, address, access, l),
              if NewLane(s, address, access, l) && !covered then Expand(s.data, s.access, s.address % 4)[l] else b)
  {
    var a := address / 4 * 4 + l;
    MasksAreTouchedLanes(address, access, l);
    MasksAreTouchedLanes(s.address, s.access, l);
    WrittenFirst(s, ss, a);
    forall m ensures ApplyAll(m, [s] + ss) == ApplyAll(Apply(m, s), ss) {
      ApplyFirst(m, s, ss);
    }
    if Touches(s.address, s.access, a) {
      ExpandAt(s, a);
    }
  }

  lemma LaneSkip(s: Store, ss: seq<Store>, address: nat, access: Access, l: nat, covered: bool, b: Byte)
    requires WellFormed(s) && Aligned(address, access) && l < 4 && s.address / 4 != address / 4
    requires LaneMerged(ss, address, access, l, covered, b)
    ensures LaneMerged([s] + ss, address, access, l, covered, b)
  {
    var a := address / 4 * 4 + l;
    AlignedOffset(s.address, s.access);
    WrittenFirst(s, ss, a);
    forall m ensures ApplyAll(m, [s] + ss) == ApplyAll(Apply(m, s), ss) {
      ApplyFirst(m, s, ss);
    }
  }

  lemma MergedStep(s: Store, ss: seq<Store>, address: nat, access: Access, covered: seq<bool>, raw: Word)
    requires WellFormed(s) && Aligned(address, access) && |covered| == 4 && Merged(ss, address, access, covered, raw)
    ensures s.address / 4 == address / 4 ==>
      Merged([s] + ss, address, access,
             MergedMask(s, address, access, covered), MergedRaw(s, address, access, covered, raw))
    ensures s.address / 4 != address / 4 ==> Merged([s] + ss, address, access, covered, raw)
  {
    hide LaneMerged, Expand, NewLane;
    forall l | 0 <= l < 4
      ensures s.address / 4 == address / 4 ==>
        LaneMerged([s] + ss, address, access, l, covered[l] || NewLane(s, address, access, l),
          if NewLane(s, address, access, l) && !covered[l] then Expand(s.data, s.access, s.address % 4)[l] else raw[l])
      ensures s.address / 4 != address / 4 ==> LaneMerged([s] + ss, address, access, l, covered[l], raw[l])
    {
      if s.address / 4 == address / 4 {
        LaneStep(s, ss, address, access, l, covered[l], raw[l]);
      } else {
        LaneSkip(s, ss, address, access, l, covered[l], raw[l]);
      }
    }
  }

  predicate LoadCovered(address: nat, access: Access, covered: seq<bool>)
    requires |covered| == 4
  {
    forall l :: 0 <= l < 4 && BufferLoadMask(access, address % 4, l) ==> covered[l]
  }

  /** Some Store in the word of `address` writes lane `l`, and the Load reads it. */
  ghost predicate LaneHit(ss: seq<Store>, address: nat, access: Access, l: nat) {
    exists i :: 0 <= i < |ss| && ss[i].address / 4 == address / 4 && NewLane(ss[i], address, access, l)
  }

  /** The covered lanes are those hit by the Stores visited. */
  ghost predicate Hits(ss: seq<Store>, address: nat, access: Access, covered: seq<bool>)
    requires |covered| == 4
  {
    forall l :: 0 <= l < 4 ==> (covered[l] <==> LaneHit(ss, address, access, l))
  }

  lemma HitsStep(s: Store, ss: seq<Store>, address: nat, access: Access, covered: seq<bool>)
    requires |covered| == 4 && Hits(ss, address, access, covered)
    ensures s.address / 4 == address / 4 ==> Hits([s] + ss, address, access, MergedMask(s, address, access, covered))
    ensures s.address / 4 != address / 4 ==> Hits([s] + ss, address, access, covered)
  {
    hide NewLane;
    forall l | 0 <= l < 4
      ensures LaneHit([s] + ss, address, access, l) <==>
        LaneHit(ss, address, access, l) || (s.address / 4 == address / 4 && NewLane(s, address, access, l))
    {
      assert ([s] + ss)[0] == s;
      assert forall i :: 0 <= i < |ss| ==> ([s] + ss)[i + 1] == ss[i];
    }
  }

  /** The query's answers in terms of lanes, for any access. */
  ghost predicate LaneAnswer(ss: seq<Store>, address: nat, access: Access, conflict: bool, forwardValid: bool) {
    && (conflict <==> exists l :: 0 <= l < 4 && LaneHit(ss, address, access, l))
    && (forwardValid <==> LoadsSome(access, address) && AllLanesHit(ss, address, access))
  }

  ghost predicate AllLanesHit(ss: seq<Store>, address: nat, access: Access) {
    forall l :: 0 <= l < 4 && BufferLoadMask(access, address % 4, l) ==> LaneHit(ss, address, access, l)
  }

  /** `queryLoadMask != 0` */
  predicate LoadsSome(access: Access, address: nat) {
    exists l :: 0 <= l < 4 && BufferLoadMask(access, address % 4, l)
  }

  lemma AlignedLoadsSome(access: Access, address: nat)
    requires Aligned(address, access)
    ensures LoadsSome(access, address)
  {
    assert BufferLoadMask(access, address % 4, address % 4);
  }

  lemma HitsAnswer(ss: seq<Store>, address: nat, access: Access, covered: seq<bool>)
    requires |covered| == 4 && Hits(ss, address, access, covered)
    ensures LaneAnswer(ss, address, access, covered[0] || covered[1] || covered[2] || covered[3],
              LoadsSome(access, address) && LoadCovered(address, access, covered))
  {
    hide LaneHit, LoadsSome;
  }

  ghost predicate Conflicts(ss: seq<Store>, address: nat, access: Access) {
    exists i :: 0 <= i < |ss| && !Disjoint(ss[i], address, access)
  }

  ghost predicate FullyWritten(ss: seq<Store>, address: nat, access: Access) {
    forall a :: Touches(address, access, a) ==> Written(ss, a)
  }

  lemma TouchedLane(address: nat, access: Access, a: nat) returns (l: nat)
    requires Aligned(address, access) && Touches(address, access, a)
    ensures l < 4 && a == address / 4 * 4 + l && BufferLoadMask(access, address % 4, l)
  {
    AlignedOffset(address, access);
    l := a - address / 4 * 4;
    MasksAreTouchedLanes(address, access, l);
  }

  /** `|queryCoveredMask` is a shared byte. */
  lemma MergedConflict(ss: seq<Store>, address: nat, access: Access, covered: seq<bool>, raw: Word)
    requires Aligned(address, access) && |covered| == 4 && Merged(ss, address, access, covered, raw)
    ensures covered[0] || covered[1] || covered[2] || covered[3] <==> Conflicts(ss, address, access)
  {
    hide Fixed, Kept;
    if Conflicts(ss, address, access) {
      var i :| 0 <= i < |ss| && !Disjoint(ss[i], address, access);
      var a := if ss[i].address < address then address else ss[i].address;
      assert Touches(address, access, a) && Touches(ss[i].address, ss[i].access, a);
      var l := TouchedLane(address, access, a);
      assert LaneMerged(ss, address, access, l, covered[l], raw[l]) && Written(ss, a);
    }
    forall l | 0 <= l < 4 && covered[l] ensures Conflicts(ss, address, access) {
      assert LaneMerged(ss, address, access, l, covered[l], raw[l]);
      var i :| 0 <= i < |ss| && Touches(ss[i].address, ss[i].access, address / 4 * 4 + l);
      assert !Disjoint(ss[i], address, access);
    }
  }

  /** A fully covered Load gets the bytes the buffered Stores leave behind. */
  lemma MergedForward(ss: seq<Store>, address: nat, access: Access, covered: seq<bool>, raw: Word)
    requires Aligned(address, access) && |covered| == 4 && Merged(ss, address, access, covered, raw)
    ensures LoadCovered(address, access, covered) <==> FullyWritten(ss, address, access)
    ensures LoadCovered(address, access, covered) ==>
      forall m :: Format(raw, access, address % 4) == LoadValue(ApplyAll(m, ss), address, access)
  {
    forall a | Touches(address, access, a) && LoadCovered(address, access, covered) ensures Written(ss, a) {
      var l := TouchedLane(address, access, a);
      assert LaneMerged(ss, address, access, l, covered[l], raw[l]);
    }
    if FullyWritten(ss, address, access) {
      forall l | 0 <= l < 4 && BufferLoadMask(access, address % 4, l) ensures covered[l] {
        MasksAreTouchedLanes(address, access, l);
        assert LaneMerged(ss, address, access, l, covered[l], raw[l]);
      }
    }
    if LoadCovered(address, access, covered) {
      forall m ensures Format(raw, access, address % 4) == LoadValue(ApplyAll(m, ss), address, access) {
        MergedValue(m, ss, address, access, covered, raw);
      }
    }
  }

  lemma MergedValue(m: Memory, ss: seq<Store>, address: nat, access: Access, covered: seq<bool>, raw: Word)
    requires Aligned(address, access) && |covered| == 4 && Merged(ss, address, access, covered, raw)
    requires LoadCovered(address, access, covered)
    ensures Format(raw, access, address % 4) == LoadValue(ApplyAll(m, ss), address, access)
  {
    var n := ApplyAll(m, ss);
    AlignedOffset(address, access);
    forall i | 0 <= i < Size(access) ensures Shifted(raw, address % 4, i) == n(address + i) {
      assert Touches(address, access, address + i);
      var l := TouchedLane(address, access, address + i);
      assert LaneMerged(ss, address, access, l, covered[l], raw[l]);
    }
    assert Shifted(raw, address % 4, 0) == n(address);
    if Size(access) >= 2 {
      assert Shifted(raw, address % 4, 1) == n(address + 1);
    }
    if access.MemWord? {
      assert Shifted(raw, 0, 2) == n(address + 2) && Shifted(raw, 0, 3) == n(address + 3);
      assert raw == [raw[0], raw[1], raw[2], raw[3]];
    }
  }

  class StoreBuffer {
    const depth: nat
    const slots: array<Store>
    var headPtr: nat
    var tailPtr: nat
    var entryCount: nat

    ghost predicate Valid()
      reads this
    {
      && 2 <= depth == slots.Length
      && headPtr < depth && entryCount <= depth && tailPtr == AddPtr(headPtr, entryCount, depth)
    }

    /** The buffered Stores, oldest first. */
    ghost function Contents(): (ss: seq<Store>)
      requires Valid()
      reads this, slots
      ensures |ss| == entryCount
      ensures forall i :: 0 <= i < entryCount ==> ss[i] == slots[AddPtr(headPtr, i, depth)]
    {
      seq(entryCount, i requires 0 <= i < entryCount && Valid() reads this, slots => slots[AddPtr(headPtr, i, depth)])
    }

    constructor (depth: nat)
      requires depth >= 2
      ensures Valid() && this.depth == depth && Contents() == [] && fresh(slots)
    {
      this.depth := depth;
      slots := new Store[depth](_ => Store(0, MemWord, [0, 0, 0, 0]));
      headPtr, tailPtr, entryCount := 0, 0, 0;
    }

    /** One clock edge: a drain and an enqueue may happen together, even when the buffer is full. */
    method Clock(enqueueValid: bool, s: Store, drainReady: bool) returns (enqueueReady: bool, drainFire: bool)
      requires Valid()
      modifies this, slots
      ensures Valid()
      ensures drainFire == (drainReady && old(Contents()) != [])
      ensures enqueueReady == (|old(Contents())| < depth || drainFire)
      ensures Contents() == (if drainFire then old(Contents())[1..] else old(Contents())) +
                            (if enqueueValid && enqueueReady then [s] else [])
    {
      drainFire := entryCount != 0 && drainReady;
      enqueueReady := entryCount != depth || drainFire;
      if drainFire {
        Drop();
      }
      if enqueueValid && enqueueReady {
        Push(s);
      }
    }

    method Drop()
      requires Valid() && entryCount > 0
      modifies this
      ensures Valid() && Contents() == old(Contents())[1..]
    {
      ghost var was := headPtr;
      headPtr := IncrementPtr(headPtr, depth);
      entryCount := entryCount - 1;
      assert forall i :: 0 <= i < depth - 1 ==> AddPtr(headPtr, i, depth) == AddPtr(was, i + 1, depth);
    }

    method Push(s: Store)
      requires Valid() && entryCount < depth
      modifies this, slots
      ensures Valid() && Contents() == old(Contents()) + [s]
    {
      slots[tailPtr] := s;
      tailPtr := IncrementPtr(tailPtr, depth);
      entryCount := entryCount + 1;
    }

    /** The oldest Store, which is the one offered for draining. */
    method Head() returns (valid: bool, s: Store)
      requires Valid()
      ensures valid == (Contents() != [])
      ensures valid ==> s == Contents()[0]
    {
      valid := entryCount != 0;
      s := if valid then slots[headPtr] else Store(0, MemWord, [0, 0, 0, 0]);
    }

    /** Counting back from the tail pointer visits the newest entries first. */
    lemma NewestFirst(offset: nat)
      requires Valid() && offset < entryCount
      ensures SubtractPtr(tailPtr, offset + 1, depth) < slots.Length
      ensures slots[SubtractPtr(tailPtr, offset + 1, depth)] == Contents()[entryCount - offset - 1]
    {
    }

    /**
      Looks a Load up, newest Store first; the first writer of a byte lane wins.
      For an aligned Load a conflict is exactly a shared byte, and a full hit
      returns what it would read after all buffered Stores, whatever memory holds
      below them.
    */
    method Query(address: nat, access: Access) returns (conflict: bool, forwardValid: bool, forwardData: Word)
      requires Valid()
      requires forall i :: 0 <= i < entryCount ==> WellFormed(Contents()[i])
      ensures LaneAnswer(Contents(), address, access, conflict, forwardValid)
      ensures Aligned(address, access) ==> (conflict <==> Conflicts(Contents(), address, access))
      ensures Aligned(address, access) ==> (forwardValid <==> FullyWritten(Contents(), address, access))
      ensures Aligned(address, access) && forwardValid ==>
        forall m :: forwardData == LoadValue(ApplyAll(m, Contents()), address, access)
    {
      hide Merged, Conflicts, FullyWritten, LoadCovered, LoadValue, ApplyAll, MergedMask, MergedRaw, Format, Aligned,
        WellFormed, Hits, LaneAnswer, LoadsSome;
      ghost var ss := Contents();
      var covered := [false, false, false, false];
      var raw: Word := [0, 0, 0, 0];
      var offset := 0;
      MergedNone(address, access);
      assert ss[|ss|..] == [];
      while offset < depth
        invariant offset <= depth && |covered| == 4
        invariant Hits(ss[Rest(|ss|, offset)..], address, access, covered)
        invariant Aligned(address, access) ==> Merged(ss[Rest(|ss|, offset)..], address, access, covered, raw)
      {
        var index := SubtractPtr(tailPtr, offset + 1, depth);
        if offset < entryCount {
          ghost var k := |ss| - offset - 1;
          NewestFirst(offset);
          assert ss[k..] == [ss[k]] + ss[k + 1..];
          HitsStep(ss[k], ss[k + 1..], address, access, covered);
          if Aligned(address, access) {
            MergedStep(ss[k], ss[k + 1..], address, access, covered, raw);
          }
        }
        if offset < entryCount && slots[index].address / 4 == address / 4 {
          covered, raw :=
            MergedMask(slots[index], address, access, covered), MergedRaw(slots[index], address, access, covered, raw);
        }
        offset := offset + 1;
      }
      assert ss[0..] == ss;
      HitsAnswer(ss, address, access, covered);
      if Aligned(address, access) {
        AlignedLoadsSome(access, address);
        MergedConflict(ss, address, access, covered, raw);
        MergedForward(ss, address, access, covered, raw);
      }
      conflict := covered[0] || covered[1] || covered[2] || covered[3];
      forwardValid := LoadsSome(access, address) && LoadCovered(address, access, covered);
      forwardData := if forwardValid then Format(raw, access, address % 4) else [0, 0, 0, 0];
    }
  }

  function Rest(n: nat, offset: nat): nat {
    if offset <= n then n - offset else 0
  }

  lemma MergedNone(address: nat, access: Access)
    ensures Merged([], address, access, [false, false, false, false], [0, 0, 0, 0])
    ensures Hits([], address, access, [false, false, false, false])
  {
  }
}
