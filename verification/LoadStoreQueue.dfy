/**
  The load/store queue (rtl/backend/execute/lsu/LoadStoreQueue.sv): the ordering
  and forwarding query for a Load, on the ring of entries and in program order.
*/
module LoadStoreQueues {
  import opened Wrappers
  import opened Arithmetic
  import opened DataMemory
  import opened ByteLanes
  import opened StoreBuffers

  const LSQ_ENTRY_NUM := 16

  const MMIO_BASE_ADDR := 0xFFE0
  const MMIO_LAST_ADDR := 0xFFFF

  predicate IsMmio(address: nat) {
    MMIO_BASE_ADDR <= address <= MMIO_LAST_ADDR
  }

  /**
    An entry, with the operand values its instruction will execute with:
    `operandAddress` is base register plus offset and `operandData` the data
    register.  Both are fixed at rename, since a physical register is written once;
    the queue learns them when the uop issues or the register is written back.
  */
  datatype Entry = Entry(
    tag: nat, isStore: bool, access: Access,
    operandAddress: nat, operandData: Word,
    addressReady: bool, address: nat,
    dataReady: bool, storeData: Word,
    result: Option<Word>)

  /** What the queue has learned agrees with the operands. */
  predicate Consistent(e: Entry) {
    && (e.isStore ==> StoreAccess(e.access))
    && (e.addressReady ==> e.address == e.operandAddress && Aligned(e.operandAddress, e.access))
    && (e.isStore && e.dataReady ==> e.storeData == e.operandData)
  }

  predicate AllConsistent(q: seq<Entry>) {
    forall i :: 0 <= i < |q| ==> Consistent(q[i])
  }

  /** The Store an entry performs. */
  function StoreOf(e: Entry): Store {
    Store(e.operandAddress, e.access, e.operandData)
  }

  /** The Stores of a stretch of the program, in order. */
  function StoresOf(q: seq<Entry>): seq<Store> {
    if q == [] then []
    else StoresOf(q[..|q| - 1]) + if q[|q| - 1].isStore then [StoreOf(q[|q| - 1])] else []
  }

  lemma {:induction false} StoresOfConcat(p: seq<Entry>, q: seq<Entry>)
    ensures StoresOf(p + q) == StoresOf(p) + StoresOf(q)
    decreases |q|
  {
    if q == [] {
      assert p + q == p;
    } else {
      assert (p + q)[..|p + q| - 1] == p + q[..|q| - 1];
      StoresOfConcat(p, q[..|q| - 1]);
    }
  }

  // ---- The ordering query --------------------------------------------------------

  datatype Answer = Answer(ready: bool, forwardValid: bool, forwardData: Word)

  /** The effect of one older entry on the query for a Load. */
  function QueryStep(q: Answer, e: Entry, address: nat, access: Access): Answer {
    if !e.isStore then q
    else if !e.addressReady then q.(ready := false)
    else if IsMmio(e.address) then q.(ready := false)
    else if Overlaps(Store(e.address, e.access, e.storeData), address, access) then
      if MaskCovers(Store(e.address, e.access, e.storeData), address, access) && e.dataReady then
        q.(forwardValid := true,
           forwardData := Format(Expand(e.storeData, e.access, e.address % 4), access, address % 4))
      else q.(ready := false)
    else q
  }

  /** The query for a Load behind the entries `older`, in program order. */
  function Query(older: seq<Entry>, address: nat, access: Access): Answer {
    if older == [] then Answer(true, false, [0, 0, 0, 0])
    else QueryStep(Query(older[..|older| - 1], address, access), older[|older| - 1], address, access)
  }

  lemma QueryNone(address: nat, access: Access)
    ensures Query([], address, access) == Answer(true, false, [0, 0, 0, 0])
  {
  }

  lemma QuerySnoc(q: seq<Entry>, k: nat, address: nat, access: Access)
    requires k < |q|
    ensures Query(q[..k + 1], address, access) == QueryStep(Query(q[..k], address, access), q[k], address, access)
  {
    assert q[..k + 1][..k] == q[..k];
  }

  /** A Load that may issue either gets the value after all older Stores, or none of them concerns it. */
  lemma {:induction false} QueryCorrect(older: seq<Entry>, address: nat, access: Access)
    requires AllConsistent(older) && Aligned(address, access) && Query(older, address, access).ready
    ensures Query(older, address, access).forwardValid ==>
      forall m :: Query(older, address, access).forwardData == LoadValue(ApplyAll(m, StoresOf(older)), address, access)
    ensures !Query(older, address, access).forwardValid ==>
      forall i :: 0 <= i < |StoresOf(older)| ==> Disjoint(StoresOf(older)[i], address, access)
    decreases |older|
  {
    if older != [] {
      var rest, e := older[..|older| - 1], older[|older| - 1];
      QueryCorrect(rest, address, access);
      QueryStepCorrect(Query(rest, address, access), StoresOf(rest), e, address, access);
    }
  }

  ghost predicate AnswerRight(q: Answer, ss: seq<Store>, address: nat, access: Access) {
    if q.forwardValid then forall m :: q.forwardData == LoadValue(ApplyAll(m, ss), address, access)
    else forall i :: 0 <= i < |ss| ==> Disjoint(ss[i], address, access)
  }

  lemma QueryStepCorrect(q: Answer, ss: seq<Store>, e: Entry, address: nat, access: Access)
    requires Consistent(e) && Aligned(address, access) && AnswerRight(q, ss, address, access)
    requires QueryStep(q, e, address, access).ready
    ensures AnswerRight(QueryStep(q, e, address, access), ss + if e.isStore then [StoreOf(e)] else [], address, access)
  {
    if e.isStore {
      var s := StoreOf(e);
      var shown := Store(e.address, e.access, e.storeData);
      OverlapIsSharedByte(shown, address, access);
      forall m ensures ApplyAll(m, ss + [s]) == Apply(ApplyAll(m, ss), s) {
        ApplyAllSnoc(m, ss, s);
      }
      if Overlaps(shown, address, access) {
        CoverIsContainment(shown, address, access);
        forall m ensures Format(Expand(s.data, s.access, s.address % 4), access, address % 4)
                         == LoadValue(ApplyAll(m, ss + [s]), address, access)
        {
          ForwardIsLoad(ApplyAll(m, ss), s, address, access);
        }
      } else if q.forwardValid {
        forall m ensures q.forwardData == LoadValue(ApplyAll(m, ss + [s]), address, access) {
          LoadValueLocal(ApplyAll(m, ss), ApplyAll(m, ss + [s]), address, access);
        }
      }
    } else {
      assert ss + [] == ss;
    }
  }

  // ---- The ring -------------------------------------------------------------------

  datatype Slot = Slot(valid: bool, entry: Entry)

  /** An entry with the data its register writeback delivers. */
  function Woken(wakeup: set<nat>, e: Entry): Entry {
    if e.isStore && !e.dataReady && e.tag in wakeup then e.(dataReady := true, storeData := e.operandData) else e
  }

  function AllWoken(wakeup: set<nat>, q: seq<Entry>): (r: seq<Entry>)
    ensures |r| == |q| && forall k :: 0 <= k < |q| ==> r[k] == Woken(wakeup, q[k])
  {
    seq(|q|, k requires 0 <= k < |q| => Woken(wakeup, q[k]))
  }

  const EMPTY_SLOT := Slot(false, Entry(0, false, MemWord, 0, [0, 0, 0, 0], false, 0, false, [0, 0, 0, 0], None))

  /** The slots `mask` kills are exactly those from place `keep` on. */
  ghost predicate KillsFrom(q: seq<Entry>, mask: set<nat>, keep: nat) {
    keep <= |q| && forall k :: 0 <= k < |q| ==> (q[k].tag in mask <==> keep <= k)
  }

  class LoadStoreQueue {
    const depth: nat
    const slots: array<Slot>
    var headPtr: nat
    var tailPtr: nat
    var entryCount: nat

    ghost predicate Valid()
      reads this, slots
    {
      && 2 <= depth == slots.Length
      && headPtr < depth && entryCount <= depth && tailPtr == AddPtr(headPtr, entryCount, depth)
      && (forall i :: 0 <= i < entryCount ==> slots[AddPtr(headPtr, i, depth)].valid)
      && (forall i :: entryCount <= i < depth ==> !slots[AddPtr(headPtr, i, depth)].valid)
    }

    /** The entries in program order. */
    ghost function Contents(): (q: seq<Entry>)
      requires Valid()
      reads this, slots
      ensures |q| == entryCount
      ensures forall i :: 0 <= i < entryCount ==> q[i] == slots[AddPtr(headPtr, i, depth)].entry
    {
      seq(entryCount, i requires 0 <= i < entryCount && Valid() reads this, slots =>
        slots[AddPtr(headPtr, i, depth)].entry)
    }

    constructor (depth: nat)
      requires depth >= 2
      ensures Valid() && this.depth == depth && Contents() == [] && fresh(slots)
    {
      this.depth := depth;
      slots := new Slot[depth](_ => EMPTY_SLOT);
      headPtr, tailPtr, entryCount := 0, 0, 0;
    }

    /** The query loop, from the head of the ring to the issuing Load at place `k`. */
    method IssueQuery(issueTag: nat, address: nat, access: Access, ghost k: nat)
      returns (ready: bool, forwardValid: bool, forwardData: Word)
      requires Valid() && k < |Contents()| && issueTag == AddPtr(headPtr, k, depth)
      ensures Contents()[k].isStore ==> ready && !forwardValid && forwardData == [0, 0, 0, 0]
      ensures !Contents()[k].isStore ==>
        Answer(ready, forwardValid, forwardData) == Query(Contents()[..k], address, access)
    {
      hide QueryStep, Query;
      QueryNone(address, access);
      ready, forwardValid, forwardData := true, false, [0, 0, 0, 0];
      if !slots[issueTag].entry.isStore {
        ghost var q := Contents();
        var answer := Answer(true, false, [0, 0, 0, 0]);
        var found, offset := false, 0;
        assert q[..0] == [];
        while offset < depth
          invariant offset <= depth && found == (offset > k)
          invariant answer == Query(q[..if offset <= k then offset else k], address, access)
        {
          var index := AddPtr(headPtr, offset, depth);
          if offset < entryCount && !found {
            if index == issueTag {
              found := true;
            } else if slots[index].valid {
              QuerySnoc(q, offset, address, access);
              answer := QueryStep(answer, slots[index].entry, address, access);
            }
          }
          offset := offset + 1;
        }
        ready := answer.ready && found;
        forwardValid, forwardData := answer.forwardValid, answer.forwardData;
      }
    }

    /** Branch recovery: clears the killed slots and pulls the tail back over them. */
    method Recover(mask: set<nat>, ghost keep: nat)
      requires Valid() && KillsFrom(Contents(), mask, keep)
      modifies this, slots
      ensures Valid() && Contents() == old(Contents())[..keep]
    {
      var retained, offset := 0, 0;
      ghost var q := Contents();
      while offset < depth
        invariant offset <= depth && retained == if offset <= keep then offset else keep
        invariant q == Contents() && Valid() && headPtr == old(headPtr)
        invariant forall j :: 0 <= j < depth ==> slots[j] == old(slots[j])
      {
        var index := AddPtr(headPtr, offset, depth);
        if offset < entryCount && slots[index].valid && slots[index].entry.tag !in mask {
          retained := retained + 1;
        }
        offset := offset + 1;
      }
      forall j | 0 <= j < depth {
        slots[j] := if slots[j].valid && slots[j].entry.tag in mask then EMPTY_SLOT else slots[j];
      }
      tailPtr := AddPtr(headPtr, retained, depth);
      entryCount := retained;
      assert forall i :: 0 <= i < keep ==> slots[AddPtr(headPtr, i, depth)] == old(slots[AddPtr(headPtr, i, depth)]);
    }

    /** The k-th entry from the head, as `headEntry_o` shows it. */
    method HeadEntry(k: nat) returns (valid: bool, e: Entry)
      requires Valid()
      ensures valid == (k < |Contents()|)
      ensures valid ==> e == Contents()[k]
    {
      valid, e := k < entryCount, EMPTY_SLOT.entry;
      if valid {
        e := slots[AddPtr(headPtr, k, depth)].entry;
      }
    }

    /** The writeback buses: every waiting Store whose data register is written takes its data. */
    method Wake(wakeup: set<nat>)
      requires Valid()
      modifies slots
      ensures Valid() && Contents() == AllWoken(wakeup, old(Contents()))
    {
      forall j | 0 <= j < depth {
        slots[j] := if slots[j].valid then Slot(true, Woken(wakeup, slots[j].entry)) else slots[j];
      }
      ghost var q := old(Contents());
      forall i | 0 <= i < entryCount
        ensures slots[AddPtr(headPtr, i, depth)] == Slot(true, Woken(wakeup, q[i]))
      {
        assert old(slots[AddPtr(headPtr, i, depth)].valid);
      }
      assert forall i :: entryCount <= i < depth ==> !old(slots[AddPtr(headPtr, i, depth)].valid);
    }

    /** The address, data and completion ports: the valid entry in slot `tag` becomes `e`. */
    method Update(tag: nat, e: Entry, ghost k: nat)
      requires Valid() && k < |Contents()| && tag == AddPtr(headPtr, k, depth)
      modifies slots
      ensures Valid() && Contents() == old(Contents())[k := e]
    {
      slots[tag] := Slot(true, e);
      assert forall i :: 0 <= i < depth && i != k ==> AddPtr(headPtr, i, depth) != tag;
      assert forall i :: 0 <= i < depth && i != k ==>
        slots[AddPtr(headPtr, i, depth)] == old(slots[AddPtr(headPtr, i, depth)]);
    }

    /** Allocates the entries of the dispatched lanes, in order, as long as there is room. */
    method AllocateLanes(es: seq<Entry>) returns (accepted: nat)
      requires Valid()
      modifies this, slots
      ensures Valid() && accepted == Min(|es|, depth - old(entryCount))
      ensures Contents() == old(Contents()) + es[..accepted]
    {
      accepted := 0;
      ghost var q := Contents();
      for lane := 0 to |es|
        invariant Valid() && accepted == Min(lane, depth - old(entryCount)) && entryCount == old(entryCount) + accepted
        invariant Contents() == q + es[..accepted]
      {
        var ready, tag := Allocate(es[lane]);
        if ready {
          accepted := accepted + 1;
        }
      }
    }

    method RetireOne()
      requires Valid() && entryCount > 0
      modifies this, slots
      ensures Valid() && Contents() == old(Contents())[1..]
    {
      slots[headPtr] := EMPTY_SLOT;
      ghost var was := headPtr;
      headPtr := AddPtr(headPtr, 1, depth);
      entryCount := entryCount - 1;
      assert forall i :: 0 <= i < depth - 1 ==> AddPtr(headPtr, i, depth) == AddPtr(was, i + 1, depth);
    }

    /** Retires up to two entries at the head. */
    method RetireHead(retireCount: nat) returns (retired: nat)
      requires Valid()
      modifies this, slots
      ensures Valid() && retired == Min(retireCount, Min(old(entryCount), 2))
      ensures Contents() == old(Contents())[retired..]
    {
      retired := Min(retireCount, Min(entryCount, 2));
      ghost var q := Contents();
      var lane := 0;
      while lane < retired
        invariant lane <= retired && Valid() && Contents() == q[lane..]
      {
        RetireOne();
        lane := lane + 1;
      }
    }

    /** Allocates one entry at the tail if there is room. */
    method Allocate(e: Entry) returns (ready: bool, tag: nat)
      requires Valid()
      modifies this, slots
      ensures Valid() && ready == (old(entryCount) < depth) && tag == old(tailPtr)
      ensures Contents() == old(Contents()) + if ready then [e] else []
    {
      ready, tag := entryCount < depth, tailPtr;
      if ready {
        slots[tailPtr] := Slot(true, e);
        tailPtr := AddPtr(tailPtr, 1, depth);
        entryCount := entryCount + 1;
      }
    }

    method Flush()
      requires Valid()
      modifies this, slots
      ensures Valid() && Contents() == []
    {
      headPtr, tailPtr, entryCount := 0, 0, 0;
      forall j | 0 <= j < depth {
        slots[j] := EMPTY_SLOT;
      }
    }
  }
}
