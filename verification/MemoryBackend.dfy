/**
  The memory side of the backend as it is built (rtl/backend/OoOBackend.sv): the
  load/store queue and the Store Buffer as rings, the commit stage reading the
  queue's head, and the memory port.  One clock edge of these parts is one cycle
  of `MemoryOrder`.
*/
module MemoryBackend {
  import opened Wrappers
  import opened Arithmetic
  import opened DataMemory
  import opened StoreBuffers
  import opened LoadStoreQueues
  import opened MemoryOrder

  /** The values on the wires of one cycle. */
  datatype Wires = Wires(
    offer: Option<Entry>,       // the Store the commit stage shows
    selectDrain: bool,          // `selectStoreBufferDrain`
    mmioRequest: bool,          // `mmioStoreRequest`
    executes: bool,             // `executeValid_o`
    forwardValid: bool, forwardData: Word)

  ghost predicate WiresAre(w: Wires, s: State, i: Inputs) {
    && w.offer == CommitStore(s, i)
    && w.selectDrain == SelectDrain(s, i) && w.mmioRequest == MmioStoreRequest(s, i)
    && w.executes == Executes(s, i)
    && (w.executes ==>
          && QueueAnswer(s, i).forwardValid == w.forwardValid
          && QueueAnswer(s, i).forwardData == w.forwardData)
  }

  /** What the issue side knows about the candidate. */
  datatype Look = Look(found: bool, entry: Entry, answer: Answer, ready: bool)

  ghost predicate LookIs(l: Look, s: State, i: Inputs) {
    && l.found == HasCandidate(s, i)
    && (l.found ==>
          && l.entry == CandidateEntry(s, i) && l.answer == QueueAnswer(s, i)
          && (Aligned(l.entry.operandAddress, l.entry.access) ==> l.ready == IssueReady(s, i)))
  }

  /** The mask kills the entries younger than the branch. */
  ghost predicate RecoveryMask(s: State, i: Inputs, mask: set<nat>) {
    i.recover.Some? ==> KillsFrom(s.lsq, mask, Min(i.recover.value, |s.lsq|))
  }

  class Backend {
    const queue: LoadStoreQueue
    const buffer: StoreBuffer
    var mem: Memory
    ghost var m: State

    ghost predicate QueueHolds(q: seq<Entry>)
      reads queue, queue.slots
    {
      queue.Valid() && queue.depth == LSQ_ENTRY_NUM && queue.Contents() == q
    }

    ghost predicate BufferHolds(ss: seq<Store>)
      reads buffer, buffer.slots
    {
      buffer.Valid() && buffer.depth == STORE_BUFFER_ENTRY_NUM && buffer.Contents() == ss
    }

    /** The rings and the memory hold exactly the state `m`. */
    ghost predicate Rep()
      reads this, queue, queue.slots, buffer, buffer.slots
    {
      QueueHolds(m.lsq) && BufferHolds(m.buffer) && mem == m.mem && (queue.slots as object) != buffer.slots
    }

    constructor (mem: Memory)
      ensures Rep() && m == Reset(mem) && fresh(queue) && fresh(queue.slots) && fresh(buffer) && fresh(buffer.slots)
    {
      queue := new LoadStoreQueue(LSQ_ENTRY_NUM);
      buffer := new StoreBuffer(STORE_BUFFER_ENTRY_NUM);
      this.mem := mem;
      m := Reset(mem);
    }

    // ---- Combinational logic -----------------------------------------------------------

    /** One lane of the commit stage, on the entry the queue shows at its head. */
    method CommitOne(i: Inputs, lane: RobLane, c0: Commit, cachedReady: bool, mmioReady: bool) returns (c: Commit)
      requires QueueHolds(m.lsq)
      ensures c == CommitLane(m, i, lane, c0, cachedReady, mmioReady)
    {
      var shown, e := queue.HeadEntry(c0.offset);
      var storeTaken := if IsMmio(e.address) then mmioReady else cachedReady;
      var storeOk := e.addressReady && e.dataReady && c0.stores == 0 && storeTaken;
      var memoryOk := shown && e.tag == lane.tag && (lane.isStore ==> storeOk);
      var branchOk := c0.branches == 0 && i.branchTrainReady;
      if i.recover.None? && c0.prefix && lane.valid && !lane.exception
         && (lane.isMemory ==> memoryOk) && (lane.isBranch ==> branchOk)
      {
        c := Commit(true,
                    if lane.isMemory then c0.offset + 1 else c0.offset,
                    if lane.isMemory && lane.isStore then c0.stores + 1 else c0.stores,
                    if lane.isBranch then c0.branches + 1 else c0.branches,
                    if lane.isMemory && lane.isStore then Some(e) else c0.store);
      } else {
        c := c0.(prefix := false);
      }
    }

    method CommitLanes(i: Inputs, cachedReady: bool, mmioReady: bool) returns (c: Commit)
      requires QueueHolds(m.lsq)
      ensures c == CommitPass(m, i, cachedReady, mmioReady)
    {
      hide QueueHolds, CommitLane;
      c := CommitOne(i, i.lane0, NO_COMMIT, cachedReady, mmioReady);
      c := CommitOne(i, i.lane1, c, cachedReady, mmioReady);
    }

    /** The ordering query of the queue and the overlap query of the buffer. */
    method LookUp(i: Inputs) returns (l: Look)
      requires Rep() && Inv(m)
      ensures LookIs(l, m, i)
    {
      hide Conflicts, FullyWritten, LaneAnswer, Query, Inv, LoadValue, ApplyAll;
      l := Look(false, EMPTY_SLOT.entry, Answer(false, false, [0, 0, 0, 0]), false);
      if i.candidate.None? || i.candidate.value.index >= queue.entryCount {
        return;
      }
      var k := i.candidate.value.index;
      var shown, e := queue.HeadEntry(k);
      var tag := AddPtr(queue.headPtr, k, queue.depth);
      var ready, forwardValid, forwardData := queue.IssueQuery(tag, e.operandAddress, e.access, k);
      var conflict := false;
      BufferedWellFormed();
      if !e.isStore && !forwardValid {
        var full, data;
        conflict, full, data := buffer.Query(e.operandAddress, e.access);
      }
      TagsByPlace(k);
      var first := buffer.entryCount == 0 && tag == queue.headPtr;
      l := Look(true, e, Answer(ready, forwardValid, forwardData),
                ready && (forwardValid || !conflict) && (e.isStore || !IsMmio(e.operandAddress) || first));
    }

    lemma BufferedWellFormed()
      requires Rep() && Inv(m)
      ensures forall k :: 0 <= k < buffer.entryCount ==> WellFormed(buffer.Contents()[k])
    {
      hide ApplyAll, LoadsRight, ResultsRight, WellFormed;
    }

    /** The candidate is at the head of the ring exactly when it is the first entry. */
    lemma TagsByPlace(k: nat)
      requires Rep() && Inv(m) && k < |m.lsq|
      ensures AddPtr(queue.headPtr, k, queue.depth) == queue.headPtr <==> m.lsq[0].tag == m.lsq[k].tag
    {
      hide ApplyAll, LoadsRight, ResultsRight;
    }
  
    /** All wires of the cycle, from the rings. */
    method Evaluate(i: Inputs) returns (w: Wires)
      requires Rep() && Inv(m)
      ensures WiresAre(w, m, i)
    {
      hide CommitPass, IssueReady, QueueAnswer, Inv, BufferConflict;
      var c := CommitLanes(i, true, true);
      var l := LookUp(i);
      var drainValid, oldest := buffer.Head();
      var full := buffer.entryCount == buffer.depth;
      var mmio := c.store.Some? && IsMmio(c.store.value.address);
      var mmioRequest := mmio && !drainValid;
      var loadReady := i.memoryReady && !mmio && !full;
      var readValid, executes := false, false;
      if l.found && Aligned(l.entry.operandAddress, l.entry.access) {
        var x := i.candidate.value;
        var kept := i.recover.Some? ==> x.index < i.recover.value;
        var base := x.sourceValid && l.ready && !Flush(i) && kept;
        var cacheLoad := !l.entry.isStore && !l.answer.forwardValid && !x.decodeException;
        readValid := base && cacheLoad && !x.pending;
        executes := base && !x.decodeException && if cacheLoad then !x.pending && loadReady else x.slotFree;
      }
      var selectDrain := drainValid && !mmioRequest && (mmio || full || !readValid);
      w := Wires(c.store, selectDrain, mmioRequest, executes, l.answer.forwardValid, l.answer.forwardData);
    }

    // ---- The clock edge ----------------------------------------------------------------

    /** The drain and the enqueue of the Store Buffer. */
    method MoveBuffer(i: Inputs, w: Wires) returns (enqueueReady: bool)
      requires BufferHolds(m.buffer) && WiresAre(w, m, i)
      modifies buffer, buffer.slots
      ensures BufferHolds(NextBuffer(m, i)) && enqueueReady == EnqueueReady(m, i)
    {
      hide CommitPass, QueueAnswer, Executes, MmioStoreRequest;
      var enqueueValid := w.offer.Some? && !IsMmio(w.offer.value.address);
      var s := if w.offer.Some? then ShownStore(w.offer.value) else Store(0, MemWord, [0, 0, 0, 0]);
      var drained;
      DrainNeedsStore(i);
      enqueueReady, drained := buffer.Clock(enqueueValid, s, w.selectDrain && i.memoryReady);
    }

    /** The write the memory port accepts. */
    method PortWrite(i: Inputs, w: Wires, oldest: Store) returns (write: seq<Store>)
      requires WiresAre(w, m, i) && (m.buffer != [] ==> oldest == m.buffer[0])
      ensures write == Write(m, i)
    {
      hide CommitPass, QueueAnswer, Executes;
      write := [];
      if w.mmioRequest && i.memoryReady {
        write := [ShownStore(w.offer.value)];
      } else if w.selectDrain && i.memoryReady {
        write := [oldest];
      }
    }

    lemma ExecutesInside(i: Inputs)
      requires Executes(m, i)
      ensures HasCandidate(m, i)
    {
    }

    lemma CommitBounds(i: Inputs)
      requires Inv(m) && InputsOk(m, i)
      ensures Retire(m, i).offset <= |m.lsq| && Retire(m, i).offset <= 2
    {
      assert Retire(m, i).offset <= 2 by {
        hide LaneCanCommit;
      }
      InvParts(m, i);
      RetiredIsTaken(m, i);
    }

    lemma DrainNeedsStore(i: Inputs)
      ensures SelectDrain(m, i) ==> m.buffer != []
    {
    }

    /** The candidate's entry with what its execution delivers. */
    method Execute(i: Inputs, w: Wires, e: Entry) returns (r: Entry)
      requires WiresAre(w, m, i) && w.executes && mem == m.mem
      ensures r == Executed(m, i, e)
    {
      hide CommitPass, QueueAnswer, SelectDrain, MmioStoreRequest, LoadValue;
      r := e.(addressReady := true, address := e.operandAddress);
      if e.isStore {
        if i.candidate.value.dataReady {
          r := r.(dataReady := true, storeData := e.operandData);
        }
      } else {
        var v := if w.forwardValid then w.forwardData else LoadValue(mem, e.operandAddress, e.access);
        r := r.(result := Some(v));
      }
    }
  
    /** The writeback buses and the ports of the executing uop. */
    method Deliver(i: Inputs, w: Wires)
      requires QueueHolds(m.lsq) && WiresAre(w, m, i) && mem == m.mem
      modifies queue.slots
      ensures QueueHolds(Updated(m, i))
    {
      hide CommitPass, QueueAnswer, SelectDrain, MmioStoreRequest, Executed, Woken, Executes;
      UpdatedIs(m, i);
      queue.Wake(i.wakeup);
      if w.executes {
        var k := i.candidate.value.index;
        ExecutesInside(i);
        var shown, e := queue.HeadEntry(k);
        var r := Execute(i, w, e);
        queue.Update(AddPtr(queue.headPtr, k, queue.depth), r, k);
      }
    }

    /** Flush, recovery, or retirement and dispatch. */
    method MoveQueue(i: Inputs, mask: set<nat>, w: Wires, retireCount: nat)
      requires QueueHolds(m.lsq) && WiresAre(w, m, i) && mem == m.mem
      requires RecoveryMask(m, i, mask) && |m.lsq| + |i.alloc| <= LSQ_ENTRY_NUM
      requires retireCount == Retire(m, i).offset <= |m.lsq| && retireCount <= 2
      modifies queue, queue.slots
      ensures QueueHolds(NextQueue(m, i))
    {
      hide WiresAre, Retire, UpdatedEntry;
      Deliver(i, w);
      ghost var q := Updated(m, i);
      if Flush(i) {
        queue.Flush();
      } else if i.recover.Some? {
        SameTags(m, i, mask, Min(i.recover.value, |m.lsq|));
        queue.Recover(mask, Min(i.recover.value, |m.lsq|));
      } else {
        var retired := queue.RetireHead(retireCount);
        var accepted := queue.AllocateLanes(i.alloc);
        assert i.alloc[..|i.alloc|] == i.alloc;
      }
    }

    /**
      One clock edge.  Dispatch control admits no more memory uops than the queue
      has free entries.
    */
    method Cycle(i: Inputs, mask: set<nat>)
      requires Rep() && Inv(m) && InputsOk(m, i) && RecoveryMask(m, i, mask)
      requires |m.lsq| + |i.alloc| <= LSQ_ENTRY_NUM
      modifies this, queue, queue.slots, buffer, buffer.slots
      ensures Rep() && Inv(m) && m == Next(old(m), i)
    {
      hide Inv, WiresAre, CommitPass, SelectDrain, NextQueue, NextBuffer, Executes, QueueAnswer, ApplyAll, Leaving;
      var w := Evaluate(i);
      var drainValid, oldest := buffer.Head();
      var write := PortWrite(i, w, oldest);
      var empty := !drainValid;
      var enqueueReady := MoveBuffer(i, w);
      CommitBounds(i);
      var c := CommitLanes(i, enqueueReady, empty && i.memoryReady);
      MoveQueue(i, mask, w, c.offset);
      mem := ApplyAll(mem, write);
      CycleKeepsInv(m, i);
      m := Next(m, i);
    }
  }

  lemma UpdatedIs(s: State, i: Inputs)
    ensures
      var q := AllWoken(i.wakeup, s.lsq);
      if Executes(s, i)
      then HasCandidate(s, i)
        && Updated(s, i) == q[i.candidate.value.index := Executed(s, i, q[i.candidate.value.index])]
      else Updated(s, i) == q
  {
    hide Executed, Woken, BaseReady, CacheLoad, Aligned, LoadCacheReady;
  }

  /** An update keeps every tag, so the recovery mask kills the same places. */
  lemma SameTags(s: State, i: Inputs, mask: set<nat>, keep: nat)
    requires KillsFrom(s.lsq, mask, keep)
    ensures KillsFrom(Updated(s, i), mask, keep)
  {
    hide Executes, QueueAnswer, LoadValue;
  }

  /** Dispatch control and the reorder buffer in every cycle: room for the new entries, and the right recovery mask. */
  ghost predicate Admitted(s: State, ins: seq<Inputs>, masks: seq<set<nat>>)
    decreases |ins|
  {
    && |ins| == |masks|
    && (ins != [] ==>
          var n := |ins| - 1;
          var t := Run(s, ins[..n]);
          && Admitted(s, ins[..n], masks[..n])
          && |t.lsq| + |ins[n].alloc| <= LSQ_ENTRY_NUM && RecoveryMask(t, ins[n], masks[n]))
  }

  lemma {:induction false} RunPrefix(s: State, ins: seq<Inputs>, masks: seq<set<nat>>, k: nat)
    requires k <= |ins| && RunOk(s, ins) && Admitted(s, ins, masks)
    ensures RunOk(s, ins[..k]) && Admitted(s, ins[..k], masks[..k])
    decreases |ins|
  {
    hide InputsOk, RecoveryMask, MemoryOrder.Run;
    if k < |ins| {
      var n := |ins| - 1;
      RunPrefix(s, ins[..n], masks[..n], k);
      assert ins[..n][..k] == ins[..k] && masks[..n][..k] == masks[..k];
    } else {
      assert ins[..k] == ins && masks[..k] == masks;
    }
  }

  /** Any number of clock edges from reset: every retired Load has its in-order value. */
  method RunCycles(init: Memory, ins: seq<Inputs>, masks: seq<set<nat>>) returns (b: Backend)
    requires RunOk(Reset(init), ins) && Admitted(Reset(init), ins, masks)
    ensures b.Rep() && b.m == Run(Reset(init), ins)
    ensures StoresConserved(b.m) && AllSaw(init, b.m.retired, b.m.loads)
  {
    hide Inv, RecoveryMask, MemoryOrder.Next, StoresConserved, AllSaw, InputsOk, Backend.Rep;
    b := new Backend(init);
    ghost var s := Reset(init);
    ResetOk(init);
    for k := 0 to |ins|
      invariant b.Rep() && Inv(b.m) && b.m == Run(s, ins[..k])
      invariant fresh(b) && fresh(b.queue) && fresh(b.queue.slots) && fresh(b.buffer) && fresh(b.buffer.slots)
    {
      RunPrefix(s, ins, masks, k + 1);
      assert ins[..k + 1][..k] == ins[..k];
      b.Cycle(ins[k], masks[k]);
    }
    assert ins[..|ins|] == ins;
    InOrderMemory(init, ins);
    InitKept(s, ins);
  }

  lemma {:induction false} InitKept(s: State, ins: seq<Inputs>)
    ensures Run(s, ins).init == s.init
    decreases |ins|
  {
    if ins != [] {
      InitKept(s, ins[..|ins| - 1]);
    }
  }
}
