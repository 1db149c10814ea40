/**
  Memory ordering in the out-of-order backend (rtl/backend/OoOBackend.sv with
  rtl/backend/retire/BackendCommitStage.sv and
  rtl/backend/execute/lsu/LoadStoreExecutionUnit.sv), one clock cycle at a time.

  A cycle evaluates the wiring equations on the current state and then moves the
  queue, the Store Buffer and memory together.  The state also records history:
  the Stores retired so far, the writes accepted on the memory port, and every
  retired Load with its value.
*/
module MemoryOrder {
  import opened Wrappers
  import opened DataMemory
  import opened StoreBuffers
  import opened LoadStoreQueues

  const STORE_BUFFER_ENTRY_NUM := 8

  /** A retired Load and the number of Stores retired before it. */
  datatype LoadRecord = LoadRecord(address: nat, access: Access, value: Word, storesBefore: nat)

  datatype State = State(
    init: Memory,               // memory at reset
    mem: Memory,                // memory now
    lsq: seq<Entry>,            // program order
    buffer: seq<Store>,         // retired cacheable Stores, oldest first
    retired: seq<Store>,        // all Stores ever retired
    accepted: seq<Store>,       // all writes ever accepted on the memory port
    loads: seq<LoadRecord>)     // all Loads ever retired

  /** One lane of `robCommitEntry`, complete when valid. */
  datatype RobLane = RobLane(valid: bool, exception: bool, isMemory: bool, isStore: bool, isBranch: bool, tag: nat)

  /** The memory uop offered to the load/store unit. */
  datatype Candidate = Candidate(
    index: nat,                 // its place in the queue
    sourceValid: bool,          // not held back by the integer fallback
    pending: bool,              // `pendingValid` of its ROB tag
    slotFree: bool,             // a local completion can be registered
    dataReady: bool,            // `src2Ready`
    decodeException: bool)

  datatype Inputs = Inputs(
    lane0: RobLane, lane1: RobLane,
    branchTrainReady: bool,
    memoryReady: bool,          // `memoryRequestReady_i`
    recover: Option<nat>,       // branch recovery: how many queue entries are not younger than the branch
    candidate: Option<Candidate>,
    wakeup: set<nat>,           // tags of Stores whose data register is written back
    alloc: seq<Entry>)          // entries dispatched this cycle

  // ---- Commit stage ----------------------------------------------------------------

  datatype Commit = Commit(prefix: bool, offset: nat, stores: nat, branches: nat, store: Option<Entry>)

  const NO_COMMIT := Commit(true, 0, 0, 0, None)

  /** `laneCanCommit`; the first pass does not consult the Store destinations. */
  predicate LaneCanCommit(s: State, i: Inputs, lane: RobLane, c: Commit, cachedReady: bool, mmioReady: bool) {
    && i.recover.None? && c.prefix && lane.valid && !lane.exception
    && (lane.isMemory ==>
          && c.offset < |s.lsq| && s.lsq[c.offset].tag == lane.tag
          && (lane.isStore ==>
                && s.lsq[c.offset].addressReady && s.lsq[c.offset].dataReady && c.stores == 0
                && if IsMmio(s.lsq[c.offset].address) then mmioReady else cachedReady))
    && (lane.isBranch ==> c.branches == 0 && i.branchTrainReady)
  }

  function CommitLane(s: State, i: Inputs, lane: RobLane, c: Commit, cachedReady: bool, mmioReady: bool): Commit {
    if LaneCanCommit(s, i, lane, c, cachedReady, mmioReady) then
      Commit(true,
             if lane.isMemory then c.offset + 1 else c.offset,
             if lane.isMemory && lane.isStore then c.stores + 1 else c.stores,
             if lane.isBranch then c.branches + 1 else c.branches,
             if lane.isMemory && lane.isStore then Some(s.lsq[c.offset]) else c.store)
    else c.(prefix := false)
  }

  function CommitPass(s: State, i: Inputs, cachedReady: bool, mmioReady: bool): Commit {
    CommitLane(s, i, i.lane1, CommitLane(s, i, i.lane0, NO_COMMIT, cachedReady, mmioReady), cachedReady, mmioReady)
  }

  // ---- Wiring of the backend -----------------------------------------------------------

  /** First pass: the Store offered to the Store Buffer or the memory port. */
  function CommitStore(s: State, i: Inputs): Option<Entry> {
    CommitPass(s, i, true, true).store
  }

  predicate CommitStoreMmio(s: State, i: Inputs) {
    CommitStore(s, i).Some? && IsMmio(CommitStore(s, i).value.address)
  }

  predicate CommitStoreCached(s: State, i: Inputs) {
    CommitStore(s, i).Some? && !IsMmio(CommitStore(s, i).value.address)
  }

  predicate Flush(i: Inputs) {
    i.lane0.valid && i.lane0.exception
  }

  predicate HasCandidate(s: State, i: Inputs) {
    i.candidate.Some? && i.candidate.value.index < |s.lsq|
  }

  function CandidateEntry(s: State, i: Inputs): Entry
    requires HasCandidate(s, i)
  {
    s.lsq[i.candidate.value.index]
  }

  predicate LoadCandidate(s: State, i: Inputs) {
    HasCandidate(s, i) && !CandidateEntry(s, i).isStore
  }

  function QueueAnswer(s: State, i: Inputs): Answer
    requires HasCandidate(s, i)
  {
    var e := CandidateEntry(s, i);
    if e.isStore then Answer(true, false, [0, 0, 0, 0])
    else Query(s.lsq[..i.candidate.value.index], e.operandAddress, e.access)
  }

  /** `storeBufferQueryConflict`. */
  ghost predicate BufferConflict(s: State, i: Inputs)
    requires HasCandidate(s, i)
  {
    LoadCandidate(s, i) && !QueueAnswer(s, i).forwardValid &&
    Conflicts(s.buffer, CandidateEntry(s, i).operandAddress, CandidateEntry(s, i).access)
  }

  /** `combinedLsqIssueReady`. */
  ghost predicate IssueReady(s: State, i: Inputs)
    requires HasCandidate(s, i)
  {
    && QueueAnswer(s, i).ready
    && (QueueAnswer(s, i).forwardValid || !BufferConflict(s, i))
    && (!LoadCandidate(s, i) || !IsMmio(CandidateEntry(s, i).operandAddress) ||
        (s.buffer == [] && s.lsq[0].tag == CandidateEntry(s, i).tag))
  }

  /** `baseIssueReady`. */
  ghost predicate BaseReady(s: State, i: Inputs)
    requires HasCandidate(s, i)
  {
    IssueReady(s, i) && !Flush(i) && (i.recover.Some? ==> i.candidate.value.index < i.recover.value)
  }

  /** `normalCacheLoad`. */
  predicate CacheLoad(s: State, i: Inputs)
    requires HasCandidate(s, i)
  {
    && LoadCandidate(s, i) && !QueueAnswer(s, i).forwardValid
    && Aligned(CandidateEntry(s, i).operandAddress, CandidateEntry(s, i).access) && !i.candidate.value.decodeException
  }

  /** `lsuLoadReadValid`. */
  ghost predicate LoadReadValid(s: State, i: Inputs) {
    && HasCandidate(s, i) && i.candidate.value.sourceValid && BaseReady(s, i) && CacheLoad(s, i)
    && !i.candidate.value.pending
  }

  predicate MmioStoreReady(s: State, i: Inputs) { s.buffer == [] && i.memoryReady }
  predicate MmioStoreRequest(s: State, i: Inputs) { CommitStoreMmio(s, i) && s.buffer == [] }
  predicate ForceDrain(s: State) { |s.buffer| == STORE_BUFFER_ENTRY_NUM }

  predicate LoadCacheReady(s: State, i: Inputs) {
    i.memoryReady && !CommitStoreMmio(s, i) && !ForceDrain(s)
  }

  ghost predicate SelectDrain(s: State, i: Inputs) {
    && s.buffer != [] && !MmioStoreRequest(s, i)
    && (CommitStoreMmio(s, i) || ForceDrain(s) || !LoadReadValid(s, i))
  }

  ghost predicate SelectLoad(s: State, i: Inputs) {
    LoadReadValid(s, i) && !MmioStoreRequest(s, i) && !CommitStoreMmio(s, i) && !ForceDrain(s)
  }

  ghost predicate DrainFire(s: State, i: Inputs) { SelectDrain(s, i) && i.memoryReady }

  /** `enqueueReady_o` of the Store Buffer. */
  ghost predicate EnqueueReady(s: State, i: Inputs) {
    |s.buffer| != STORE_BUFFER_ENTRY_NUM || DrainFire(s, i)
  }

  /** Second pass: what really retires. */
  ghost function Retire(s: State, i: Inputs): Commit {
    CommitPass(s, i, EnqueueReady(s, i), MmioStoreReady(s, i))
  }

  /** `issueFire` of the load/store unit. */
  ghost predicate IssueFire(s: State, i: Inputs) {
    && HasCandidate(s, i) && i.candidate.value.sourceValid && BaseReady(s, i)
    && if CacheLoad(s, i) then !i.candidate.value.pending && LoadCacheReady(s, i) else i.candidate.value.slotFree
  }

  /** `executeValid_o`: the uop issues with an aligned address. */
  ghost predicate Executes(s: State, i: Inputs) {
    && IssueFire(s, i) && !i.candidate.value.decodeException
    && Aligned(CandidateEntry(s, i).operandAddress, CandidateEntry(s, i).access)
  }

  // ---- The next state ---------------------------------------------------------------------

  /** The candidate's entry after execution: a Load gets its value, a Store its address and perhaps data. */
  ghost function Executed(s: State, i: Inputs, e: Entry): Entry
    requires HasCandidate(s, i)
  {
    if e.isStore then
      var e1 := e.(addressReady := true, address := e.operandAddress);
      if i.candidate.value.dataReady then e1.(dataReady := true, storeData := e.operandData) else e1
    else
      e.(addressReady := true, address := e.operandAddress,
         result := Some(if QueueAnswer(s, i).forwardValid then QueueAnswer(s, i).forwardData
                        else LoadValue(s.mem, e.operandAddress, e.access)))
  }

  ghost function UpdatedEntry(s: State, i: Inputs, k: nat): Entry
    requires k < |s.lsq|
  {
    var e := Woken(i.wakeup, s.lsq[k]);
    if Executes(s, i) && i.candidate.value.index == k then Executed(s, i, e) else e
  }

  /** The queue with this cycle's addresses, data and results filled in. */
  ghost function Updated(s: State, i: Inputs): (q: seq<Entry>)
    ensures |q| == |s.lsq|
    ensures forall k :: 0 <= k < |q| ==> q[k] == UpdatedEntry(s, i, k)
  {
    seq(|s.lsq|, k requires 0 <= k < |s.lsq| => UpdatedEntry(s, i, k))
  }

  ghost function NextQueue(s: State, i: Inputs): seq<Entry> {
    var q := Updated(s, i);
    if Flush(i) then []
    else if i.recover.Some? then q[..if i.recover.value <= |q| then i.recover.value else |q|]
    else q[if Retire(s, i).offset <= |q| then Retire(s, i).offset else |q|..] + i.alloc
  }

  ghost function NextBuffer(s: State, i: Inputs): seq<Store> {
    (if DrainFire(s, i) then s.buffer[1..] else s.buffer) +
    (if CommitStoreCached(s, i) && EnqueueReady(s, i) then [ShownStore(CommitStore(s, i).value)] else [])
  }

  /** A Store as the queue presents it to commit. */
  function ShownStore(e: Entry): Store {
    Store(e.address, e.access, e.storeData)
  }

  /** The write accepted on the memory port this cycle, if any. */
  ghost function Write(s: State, i: Inputs): seq<Store> {
    if MmioStoreRequest(s, i) && i.memoryReady then [ShownStore(CommitStore(s, i).value)]
    else if DrainFire(s, i) then [s.buffer[0]]
    else []
  }

  /** History of the entries that leave the head of the queue. */
  function RetiredLoads(q: seq<Entry>, before: nat): seq<LoadRecord> {
    if q == [] then []
    else
      var rest, e := q[..|q| - 1], q[|q| - 1];
      RetiredLoads(rest, before) +
      if !e.isStore && e.result.Some?
      then [LoadRecord(e.operandAddress, e.access, e.result.value, before + |StoresOf(rest)|)] else []
  }

  ghost function Leaving(s: State, i: Inputs): seq<Entry> {
    s.lsq[..if Retire(s, i).offset <= |s.lsq| then Retire(s, i).offset else |s.lsq|]
  }

  ghost function Next(s: State, i: Inputs): State {
    State(s.init,
          ApplyAll(s.mem, Write(s, i)),
          NextQueue(s, i),
          NextBuffer(s, i),
          s.retired + StoresOf(Leaving(s, i)),
          s.accepted + Write(s, i),
          s.loads + RetiredLoads(Leaving(s, i), |s.retired|))
  }

  // ---- The environment -----------------------------------------------------------------------

  /**
    A complete ROB entry mirrors its queue entry, and a Load completes only after
    its value has come back.
  */
  predicate LaneMirrors(s: State, lane: RobLane) {
    lane.valid && lane.isMemory && !lane.exception ==>
      forall k :: 0 <= k < |s.lsq| && s.lsq[k].tag == lane.tag ==>
        lane.isStore == s.lsq[k].isStore && (!s.lsq[k].isStore ==> s.lsq[k].result.Some?)
  }

  /** Entries are dispatched with fresh tags, before they have an address or a result. */
  predicate FreshEntries(s: State, alloc: seq<Entry>) {
    && (forall j :: 0 <= j < |alloc| ==> Consistent(alloc[j]) && !alloc[j].addressReady && alloc[j].result.None?)
    && (forall j, k :: 0 <= j < |alloc| && 0 <= k < |s.lsq| ==> alloc[j].tag != s.lsq[k].tag)
    && DistinctTags(alloc)
  }

  predicate DistinctTags(q: seq<Entry>) {
    forall j, k :: 0 <= j < k < |q| ==> q[j].tag != q[k].tag
  }

  predicate InputsOk(s: State, i: Inputs) {
    LaneMirrors(s, i.lane0) && LaneMirrors(s, i.lane1) && FreshEntries(s, i.alloc)
  }

  // ---- What every cycle keeps ----------------------------------------------------------------

  /** Writes leave in retirement order: those accepted, then those still buffered, are all retired Stores. */
  predicate StoresConserved(s: State) {
    s.accepted + s.buffer == s.retired
  }

  predicate BufferOk(s: State) {
    && |s.buffer| <= STORE_BUFFER_ENTRY_NUM
    && forall k :: 0 <= k < |s.buffer| ==> WellFormed(s.buffer[k]) && !IsMmio(s.buffer[k].address)
  }

  /** The memory a Load at place `k` must see: all Stores before it in program order, in order. */
  function ProgramMemory(s: State, k: nat): Memory
    requires k <= |s.lsq|
  {
    ApplyAll(s.init, s.retired + StoresOf(s.lsq[..k]))
  }

  /** Every Load that has executed holds the value of in-order execution. */
  ghost predicate ResultsRight(s: State) {
    forall k :: 0 <= k < |s.lsq| && !s.lsq[k].isStore && s.lsq[k].result.Some? ==>
      s.lsq[k].result.value == LoadValue(ProgramMemory(s, k), s.lsq[k].operandAddress, s.lsq[k].access)
  }

  /** A record agrees with executing the first `storesBefore` of the Stores `all`. */
  ghost predicate Saw(init: Memory, all: seq<Store>, r: LoadRecord) {
    r.storesBefore <= |all| && r.value == LoadValue(ApplyAll(init, all[..r.storesBefore]), r.address, r.access)
  }

  ghost predicate AllSaw(init: Memory, all: seq<Store>, rs: seq<LoadRecord>) {
    forall j :: 0 <= j < |rs| ==> Saw(init, all, rs[j])
  }

  /** Every retired Load returned the value of in-order execution. */
  ghost predicate LoadsRight(s: State) {
    AllSaw(s.init, s.retired, s.loads)
  }

  ghost predicate Inv(s: State) {
    && s.mem == ApplyAll(s.init, s.accepted)
    && StoresConserved(s) && BufferOk(s)
    && AllConsistent(s.lsq) && DistinctTags(s.lsq)
    && ResultsRight(s) && LoadsRight(s)
  }

  // ---- Issue: the gating lets through only Loads with the right value -----------------------------

  /** A Load that may issue receives the value of in-order execution, forwarded or from memory. */
  lemma IssuedLoadRight(s: State, i: Inputs)
    requires s.mem == ApplyAll(s.init, s.accepted) && StoresConserved(s) && AllConsistent(s.lsq)
    requires LoadCandidate(s, i) && IssueReady(s, i)
    requires Aligned(CandidateEntry(s, i).operandAddress, CandidateEntry(s, i).access)
    ensures var e := CandidateEntry(s, i);
            var v := if QueueAnswer(s, i).forwardValid then QueueAnswer(s, i).forwardData
                     else LoadValue(s.mem, e.operandAddress, e.access);
            v == LoadValue(ProgramMemory(s, i.candidate.value.index), e.operandAddress, e.access)
  {
    hide LoadValue, Disjoint;
    var k, e := i.candidate.value.index, CandidateEntry(s, i);
    var older := s.lsq[..k];
    QueryCorrect(older, e.operandAddress, e.access);
    var ss := StoresOf(older);
    ApplyAllConcat(s.init, s.accepted, s.buffer);
    ApplyAllConcat(s.init, s.retired, ss);
    if !QueueAnswer(s, i).forwardValid {
      DisjointStores(s.mem, s.buffer, e.operandAddress, e.access);
      DisjointStores(ApplyAll(s.mem, s.buffer), ss, e.operandAddress, e.access);
      LoadValueLocal(s.mem, ProgramMemory(s, k), e.operandAddress, e.access);
    }
  }

  // ---- Retirement ------------------------------------------------------------------------------

  /** What a pass of the commit stage has established. */
  ghost predicate CommitOk(s: State, c: Commit) {
    && c.offset <= |s.lsq|
    && StoresOf(s.lsq[..c.offset]) == (if c.store.Some? then [ShownStore(c.store.value)] else [])
    && (c.store.Some? <==> c.stores > 0)
    && (c.store.Some? ==> c.store.value in s.lsq && c.store.value.isStore && c.store.value.addressReady)
    && forall k :: 0 <= k < c.offset && !s.lsq[k].isStore ==> s.lsq[k].result.Some?
  }

  lemma CommitLaneOk(s: State, i: Inputs, lane: RobLane, c: Commit, cachedReady: bool, mmioReady: bool)
    requires AllConsistent(s.lsq) && LaneMirrors(s, lane) && CommitOk(s, c)
    ensures CommitOk(s, CommitLane(s, i, lane, c, cachedReady, mmioReady))
  {
    if LaneCanCommit(s, i, lane, c, cachedReady, mmioReady) && lane.isMemory {
      var q := s.lsq[..c.offset + 1];
      assert q[..|q| - 1] == s.lsq[..c.offset] && q[|q| - 1] == s.lsq[c.offset];
      assert Consistent(s.lsq[c.offset]);
    }
  }

  lemma CommitPassOk(s: State, i: Inputs, cachedReady: bool, mmioReady: bool)
    requires AllConsistent(s.lsq) && LaneMirrors(s, i.lane0) && LaneMirrors(s, i.lane1)
    ensures CommitOk(s, CommitPass(s, i, cachedReady, mmioReady))
  {
    hide LaneCanCommit, CommitOk, CommitLane;
    CommitNone(s);
    CommitLaneOk(s, i, i.lane0, NO_COMMIT, cachedReady, mmioReady);
    CommitLaneOk(s, i, i.lane1, CommitLane(s, i, i.lane0, NO_COMMIT, cachedReady, mmioReady), cachedReady, mmioReady);
  }

  lemma CommitNone(s: State)
    ensures CommitOk(s, NO_COMMIT)
  {
    assert s.lsq[..0] == [];
  }

  /** The second pass retires the Store of the first pass exactly when its destination is ready. */
  lemma PassesAgree(s: State, i: Inputs, cachedReady: bool, mmioReady: bool)
    ensures var offered := CommitStore(s, i);
            var c := CommitPass(s, i, cachedReady, mmioReady);
            c.store == if offered.Some? && (if IsMmio(offered.value.address) then mmioReady else cachedReady)
                       then offered else None
  {
  }

  /** Exactly the Store that the port or the buffer takes is retired. */
  lemma RetiredIsTaken(s: State, i: Inputs)
    requires AllConsistent(s.lsq) && LaneMirrors(s, i.lane0) && LaneMirrors(s, i.lane1)
    ensures Retire(s, i).offset <= |s.lsq|
    ensures StoresOf(Leaving(s, i)) ==
      if (CommitStoreMmio(s, i) && MmioStoreReady(s, i)) || (CommitStoreCached(s, i) && EnqueueReady(s, i))
      then [ShownStore(CommitStore(s, i).value)] else []
    ensures forall k :: 0 <= k < |Leaving(s, i)| && !s.lsq[k].isStore ==> s.lsq[k].result.Some?
  {
    hide CommitPass, EnqueueReady, ShownStore;
    CommitPassOk(s, i, EnqueueReady(s, i), MmioStoreReady(s, i));
    PassesAgree(s, i, EnqueueReady(s, i), MmioStoreReady(s, i));
  }

  /** Store order is conserved by every cycle, through the buffer or past it. */
  lemma CycleConservesStores(s: State, i: Inputs)
    requires Inv(s) && InputsOk(s, i)
    ensures StoresConserved(Next(s, i))
    ensures Next(s, i).mem == ApplyAll(s.init, Next(s, i).accepted)
  {
    hide Inv, InputsOk, CommitStore, EnqueueReady, LoadReadValid, NextQueue, RetiredLoads, Leaving, ShownStore;
    InvParts(s, i);
    RetiredIsTaken(s, i);
    ApplyAllConcat(s.init, s.accepted, Write(s, i));
    var enqueued := if CommitStoreCached(s, i) && EnqueueReady(s, i) then [ShownStore(CommitStore(s, i).value)] else [];
    QueueMoves(s.accepted, s.buffer, DrainFire(s, i), enqueued);
  }

  /** Taking the oldest Store from the buffer and adding one behind it keeps the order. */
  lemma QueueMoves(accepted: seq<Store>, buffer: seq<Store>, drain: bool, enqueued: seq<Store>)
    requires drain ==> buffer != []
    ensures (accepted + (if drain then [buffer[0]] else [])) + ((if drain then buffer[1..] else buffer) + enqueued)
            == accepted + buffer + enqueued
  {
    assert drain ==> buffer == [buffer[0]] + buffer[1..];
  }

  lemma InvParts(s: State, i: Inputs)
    requires Inv(s) && InputsOk(s, i)
    ensures s.mem == ApplyAll(s.init, s.accepted) && StoresConserved(s) && AllConsistent(s.lsq)
    ensures LaneMirrors(s, i.lane0) && LaneMirrors(s, i.lane1)
  {
  }

  lemma CycleKeepsBuffer(s: State, i: Inputs)
    requires Inv(s) && InputsOk(s, i)
    ensures BufferOk(Next(s, i))
  {
    hide CommitPass, LoadReadValid, ResultsRight, LoadsRight, NextQueue, RetiredLoads, Leaving;
    CommitPassOk(s, i, true, true);
    if CommitStore(s, i).Some? {
      var e := CommitStore(s, i).value;
      assert e in s.lsq && Consistent(e);
    }
  }

  // ---- The queue ---------------------------------------------------------------------------------

  /** Entries keep their identity and operands. */
  predicate SameUop(e: Entry, e': Entry) {
    e'.tag == e.tag && e'.isStore == e.isStore && e'.access == e.access &&
    e'.operandAddress == e.operandAddress && e'.operandData == e.operandData
  }

  lemma UpdatedEntryOk(s: State, i: Inputs, k: nat)
    requires Inv(s) && k < |s.lsq|
    ensures SameUop(s.lsq[k], UpdatedEntry(s, i, k)) && Consistent(UpdatedEntry(s, i, k))
    ensures var e := UpdatedEntry(s, i, k);
            !e.isStore && e.result.Some? ==>
              e.result.value == LoadValue(ProgramMemory(s, k), e.operandAddress, e.access)
  {
    hide LoadReadValid, LoadValue, ProgramMemory, Query, LoadsRight;
    assert Consistent(s.lsq[k]);
    if Executes(s, i) && i.candidate.value.index == k && !s.lsq[k].isStore {
      IssuedLoadRight(s, i);
    }
  }

  lemma {:induction false} SameStores(p: seq<Entry>, q: seq<Entry>)
    requires |p| == |q| && forall k :: 0 <= k < |p| ==> SameUop(p[k], q[k])
    ensures StoresOf(p) == StoresOf(q)
    decreases |p|
  {
    if p != [] {
      SameStores(p[..|p| - 1], q[..|q| - 1]);
    }
  }

  /** The queue of `t` is the stretch lo .. hi of `s`'s updated queue, the Stores before it having retired. */
  ghost predicate Carries(s: State, t: State, q: seq<Entry>, lo: nat) {
    && t.init == s.init && lo <= |s.lsq| && |q| + lo <= |s.lsq|
    && t.retired == s.retired + StoresOf(s.lsq[..lo])
    && (forall k :: 0 <= k < |q| ==> SameUop(s.lsq[lo + k], q[k]))
    && q <= t.lsq
  }

  /** Moving along with retirement does not change what a Load must see. */
  lemma CarriedMemory(s: State, t: State, q: seq<Entry>, lo: nat, k: nat)
    requires Carries(s, t, q, lo) && k <= |q|
    ensures ProgramMemory(t, k) == ProgramMemory(s, lo + k)
  {
    hide SameUop, StoresOf, ApplyAll;
    var a, b := s.lsq[..lo], s.lsq[lo..lo + k];
    assert s.lsq[..lo + k] == a + b;
    StoresOfConcat(a, b);
    assert t.lsq[..k] == q[..k];
    assert forall i :: 0 <= i < k ==> b[i] == s.lsq[lo + i] && q[..k][i] == q[i];
    SameStores(b, q[..k]);
    assert t.retired + StoresOf(t.lsq[..k]) == s.retired + StoresOf(s.lsq[..lo + k]);
  }

  /** The surviving part of the queue and its place in the old one. */
  ghost function Survivors(s: State, i: Inputs): (r: (seq<Entry>, nat))
    requires Retire(s, i).offset <= |s.lsq|
    ensures r.1 + |r.0| <= |s.lsq|
    ensures forall k :: 0 <= k < |r.0| ==> r.0[k] == UpdatedEntry(s, i, r.1 + k)
  {
    var q := Updated(s, i);
    if Flush(i) then ([], Retire(s, i).offset)
    else if i.recover.Some? then (q[..if i.recover.value <= |q| then i.recover.value else |q|], 0)
    else (q[Retire(s, i).offset..], Retire(s, i).offset)
  }

  lemma SurvivorsCarry(s: State, i: Inputs)
    requires Inv(s) && InputsOk(s, i) && Retire(s, i).offset <= |s.lsq|
    ensures Carries(s, Next(s, i), Survivors(s, i).0, Survivors(s, i).1)
    ensures Next(s, i).lsq == Survivors(s, i).0 + if !Flush(i) && i.recover.None? then i.alloc else []
  {
    hide Inv, InputsOk, UpdatedEntry, Retire, NextBuffer, Write, RetiredLoads, StoresOf;
    var (q, lo) := Survivors(s, i);
    forall k | 0 <= k < |q| ensures SameUop(s.lsq[lo + k], q[k]) {
      UpdatedEntryOk(s, i, lo + k);
    }
    RecoveryRetiresNothing(s, i);
    NothingStored(s);
  }

  lemma NothingStored(s: State)
    ensures StoresOf(s.lsq[..0]) == []
  {
  }

  lemma RecoveryRetiresNothing(s: State, i: Inputs)
    ensures i.recover.Some? || Flush(i) ==> Retire(s, i).offset == 0
  {
    hide EnqueueReady;
  }

  lemma CycleKeepsQueue(s: State, i: Inputs)
    requires Inv(s) && InputsOk(s, i) && Retire(s, i).offset <= |s.lsq|
    ensures AllConsistent(Next(s, i).lsq) && DistinctTags(Next(s, i).lsq) && ResultsRight(Next(s, i))
  {
    hide Retire, Next, Updated, UpdatedEntry, Consistent, Carries, LaneMirrors, LoadValue, ProgramMemory, LoadsRight;
    var t := Next(s, i);
    var (q, lo) := Survivors(s, i);
    SurvivorsCarry(s, i);
    forall k | 0 <= k < |q|
      ensures SameUop(s.lsq[lo + k], q[k]) && Consistent(q[k])
      ensures !q[k].isStore && q[k].result.Some? ==>
        q[k].result.value == LoadValue(ProgramMemory(t, k), q[k].operandAddress, q[k].access)
    {
      UpdatedEntryOk(s, i, lo + k);
      CarriedMemory(s, t, q, lo, k);
    }
    assert forall k :: |q| <= k < |t.lsq| ==> t.lsq[k] == i.alloc[k - |q|];
  }

  // ---- History ------------------------------------------------------------------------------------

  lemma AllSawMore(init: Memory, all: seq<Store>, more: seq<Store>, rs: seq<LoadRecord>)
    requires AllSaw(init, all, rs)
    ensures AllSaw(init, all + more, rs)
  {
    forall j | 0 <= j < |rs| ensures Saw(init, all + more, rs[j]) {
      assert (all + more)[..rs[j].storesBefore] == all[..rs[j].storesBefore];
    }
  }

  lemma AllSawBoth(init: Memory, all: seq<Store>, rs: seq<LoadRecord>, ts: seq<LoadRecord>)
    requires AllSaw(init, all, rs) && AllSaw(init, all, ts)
    ensures AllSaw(init, all, rs + ts)
  {
  }

  /** Retired Loads saw exactly the Stores before them. */
  lemma {:induction false} RecordsRight(s: State, n: nat)
    requires ResultsRight(s) && n <= |s.lsq|
    ensures AllSaw(s.init, s.retired + StoresOf(s.lsq[..n]), RetiredLoads(s.lsq[..n], |s.retired|))
    decreases n
  {
    if n > 0 {
      hide AllSaw, Saw, ResultsRight, StoreOf;
      RecordsRight(s, n - 1);
      var q, e := s.lsq[..n - 1], s.lsq[n - 1];
      assert s.lsq[..n][..n - 1] == q && s.lsq[..n][n - 1] == e;
      var all, more := s.retired + StoresOf(q), if e.isStore then [StoreOf(e)] else [];
      assert s.retired + StoresOf(s.lsq[..n]) == all + more;
      AllSawMore(s.init, all, more, RetiredLoads(q, |s.retired|));
      SawNow(s, n - 1);
      AllSawBoth(s.init, all + more, RetiredLoads(q, |s.retired|), Latest(s, n - 1));
    }
  }

  /** The record of the entry at place `k`, if it is a Load. */
  function Latest(s: State, k: nat): seq<LoadRecord>
    requires k < |s.lsq|
  {
    var e := s.lsq[k];
    if !e.isStore && e.result.Some?
    then [LoadRecord(e.operandAddress, e.access, e.result.value, |s.retired| + |StoresOf(s.lsq[..k])|)] else []
  }

  lemma SawNow(s: State, k: nat)
    requires ResultsRight(s) && k < |s.lsq|
    ensures var more := if s.lsq[k].isStore then [StoreOf(s.lsq[k])] else [];
            AllSaw(s.init, s.retired + StoresOf(s.lsq[..k]) + more, Latest(s, k))
  {
    hide LoadValue;
    var all := s.retired + StoresOf(s.lsq[..k]);
    assert all + [] == all && all[..|all|] == all;
  }

  lemma CycleKeepsLoads(s: State, i: Inputs)
    requires Inv(s) && InputsOk(s, i) && Retire(s, i).offset <= |s.lsq|
    ensures LoadsRight(Next(s, i))
  {
    hide Inv, InputsOk, Retire, NextQueue, NextBuffer, Write, AllSaw, RetiredLoads, StoresOf;
    InvHistory(s);
    var q := Leaving(s, i);
    RecordsRight(s, |q|);
    assert q == s.lsq[..|q|];
    AllSawMore(s.init, s.retired, StoresOf(q), s.loads);
    AllSawBoth(s.init, s.retired + StoresOf(q), s.loads, RetiredLoads(q, |s.retired|));
  }

  lemma InvHistory(s: State)
    requires Inv(s)
    ensures ResultsRight(s) && LoadsRight(s)
  {
  }

  /** Every cycle keeps the invariant, recovery and flush included. */
  lemma CycleKeepsInv(s: State, i: Inputs)
    requires Inv(s) && InputsOk(s, i)
    ensures Inv(Next(s, i))
  {
    assert Retire(s, i).offset <= |s.lsq| by {
      hide Inv, InputsOk;
      InvParts(s, i);
      RetiredIsTaken(s, i);
    }
    hide InputsOk, Retire, NextQueue, NextBuffer, Write, Leaving, ResultsRight, LoadsRight, BufferOk,
      StoresConserved, AllConsistent, DistinctTags;
    CycleConservesStores(s, i);
    CycleKeepsBuffer(s, i);
    CycleKeepsQueue(s, i);
    CycleKeepsLoads(s, i);
  }

  // ---- Whole runs ---------------------------------------------------------------------------------

  function Reset(init: Memory): State {
    State(init, init, [], [], [], [], [])
  }

  /** The state after the cycles with inputs `ins`. */
  ghost function Run(s: State, ins: seq<Inputs>): State {
    if ins == [] then s else Next(Run(s, ins[..|ins| - 1]), ins[|ins| - 1])
  }

  /** The environment keeps its side in every cycle of the run. */
  ghost predicate RunOk(s: State, ins: seq<Inputs>) {
    ins == [] || (RunOk(s, ins[..|ins| - 1]) && InputsOk(Run(s, ins[..|ins| - 1]), ins[|ins| - 1]))
  }

  lemma {:induction false} RunKeepsInv(s: State, ins: seq<Inputs>)
    requires Inv(s) && RunOk(s, ins)
    ensures Inv(Run(s, ins))
    decreases |ins|
  {
    if ins != [] {
      hide Inv, InputsOk, Next;
      RunKeepsInv(s, ins[..|ins| - 1]);
      CycleKeepsInv(Run(s, ins[..|ins| - 1]), ins[|ins| - 1]);
    }
  }

  /**
    From reset, in every reachable state: the writes accepted on the port and then
    the buffered ones are the retired Stores in order, and every Load ever retired
    returned what executing the Stores before it one by one would have given it.
  */
  lemma InOrderMemory(init: Memory, ins: seq<Inputs>)
    requires RunOk(Reset(init), ins)
    ensures var s := Run(Reset(init), ins);
            StoresConserved(s) && AllSaw(s.init, s.retired, s.loads) && s.mem == ApplyAll(s.init, s.accepted)
  {
    hide *;
    ResetOk(init);
    RunKeepsInv(Reset(init), ins);
    InvMeans(Run(Reset(init), ins));
  }

  /** The number a record must hold: that of the bytes in memory after the Stores before it. */
  ghost predicate SawNumber(init: Memory, all: seq<Store>, r: LoadRecord) {
    && r.storesBefore <= |all|
    && var m := ApplyAll(init, all[..r.storesBefore]);
       Int32(r.value) ==
       LoadedNumber(r.access, m(r.address), m(r.address + 1), m(r.address + 2), m(r.address + 3))
  }

  /** In every run each retired Load, as a number, is the signed or unsigned value of the bytes it must see. */
  lemma InOrderNumbers(init: Memory, ins: seq<Inputs>)
    requires RunOk(Reset(init), ins)
    ensures var s := Run(Reset(init), ins);
            forall j :: 0 <= j < |s.loads| ==> SawNumber(s.init, s.retired, s.loads[j])
  {
    hide Run, RunOk, ApplyAll, LoadValue, LoadedNumber, Int32, StoresConserved;
    InOrderMemory(init, ins);
    var s := Run(Reset(init), ins);
    forall j | 0 <= j < |s.loads| ensures SawNumber(s.init, s.retired, s.loads[j]) {
      var r := s.loads[j];
      assert Saw(s.init, s.retired, r);
      LoadValueNumber(ApplyAll(s.init, s.retired[..r.storesBefore]), r.address, r.access);
    }
  }

  /** An uncached Load executes only as the oldest entry of the queue and with the Store Buffer drained. */
  lemma MmioLoadIsOldest(s: State, i: Inputs)
    requires Executes(s, i) && LoadCandidate(s, i) && IsMmio(CandidateEntry(s, i).operandAddress) && DistinctTags(s.lsq)
    ensures i.candidate.value.index == 0 && s.buffer == []
  {
    hide Conflicts, Query, Aligned;
  }

  /** A waiting Store whose data register is written is ready after the cycle, unless it is killed. */
  lemma WokenIsReady(s: State, i: Inputs, k: nat)
    requires k < |s.lsq| && s.lsq[k].isStore && s.lsq[k].tag in i.wakeup
    ensures Updated(s, i)[k].dataReady && (!s.lsq[k].dataReady ==> Updated(s, i)[k].storeData == s.lsq[k].operandData)
  {
    hide Executes, QueueAnswer, LoadValue;
  }

  /** A Store that executes has its address after the cycle, and its data if that was ready. */
  lemma ExecutedStoreKnown(s: State, i: Inputs)
    requires Executes(s, i) && CandidateEntry(s, i).isStore
    ensures var k := i.candidate.value.index;
            var e := Updated(s, i)[k];
            && e.addressReady && e.address == s.lsq[k].operandAddress
            && (i.candidate.value.dataReady ==> e.dataReady && e.storeData == s.lsq[k].operandData)
  {
    hide QueueAnswer, LoadValue, BaseReady;
  }

  /** The Store at the head that is complete in lane 0 is offered to commit exactly when address and data are there. */
  lemma HeadStoreOffered(s: State, i: Inputs)
    requires i.lane0.valid && !i.lane0.exception && i.lane0.isMemory && i.lane0.isStore && !i.lane0.isBranch
    requires s.lsq != [] && s.lsq[0].tag == i.lane0.tag && i.recover.None?
    ensures CommitStore(s, i) == Some(s.lsq[0]) <== s.lsq[0].addressReady && s.lsq[0].dataReady
    ensures !(s.lsq[0].addressReady && s.lsq[0].dataReady) ==> CommitStore(s, i) == None && Retire(s, i).offset == 0
  {
  }

  lemma ResetOk(init: Memory)
    ensures Inv(Reset(init))
  {
  }

  lemma InvMeans(s: State)
    requires Inv(s)
    ensures StoresConserved(s) && AllSaw(s.init, s.retired, s.loads) && s.mem == ApplyAll(s.init, s.accepted)
  {
  }

  // ---- The memory port ------------------------------------------------------------------------------

  /** At most one requester is selected. */
  lemma PortIsExclusive(s: State, i: Inputs)
    ensures !(MmioStoreRequest(s, i) && SelectDrain(s, i))
    ensures !(MmioStoreRequest(s, i) && SelectLoad(s, i))
    ensures !(SelectDrain(s, i) && SelectLoad(s, i))
  {
    hide CommitStore, LoadReadValid;
  }

  /** The port takes a Load exactly when the load/store unit sees ready, and then takes no write. */
  lemma LoadTakenIffReady(s: State, i: Inputs)
    requires LoadReadValid(s, i)
    ensures SelectLoad(s, i) && i.memoryReady <==> LoadCacheReady(s, i)
    ensures LoadCacheReady(s, i) ==> IssueFire(s, i) && Write(s, i) == []
  {
    hide CommitStore, BaseReady, CacheLoad;
  }

  /** A full buffer drains whenever memory is ready. */
  lemma FullBufferDrains(s: State, i: Inputs)
    requires |s.buffer| == STORE_BUFFER_ENTRY_NUM && i.memoryReady
    ensures DrainFire(s, i) && Write(s, i) == [s.buffer[0]]
  {
    hide CommitStore, LoadReadValid;
  }

  /** An MMIO Store waits at commit and the port does not take it in this cycle. */
  predicate MmioWaits(s: State, i: Inputs) {
    CommitStoreMmio(s, i) && !(MmioStoreRequest(s, i) && i.memoryReady)
  }

  /** It waits in every cycle of the run. */
  ghost predicate KeepsWaiting(s: State, ins: seq<Inputs>) {
    ins == [] || (KeepsWaiting(s, ins[..|ins| - 1]) && MmioWaits(Run(s, ins[..|ins| - 1]), ins[|ins| - 1]))
  }

  function ReadyCycles(ins: seq<Inputs>): nat {
    if ins == [] then 0 else ReadyCycles(ins[..|ins| - 1]) + if ins[|ins| - 1].memoryReady then 1 else 0
  }

  lemma MmioWaitDrains(s: State, i: Inputs)
    requires MmioWaits(s, i)
    ensures i.memoryReady ==> s.buffer != [] && Next(s, i).buffer == s.buffer[1..]
    ensures !i.memoryReady ==> Next(s, i).buffer == s.buffer
  {
    hide CommitStore, LoadReadValid, NextQueue, Leaving, Retire, Write;
  }

  /** While an MMIO Store waits, each ready cycle drains one entry; so it waits for at most that many. */
  lemma {:induction false} MmioWaitIsBounded(s: State, ins: seq<Inputs>)
    requires KeepsWaiting(s, ins)
    ensures ReadyCycles(ins) <= |s.buffer| && Run(s, ins).buffer == s.buffer[ReadyCycles(ins)..]
    decreases |ins|
  {
    if ins != [] {
      hide MmioWaits, Next;
      MmioWaitIsBounded(s, ins[..|ins| - 1]);
      MmioWaitDrains(Run(s, ins[..|ins| - 1]), ins[|ins| - 1]);
    }
  }
}
