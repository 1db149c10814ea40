/**
  Dispatch and serialization (rtl/backend/OoOBackend.sv,
  rtl/backend/dispatch/DispatchControl.sv): CSR, FENCE and trap instructions enter
  an empty backend and keep later instructions out until they have retired.
*/
module Serialization {
  import opened Wrappers
  import LoadStoreQueues

  const ROB_ENTRY_NUM := 16
  const UNIFIED_IQ_ENTRY_NUM := 16

  /** A decoded instruction: an identity and the classes dispatch looks at. */
  datatype Uop = Uop(id: nat, serializes: bool, isControl: bool, isMemory: bool, writesDestination: bool)

  datatype State = State(serializing: bool, rob: seq<Uop>, issueCount: nat, lsqCount: nat)

  datatype Inputs = Inputs(
    lane0: Option<Uop>, lane1: Option<Uop>,
    freePhysCount: nat,
    storeBufferEmpty: bool, memoryIdle: bool,
    retireCount: nat,           // ROB entries retired this cycle
    issueDone: nat, lsqDone: nat,
    flush: bool)

  predicate StateOk(s: State) {
    |s.rob| <= ROB_ENTRY_NUM && s.issueCount <= UNIFIED_IQ_ENTRY_NUM && s.lsqCount <= LoadStoreQueues.LSQ_ENTRY_NUM
  }

  predicate InputsOk(s: State, i: Inputs) {
    i.retireCount <= |s.rob| && i.retireCount <= 2 && i.issueDone <= s.issueCount && i.lsqDone <= s.lsqCount
  }

  predicate BackendDrained(s: State, i: Inputs) {
    s.rob == [] && s.issueCount == 0 && s.lsqCount == 0 && i.storeBufferEmpty && i.memoryIdle
  }

  predicate Supported0(s: State, i: Inputs, u: Uop) {
    !s.serializing && (!u.serializes || BackendDrained(s, i))
  }

  predicate Supported1(s: State, u: Uop) {
    !s.serializing && !u.isControl && !u.serializes
  }

  /** `laneHasResources`, with `used` older lanes accepted in this cycle. */
  predicate HasResources(s: State, i: Inputs, u: Uop, usedRob: nat, usedLsq: nat, usedPhys: nat) {
    && |s.rob| + usedRob < ROB_ENTRY_NUM && s.issueCount + usedRob < UNIFIED_IQ_ENTRY_NUM
    && (u.isMemory ==> s.lsqCount + usedLsq < LoadStoreQueues.LSQ_ENTRY_NUM)
    && (u.writesDestination ==> usedPhys < i.freePhysCount)
  }

  predicate Accept0(s: State, i: Inputs) {
    i.lane0.Some? && Supported0(s, i, i.lane0.value) && HasResources(s, i, i.lane0.value, 0, 0, 0)
  }

  /** A bubble in lane 0 does not block lane 1; a real instruction is never bypassed. */
  predicate Accept1(s: State, i: Inputs) {
    && (i.lane0.Some? ==> Accept0(s, i))
    && i.lane1.Some? && Supported1(s, i.lane1.value)
    && var first := i.lane0.Some?;
       HasResources(s, i, i.lane1.value,
                    if first then 1 else 0,
                    if first && i.lane0.value.isMemory then 1 else 0,
                    if first && i.lane0.value.writesDestination then 1 else 0)
  }

  function Accepted(s: State, i: Inputs): seq<Uop> {
    (if Accept0(s, i) then [i.lane0.value] else []) + (if Accept1(s, i) then [i.lane1.value] else [])
  }

  function AcceptedMemory(s: State, i: Inputs): nat {
    (if Accept0(s, i) && i.lane0.value.isMemory then 1 else 0) +
    (if Accept1(s, i) && i.lane1.value.isMemory then 1 else 0)
  }

  function Next(s: State, i: Inputs): State
    requires InputsOk(s, i)
  {
    var us := Accepted(s, i);
    if i.flush then State(false, [], 0, 0)
    else State(
      if Accept0(s, i) && i.lane0.value.serializes then true
      else if s.serializing && s.rob == [] then false
      else s.serializing,
      s.rob[i.retireCount..] + us,
      s.issueCount - i.issueDone + |us|,
      s.lsqCount - i.lsqDone + AcceptedMemory(s, i))
  }

  lemma StateStaysOk(s: State, i: Inputs)
    requires StateOk(s) && InputsOk(s, i)
    ensures StateOk(Next(s, i))
  {
  }

  /** A serializing instruction enters only an empty backend, through lane 0, and raises the flag. */
  lemma SerializerEntersEmpty(s: State, i: Inputs, u: Uop)
    requires StateOk(s) && InputsOk(s, i) && u in Accepted(s, i) && u.serializes && !i.flush
    ensures BackendDrained(s, i) && i.lane0 == Some(u)
    ensures Next(s, i).serializing && Next(s, i).rob == Accepted(s, i) && Accepted(s, i)[0] == u
  {
  }

  /** Once the reorder buffer is empty the flag falls, and nothing but resources and drainage hold lane 0 back. */
  lemma SerializerReleases(s: State, i: Inputs, j: Inputs)
    requires StateOk(s) && InputsOk(s, i) && s.serializing && s.rob == [] && !i.flush
    ensures !Next(s, i).serializing
    ensures var t := Next(s, i);
      j.lane0.Some? && HasResources(t, j, j.lane0.value, 0, 0, 0) && (j.lane0.value.serializes ==> BackendDrained(t, j))
      ==> Accept0(t, j) && Accepted(t, j) != []
  {
    NothingPassesSerializer(s, i);
  }

  /** While the flag is up nothing dispatches. */
  lemma NothingPassesSerializer(s: State, i: Inputs)
    requires s.serializing
    ensures Accepted(s, i) == []
  {
  }

  /** The state after a run of cycles. */
  function Run(s: State, ins: seq<Inputs>): State
    requires RunOk(s, ins)
    decreases |ins|, 1
  {
    if ins == [] then s else Next(Run(s, ins[..|ins| - 1]), ins[|ins| - 1])
  }

  predicate RunOk(s: State, ins: seq<Inputs>)
    decreases |ins|, 0
  {
    ins == [] || (RunOk(s, ins[..|ins| - 1]) && InputsOk(Run(s, ins[..|ins| - 1]), ins[|ins| - 1]))
  }

  function Retired(ins: seq<Inputs>): nat {
    if ins == [] then 0 else Retired(ins[..|ins| - 1]) + ins[|ins| - 1].retireCount
  }

  /**
    From the cycle after its dispatch until the ROB is empty, a serializing
    instruction shares the backend only with what was dispatched beside it: the
    ROB only loses entries, in order.
  */
  lemma {:induction false} SerializerExcludes(s: State, ins: seq<Inputs>)
    requires s.serializing && RunOk(s, ins) && forall n :: 0 <= n < |ins| ==> !ins[n].flush
    requires forall n :: 0 <= n < |ins| ==> RunOk(s, ins[..n]) && Run(s, ins[..n]).rob != []
    ensures Run(s, ins).serializing && Retired(ins) <= |s.rob| && Run(s, ins).rob == s.rob[Retired(ins)..]
    decreases |ins|
  {
    if ins != [] {
      var rest := ins[..|ins| - 1];
      assert forall n :: 0 <= n < |rest| ==> rest[..n] == ins[..n];
      SerializerExcludes(s, rest);
      NothingPassesSerializer(Run(s, rest), ins[|ins| - 1]);
    }
  }

  /**
    The repository's description says that no other instruction dispatches until
    a serializing one retires.  Lane 1 does not look at lane 0, so a plain instruction beside it
    does: it is kept out exactly when lane 1 is empty, is a control or serializing
    instruction, or finds no free physical register.
  */
  lemma CompanionDispatches(s: State, i: Inputs)
    requires StateOk(s) && InputsOk(s, i) && Accept0(s, i) && i.lane0.value.serializes
    ensures Accepted(s, i) == [i.lane0.value] <==>
      || i.lane1.None? || i.lane1.value.isControl || i.lane1.value.serializes
      || (i.lane1.value.writesDestination && i.freePhysCount <= if i.lane0.value.writesDestination then 1 else 0)
  {
  }

  /** A FENCE and an ADD decoded together enter the empty backend together. */
  lemma CompanionExample()
    ensures var fence, add := Uop(0, true, false, false, false), Uop(1, false, false, false, true);
            var i := Inputs(Some(fence), Some(add), 16, true, true, 0, 0, 0, false);
            Next(State(false, [], 0, 0), i).rob == [fence, add]
  {
    var s, fence, add := State(false, [], 0, 0), Uop(0, true, false, false, false), Uop(1, false, false, false, true);
    var i := Inputs(Some(fence), Some(add), 16, true, true, 0, 0, 0, false);
    assert Accept0(s, i) && Accept1(s, i);
    assert Accepted(s, i) == [fence, add];
  }
}
