/**
  `KanataGenerator` and `OoOKanataConverter` of
  tools/kanata/tb_dump_v2_to_kanata.py, with their dictionaries, lists and
  operation objects updated in place.  A raised DumpFormatError is a failing
  Outcome.
*/
module KanataConverter {
  import opened Wrappers
  import opened KanataTrace
  import opened KanataModel
  import opened KanataLife
  import opened KanataRun
  import Stages = KanataStages
  import Tally = KanataStats
  import CycleSets

  datatype DumpError = CycleBackwards | InitializedTwice | UnknownGid | CycleNotIncreasing

  datatype Outcome = Pass | Fail(error: DumpError) {
    predicate IsFailure() { Fail? }
    function PropagateFailure(): Outcome { this }
  }

  // ---- The writer ------------------------------------------------------------------

  class Generator {
    var out: Trace
    var currentCycle: int
    var nextSid: nat
    var nextRid: nat
    var sidByGid: map<nat, nat>

    constructor ()
      ensures out == [] && currentCycle == -1 && nextSid == 0 && nextRid == 0 && sidByGid == map[]
    {
      out, currentCycle, nextSid, nextRid, sidByGid := [], -1, 0, 0, map[];
    }

    method Cycle(cycle: int) returns (o: Outcome)
      modifies this`out, this`currentCycle
      ensures cycle < old(currentCycle) ==> o == Fail(CycleBackwards) && out == old(out)
      ensures cycle >= old(currentCycle) ==> o == Pass && currentCycle == cycle
      ensures cycle > old(currentCycle) ==> out == old(out) + [C(cycle - old(currentCycle))]
      ensures cycle == old(currentCycle) ==> out == old(out)
    {
      if cycle < currentCycle {
        return Fail(CycleBackwards);
      }
      if cycle > currentCycle {
        out := out + [C(cycle - currentCycle)];
        currentCycle := cycle;
      }
      o := Pass;
    }

    method Note()
      modifies this`out
      ensures out == old(out) + [Comment]
    {
      out := out + [Comment];
    }

    method Initialize(gid: nat) returns (o: Outcome)
      modifies this`out, this`nextSid, this`sidByGid
      ensures gid in old(sidByGid) ==> o == Fail(InitializedTwice)
      ensures gid !in old(sidByGid) ==>
        && o == Pass && nextSid == old(nextSid) + 1 && sidByGid == old(sidByGid)[gid := old(nextSid)]
        && out == old(out) + [I(old(nextSid), gid)] + [L(old(nextSid), 0)] + [L(old(nextSid), 1)]
    {
      if gid in sidByGid {
        return Fail(InitializedTwice);
      }
      var sid := nextSid;
      nextSid := nextSid + 1;
      sidByGid := sidByGid[gid := sid];
      out := out + [I(sid, gid)];
      :- Label(gid, 0);
      :- Label(gid, 1);
      o := Pass;
    }

    method Label(gid: nat, kind: nat) returns (o: Outcome)
      modifies this`out
      ensures gid in sidByGid ==> o == Pass && out == old(out) + [L(sidByGid[gid], kind)]
      ensures gid !in sidByGid ==> o == Fail(UnknownGid) && out == old(out)
    {
      if gid !in sidByGid {
        return Fail(UnknownGid);
      }
      out := out + [L(sidByGid[gid], kind)];
      o := Pass;
    }

    method StageBegin(gid: nat, stage: Stage) returns (o: Outcome)
      modifies this`out
      ensures gid in sidByGid ==> o == Pass && out == old(out) + [S(sidByGid[gid], stage)]
      ensures gid !in sidByGid ==> o == Fail(UnknownGid) && out == old(out)
    {
      if gid !in sidByGid {
        return Fail(UnknownGid);
      }
      out := out + [S(sidByGid[gid], stage)];
      o := Pass;
    }

    method StageEnd(gid: nat, stage: Stage) returns (o: Outcome)
      modifies this`out
      ensures gid in sidByGid ==> o == Pass && out == old(out) + [E(sidByGid[gid], stage)]
      ensures gid !in sidByGid ==> o == Fail(UnknownGid) && out == old(out)
    {
      if gid !in sidByGid {
        return Fail(UnknownGid);
      }
      out := out + [E(sidByGid[gid], stage)];
      o := Pass;
    }

    method RetireOp(gid: nat) returns (o: Outcome)
      modifies this`out, this`nextRid, this`sidByGid
      ensures gid in old(sidByGid) ==>
        && o == Pass && out == old(out) + [R(old(sidByGid)[gid], old(nextRid), false)]
        && nextRid == old(nextRid) + 1 && sidByGid == old(sidByGid) - {gid}
      ensures gid !in old(sidByGid) ==> o == Fail(UnknownGid) && out == old(out)
    {
      if gid !in sidByGid {
        return Fail(UnknownGid);
      }
      out := out + [R(sidByGid[gid], nextRid, false)];
      nextRid := nextRid + 1;
      sidByGid := sidByGid - {gid};
      o := Pass;
    }

    method FlushOp(gid: nat) returns (o: Outcome)
      modifies this`out, this`sidByGid
      ensures gid in old(sidByGid) ==>
        && o == Pass && out == old(out) + [R(old(sidByGid)[gid], 0, true)] && sidByGid == old(sidByGid) - {gid}
      ensures gid !in old(sidByGid) ==> o == Fail(UnknownGid) && out == old(out)
    {
      if gid !in sidByGid {
        return Fail(UnknownGid);
      }
      out := out + [R(sidByGid[gid], 0, true)];
      sidByGid := sidByGid - {gid};
      o := Pass;
    }
  }

  // ---- The converter ---------------------------------------------------------------

  class DynamicOp {
    const gid: nat
    const tag: int
    const fu: int
    var stage: Option<Stage>

    constructor (gid: nat, tag: int, fu: int)
      ensures this.gid == gid && this.tag == tag && this.fu == fu && stage == None
    {
      this.gid, this.tag, this.fu := gid, tag, fu;
      stage := None;
    }
  }

  datatype Transition = Transition(gid: nat, expected: Stage, next: Option<Stage>, retire: bool)

  /** Two kinds of transition are ever scheduled: to another stage, or out of the machine. */
  predicate Stands(t: Transition, e: Event) {
    match e
    case Move(g, expected, next) => t == Transition(g, expected, Some(next), false)
    case Retire(g, expected) => t == Transition(g, expected, None, true)
  }

  predicate StandFor(ts: seq<Transition>, es: seq<Event>) {
    |ts| == |es| && forall i :: 0 <= i < |ts| ==> Stands(ts[i], es[i])
  }

  predicate AgendaIs(scheduled: map<int, seq<Transition>>, agenda: map<int, seq<Event>>) {
    scheduled.Keys == agenda.Keys && forall k :: k in scheduled ==> StandFor(scheduled[k], agenda[k])
  }

  /** `live` gives the open stage of every instruction that is active or retiring. */
  ghost predicate LiveIs(live: map<nat, Stage>, active: seq<Op>, retiring: map<nat, Pending>) {
    && (forall g :: g in live ==> g in retiring || Member(active, g))
    && (forall g :: g in retiring ==> g in live && live[g] == retiring[g].stage)
    && (forall i :: 0 <= i < |active| ==> active[i].gid in live && live[active[i].gid] == active[i].stage)
  }

  /** Instructions of the window are distinct, none of them retiring. */
  predicate Apart(active: seq<Op>, retiring: map<nat, Pending>) {
    && (forall i, j :: 0 <= i < j < |active| ==> active[i].gid != active[j].gid)
    && (forall g :: g in retiring ==> !Member(active, g))
  }

  lemma InvIsApart(s: State, cycle: int, todo: seq<Event>)
    requires InvWith(s, cycle, todo)
    ensures Apart(s.active, s.retiring)
  {
    hide Agenda, EventsOk, Queued, Lives, Counted;
  }

  lemma LiveRestage(live: map<nat, Stage>, active: seq<Op>, retiring: map<nat, Pending>, i: nat, next: Stage)
    requires LiveIs(live, active, retiring) && Apart(active, retiring) && i < |active|
    ensures LiveIs(live[active[i].gid := next], active[i := active[i].(stage := next)], retiring)
  {
    RestageSame(active, i, next);
    assert Member(active, active[i].gid);
  }

  /** The list holds the window's instructions, whatever their stages. */
  predicate Holds(order: seq<DynamicOp>, active: seq<Op>, ops: map<nat, DynamicOp>) {
    && |order| == |active|
    && (forall i :: 0 <= i < |order| ==>
         && order[i].gid == active[i].gid && order[i].tag == active[i].tag && order[i].fu == active[i].fu
         && order[i].gid in ops && ops[order[i].gid] == order[i])
  }

  predicate Tagged(order: seq<DynamicOp>, byTag: map<int, DynamicOp>) {
    && (forall i :: 0 <= i < |order| ==> order[i].tag in byTag && byTag[order[i].tag] == order[i])
    && (forall t :: t in byTag ==> byTag[t] in order && byTag[t].tag == t)
  }

  predicate DistinctTags(order: seq<DynamicOp>) {
    forall j, k :: 0 <= j < k < |order| ==> order[j].tag != order[k].tag
  }

  lemma TagSlot(order: seq<DynamicOp>, active: seq<Op>, ops: map<nat, DynamicOp>, byTag: map<int, DynamicOp>, tag: int)
    requires Holds(order, active, ops) && Tagged(order, byTag)
    ensures tag in byTag <==> Slot(active, tag) < |active|
    ensures tag in byTag ==> byTag[tag] == order[Slot(active, tag)]
  {
    var i := Slot(active, tag);
    hide Slot;
    if i < |active| {
      assert order[i].tag == tag;
    }
  }

  lemma HoldsRestage(order: seq<DynamicOp>, active: seq<Op>, ops: map<nat, DynamicOp>, i: nat, next: Stage)
    requires Holds(order, active, ops) && i < |active|
    ensures Holds(order, active[i := active[i].(stage := next)], ops)
  {
    RestageSame(active, i, next);
  }

  function Entered(out: Trace, sid: nat, stage: Option<Stage>, next: Stage): Trace {
    if stage == Some(next) then out
    else if stage.None? then out + [S(sid, next)]
    else out + [E(sid, stage.value)] + [S(sid, next)]
  }

  lemma EnterIs(s: State, i: nat, next: Stage)
    requires i < |s.active|
    ensures
      var op := s.active[i];
      KanataModel.Enter(s, i, next) == s.(
        out := Entered(s.out, op.gid, Some(op.stage), next), active := s.active[i := op.(stage := next)])
  {
  }

  /** Every live instruction has a sid, which is its gid. */
  predicate SidsAre(sids: map<nat, nat>, live: map<nat, Stage>) {
    sids.Keys == live.Keys && forall g :: g in sids ==> sids[g] == g
  }

  lemma SidOf(sids: map<nat, nat>, live: map<nat, Stage>, g: nat)
    requires SidsAre(sids, live) && g in live
    ensures g in sids && sids[g] == g
  {
    assert g in live.Keys;
  }

  lemma NoSid(sids: map<nat, nat>, live: map<nat, Stage>, g: nat)
    requires SidsAre(sids, live) && g !in live
    ensures g !in sids
  {
    assert g !in live.Keys;
  }

  lemma SidsWithout(sids: map<nat, nat>, live: map<nat, Stage>, g: nat)
    requires SidsAre(sids, live)
    ensures SidsAre(sids - {g}, live - {g})
  {
  }

  lemma SidsWith(sids: map<nat, nat>, live: map<nat, Stage>, g: nat, stage: Stage)
    requires SidsAre(sids, live)
    ensures SidsAre(sids[g := g], live[g := stage])
    ensures g in live ==> SidsAre(sids, live[g := stage])
  {
    assert g in live ==> live[g := stage].Keys == live.Keys;
  }

  /** Every live instruction has its object, which, unless its gid is in `but`, is in the stage `live` says. */
  ghost predicate Linked(ops: map<nat, DynamicOp>, live: map<nat, Stage>, objects: set<DynamicOp>, but: set<nat>)
    reads objects`stage
  {
    && ops.Keys == live.Keys
    && (forall g :: g in ops ==> ops[g] in objects && ops[g].gid == g && (g !in but ==> ops[g].stage == Some(live[g])))
  }

  lemma LinkedAt(ops: map<nat, DynamicOp>, live: map<nat, Stage>, objects: set<DynamicOp>, g: nat)
    requires Linked(ops, live, objects, {})
    ensures g in ops <==> g in live
    ensures g in ops ==> ops[g] in objects && ops[g].gid == g && ops[g].stage == Some(live[g])
  {
    assert g in ops.Keys <==> g in live.Keys;
  }

  lemma LinkedWithout(ops: map<nat, DynamicOp>, live: map<nat, Stage>, objects: set<DynamicOp>, g: nat)
    requires Linked(ops, live, objects, {g})
    ensures Linked(ops - {g}, live - {g}, objects, {})
  {
  }

  lemma LinkedRestage(
    ops: map<nat, DynamicOp>, live: map<nat, Stage>, objects: set<DynamicOp>, g: nat, stage: Stage)
    requires Linked(ops, live, objects, {g}) && g in ops && ops[g].stage == Some(stage)
    ensures Linked(ops, live[g := stage], objects, {})
  {
    assert g in live.Keys;
    assert live[g := stage].Keys == live.Keys;
  }

  lemma LinkedWith(
    ops: map<nat, DynamicOp>, live: map<nat, Stage>, objects: set<DynamicOp>, op: DynamicOp, stage: Stage)
    requires Linked(ops, live, objects, {}) && op.stage == Some(stage)
    ensures Linked(ops[op.gid := op], live[op.gid := stage], objects + {op}, {})
  {
  }

  class Converter {
    const gen: Generator
    var stats: Stats
    var nextGid: nat
    var opsByGid: map<nat, DynamicOp>
    var activeByTag: map<int, DynamicOp>
    var activeOrder: seq<DynamicOp>
    var scheduled: map<int, seq<Transition>>
    var lastCycle: int
    ghost var objects: set<DynamicOp>
    ghost var live: map<nat, Stage>
    ghost var m: State

    /** The objects hold exactly the state `m`. */
    ghost predicate Rep()
      reads this, gen, objects`stage
    {
      && gen.out == m.out && gen.nextRid == m.nextRid && lastCycle == m.lastCycle
      && gen.nextSid == nextGid == m.nextGid
      && SidsAre(gen.sidByGid, live)
      && Linked(opsByGid, live, objects, {})
      && LiveIs(live, m.active, m.retiring)
      && Holds(activeOrder, m.active, opsByGid) && Tagged(activeOrder, activeByTag)
      && AgendaIs(scheduled, m.scheduled) && stats == m.stats
    }

    constructor (generator: Generator)
      requires generator.out == [] && generator.currentCycle == -1 && generator.nextSid == 0
      requires generator.nextRid == 0 && generator.sidByGid == map[]
      ensures Rep() && m == START && gen == generator && objects == {}
    {
      gen := generator;
      stats := NO_STATS;
      nextGid := 0;
      opsByGid, activeByTag, activeOrder, scheduled := map[], map[], [], map[];
      lastCycle := -1;
      objects, live, m := {}, map[], START;
    }

    method Enter(op: DynamicOp, next: Stage) returns (o: Outcome)
      modifies gen`out, op`stage
      ensures op.gid in gen.sidByGid ==>
        && o == Pass && op.stage == Some(next)
        && gen.out == Entered(old(gen.out), gen.sidByGid[op.gid], old(op.stage), next)
      ensures old(Linked(opsByGid, live, objects, {})) ==> Linked(opsByGid, live, objects, {op.gid})
    {
      if op.stage == Some(next) {
        return Pass;
      }
      if op.stage.Some? {
        :- gen.StageEnd(op.gid, op.stage.value);
      }
      :- gen.StageBegin(op.gid, next);
      op.stage := Some(next);
      o := Pass;
    }

    method ScheduleStage(cycle: int, op: DynamicOp, expected: Stage, next: Option<Stage>, retire: bool)
      modifies this`scheduled
      ensures scheduled == old(scheduled)[cycle :=
        (if cycle in old(scheduled) then old(scheduled)[cycle] else []) + [Transition(op.gid, expected, next, retire)]]
    {
      scheduled := scheduled[cycle :=
        (if cycle in scheduled then scheduled[cycle] else []) + [Transition(op.gid, expected, next, retire)]];
    }

    /** What is known of the object in slot `i`. */
    lemma At(i: nat)
      requires Rep() && i < |m.active|
      ensures i < |activeOrder|
      ensures var op := activeOrder[i];
        && op.gid == m.active[i].gid && op.tag == m.active[i].tag && op.fu == m.active[i].fu
        && op.gid in opsByGid && opsByGid[op.gid] == op && op in objects && op.stage == Some(m.active[i].stage)
        && op.gid in live && op.gid in gen.sidByGid && gen.sidByGid[op.gid] == op.gid
    {
      hide AgendaIs, Tagged, SidsAre, Linked;
      var op := activeOrder[i];
      SidOf(gen.sidByGid, live, op.gid);
      LinkedAt(opsByGid, live, objects, op.gid);
    }

    method EnterActive(op: DynamicOp, next: Stage, ghost i: nat) returns (o: Outcome)
      requires Rep() && Apart(m.active, m.retiring) && i < |m.active| && i < |activeOrder| && op == activeOrder[i]
      modifies this`m, this`live, gen`out, op`stage
      ensures Rep() && o == Pass && m == KanataModel.Enter(old(m), i, next) && op.gid in live
    {
      hide LiveIs, Apart, Holds, Tagged, AgendaIs, SidsAre, Linked, KanataModel.Enter, Entered;
      At(i);
      EnterIs(m, i, next);
      LiveRestage(live, m.active, m.retiring, i, next);
      HoldsRestage(activeOrder, m.active, opsByGid, i, next);
      SidsWith(gen.sidByGid, live, op.gid, next);
      :- Enter(op, next);
      LinkedRestage(opsByGid, live, objects, op.gid, next);
      live := live[op.gid := next];
      m := KanataModel.Enter(m, i, next);
      assert Linked(opsByGid, live, objects, {});
      o := Pass;
    }

    // ---- Small steps -----------------------------------------------------------------

    /** A comment in the trace, with new statistics. */
    method Remark(newStats: Stats)
      requires Rep()
      modifies gen`out, this`stats, this`m
      ensures Rep() && m == Emit(old(m), [Comment]).(stats := newStats)
    {
      hide LiveIs, Holds, Tagged, AgendaIs, SidsAre, Linked;
      gen.Note();
      stats := newStats;
      m := Emit(m, [Comment]).(stats := newStats);
    }

    method LabelOp(op: DynamicOp) returns (o: Outcome)
      requires Rep() && op.gid in live
      modifies gen`out, this`m
      ensures Rep() && o == Pass && m == KanataModel.Label(old(m), op.gid)
    {
      hide LiveIs, Holds, Tagged, AgendaIs, SidsAre, Linked;
      SidOf(gen.sidByGid, live, op.gid);
      :- gen.Label(op.gid, 2);
      m := KanataModel.Label(m, op.gid);
      o := Pass;
    }

    method Defer(op: DynamicOp, expected: Stage, next: Option<Stage>, retire: bool, ghost e: Event)
      requires Rep() && Stands(Transition(op.gid, expected, next, retire), e)
      modifies this`scheduled, this`m
      ensures Rep() && m == Schedule(old(m), old(m).lastCycle + 1, e)
    {
      hide LiveIs, Holds, Tagged, SidsAre, Linked;
      AgendaSnoc(scheduled, m.scheduled, lastCycle + 1, Transition(op.gid, expected, next, retire), e);
      hide AgendaIs, StandFor, Deferred;
      ScheduleStage(lastCycle + 1, op, expected, next, retire);
      m := Schedule(m, m.lastCycle + 1, e);
    }

    method Count(newStats: Stats)
      requires Rep()
      modifies this`stats, this`m
      ensures Rep() && m == old(m).(stats := newStats)
    {
      hide LiveIs, Holds, Tagged, AgendaIs, SidsAre, Linked;
      stats := newStats;
      m := m.(stats := newStats);
    }

    /** `lookup` finds the object of the model's slot. */
    lemma Found(tag: int)
      requires Rep()
      ensures |activeOrder| == |m.active| && stats == m.stats && lastCycle == m.lastCycle
      ensures tag in activeByTag <==> Slot(m.active, tag) < |m.active|
      ensures tag in activeByTag ==>
        var i := Slot(m.active, tag);
        var op := activeByTag[tag];
        op == activeOrder[i] && op.gid == m.active[i].gid && op.fu == m.active[i].fu && op.gid in live && op in objects
    {
      hide AgendaIs, LiveIs, SidsAre, Linked, Slot;
      TagSlot(activeOrder, m.active, opsByGid, activeByTag, tag);
      if tag in activeByTag {
        At(Slot(m.active, tag));
      }
    }

    // ---- Issue and completion ----------------------------------------------------------

    method IssueRecord(port: Stage, rec: Option<int>) returns (o: Outcome)
      requires Rep() && Inv(m)
      modifies this`m, this`live, this`stats, gen`out, objects`stage
      ensures Rep() && o == Pass && m == Issue(old(m), port, rec)
    {
      hide Rep, InvWith, Apart;
      if rec.None? {
        return Pass;
      }
      Found(rec.value);
      if rec.value !in activeByTag {
        Remark(stats.(orphanIssues := stats.orphanIssues + 1));
        return Pass;
      }
      var op := activeByTag[rec.value];
      ghost var i := Slot(m.active, rec.value);
      InvIsApart(m, 0, []);
      :- EnterActive(op, if op.fu == 2 then LS else port, i);
      :- LabelOp(op);
      Count(stats.(issued := stats.issued + 1));
      o := Pass;
    }

    method CompleteRecord(stage: Stage, rec: Option<int>) returns (o: Outcome)
      requires Rep() && Inv(m)
      modifies this`m, this`live, this`stats, this`scheduled, gen`out, objects`stage
      ensures Rep() && o == Pass && m == Complete(old(m), stage, rec)
    {
      hide Rep, InvWith, Apart;
      if rec.None? {
        return Pass;
      }
      Found(rec.value);
      if rec.value !in activeByTag {
        Remark(stats.(orphanCompletions := stats.orphanCompletions + 1));
        return Pass;
      }
      var op := activeByTag[rec.value];
      ghost var i := Slot(m.active, rec.value);
      InvIsApart(m, 0, []);
      :- EnterActive(op, stage, i);
      :- LabelOp(op);
      Defer(op, stage, Some(Rob), false, Move(op.gid, stage, Rob));
      Count(stats.(completed := stats.completed + 1));
      o := Pass;
    }

    // ---- Leaving the window --------------------------------------------------------------

    /** `remove_from_active`. */
    method RemoveFromActive(op: DynamicOp, ghost i: nat)
      requires Tagged(activeOrder, activeByTag) && DistinctTags(activeOrder)
      requires i < |activeOrder| && op == activeOrder[i]
      modifies this`activeByTag, this`activeOrder
      ensures activeOrder == old(activeOrder)[..i] + old(activeOrder)[i + 1..]
      ensures Tagged(activeOrder, activeByTag)
    {
      if op.tag in activeByTag && activeByTag[op.tag] == op {
        activeByTag := activeByTag - {op.tag};
      }
      var k := 0;
      while k < |activeOrder| && activeOrder[k] != op
        invariant k <= i
      {
        k := k + 1;
      }
      if k < |activeOrder| {
        assert k == i;
        activeOrder := activeOrder[..k] + activeOrder[k + 1..];
      }
    }

    /** The records of one flushed instruction. */
    method CloseFlushed(op: DynamicOp) returns (o: Outcome)
      modifies gen`out, gen`sidByGid, op`stage
      ensures op.gid in old(gen.sidByGid) ==>
        && o == Pass && gen.sidByGid == old(gen.sidByGid) - {op.gid} && op.stage == None
        && gen.out ==
          (if old(op.stage).None? then old(gen.out)
           else old(gen.out) + [E(old(gen.sidByGid)[op.gid], old(op.stage).value)])
          + [R(old(gen.sidByGid)[op.gid], 0, true)]
      ensures old(Linked(opsByGid, live, objects, {})) ==> Linked(opsByGid, live, objects, {op.gid})
    {
      if op.stage.Some? {
        :- gen.StageEnd(op.gid, op.stage.value);
        op.stage := None;
      }
      :- gen.FlushOp(op.gid);
      o := Pass;
    }

    /** Write the records of one flushed instruction and forget its object. */
    method DropObject(op: DynamicOp, ghost stage: Stage) returns (o: Outcome)
      requires SidsAre(gen.sidByGid, live) && Linked(opsByGid, live, objects, {})
      requires op.gid in live && op.stage == Some(stage)
      modifies this`live, this`opsByGid, gen`out, gen`sidByGid, op`stage
      ensures SidsAre(gen.sidByGid, live) && Linked(opsByGid, live, objects, {})
      ensures o == Pass && opsByGid == old(opsByGid) - {op.gid} && live == old(live) - {op.gid}
      ensures gen.out == old(gen.out) + [E(op.gid, stage)] + [R(op.gid, 0, true)]
    {
      hide SidsAre, Linked;
      SidOf(gen.sidByGid, live, op.gid);
      SidsWithout(gen.sidByGid, live, op.gid);
      :- CloseFlushed(op);
      LinkedWithout(opsByGid, live, objects, op.gid);
      opsByGid := opsByGid - {op.gid};
      live := live - {op.gid};
      o := Pass;
    }

    /** The body of the loop of `flush_ops`. */
    method FlushObject(op: DynamicOp, ghost i: nat) returns (o: Outcome)
      requires Rep() && Inv(m) && i < |m.active| && i < |activeOrder| && op == activeOrder[i]
      modifies this`m, this`live, this`stats, this`opsByGid, this`activeByTag, this`activeOrder
      modifies gen`out, gen`sidByGid, op`stage
      ensures Rep() && o == Pass && m == FlushOne(old(m), i)
      ensures activeOrder == old(activeOrder)[..i] + old(activeOrder)[i + 1..]
    {
      hide InvWith, AgendaIs, Apart, LiveIs, Holds, Tagged, Member, DistinctTags, SidsAre, Linked, FlushOne,
        OneMoreFlushed;
      At(i);
      FlushOneIs(m, i);
      InvIsApart(m, 0, []);
      OrderTags(m, activeOrder, opsByGid);
      LiveWithout(live, m.active, m.retiring, i);
      HoldsWithout(activeOrder, m.active, opsByGid, m.retiring, i);
      hide Inv;
      :- DropObject(op, m.active[i].stage);
      RemoveFromActive(op, i);
      stats := OneMoreFlushed(stats);
      m := FlushOne(m, i);
      o := Pass;
    }

    /** `flush_ops` on a slice of the window. */
    method FlushOps(ops: seq<DynamicOp>, ghost i: nat) returns (o: Outcome)
      requires Rep() && Inv(m)
      requires i + |ops| <= |activeOrder| == |m.active| && ops == activeOrder[i..i + |ops|]
      modifies this`m, this`live, this`stats, this`opsByGid, this`activeByTag, this`activeOrder
      modifies gen`out, gen`sidByGid, objects`stage
      ensures Rep() && o == Pass && m == Flush(old(m), i, |ops|)
    {
      hide Rep, InvWith, Inv, FlushOne;
      var k := 0;
      ghost var n := |ops|;
      while k < |ops|
        invariant k <= n && Rep() && Inv(m)
        invariant i + (n - k) <= |activeOrder| == |m.active|
        invariant ops[k..] == activeOrder[i..i + (n - k)]
        invariant Flush(m, i, n - k) == Flush(old(m), i, n)
      {
        var op := ops[k];
        assert op == ops[k..][0] == activeOrder[i];
        At(i);
        FlushOneKeeps(m, i);
        FlushLength(m, i);
        ghost var before := activeOrder;
        RestOfSlice(ops, before, i, k);
        :- FlushObject(op, i);
        k := k + 1;
      }
      o := Pass;
    }

    method ProcessRecovery(snap: Snapshot) returns (o: Outcome)
      requires Rep() && Inv(m)
      modifies this`m, this`live, this`stats, this`opsByGid, this`activeByTag, this`activeOrder
      modifies gen`out, gen`sidByGid, objects`stage
      ensures Rep() && o == Pass && m == Recover(old(m), snap)
    {
      hide Rep, InvWith, Inv, Flush;
      Found(snap.recoverTag);
      if snap.globalFlush {
        CommentKeeps(m, stats.(globalFlushes := stats.globalFlushes + 1));
        Remark(stats.(globalFlushes := stats.globalFlushes + 1));
        assert activeOrder == activeOrder[0..|activeOrder|];
        :- FlushOps(activeOrder, 0);
        return Pass;
      }
      if !snap.recover {
        return Pass;
      }
      var counted := stats.(recoveries := stats.recoveries + 1);
      if snap.recoverTag !in activeByTag {
        Remark(counted.(inactiveRecoveries := counted.inactiveRecoveries + 1));
        return Pass;
      }
      var branch := activeByTag[snap.recoverTag];
      var branchIndex := 0;
      while branchIndex < |activeOrder| && activeOrder[branchIndex] != branch
        invariant branchIndex <= Slot(m.active, snap.recoverTag)
      {
        branchIndex := branchIndex + 1;
      }
      FirstObject(branchIndex, snap.recoverTag);
      CommentKeeps(m, counted);
      Remark(counted);
      var younger := activeOrder[branchIndex + 1..];
      assert younger == activeOrder[branchIndex + 1..branchIndex + 1 + |younger|];
      :- FlushOps(younger, branchIndex + 1);
      o := Pass;
    }

    /** The first object equal to the branch is the one in the model's slot. */
    lemma FirstObject(k: nat, tag: int)
      requires Rep() && k <= Slot(m.active, tag) < |m.active| && k < |activeOrder| && tag in activeByTag
      requires activeOrder[k] == activeByTag[tag]
      ensures k == Slot(m.active, tag)
    {
      hide AgendaIs, LiveIs, SidsAre, Linked, Slot;
      assert m.active[k].tag == activeOrder[k].tag;
    }

    // ---- Commit ----------------------------------------------------------------------

    /** The object leaves the window but stays among the live instructions. */
    method Withdraw(op: DynamicOp, ghost i: nat)
      requires Rep() && Apart(m.active, m.retiring) && DistinctTags(activeOrder)
      requires i < |m.active| && i < |activeOrder| && op == activeOrder[i]
      modifies this`m, this`activeByTag, this`activeOrder
      ensures Rep()
      ensures m == old(m).(
        active := old(m).active[..i] + old(m).active[i + 1..],
        retiring := old(m).retiring[op.gid := Pending(old(m).active[i].stage, old(m).lastCycle + 1)])
    {
      hide AgendaIs, Apart, LiveIs, Holds, Tagged, Member, DistinctTags, SidsAre, Linked;
      At(i);
      ghost var p := Pending(m.active[i].stage, m.lastCycle + 1);
      LiveDepart(live, m.active, m.retiring, i, p);
      HoldsDepart(activeOrder, m.active, opsByGid, i);
      RemoveFromActive(op, i);
      m := m.(active := m.active[..i] + m.active[i + 1..], retiring := m.retiring[op.gid := p]);
    }

    method CommitRecord(stage: Stage, rec: Option<int>) returns (o: Outcome)
      requires Rep() && Inv(m) && IsCommit(stage)
      modifies this`m, this`live, this`stats, this`scheduled, this`activeByTag, this`activeOrder
      modifies gen`out, objects`stage
      ensures Rep() && o == Pass && m == Commit(old(m), stage, rec)
    {
      hide Rep, InvWith, Apart, DistinctTags;
      if rec.None? {
        return Pass;
      }
      Found(rec.value);
      if rec.value !in activeByTag {
        Remark(stats.(orphanCommits := stats.orphanCommits + 1));
        return Pass;
      }
      var op := activeByTag[rec.value];
      ghost var i := Slot(m.active, rec.value);
      InvIsApart(m, 0, []);
      RepTags();
      ApartRestage(m.active, m.retiring, i, stage);
      :- EnterActive(op, stage, i);
      :- DepartObject(op, stage, i);
      o := Pass;
    }

    /** The committed object leaves the window; its retirement is scheduled. */
    method DepartObject(op: DynamicOp, stage: Stage, ghost i: nat) returns (o: Outcome)
      requires Rep() && Apart(m.active, m.retiring) && DistinctTags(activeOrder)
      requires i < |m.active| && i < |activeOrder| && op == activeOrder[i]
      requires op.gid in live && op.gid == m.active[i].gid && stage == m.active[i].stage
      modifies this`m, this`stats, this`scheduled, this`activeByTag, this`activeOrder, gen`out
      ensures Rep() && o == Pass && m == Depart(old(m), i)
    {
      hide Rep, Apart, DistinctTags;
      Counters();
      :- LabelOp(op);
      Withdraw(op, i);
      Defer(op, stage, None, true, Retire(op.gid, stage));
      Count(stats.(committed := stats.committed + 1));
      o := Pass;
    }

    lemma RepTags()
      requires Rep() && Inv(m)
      ensures DistinctTags(activeOrder)
    {
      hide AgendaIs, Apart, LiveIs, Holds, Tagged, DistinctTags, SidsAre, Linked, Inv;
      OrderTags(m, activeOrder, opsByGid);
    }

    // ---- Deferred transitions ----------------------------------------------------------

    /** A transition to another stage, of an object that is in the expected stage. */
    method FireMove(op: DynamicOp, t: Transition, ghost e: Event, ghost i: nat) returns (o: Outcome)
      requires Rep() && Apart(m.active, m.retiring) && e.Move? && Stands(t, e)
      requires i < |m.active| && i < |activeOrder| && op == activeOrder[i] && i == Position(m.active, e.gid)
      requires m.active[i].stage == e.expected
      modifies this`m, this`live, gen`out, op`stage
      ensures Rep() && o == Pass && m == Fire(old(m), e)
    {
      hide LiveIs, Apart, Holds, Tagged, AgendaIs, SidsAre, Linked, Position;
      At(i);
      LiveRestage(live, m.active, m.retiring, i, e.next);
      HoldsRestage(activeOrder, m.active, opsByGid, i, e.next);
      SidsWith(gen.sidByGid, live, op.gid, e.next);
      :- Switch(op, t.next);
      LinkedRestage(opsByGid, live, objects, op.gid, e.next);
      live := live[op.gid := e.next];
      m := Fire(m, e);
      o := Pass;
    }

    /** End the open stage, and begin the next one if there is one. */
    method Switch(op: DynamicOp, next: Option<Stage>) returns (o: Outcome)
      modifies gen`out, op`stage
      ensures op.gid in gen.sidByGid && old(op.stage).Some? ==>
        && o == Pass && op.stage == next
        && gen.out == old(gen.out) + [E(gen.sidByGid[op.gid], old(op.stage).value)]
           + (if next.None? then [] else [S(gen.sidByGid[op.gid], next.value)])
      ensures old(Linked(opsByGid, live, objects, {})) ==> Linked(opsByGid, live, objects, {op.gid})
    {
      if op.stage.Some? {
        :- gen.StageEnd(op.gid, op.stage.value);
        op.stage := None;
      }
      if next.Some? {
        :- gen.StageBegin(op.gid, next.value);
        op.stage := next;
      }
      o := Pass;
    }

    /** Write the records of one retired instruction and forget its object. */
    method DropRetired(op: DynamicOp, next: Option<Stage>, ghost stage: Stage) returns (o: Outcome)
      requires SidsAre(gen.sidByGid, live) && Linked(opsByGid, live, objects, {})
      requires op.gid in live && op.stage == Some(stage) && next.None?
      modifies this`live, this`opsByGid, gen`out, gen`sidByGid, gen`nextRid, op`stage
      ensures SidsAre(gen.sidByGid, live) && Linked(opsByGid, live, objects, {})
      ensures o == Pass && opsByGid == old(opsByGid) - {op.gid} && live == old(live) - {op.gid}
      ensures gen.nextRid == old(gen.nextRid) + 1
      ensures gen.out == old(gen.out) + [E(op.gid, stage)] + [R(op.gid, old(gen.nextRid), false)]
    {
      hide SidsAre, Linked;
      SidOf(gen.sidByGid, live, op.gid);
      SidsWithout(gen.sidByGid, live, op.gid);
      :- Switch(op, next);
      :- gen.RetireOp(op.gid);
      LinkedWithout(opsByGid, live, objects, op.gid);
      opsByGid := opsByGid - {op.gid};
      live := live - {op.gid};
      o := Pass;
    }

    /** A retirement, of an object that is in its commit stage. */
    method FireRetire(op: DynamicOp, t: Transition, ghost e: Event) returns (o: Outcome)
      requires Rep() && Apart(m.active, m.retiring) && e.Retire? && Stands(t, e)
      requires e.gid in opsByGid && op == opsByGid[e.gid] && e.gid in m.retiring
        && m.retiring[e.gid].stage == e.expected
      modifies this`m, this`live, this`opsByGid, gen`out, gen`nextRid, gen`sidByGid, op`stage
      ensures Rep() && o == Pass && m == Fire(old(m), e)
    {
      hide LiveIs, Apart, Holds, Tagged, AgendaIs, SidsAre, Linked, Fire;
      FireRetireIs(m, e);
      LinkedAt(opsByGid, live, objects, e.gid);
      LiveRetire(live, m.active, m.retiring, e.gid);
      HoldsRetire(activeOrder, m.active, opsByGid, m.retiring, e.gid);
      :- DropRetired(op, t.next, e.expected);
      m := Fire(m, e);
      o := Pass;
    }

    /** The body of the loop of `apply_scheduled`. */
    method ApplyTransition(t: Transition, ghost e: Event, ghost cycle: int, ghost todo: seq<Event>) returns (o: Outcome)
      requires Rep() && InvWith(m, cycle, [e] + todo) && Stands(t, e)
      modifies this`m, this`live, this`opsByGid, gen`out, gen`nextRid, gen`sidByGid, objects`stage
      ensures Rep() && o == Pass && m == Fire(old(m), e)
    {
      hide LiveIs, Apart, Holds, Tagged, AgendaIs, SidsAre, Linked, Fire, InvWith, Position;
      LinkedAt(opsByGid, live, objects, e.gid);
      FiresIff(live, m, e, cycle, todo);
      InvIsApart(m, cycle, [e] + todo);
      if t.gid !in opsByGid {
        return Pass;
      }
      var op := opsByGid[t.gid];
      if op.stage != Some(t.expected) {
        return Pass;
      }
      if t.retire {
        :- FireRetire(op, t, e);
      } else {
        At(Position(m.active, e.gid));
        :- FireMove(op, t, e, Position(m.active, e.gid));
      }
      o := Pass;
    }

    /** The loop of `apply_scheduled` over the transitions that are due. */
    method FireEvents(due: seq<Transition>, ghost es: seq<Event>, ghost cycle: int) returns (o: Outcome)
      requires Rep() && InvWith(m, cycle, es) && StandFor(due, es)
      modifies this`m, this`live, this`opsByGid, gen`out, gen`nextRid, gen`sidByGid, objects`stage
      ensures Rep() && o == Pass && m == FireAll(old(m), es)
    {
      hide Rep, InvWith, Fire, Stands;
      var k := 0;
      assert es[0..] == es;
      while k < |due|
        invariant k <= |due| == |es| && Rep() && InvWith(m, cycle, es[k..])
        invariant FireAll(m, es[k..]) == FireAll(old(m), es)
      {
        assert es[k..] == [es[k]] + es[k + 1..];
        FireKeeps(m, es[k], cycle, es[k + 1..]);
        StandsAt(due, es, k);
        :- ApplyTransition(due[k], es[k], cycle, es[k + 1..]);
        k := k + 1;
      }
      o := Pass;
    }

    method ApplyScheduled(cycle: int) returns (o: Outcome)
      requires Rep() && Inv(m)
      modifies this`m, this`live, this`opsByGid, this`scheduled, gen`out, gen`nextRid, gen`sidByGid, objects`stage
      ensures Rep() && o == Pass && m == KanataModel.ApplyScheduled(old(m), cycle)
      ensures scheduled == old(scheduled) - {cycle}
    {
      hide InvWith, FireAll, StandFor, AgendaIs, LiveIs, Holds, Tagged, SidsAre, Linked, Inv;
      var due := if cycle in scheduled then scheduled[cycle] else [];
      ghost var es := Deferred(m.scheduled, cycle);
      PopKeeps(m, cycle);
      StartFiring(cycle);
      scheduled := scheduled - {cycle};
      m := Pop(m, cycle);
      :- FireEvents(due, es, cycle);
      o := Pass;
    }

    lemma StartFiring(cycle: int)
      requires Rep()
      ensures StandFor(if cycle in scheduled then scheduled[cycle] else [], Deferred(m.scheduled, cycle))
      ensures AgendaIs(scheduled - {cycle}, m.scheduled - {cycle})
    {
      hide LiveIs, Holds, Tagged, SidsAre, Linked;
      assert cycle in scheduled.Keys <==> cycle in m.scheduled.Keys;
    }

    // ---- Dispatch --------------------------------------------------------------------

    method FreeTag(tag: int) returns (o: Outcome)
      requires Rep() && Inv(m)
      modifies this`m, this`live, this`stats, this`opsByGid, this`activeByTag, this`activeOrder
      modifies gen`out, gen`sidByGid, objects`stage
      ensures Rep() && o == Pass && m == KanataModel.FreeTag(old(m), tag)
    {
      hide Rep, InvWith, Inv, FlushOne;
      Found(tag);
      if tag in activeByTag {
        ghost var i := Slot(m.active, tag);
        CommentKeeps(m, stats.(tagReuseErrors := stats.tagReuseErrors + 1));
        Remark(stats.(tagReuseErrors := stats.tagReuseErrors + 1));
        :- FlushOps([activeByTag[tag]], i);
      }
      o := Pass;
    }

    /** The first records of a new instruction. */
    method Announce(op: DynamicOp, stage: Stage) returns (o: Outcome)
      requires op.gid !in gen.sidByGid && gen.nextSid == op.gid && op.stage == None
      modifies gen`out, gen`sidByGid, gen`nextSid, op`stage
      ensures o == Pass && gen.out == Birth(old(gen.out), op.gid, stage) && op.stage == Some(stage)
      ensures gen.sidByGid == old(gen.sidByGid)[op.gid := op.gid] && gen.nextSid == old(gen.nextSid) + 1
    {
      hide Linked;
      :- gen.Initialize(op.gid);
      :- Enter(op, stage);
      o := Pass;
    }

    /** The new object is in all three containers; its records are written. */
    method Admit(op: DynamicOp, stage: Stage) returns (o: Outcome)
      requires Rep() && Inv(m) && op !in objects && op.stage == None && op.gid == nextGid
      requires forall i :: 0 <= i < |m.active| ==> m.active[i].tag != op.tag
      modifies this`m, this`live, this`objects, this`nextGid, this`opsByGid, this`activeByTag, this`activeOrder
      modifies gen`out, gen`sidByGid, gen`nextSid, op`stage
      ensures Rep() && o == Pass && objects == old(objects) + {op}
      ensures m == old(m).(
        out := Birth(old(m).out, op.gid, stage), nextGid := old(m).nextGid + 1,
        active := old(m).active + [Op(op.gid, op.tag, op.fu, stage)])
    {
      hide AgendaIs, Apart, LiveIs, Holds, Tagged, Member, DistinctTags, SidsAre, Linked, InvWith, Inv, Birth;
      ghost var model := Op(op.gid, op.tag, op.fu, stage);
      Unknown(live, m);
      NoSid(gen.sidByGid, live, op.gid);
      LiveWith(live, m.active, m.retiring, model);
      HoldsWith(activeOrder, m.active, opsByGid, op, model);
      TaggedWith(activeOrder, m.active, opsByGid, activeByTag, op);
      SidsWith(gen.sidByGid, live, op.gid, stage);
      nextGid := nextGid + 1;
      opsByGid := opsByGid[op.gid := op];
      activeByTag := activeByTag[op.tag := op];
      activeOrder := activeOrder + [op];
      :- Announce(op, stage);
      LinkedWith(old(opsByGid), live, objects, op, stage);
      objects := objects + {op};
      live := live[op.gid := stage];
      m := m.(out := gen.out, nextGid := nextGid, active := m.active + [model]);
      o := Pass;
    }

    method DispatchRecord(stage: Stage, rec: Option<Dispatched>) returns (o: Outcome)
      requires Rep() && Inv(m) && !IsCommit(stage)
      modifies this`m, this`live, this`objects, this`stats, this`scheduled, this`nextGid
      modifies this`opsByGid, this`activeByTag, this`activeOrder
      modifies gen`out, gen`sidByGid, gen`nextSid, objects`stage
      ensures Rep() && o == Pass && m == Dispatch(old(m), stage, rec)
      ensures fresh(objects - old(objects))
    {
      hide Rep, InvWith, Inv, KanataModel.FreeTag;
      if rec.None? {
        return Pass;
      }
      FreeTagKeeps(m, rec.value.tag);
      :- FreeTag(rec.value.tag);
      Counters();
      var op := new DynamicOp(nextGid, rec.value.tag, rec.value.fu);
      :- Admit(op, stage);
      Defer(op, stage, Some(Iq), false, Move(op.gid, stage, Iq));
      Counters();
      Count(stats.(dispatched := stats.dispatched + 1));
      o := Pass;
    }

    lemma Counters()
      requires Rep()
      ensures stats == m.stats && lastCycle == m.lastCycle && nextGid == m.nextGid
    {
    }

    // ---- Snapshots -------------------------------------------------------------------

    method BeginCycle(cycle: int) returns (o: Outcome)
      requires Rep() && cycle > lastCycle == gen.currentCycle
      modifies this`m, this`lastCycle, gen`out, gen`currentCycle
      ensures Rep() && o == Pass && lastCycle == gen.currentCycle
      ensures m == old(m).(lastCycle := cycle, out := old(m).out + [C(cycle - old(m).lastCycle)] + [Comment])
    {
      hide AgendaIs, LiveIs, Holds, Tagged, SidsAre, Linked;
      lastCycle := cycle;
      :- gen.Cycle(cycle);
      gen.Note();
      m := m.(lastCycle := cycle, out := m.out + [C(cycle - m.lastCycle)] + [Comment]);
      o := Pass;
    }

    method ProcessIssue(snap: Snapshot) returns (o: Outcome)
      requires Rep() && Inv(m)
      modifies this`m, this`live, this`stats, gen`out, objects`stage
      ensures Rep() && Inv(m) && o == Pass
      ensures m == Issue(Issue(Issue(old(m), Ex0, snap.issue0), Ex1, snap.issue1), ExF, snap.issueF)
    {
      hide Rep, Inv, Issue;
      IssueKeeps(m, Ex0, snap.issue0);
      :- IssueRecord(Ex0, snap.issue0);
      IssueKeeps(m, Ex1, snap.issue1);
      :- IssueRecord(Ex1, snap.issue1);
      IssueKeeps(m, ExF, snap.issueF);
      :- IssueRecord(ExF, snap.issueF);
      o := Pass;
    }

    method ProcessCompletion(snap: Snapshot) returns (o: Outcome)
      requires Rep() && Inv(m)
      modifies this`m, this`live, this`stats, this`scheduled, gen`out, objects`stage
      ensures Rep() && Inv(m) && o == Pass
      ensures m == Complete(Complete(old(m), Wb0, snap.complete0), Wb1, snap.complete1)
    {
      hide Rep, Inv, Complete;
      CompleteKeeps(m, Wb0, snap.complete0);
      :- CompleteRecord(Wb0, snap.complete0);
      CompleteKeeps(m, Wb1, snap.complete1);
      :- CompleteRecord(Wb1, snap.complete1);
      o := Pass;
    }

    method ProcessCommit(snap: Snapshot) returns (o: Outcome)
      requires Rep() && Inv(m)
      modifies this`m, this`live, this`stats, this`scheduled, this`activeByTag, this`activeOrder
      modifies gen`out, objects`stage
      ensures Rep() && Inv(m) && o == Pass
      ensures m == Commit(Commit(old(m), Cm0, snap.commit0), Cm1, snap.commit1)
    {
      hide Rep, Inv, Commit;
      CommitKeeps(m, Cm0, snap.commit0);
      :- CommitRecord(Cm0, snap.commit0);
      CommitKeeps(m, Cm1, snap.commit1);
      :- CommitRecord(Cm1, snap.commit1);
      o := Pass;
    }

    method ProcessDispatch(snap: Snapshot) returns (o: Outcome)
      requires Rep() && Inv(m)
      modifies this`m, this`live, this`objects, this`stats, this`scheduled, this`nextGid
      modifies this`opsByGid, this`activeByTag, this`activeOrder
      modifies gen`out, gen`sidByGid, gen`nextSid, objects`stage
      ensures Rep() && Inv(m) && o == Pass
      ensures m == Dispatch(Dispatch(old(m), Rn0, snap.dispatch0), Rn1, snap.dispatch1)
      ensures fresh(objects - old(objects))
    {
      hide Rep, Inv, Dispatch;
      DispatchKeeps(m, Rn0, snap.dispatch0);
      :- DispatchRecord(Rn0, snap.dispatch0);
      DispatchKeeps(m, Rn1, snap.dispatch1);
      :- DispatchRecord(Rn1, snap.dispatch1);
      o := Pass;
    }

    method AdvanceTo(cycle: int) returns (o: Outcome)
      requires Rep() && Inv(m) && gen.currentCycle == lastCycle < cycle
      modifies this`m, this`lastCycle, this`live, this`opsByGid, this`scheduled
      modifies gen`out, gen`currentCycle, gen`nextRid, gen`sidByGid, objects`stage
      ensures Rep() && Inv(m) && o == Pass && gen.currentCycle == lastCycle
      ensures m == Advance(old(m), cycle)
    {
      hide Rep, Inv, KanataModel.ApplyScheduled;
      Counters();
      BeginKeeps(m, cycle);
      :- BeginCycle(cycle);
      ApplyKeeps(m, cycle);
      :- ApplyScheduled(cycle);
      o := Pass;
    }

    method ObserveAll(snap: Snapshot) returns (o: Outcome)
      requires Rep() && Inv(m)
      modifies this`m, this`live, this`stats, this`scheduled, gen`out, objects`stage
      ensures Rep() && Inv(m) && o == Pass && m == Observe(old(m), snap)
    {
      hide Rep, Inv, Issue, Complete;
      :- ProcessIssue(snap);
      :- ProcessCompletion(snap);
      o := Pass;
    }

    method ResolveAll(snap: Snapshot) returns (o: Outcome)
      requires Rep() && Inv(m)
      modifies this`m, this`live, this`objects, this`stats, this`scheduled, this`nextGid
      modifies this`opsByGid, this`activeByTag, this`activeOrder
      modifies gen`out, gen`sidByGid, gen`nextSid, objects`stage
      ensures Rep() && Inv(m) && o == Pass && m == Resolve(old(m), snap)
      ensures fresh(objects - old(objects))
    {
      hide Rep, Inv, Recover, Commit, Dispatch;
      RecoverKeeps(m, snap);
      :- ProcessRecovery(snap);
      :- ProcessCommit(snap);
      :- ProcessDispatch(snap);
      o := Pass;
    }

    /** No error but a cycle that does not increase. */
    method ProcessSnapshot(snap: Snapshot) returns (o: Outcome)
      requires Rep() && Inv(m) && gen.currentCycle == lastCycle
      modifies this`m, this`live, this`objects, this`stats, this`scheduled, this`nextGid, this`lastCycle
      modifies this`opsByGid, this`activeByTag, this`activeOrder
      modifies gen`out, gen`sidByGid, gen`nextSid, gen`nextRid, gen`currentCycle, objects`stage
      ensures Rep() && Inv(m) && gen.currentCycle == lastCycle && fresh(objects - old(objects))
      ensures snap.cycle <= old(m).lastCycle ==> o == Fail(CycleNotIncreasing) && m == old(m)
      ensures snap.cycle > old(m).lastCycle ==> o == Pass && m == Process(old(m), snap)
    {
      hide Rep, Inv, Advance, Observe, Resolve;
      Counters();
      if snap.cycle <= lastCycle {
        return Fail(CycleNotIncreasing);
      }
      :- AdvanceTo(snap.cycle);
      :- ObserveAll(snap);
      :- ResolveAll(snap);
      o := Pass;
    }

    // ---- The end ---------------------------------------------------------------------

    method TickOnce() returns (o: Outcome)
      requires Rep() && lastCycle == gen.currentCycle
      modifies this`m, gen`out, gen`currentCycle
      ensures Rep() && o == Pass && m == Emit(old(m), [C(1)]) && gen.currentCycle == lastCycle + 1
    {
      hide AgendaIs, LiveIs, Holds, Tagged, SidsAre, Linked;
      :- gen.Cycle(lastCycle + 1);
      m := Emit(m, [C(1)]);
      o := Pass;
    }

    /** The clean-up loop of `finish`: it fails on a cycle that has passed. */
    method CleanUp() returns (o: Outcome)
      requires Rep() && Inv(m)
      modifies this`m, this`live, this`opsByGid, this`scheduled
      modifies gen`out, gen`currentCycle, gen`nextRid, gen`sidByGid, objects`stage
      ensures (exists k :: k in old(scheduled) && k < old(gen.currentCycle)) ==> o == Fail(CycleBackwards)
      ensures old(scheduled) == map[] ==> o == Pass && gen.out == old(gen.out)
    {
      hide Rep, Inv, KanataModel.ApplyScheduled;
      var cycles := scheduled.Keys;
      ghost var all := cycles;
      while cycles != {}
        invariant Rep() && Inv(m) && cycles <= all
        invariant cycles == all ==> gen.currentCycle == old(gen.currentCycle) && gen.out == old(gen.out)
        invariant cycles != all ==> forall k :: k in all ==> k >= old(gen.currentCycle)
        decreases |cycles|
      {
        var cycle := CycleSets.Least(cycles);
        :- CatchUp(cycle);
        ApplyKeeps(m, cycle);
        :- ApplyScheduled(cycle);
        cycles := cycles - {cycle};
      }
      o := Pass;
    }

    method CatchUp(cycle: int) returns (o: Outcome)
      requires Rep() && Inv(m)
      modifies this`m, gen`out, gen`currentCycle
      ensures o == if cycle < old(gen.currentCycle) then Fail(CycleBackwards) else Pass
      ensures o == Pass ==> Rep() && Inv(m)
    {
      hide AgendaIs, LiveIs, Holds, Tagged, SidsAre, Linked, Inv;
      if cycle > gen.currentCycle {
        ClockKeeps(m, cycle - gen.currentCycle);
        m := Emit(m, [C(cycle - gen.currentCycle)]);
      }
      :- gen.Cycle(cycle);
      o := Pass;
    }

    method FlushRest() returns (o: Outcome)
      requires Rep() && Inv(m)
      modifies this`m, this`live, this`stats, this`opsByGid, this`activeByTag, this`activeOrder
      modifies gen`out, gen`sidByGid, objects`stage
      ensures Rep() && o == Pass
      ensures m == if old(m).active == [] then old(m) else Flush(Emit(old(m), [Comment]), 0, |old(m).active|)
    {
      hide Rep, Inv, Flush;
      Found(0);
      if activeOrder != [] {
        CommentKeeps(m, m.stats);
        Remark(stats);
        assert activeOrder == activeOrder[0..|activeOrder|];
        :- FlushOps(activeOrder, 0);
      }
      o := Pass;
    }

    /** `finish` raises exactly when a deferred transition was missed. */
    method FinishTrace() returns (o: Outcome)
      requires Rep() && Inv(m) && gen.currentCycle == lastCycle
      modifies this`m, this`live, this`objects, this`stats, this`scheduled, this`nextGid, this`lastCycle
      modifies this`opsByGid, this`activeByTag, this`activeOrder
      modifies gen`out, gen`sidByGid, gen`nextSid, gen`nextRid, gen`currentCycle, objects`stage
      ensures Stale(old(m)) ==> o == Fail(CycleBackwards)
      ensures !Stale(old(m)) ==> o == Pass && gen.out == Finish(old(m)).out && stats == Finish(old(m)).stats
    {
      hide Rep, Inv, KanataModel.ApplyScheduled, Flush;
      Counters();
      ghost var start := m;
      ClockKeeps(m, 1);
      FinishKeeps(m);
      NoneBeyond(m);
      :- TickOnce();
      ApplyKeeps(m, lastCycle + 1);
      :- ApplyScheduled(lastCycle + 1);
      :- FlushRest();
      assert m == Finish(start);
      Leftovers(start);
      assert Stale(start) ==> exists k :: k in scheduled && k < gen.currentCycle;
      :- CleanUp();
      o := Pass;
    }

    lemma Leftovers(start: State)
      requires Rep() && m.scheduled == start.scheduled - {start.lastCycle + 1}
      ensures gen.out == m.out && stats == m.stats
      ensures forall k :: k in scheduled <==> k in start.scheduled && k != start.lastCycle + 1
      ensures !Stale(start) ==> scheduled == map[]
    {
      hide LiveIs, Holds, Tagged, SidsAre, Linked;
      assert forall k :: k in scheduled <==> k in scheduled.Keys;
      assert forall k :: k in m.scheduled <==> k in m.scheduled.Keys;
      assert forall k :: k in scheduled <==> k in start.scheduled && k != start.lastCycle + 1;
    }
  }

  lemma BeginKeeps(s: State, cycle: int)
    requires Inv(s) && cycle > s.lastCycle
    ensures Inv(s.(lastCycle := cycle, out := s.out + [C(cycle - s.lastCycle)] + [Comment]))
  {
    hide Inv;
    ClockKeeps(s, cycle - s.lastCycle);
    var c := Emit(s, [C(cycle - s.lastCycle)]);
    CommentKeeps(c, c.stats);
    LaterKeeps(Emit(c, [Comment]), cycle);
  }

  lemma NoneYet(snaps: seq<Snapshot>)
    ensures Increasing(snaps[..0]) && RunOf(snaps[..0]) == START
  {
  }

  lemma OneMore(snaps: seq<Snapshot>, k: nat)
    requires k < |snaps| && Increasing(snaps[..k])
    ensures RunOf(snaps[..k + 1]) == Process(RunOf(snaps[..k]), snaps[k])
    ensures snaps[k].cycle > LastCycle(snaps[..k]) ==> Increasing(snaps[..k + 1])
    ensures snaps[k].cycle <= LastCycle(snaps[..k]) ==> !Increasing(snaps)
  {
    hide Process;
    assert snaps[..k + 1][..k] == snaps[..k];
    if snaps[k].cycle > LastCycle(snaps[..k]) {
      var t := snaps[..k + 1];
      assert forall i :: 0 <= i < k ==> t[i] == snaps[..k][i];
    }
  }

  // ---- A whole conversion ------------------------------------------------------------

  lemma PathsAre(snaps: seq<Snapshot>)
    requires Increasing(snaps)
    ensures forall g: nat :: Stages.PathOf(Finish(RunOf(snaps)).out, g) == Stages.Path(snaps, g)
  {
    hide Stages.PathOf, Stages.Path, Finish, RunOf;
    forall g: nat ensures Stages.PathOf(Finish(RunOf(snaps)).out, g) == Stages.Path(snaps, g) {
      Stages.StagesAre(snaps, g);
    }
  }

  /** `convert`: it fails exactly when the cycles do not increase or a deferred transition is missed. */
  method Convert(snaps: seq<Snapshot>) returns (o: Outcome, trace: Trace, stats: Stats, counts: Counts)
    ensures !Increasing(snaps) ==> o == Fail(CycleNotIncreasing)
    ensures Increasing(snaps) && MissesOne(snaps) ==> o == Fail(CycleBackwards)
    ensures Increasing(snaps) && !MissesOne(snaps) ==>
      && o == Pass && trace == Finish(RunOf(snaps)).out && stats == Tally.FinalStats(snaps)
      && (forall g: nat :: Stages.PathOf(trace, g) == Stages.Path(snaps, g))
      && stats.dispatched == BornIn(snaps) && AllClosed(trace, stats.dispatched)
      && counts.initialized == counts.retired == UpTo(stats.dispatched)
      && counts.stageBegin == counts.stageEnd
      && counts.commits == stats.committed && counts.flushes == stats.flushed
  {
    hide Inv, Process, MissesOne, Finish, Converter.Rep, RunOf, Stale, BornIn, AllClosed, Increasing, LastCycle;
    hide Stages.PathOf, Stages.Path, Tally.FinalStats;
    trace, stats, counts := [], NO_STATS, Counts({}, {}, 0, 0, 0, 0);
    var generator := new Generator();
    var converter := new Converter(generator);
    StartInv();
    NoneYet(snaps);
    var k := 0;
    while k < |snaps|
      invariant k <= |snaps| && Increasing(snaps[..k]) && fresh(converter) && fresh(generator)
      invariant converter.gen == generator && fresh(converter.objects)
      invariant converter.Rep() && Inv(converter.m) && converter.m == RunOf(snaps[..k])
      invariant generator.currentCycle == converter.lastCycle
    {
      RunKeeps(snaps[..k]);
      OneMore(snaps, k);
      o := converter.ProcessSnapshot(snaps[k]);
      if o.Fail? {
        return;
      }
      k := k + 1;
    }
    assert snaps[..k] == snaps;
    assert Increasing(snaps);
    RunKeeps(snaps);
    StaleIff(snaps);
    o := converter.FinishTrace();
    if o.Fail? {
      return;
    }
    trace, stats := generator.out, converter.stats;
    counts := Validate(trace);
    FinishCloses(RunOf(snaps));
    FinishKeeps(RunOf(snaps));
    Tally.FinishStats(snaps);
    PathsAre(snaps);
    ClosedValidates(trace, stats.dispatched);
  }

  /** The next gid belongs to no live instruction. */
  lemma Unknown(live: map<nat, Stage>, s: State)
    requires Inv(s) && LiveIs(live, s.active, s.retiring)
    ensures s.nextGid !in live
    ensures forall i :: 0 <= i < |s.active| ==> s.active[i].gid != s.nextGid
  {
    hide Agenda, EventsOk, Queued, Lives, Counted;
  }

  lemma LiveWith(live: map<nat, Stage>, active: seq<Op>, retiring: map<nat, Pending>, op: Op)
    requires LiveIs(live, active, retiring) && op.gid !in live
    ensures LiveIs(live[op.gid := op.stage], active + [op], retiring)
  {
    var b := active + [op];
    assert b[|active|] == op;
    forall g | Member(active, g) ensures Member(b, g) {
      var j :| 0 <= j < |active| && active[j].gid == g;
      assert b[j] == active[j];
    }
  }

  lemma HoldsWith(order: seq<DynamicOp>, active: seq<Op>, ops: map<nat, DynamicOp>, o: DynamicOp, op: Op)
    requires Holds(order, active, ops) && op.gid == o.gid && op.tag == o.tag && op.fu == o.fu
    requires forall i :: 0 <= i < |active| ==> active[i].gid != o.gid
    ensures Holds(order + [o], active + [op], ops[o.gid := o])
  {
  }

  lemma TaggedWith(
    order: seq<DynamicOp>, active: seq<Op>, ops: map<nat, DynamicOp>, byTag: map<int, DynamicOp>, o: DynamicOp)
    requires Holds(order, active, ops) && Tagged(order, byTag)
    requires forall i :: 0 <= i < |active| ==> active[i].tag != o.tag
    ensures Tagged(order + [o], byTag[o.tag := o])
  {
    assert (order + [o])[|order|] == o;
    assert forall i :: 0 <= i < |order| ==> order[i].tag == active[i].tag;
  }

  lemma StandsAt(ts: seq<Transition>, es: seq<Event>, k: nat)
    requires StandFor(ts, es) && k < |ts|
    ensures k < |es| && Stands(ts[k], es[k])
  {
  }

  /** A transition fires exactly when its instruction is live in the expected stage. */
  lemma FiresIff(live: map<nat, Stage>, s: State, e: Event, cycle: int, todo: seq<Event>)
    requires LiveIs(live, s.active, s.retiring) && InvWith(s, cycle, [e] + todo)
    ensures !(e.gid in live && live[e.gid] == e.expected) ==> Fire(s, e) == s
    ensures e.gid in live && live[e.gid] == e.expected && e.Retire? ==>
      e.gid in s.retiring && s.retiring[e.gid].stage == e.expected
    ensures e.gid in live && live[e.gid] == e.expected && e.Move? ==>
      var i := Position(s.active, e.gid);
      i < |s.active| && s.active[i].stage == e.expected
  {
    assert EventOk(([e] + todo)[0]);
    hide Agenda, EventsOk, Queued, Lives, Counted;
    var i := Position(s.active, e.gid);
    assert Member(s.active, e.gid) ==> i < |s.active|;
    hide Position;
  }

  lemma FireRetireIs(s: State, e: Event)
    requires e.Retire? && e.gid in s.retiring && s.retiring[e.gid].stage == e.expected
    ensures Fire(s, e) == s.(
      out := s.out + [E(e.gid, e.expected)] + [R(e.gid, s.nextRid, false)],
      nextRid := s.nextRid + 1, retiring := s.retiring - {e.gid})
  {
  }

  lemma LiveDepart(live: map<nat, Stage>, active: seq<Op>, retiring: map<nat, Pending>, i: nat, p: Pending)
    requires LiveIs(live, active, retiring) && Apart(active, retiring) && i < |active| && p.stage == active[i].stage
    ensures LiveIs(live, active[..i] + active[i + 1..], retiring[active[i].gid := p])
  {
    var b := active[..i] + active[i + 1..];
    forall j | 0 <= j < |b| ensures b[j].gid in live && live[b[j].gid] == b[j].stage {
      assert b[j] == active[if j < i then j else j + 1];
    }
    forall g | Member(active, g) && g != active[i].gid ensures Member(b, g) {
      var j :| 0 <= j < |active| && active[j].gid == g;
      assert b[if j < i then j else j - 1] == active[j];
    }
  }

  lemma LiveRetire(live: map<nat, Stage>, active: seq<Op>, retiring: map<nat, Pending>, g: nat)
    requires LiveIs(live, active, retiring) && Apart(active, retiring) && g in retiring
    ensures g in live && live[g] == retiring[g].stage && LiveIs(live - {g}, active, retiring - {g})
  {
    assert !Member(active, g);
  }

  lemma HoldsDepart(order: seq<DynamicOp>, active: seq<Op>, ops: map<nat, DynamicOp>, i: nat)
    requires Holds(order, active, ops) && i < |active|
    ensures Holds(order[..i] + order[i + 1..], active[..i] + active[i + 1..], ops)
  {
  }

  lemma HoldsRetire(
    order: seq<DynamicOp>, active: seq<Op>, ops: map<nat, DynamicOp>, retiring: map<nat, Pending>, g: nat)
    requires Holds(order, active, ops) && Apart(active, retiring) && g in retiring
    ensures Holds(order, active, ops - {g})
  {
    assert !Member(active, g);
    assert forall i :: 0 <= i < |order| ==> order[i].gid == active[i].gid != g;
  }

  lemma ApartRestage(active: seq<Op>, retiring: map<nat, Pending>, i: nat, next: Stage)
    requires Apart(active, retiring) && i < |active|
    ensures Apart(active[i := active[i].(stage := next)], retiring)
  {
    RestageSame(active, i, next);
  }

  /** Taking the first object of a slice out of the list leaves the rest of the slice in its place. */
  lemma RestOfSlice(ops: seq<DynamicOp>, order: seq<DynamicOp>, i: nat, k: nat)
    requires k < |ops| && i + (|ops| - k) <= |order| && ops[k..] == order[i..i + (|ops| - k)]
    ensures ops[k + 1..] == (order[..i] + order[i + 1..])[i..i + (|ops| - (k + 1))]
  {
    var n := |ops| - k;
    assert ops[k + 1..] == ops[k..][1..];
    assert order[i..i + n][1..] == order[i + 1..i + n];
    assert (order[..i] + order[i + 1..])[i..i + (n - 1)] == order[i + 1..i + n];
  }

  lemma FlushLength(s: State, i: nat)
    requires i < |s.active|
    ensures |FlushOne(s, i).active| == |s.active| - 1
  {
  }

  function OneMoreFlushed(s: Stats): Stats {
    s.(flushed := s.flushed + 1)
  }

  lemma FlushOneIs(s: State, i: nat)
    requires i < |s.active|
    ensures
      var r := FlushOne(s, i);
      && r.out == s.out + [E(s.active[i].gid, s.active[i].stage)] + [R(s.active[i].gid, 0, true)]
      && r.active == s.active[..i] + s.active[i + 1..] && r.stats == OneMoreFlushed(s.stats)
      && r.lastCycle == s.lastCycle && r.nextGid == s.nextGid && r.nextRid == s.nextRid
      && r.retiring == s.retiring && r.scheduled == s.scheduled
  {
  }

  lemma OrderTags(s: State, order: seq<DynamicOp>, ops: map<nat, DynamicOp>)
    requires Inv(s) && Holds(order, s.active, ops)
    ensures DistinctTags(order)
  {
    hide Agenda, EventsOk, Queued, Lives, Counted;
  }

  lemma LiveWithout(live: map<nat, Stage>, active: seq<Op>, retiring: map<nat, Pending>, i: nat)
    requires LiveIs(live, active, retiring) && Apart(active, retiring) && i < |active|
    ensures LiveIs(live - {active[i].gid}, active[..i] + active[i + 1..], retiring)
  {
    var b := active[..i] + active[i + 1..];
    assert Member(active, active[i].gid);
    forall j | 0 <= j < |b|
      ensures b[j].gid in live && b[j].gid != active[i].gid && live[b[j].gid] == b[j].stage
    {
      assert b[j] == active[if j < i then j else j + 1];
    }
    forall g | Member(active, g) && g != active[i].gid ensures Member(b, g) {
      var j :| 0 <= j < |active| && active[j].gid == g;
      assert b[if j < i then j else j - 1] == active[j];
    }
  }

  lemma HoldsWithout(
    order: seq<DynamicOp>, active: seq<Op>, ops: map<nat, DynamicOp>, retiring: map<nat, Pending>, i: nat)
    requires Holds(order, active, ops) && Apart(active, retiring) && i < |active|
    ensures Holds(order[..i] + order[i + 1..], active[..i] + active[i + 1..], ops - {active[i].gid})
  {
    var b := active[..i] + active[i + 1..];
    forall j | 0 <= j < |b| ensures b[j] == active[if j < i then j else j + 1] && b[j].gid != active[i].gid {
    }
  }

  lemma AgendaSnoc(
    scheduled: map<int, seq<Transition>>, agenda: map<int, seq<Event>>, cycle: int, t: Transition, e: Event)
    requires AgendaIs(scheduled, agenda) && Stands(t, e)
    ensures AgendaIs(
      scheduled[cycle := (if cycle in scheduled then scheduled[cycle] else []) + [t]],
      agenda[cycle := Deferred(agenda, cycle) + [e]])
  {
    var ts := if cycle in scheduled then scheduled[cycle] else [];
    assert StandFor(ts, Deferred(agenda, cycle)) by {
      if cycle in scheduled {
        assert cycle in agenda.Keys;
      } else {
        assert cycle !in agenda.Keys;
      }
    }
    assert StandFor(ts + [t], Deferred(agenda, cycle) + [e]);
  }
}

module CycleSets {

  lemma SomethingIn(cycles: set<int>)
    ensures cycles == {} || exists k :: k in cycles
  {
    if forall k :: k !in cycles {
      assert cycles == {};
    }
  }

  /** The first element of `sorted(cycles)`. */
  method Least(cycles: set<int>) returns (k: int)
    requires cycles != {}
    ensures k in cycles && forall j :: j in cycles ==> k <= j
  {
    SomethingIn(cycles);
    k :| k in cycles;
    var rest := cycles - {k};
    while rest != {}
      invariant rest <= cycles && k in cycles && forall j :: j in cycles ==> j in rest || k <= j
      decreases |rest|
    {
      SomethingIn(rest);
      var j :| j in rest;
      k := if j < k then j else k;
      rest := rest - {j};
    }
  }
}
