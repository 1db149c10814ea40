/**
  The event converter of tools/kanata/tb_dump_v2_to_kanata.py as a machine on
  values: the window of active instructions in dispatch order, the committed
  instructions that still wait for their retire record, and the transitions
  deferred to the next cycle.  A sid is the gid it was given for.
*/
module KanataModel {
  import opened Wrappers
  import opened KanataTrace

  // ---- Snapshots -------------------------------------------------------------------

  datatype Dispatched = Dispatched(tag: int, fu: int)

  /** One snapshot; an absent or invalid record is None. */
  datatype Snapshot = Snapshot(
    cycle: int, globalFlush: bool, recover: bool, recoverTag: int,
    issue0: Option<int>, issue1: Option<int>, issueF: Option<int>,
    complete0: Option<int>, complete1: Option<int>,
    commit0: Option<int>, commit1: Option<int>,
    dispatch0: Option<Dispatched>, dispatch1: Option<Dispatched>)

  // ---- State -----------------------------------------------------------------------

  datatype Op = Op(gid: nat, tag: int, fu: int, stage: Stage)

  /** A committed instruction: its commit stage and the cycle its retirement is due. */
  datatype Pending = Pending(stage: Stage, due: int)

  datatype Event = Move(gid: nat, expected: Stage, next: Stage) | Retire(gid: nat, expected: Stage)

  datatype Stats = Stats(
    dispatched: nat, issued: nat, completed: nat, committed: nat, flushed: nat,
    recoveries: nat, globalFlushes: nat,
    orphanIssues: nat, orphanCompletions: nat, orphanCommits: nat,
    inactiveRecoveries: nat, tagReuseErrors: nat)

  const NO_STATS := Stats(0, 0, 0, 0, 0, 0, 0, 0, 0, 0, 0, 0)

  datatype State = State(
    out: Trace, lastCycle: int, nextGid: nat, nextRid: nat,
    active: seq<Op>, retiring: map<nat, Pending>, scheduled: map<int, seq<Event>>, stats: Stats)

  const START := State([], -1, 0, 0, [], map[], map[], NO_STATS)

  function Slot(active: seq<Op>, tag: int): (i: nat)
    ensures i <= |active|
    ensures i < |active| ==> active[i].tag == tag
    ensures forall j :: 0 <= j < i ==> active[j].tag != tag
  {
    FirstWhere(active, (op: Op) => op.tag == tag)
  }

  /** Where instruction `gid` is in the window, or the window's length. */
  function Position(active: seq<Op>, gid: nat): (i: nat)
    ensures i <= |active|
    ensures i < |active| ==> active[i].gid == gid
    ensures forall j :: 0 <= j < i ==> active[j].gid != gid
  {
    FirstWhere(active, (op: Op) => op.gid == gid)
  }

  // ---- Steps -----------------------------------------------------------------------

  function Emit(s: State, rs: Trace): State {
    s.(out := s.out + rs)
  }

  function Deferred(scheduled: map<int, seq<Event>>, cycle: int): seq<Event> {
    if cycle in scheduled then scheduled[cycle] else []
  }

  function Schedule(s: State, cycle: int, e: Event): State {
    s.(scheduled := s.scheduled[cycle := Deferred(s.scheduled, cycle) + [e]])
  }

  /** `transition`: nothing is written when the stage does not change. */
  function Enter(s: State, i: nat, next: Stage): State
    requires i < |s.active|
  {
    var op := s.active[i];
    if op.stage == next then s
    else s.(out := s.out + [E(op.gid, op.stage)] + [S(op.gid, next)],
            active := s.active[i := op.(stage := next)])
  }

  function Fire(s: State, e: Event): State {
    match e
    case Move(g, expected, next) =>
      var i := Position(s.active, g);
      if i < |s.active| && s.active[i].stage == expected then
        s.(out := s.out + [E(g, expected)] + [S(g, next)],
           active := s.active[i := s.active[i].(stage := next)])
      else s
    case Retire(g, expected) =>
      if g in s.retiring && s.retiring[g].stage == expected then
        s.(out := s.out + [E(g, expected)] + [R(g, s.nextRid, false)],
           nextRid := s.nextRid + 1, retiring := s.retiring - {g})
      else s
  }

  function FireAll(s: State, es: seq<Event>): State
    decreases |es|
  {
    if es == [] then s else FireAll(Fire(s, es[0]), es[1..])
  }

  function Pop(s: State, cycle: int): State {
    s.(scheduled := s.scheduled - {cycle})
  }

  /** `apply_scheduled`. */
  function ApplyScheduled(s: State, cycle: int): State {
    FireAll(Pop(s, cycle), Deferred(s.scheduled, cycle))
  }

  function Label(s: State, gid: nat): State {
    Emit(s, [L(gid, 2)])
  }

  function Issue(s: State, port: Stage, rec: Option<int>): State {
    if rec.None? then s
    else
      var i := Slot(s.active, rec.value);
      if i == |s.active| then
        Emit(s, [Comment]).(stats := s.stats.(orphanIssues := s.stats.orphanIssues + 1))
      else
        var r := Enter(s, i, if s.active[i].fu == 2 then LS else port);
        Label(r, s.active[i].gid).(stats := s.stats.(issued := s.stats.issued + 1))
  }

  function Complete(s: State, stage: Stage, rec: Option<int>): State {
    if rec.None? then s
    else
      var i := Slot(s.active, rec.value);
      if i == |s.active| then
        Emit(s, [Comment]).(stats := s.stats.(orphanCompletions := s.stats.orphanCompletions + 1))
      else
        var g := s.active[i].gid;
        Schedule(Label(Enter(s, i, stage), g), s.lastCycle + 1, Move(g, stage, Rob))
          .(stats := s.stats.(completed := s.stats.completed + 1))
  }

  function FlushOne(s: State, i: nat): State
    requires i < |s.active|
  {
    var op := s.active[i];
    s.(out := s.out + [E(op.gid, op.stage)] + [R(op.gid, 0, true)],
       active := s.active[..i] + s.active[i + 1..],
       stats := s.stats.(flushed := s.stats.flushed + 1))
  }

  /** `flush_ops` on the `n` instructions from slot `i` on, oldest first. */
  function Flush(s: State, i: nat, n: nat): State
    requires i + n <= |s.active|
    decreases n
  {
    if n == 0 then s else Flush(FlushOne(s, i), i, n - 1)
  }

  function Recover(s: State, snap: Snapshot): State {
    if snap.globalFlush then
      Flush(Emit(s, [Comment]).(stats := s.stats.(globalFlushes := s.stats.globalFlushes + 1)), 0, |s.active|)
    else if !snap.recover then s
    else
      var i := Slot(s.active, snap.recoverTag);
      var r := Emit(s, [Comment]).(stats := s.stats.(recoveries := s.stats.recoveries + 1));
      if i == |s.active| then
        r.(stats := r.stats.(inactiveRecoveries := r.stats.inactiveRecoveries + 1))
      else
        Flush(r, i + 1, |s.active| - (i + 1))
  }

  function Commit(s: State, stage: Stage, rec: Option<int>): State {
    if rec.None? then s
    else
      var i := Slot(s.active, rec.value);
      if i == |s.active| then
        Emit(s, [Comment]).(stats := s.stats.(orphanCommits := s.stats.orphanCommits + 1))
      else Depart(Enter(s, i, stage), i)
  }

  /** The instruction in slot `i` leaves the window; its retirement is deferred. */
  function Depart(s: State, i: nat): State
    requires i < |s.active|
  {
    var op := s.active[i];
    Schedule(
      Label(s, op.gid).(
        active := s.active[..i] + s.active[i + 1..],
        retiring := s.retiring[op.gid := Pending(op.stage, s.lastCycle + 1)],
        stats := s.stats.(committed := s.stats.committed + 1)),
      s.lastCycle + 1, Retire(op.gid, op.stage))
  }

  /** A live instruction that still holds the tag is closed first. */
  function FreeTag(s: State, tag: int): State {
    var i := Slot(s.active, tag);
    if i == |s.active| then s
    else FlushOne(Emit(s, [Comment]).(stats := s.stats.(tagReuseErrors := s.stats.tagReuseErrors + 1)), i)
  }

  function Allocate(s: State, stage: Stage, d: Dispatched): State {
    Schedule(
      s.(out := s.out + [I(s.nextGid, s.nextGid)] + [L(s.nextGid, 0)] + [L(s.nextGid, 1)] + [S(s.nextGid, stage)],
         nextGid := s.nextGid + 1,
         active := s.active + [Op(s.nextGid, d.tag, d.fu, stage)],
         stats := s.stats.(dispatched := s.stats.dispatched + 1)),
      s.lastCycle + 1, Move(s.nextGid, stage, Iq))
  }

  function Dispatch(s: State, stage: Stage, rec: Option<Dispatched>): State {
    if rec.None? then s else Allocate(FreeTag(s, rec.value.tag), stage, rec.value)
  }

  function Observe(s: State, snap: Snapshot): State {
    var s := Issue(Issue(Issue(s, Ex0, snap.issue0), Ex1, snap.issue1), ExF, snap.issueF);
    Complete(Complete(s, Wb0, snap.complete0), Wb1, snap.complete1)
  }

  function Resolve(s: State, snap: Snapshot): State {
    var s := Commit(Commit(Recover(s, snap), Cm0, snap.commit0), Cm1, snap.commit1);
    Dispatch(Dispatch(s, Rn0, snap.dispatch0), Rn1, snap.dispatch1)
  }

  function Advance(s: State, cycle: int): State {
    ApplyScheduled(s.(lastCycle := cycle, out := s.out + [C(cycle - s.lastCycle)] + [Comment]), cycle)
  }

  /** `process_snapshot` when the cycle increases. */
  function Process(s: State, snap: Snapshot): State {
    Resolve(Observe(Advance(s, snap.cycle), snap), snap)
  }

  /** `finish` up to the clean-up loop. */
  function Finish(s: State): State {
    var s := ApplyScheduled(Emit(s, [C(1)]), s.lastCycle + 1);
    if s.active == [] then s else Flush(Emit(s, [Comment]), 0, |s.active|)
  }
}
