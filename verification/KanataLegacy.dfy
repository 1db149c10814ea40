/**
  The V2 path of the older converter, tools/kanata/tb_dump_to_konata_legacy.py:
  it retires an instruction in the cycle it commits and defers nothing.
*/
module KanataLegacy {
  import opened Wrappers
  import opened KanataTrace
  import opened KanataModel

  datatype Entry = Entry(iid: nat, tag: int, stage: Stage)

  datatype Tally = Tally(
    dispatched: nat, issued: nat, committed: nat, flushed: nat,
    orphanIssues: nat, orphanCompletions: nat, orphanCommits: nat)

  datatype Legacy = Legacy(
    out: Trace, currentCycle: int, nextIid: nat, nextRid: nat, active: seq<Entry>, stats: Tally)

  const LEGACY_START := Legacy([], -1, 1, 0, [], Tally(0, 0, 0, 0, 0, 0, 0))

  function EntrySlot(active: seq<Entry>, tag: int): (i: nat)
    ensures i <= |active|
    ensures i < |active| ==> active[i].tag == tag
    ensures forall j :: 0 <= j < i ==> active[j].tag != tag
  {
    FirstWhere(active, (e: Entry) => e.tag == tag)
  }

  /** `emit_stage`: a stage begin, unless the entry is in that stage already. */
  function StageRec(e: Entry, stage: Stage): Trace {
    if e.stage == stage then [] else [S(e.iid, stage)]
  }

  function EnterStage(l: Legacy, i: nat, stage: Stage): Legacy
    requires i < |l.active|
  {
    l.(out := l.out + StageRec(l.active[i], stage), active := l.active[i := l.active[i].(stage := stage)])
  }

  function LegacyIssue(l: Legacy, port: Stage, rec: Option<int>): Legacy {
    if rec.None? then l
    else
      var i := EntrySlot(l.active, rec.value);
      if i == |l.active| then
        l.(out := l.out + [Comment], stats := l.stats.(orphanIssues := l.stats.orphanIssues + 1))
      else EnterStage(l, i, port)
  }

  function LegacyComplete(l: Legacy, stage: Stage, rec: Option<int>): Legacy {
    if rec.None? then l
    else
      var i := EntrySlot(l.active, rec.value);
      if i == |l.active| then
        l.(out := l.out + [Comment], stats := l.stats.(orphanCompletions := l.stats.orphanCompletions + 1))
      else EnterStage(l, i, stage)
  }

  /** `close_entry` of a flushed entry, and `remove_active`. */
  function CloseFlushed(l: Legacy, i: nat): Legacy
    requires i < |l.active|
  {
    l.(out := l.out + StageRec(l.active[i], Fl) + [R(l.active[i].iid, 0, true)],
       active := l.active[..i] + l.active[i + 1..],
       stats := l.stats.(flushed := l.stats.flushed + 1))
  }

  /** `close_entry` of a committed entry, and `remove_active`. */
  function CloseCommitted(l: Legacy, i: nat, stage: Stage): Legacy
    requires i < |l.active|
  {
    l.(out := l.out + StageRec(l.active[i], stage) + [R(l.active[i].iid, l.nextRid, false)],
       nextRid := l.nextRid + 1,
       active := l.active[..i] + l.active[i + 1..],
       stats := l.stats.(committed := l.stats.committed + 1))
  }

  function FlushEntries(l: Legacy, i: nat, n: nat): Legacy
    requires i + n <= |l.active|
    decreases n
  {
    if n == 0 then l else FlushEntries(CloseFlushed(l, i), i, n - 1)
  }

  function Note(l: Legacy): Legacy {
    l.(out := l.out + [Comment])
  }

  function LegacyRecover(l: Legacy, snap: Snapshot): Legacy {
    if snap.globalFlush then FlushEntries(Note(l), 0, |l.active|)
    else if !snap.recover then l
    else
      var i := EntrySlot(l.active, snap.recoverTag);
      if i == |l.active| then Note(l) else FlushEntries(Note(l), i + 1, |l.active| - (i + 1))
  }

  function LegacyCommit(l: Legacy, stage: Stage, rec: Option<int>): Legacy {
    if rec.None? then l
    else
      var i := EntrySlot(l.active, rec.value);
      if i == |l.active| then
        l.(out := l.out + [Comment], stats := l.stats.(orphanCommits := l.stats.orphanCommits + 1))
      else CloseCommitted(l, i, stage)
  }

  function LegacyFree(l: Legacy, tag: int): Legacy {
    var i := EntrySlot(l.active, tag);
    if i == |l.active| then l else CloseFlushed(Note(l), i)
  }

  function LegacyAllocate(l: Legacy, stage: Stage, d: Dispatched): Legacy {
    var iid := l.nextIid;
    l.(out := l.out + [I(iid, iid), L(iid, 0), L(iid, 1), S(iid, stage), S(iid, IqRob)],
       nextIid := iid + 1,
       active := l.active + [Entry(iid, d.tag, IqRob)],
       stats := l.stats.(dispatched := l.stats.dispatched + 1, issued := l.stats.issued + 1))
  }

  function LegacyDispatch(l: Legacy, stage: Stage, rec: Option<Dispatched>): Legacy {
    if rec.None? then l else LegacyAllocate(LegacyFree(l, rec.value.tag), stage, rec.value)
  }

  function LegacyObserve(l: Legacy, snap: Snapshot): Legacy {
    var l := LegacyIssue(LegacyIssue(LegacyIssue(l, Ex0, snap.issue0), Ex1, snap.issue1), ExF, snap.issueF);
    LegacyComplete(LegacyComplete(l, Wb0, snap.complete0), Wb1, snap.complete1)
  }

  function LegacyResolve(l: Legacy, snap: Snapshot): Legacy {
    var l := LegacyCommit(LegacyCommit(LegacyRecover(l, snap), Cm0, snap.commit0), Cm1, snap.commit1);
    LegacyDispatch(LegacyDispatch(l, DRn0, snap.dispatch0), DRn1, snap.dispatch1)
  }

  function LegacyAdvance(l: Legacy, cycle: int): Legacy {
    l.(out := l.out + (if cycle > l.currentCycle then [C(cycle - l.currentCycle)] else []) + [Comment],
       currentCycle := cycle)
  }

  function LegacyProcess(l: Legacy, snap: Snapshot): Legacy {
    LegacyResolve(LegacyObserve(LegacyAdvance(l, snap.cycle), snap), snap)
  }

  function LegacyFinish(l: Legacy): Legacy {
    if l.active == [] then l else FlushEntries(Note(l), 0, |l.active|)
  }

  function LegacyRun(snaps: seq<Snapshot>): Legacy {
    if snaps == [] then LEGACY_START else LegacyProcess(LegacyRun(snaps[..|snaps| - 1]), snaps[|snaps| - 1])
  }
}
