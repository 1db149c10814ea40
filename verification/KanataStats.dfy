/**
  The conversion statistics as counts over the snapshots and their windows.
*/
module KanataStats {
  import opened Wrappers
  import opened KanataTrace
  import opened KanataModel
  import opened KanataLife
  import opened KanataRun

  /** 1 for a record that names a live instruction. */
  function Hit(w: seq<Id>, rec: Option<int>): nat {
    if Hits(w, rec) then 1 else 0
  }

  /** 1 for a record whose tag is not live. */
  function Miss(w: seq<Id>, rec: Option<int>): nat {
    if rec.Some? && !Hits(w, rec) then 1 else 0
  }

  function One(rec: Option<Dispatched>): nat {
    if rec.Some? then 1 else 0
  }

  /** 1 for a dispatch whose tag is still live. */
  function Reused(w: seq<Id>, rec: Option<Dispatched>): nat {
    if rec.Some? then Hit(w, Some(rec.value.tag)) else 0
  }

  /** How many instructions a flush or a recovery removes. */
  function Lost(w: seq<Id>, snap: Snapshot): nat {
    |w| - |Kept(w, snap)|
  }

  function Inactive(w: seq<Id>, snap: Snapshot): nat {
    if !snap.globalFlush && snap.recover && forall i :: 0 <= i < |w| ==> w[i].tag != snap.recoverTag then 1 else 0
  }

  /** What one snapshot adds to the counters. */
  function Added(s: Stats, w: seq<Id>, next: nat, snap: Snapshot): Stats {
    var k := Kept(w, snap);
    var a := Dropped(k, snap.commit0);
    var b := Dropped(a, snap.commit1);
    var reused := Reused(b, snap.dispatch0) + Reused(Placed(b, next, snap.dispatch0), snap.dispatch1);
    Stats(
      s.dispatched + One(snap.dispatch0) + One(snap.dispatch1),
      s.issued + Hit(w, snap.issue0) + Hit(w, snap.issue1) + Hit(w, snap.issueF),
      s.completed + Hit(w, snap.complete0) + Hit(w, snap.complete1),
      s.committed + Hit(k, snap.commit0) + Hit(a, snap.commit1),
      s.flushed + Lost(w, snap) + reused,
      s.recoveries + (if !snap.globalFlush && snap.recover then 1 else 0),
      s.globalFlushes + (if snap.globalFlush then 1 else 0),
      s.orphanIssues + Miss(w, snap.issue0) + Miss(w, snap.issue1) + Miss(w, snap.issueF),
      s.orphanCompletions + Miss(w, snap.complete0) + Miss(w, snap.complete1),
      s.orphanCommits + Miss(k, snap.commit0) + Miss(a, snap.commit1),
      s.inactiveRecoveries + Inactive(w, snap),
      s.tagReuseErrors + reused)
  }

  /** The counters after a run, from the snapshots alone. */
  function StatsOf(snaps: seq<Snapshot>): Stats {
    if snaps == [] then NO_STATS
    else
      var before := snaps[..|snaps| - 1];
      Added(StatsOf(before), WindowOf(before), BornIn(before), snaps[|snaps| - 1])
  }

  // ---- One step ------------------------------------------------------------------------

  lemma IssueStats(s: State, port: Stage, rec: Option<int>)
    ensures Issue(s, port, rec).stats == s.stats.(
      issued := s.stats.issued + Hit(Ids(s.active), rec),
      orphanIssues := s.stats.orphanIssues + Miss(Ids(s.active), rec))
  {
    hide Slot, Find, Enter;
    if rec.Some? {
      SlotIds(s.active, rec.value);
    }
  }

  lemma CompleteStats(s: State, stage: Stage, rec: Option<int>)
    ensures Complete(s, stage, rec).stats == s.stats.(
      completed := s.stats.completed + Hit(Ids(s.active), rec),
      orphanCompletions := s.stats.orphanCompletions + Miss(Ids(s.active), rec))
  {
    hide Slot, Find, Enter;
    if rec.Some? {
      SlotIds(s.active, rec.value);
    }
  }

  lemma ObserveStats(s: State, snap: Snapshot)
    requires Inv(s)
    ensures var w := Ids(s.active);
      Observe(s, snap).stats == s.stats.(
        issued := s.stats.issued + Hit(w, snap.issue0) + Hit(w, snap.issue1) + Hit(w, snap.issueF),
        orphanIssues := s.stats.orphanIssues + Miss(w, snap.issue0) + Miss(w, snap.issue1) + Miss(w, snap.issueF),
        completed := s.stats.completed + Hit(w, snap.complete0) + Hit(w, snap.complete1),
        orphanCompletions := s.stats.orphanCompletions + Miss(w, snap.complete0) + Miss(w, snap.complete1))
  {
    hide Inv, Issue, Complete, Ids, Hit, Miss;
    IssueKeeps(s, Ex0, snap.issue0);
    IssueStats(s, Ex0, snap.issue0);
    var s1 := Issue(s, Ex0, snap.issue0);
    IssueKeeps(s1, Ex1, snap.issue1);
    IssueStats(s1, Ex1, snap.issue1);
    var s2 := Issue(s1, Ex1, snap.issue1);
    IssueKeeps(s2, ExF, snap.issueF);
    IssueStats(s2, ExF, snap.issueF);
    var s3 := Issue(s2, ExF, snap.issueF);
    CompleteKeeps(s3, Wb0, snap.complete0);
    CompleteStats(s3, Wb0, snap.complete0);
    CompleteStats(Complete(s3, Wb0, snap.complete0), Wb1, snap.complete1);
  }

  lemma RecoverStats(s: State, snap: Snapshot)
    ensures var w := Ids(s.active);
      Recover(s, snap).stats == s.stats.(
        flushed := s.stats.flushed + Lost(w, snap),
        recoveries := s.stats.recoveries + (if !snap.globalFlush && snap.recover then 1 else 0),
        globalFlushes := s.stats.globalFlushes + (if snap.globalFlush then 1 else 0),
        inactiveRecoveries := s.stats.inactiveRecoveries + Inactive(w, snap))
  {
    hide Flush, Slot, Find;
    SlotIds(s.active, snap.recoverTag);
    var i, n := Slot(s.active, snap.recoverTag), |s.active|;
    assert Find(Ids(s.active), snap.recoverTag) == i;
    if snap.globalFlush {
      FlushFrame(Emit(s, [Comment]).(stats := s.stats.(globalFlushes := s.stats.globalFlushes + 1)), 0, n);
    } else if snap.recover && i < n {
      assert Ids(s.active)[i].tag == snap.recoverTag;
      var r := Emit(s, [Comment]).(stats := s.stats.(recoveries := s.stats.recoveries + 1));
      FlushFrame(r, i + 1, n - (i + 1));
    }
  }

  lemma CommitStats(s: State, stage: Stage, rec: Option<int>)
    ensures Commit(s, stage, rec).stats == s.stats.(
      committed := s.stats.committed + Hit(Ids(s.active), rec),
      orphanCommits := s.stats.orphanCommits + Miss(Ids(s.active), rec))
  {
    hide Slot, Find;
    if rec.Some? {
      SlotIds(s.active, rec.value);
    }
  }

  lemma DispatchStats(s: State, stage: Stage, rec: Option<Dispatched>)
    ensures Dispatch(s, stage, rec).stats == s.stats.(
      dispatched := s.stats.dispatched + One(rec),
      flushed := s.stats.flushed + Reused(Ids(s.active), rec),
      tagReuseErrors := s.stats.tagReuseErrors + Reused(Ids(s.active), rec))
  {
    hide Slot, Find;
    if rec.Some? {
      SlotIds(s.active, rec.value.tag);
    }
  }

  lemma ResolveStats(s: State, snap: Snapshot)
    requires Inv(s)
    ensures var w := Ids(s.active);
      var k := Kept(w, snap);
      var a := Dropped(k, snap.commit0);
      var b := Dropped(a, snap.commit1);
      var reused := Reused(b, snap.dispatch0) + Reused(Placed(b, s.nextGid, snap.dispatch0), snap.dispatch1);
      Resolve(s, snap).stats == s.stats.(
        dispatched := s.stats.dispatched + One(snap.dispatch0) + One(snap.dispatch1),
        committed := s.stats.committed + Hit(k, snap.commit0) + Hit(a, snap.commit1),
        flushed := s.stats.flushed + Lost(w, snap) + reused,
        recoveries := s.stats.recoveries + (if !snap.globalFlush && snap.recover then 1 else 0),
        globalFlushes := s.stats.globalFlushes + (if snap.globalFlush then 1 else 0),
        orphanCommits := s.stats.orphanCommits + Miss(k, snap.commit0) + Miss(a, snap.commit1),
        inactiveRecoveries := s.stats.inactiveRecoveries + Inactive(w, snap),
        tagReuseErrors := s.stats.tagReuseErrors + reused)
  {
    hide Inv, Recover, Commit, Dispatch, Ids, Kept, Dropped, Placed, NextGid;
    hide Hit, Miss, Reused, Lost, Inactive, One, Hits;
    RecoverKeeps(s, snap);
    RecoverStats(s, snap);
    var s1 := Recover(s, snap);
    CommitKeeps(s1, Cm0, snap.commit0);
    CommitStats(s1, Cm0, snap.commit0);
    var s2 := Commit(s1, Cm0, snap.commit0);
    CommitKeeps(s2, Cm1, snap.commit1);
    CommitStats(s2, Cm1, snap.commit1);
    var s3 := Commit(s2, Cm1, snap.commit1);
    DispatchKeeps(s3, Rn0, snap.dispatch0);
    DispatchStats(s3, Rn0, snap.dispatch0);
    DispatchStats(Dispatch(s3, Rn0, snap.dispatch0), Rn1, snap.dispatch1);
  }

  lemma ProcessStats(s: State, snap: Snapshot)
    requires Inv(s) && snap.cycle > s.lastCycle
    ensures Process(s, snap).stats == Added(s.stats, Ids(s.active), s.nextGid, snap)
  {
    hide Inv, Advance, Observe, Resolve, Ids, Kept, Dropped, Placed, Hit, Miss, Reused, Lost, Inactive, One;
    AdvanceKeeps(s, snap.cycle);
    var s1 := Advance(s, snap.cycle);
    ObserveKeeps(s1, snap);
    ObserveStats(s1, snap);
    ResolveStats(Observe(s1, snap), snap);
  }

  /** Every counter of a run is the count of the records it stands for. */
  lemma {:induction false} RunStats(snaps: seq<Snapshot>)
    requires Increasing(snaps)
    ensures RunOf(snaps).stats == StatsOf(snaps)
    decreases |snaps|
  {
    hide Inv, Process, Added, Ids, WindowOf, BornIn;
    if snaps != [] {
      var before := snaps[..|snaps| - 1];
      RunKeeps(before);
      RunStats(before);
      ProcessStats(RunOf(before), snaps[|snaps| - 1]);
    }
  }

  /** The instructions that are live at the end count as flushed. */
  function FinalStats(snaps: seq<Snapshot>): Stats {
    StatsOf(snaps).(flushed := StatsOf(snaps).flushed + |WindowOf(snaps)|)
  }

  lemma FinishStats(snaps: seq<Snapshot>)
    requires Increasing(snaps)
    ensures Finish(RunOf(snaps)).stats == FinalStats(snaps)
  {
    hide Inv, RunOf, StatsOf, WindowOf, FireAll, Flush;
    RunKeeps(snaps);
    RunStats(snaps);
    var s := RunOf(snaps);
    var t := Emit(s, [C(1)]);
    FireAllFrame(Pop(t, s.lastCycle + 1), Deferred(t.scheduled, s.lastCycle + 1));
    var u := ApplyScheduled(t, s.lastCycle + 1);
    if u.active != [] {
      FlushFrame(Emit(u, [Comment]), 0, |u.active|);
    }
  }
}
