/**
  Whole conversions: every snapshot keeps the invariant, `finish` closes every
  life, and the runs that raise are exactly those in which a snapshot that
  deferred a transition is followed by a gap in the cycle numbers.
*/
module KanataRun {
  import opened Wrappers
  import opened KanataTrace
  import opened KanataModel
  import opened KanataLife

  // ---- Every phase keeps the invariant ------------------------------------------------

  /** Counters other than dispatched, committed and flushed are not part of the balance. */
  lemma StatsKeep(s: State, stats: Stats)
    requires Inv(s)
    requires stats.dispatched == s.stats.dispatched && stats.committed == s.stats.committed
    requires stats.flushed == s.stats.flushed
    ensures Inv(s.(stats := stats))
  {
    hide Window, Agenda, EventsOk, Waiting, Lives, Begins, Ends, Commits, Flushes;
  }

  lemma CommentKeeps(s: State, stats: Stats)
    requires Inv(s)
    requires stats.dispatched == s.stats.dispatched && stats.committed == s.stats.committed
    requires stats.flushed == s.stats.flushed
    ensures Inv(Emit(s, [Comment]).(stats := stats))
  {
    hide InvWith;
    QuietKeeps(s, Comment, 0, []);
    StatsKeep(Emit(s, [Comment]), stats);
  }

  lemma IssueKeeps(s: State, port: Stage, rec: Option<int>)
    requires Inv(s) && !IsCommit(port)
    ensures Inv(Issue(s, port, rec))
    ensures Ids(Issue(s, port, rec).active) == Ids(s.active)
    ensures Issue(s, port, rec).nextGid == s.nextGid
    ensures Issue(s, port, rec).lastCycle == s.lastCycle && Issue(s, port, rec).scheduled == s.scheduled
  {
    hide Inv, InvWith, LifeOf;
    if rec.Some? {
      var i := Slot(s.active, rec.value);
      if i == |s.active| {
        CommentKeeps(s, s.stats.(orphanIssues := s.stats.orphanIssues + 1));
      } else {
        var next := if s.active[i].fu == 2 then LS else port;
        EnterKeeps(s, i, next);
        var r := Enter(s, i, next);
        LabelKeeps(r, s.active[i].gid);
        StatsKeep(Label(r, s.active[i].gid), s.stats.(issued := s.stats.issued + 1));
      }
    }
  }

  lemma LabelKeeps(s: State, g: nat)
    requires Inv(s) && LifeOf(s.out, g).Alive?
    ensures Inv(Label(s, g))
  {
    hide InvWith, LifeOf;
    QuietKeeps(s, L(g, 2), 0, []);
  }

  lemma CompleteKeeps(s: State, stage: Stage, rec: Option<int>)
    requires Inv(s) && !IsCommit(stage)
    ensures Inv(Complete(s, stage, rec))
    ensures Ids(Complete(s, stage, rec).active) == Ids(s.active)
    ensures Complete(s, stage, rec).lastCycle == s.lastCycle && Complete(s, stage, rec).nextGid == s.nextGid
    ensures Complete(s, stage, rec).scheduled.Keys ==
      s.scheduled.Keys + if Hits(Ids(s.active), rec) then {s.lastCycle + 1} else {}
  {
    hide Inv, InvWith, LifeOf;
    if rec.Some? {
      SlotIds(s.active, rec.value);
      var i := Slot(s.active, rec.value);
      if i == |s.active| {
        CommentKeeps(s, s.stats.(orphanCompletions := s.stats.orphanCompletions + 1));
      } else {
        var g := s.active[i].gid;
        EnterKeeps(s, i, stage);
        var r := Enter(s, i, stage);
        LabelKeeps(r, g);
        ScheduleKeeps(Label(r, g), Move(g, stage, Rob));
        var t := Schedule(Label(r, g), s.lastCycle + 1, Move(g, stage, Rob));
        StatsKeep(t, s.stats.(completed := s.stats.completed + 1));
      }
    }
  }

  // ---- The window, as pairs of gid and tag ---------------------------------------------

  datatype Id = Id(gid: nat, tag: int)

  function Ids(active: seq<Op>): (ids: seq<Id>)
    ensures |ids| == |active|
    ensures forall i :: 0 <= i < |ids| ==> ids[i] == Id(active[i].gid, active[i].tag)
  {
    seq(|active|, i requires 0 <= i < |active| => Id(active[i].gid, active[i].tag))
  }

  function Find(w: seq<Id>, tag: int): (i: nat)
    ensures i <= |w|
    ensures i < |w| ==> w[i].tag == tag
    ensures forall j :: 0 <= j < i ==> w[j].tag != tag
  {
    FirstWhere(w, (id: Id) => id.tag == tag)
  }

  lemma SlotIds(active: seq<Op>, tag: int)
    ensures Slot(active, tag) == Find(Ids(active), tag)
  {
    var ids := Ids(active);
    assert forall i :: 0 <= i < |active| ==> ids[i].tag == active[i].tag;
  }

  predicate Hits(w: seq<Id>, rec: Option<int>) {
    rec.Some? && Find(w, rec.value) < |w|
  }

  /** What a flush or a recovery leaves of the window: the prefix that ends at the branch. */
  function Kept(w: seq<Id>, snap: Snapshot): seq<Id> {
    if snap.globalFlush then []
    else if snap.recover && Find(w, snap.recoverTag) < |w| then w[..Find(w, snap.recoverTag) + 1]
    else w
  }

  function Dropped(w: seq<Id>, rec: Option<int>): seq<Id> {
    if Hits(w, rec) then w[..Find(w, rec.value)] + w[Find(w, rec.value) + 1..] else w
  }

  function Placed(w: seq<Id>, g: nat, rec: Option<Dispatched>): seq<Id> {
    if rec.None? then w else Dropped(w, Some(rec.value.tag)) + [Id(g, rec.value.tag)]
  }

  function NextGid(g: nat, rec: Option<Dispatched>): nat {
    if rec.None? then g else g + 1
  }

  function NextWindow(w: seq<Id>, g: nat, snap: Snapshot): seq<Id> {
    var w := Dropped(Dropped(Kept(w, snap), snap.commit0), snap.commit1);
    Placed(Placed(w, g, snap.dispatch0), NextGid(g, snap.dispatch0), snap.dispatch1)
  }

  /** The snapshot defers a transition: it dispatches, or completes or commits a live instruction. */
  predicate Defers(w: seq<Id>, snap: Snapshot) {
    || Hits(w, snap.complete0) || Hits(w, snap.complete1)
    || Hits(Kept(w, snap), snap.commit0) || Hits(Dropped(Kept(w, snap), snap.commit0), snap.commit1)
    || snap.dispatch0.Some? || snap.dispatch1.Some?
  }

  // ---- Recovery, commit, dispatch ------------------------------------------------------

  lemma {:induction false} FlushFrame(s: State, i: nat, n: nat)
    requires i + n <= |s.active|
    ensures var r := Flush(s, i, n);
      && r.lastCycle == s.lastCycle && r.scheduled == s.scheduled && r.nextGid == s.nextGid
      && r.retiring == s.retiring && r.nextRid == s.nextRid
      && r.stats == s.stats.(flushed := s.stats.flushed + n)
    decreases n
  {
    if n > 0 {
      FlushFrame(FlushOne(s, i), i, n - 1);
    }
  }

  lemma RecoverKeeps(s: State, snap: Snapshot)
    requires Inv(s)
    ensures var r := Recover(s, snap);
      && Inv(r) && Ids(r.active) == Kept(Ids(s.active), snap)
      && r.lastCycle == s.lastCycle && r.scheduled == s.scheduled && r.nextGid == s.nextGid
  {
    hide Inv, InvWith, LifeOf, Flush, Slot, Find;
    SlotIds(s.active, snap.recoverTag);
    if snap.globalFlush {
      var r := Emit(s, [Comment]).(stats := s.stats.(globalFlushes := s.stats.globalFlushes + 1));
      CommentKeeps(s, r.stats);
      FlushKeeps(r, 0, |s.active|);
      FlushFrame(r, 0, |s.active|);
    } else if snap.recover {
      var i := Slot(s.active, snap.recoverTag);
      var r := Emit(s, [Comment]).(stats := s.stats.(recoveries := s.stats.recoveries + 1));
      CommentKeeps(s, r.stats);
      if i == |s.active| {
        StatsKeep(r, r.stats.(inactiveRecoveries := r.stats.inactiveRecoveries + 1));
      } else {
        var n := |s.active| - (i + 1);
        FlushKeeps(r, i + 1, n);
        FlushFrame(r, i + 1, n);
        assert Flush(r, i + 1, n).active == s.active[..i + 1];
      }
    }
  }

  lemma CommitKeeps(s: State, stage: Stage, rec: Option<int>)
    requires Inv(s) && IsCommit(stage)
    ensures var r := Commit(s, stage, rec);
      && Inv(r) && Ids(r.active) == Dropped(Ids(s.active), rec)
      && r.lastCycle == s.lastCycle && r.nextGid == s.nextGid
      && r.scheduled.Keys == s.scheduled.Keys + if Hits(Ids(s.active), rec) then {s.lastCycle + 1} else {}
  {
    hide Inv, InvWith, LifeOf;
    if rec.Some? {
      SlotIds(s.active, rec.value);
      var i := Slot(s.active, rec.value);
      if i == |s.active| {
        CommentKeeps(s, s.stats.(orphanCommits := s.stats.orphanCommits + 1));
      } else {
        CommitOneKeeps(s, i, stage);
        WithoutIds(s.active, i);
      }
    }
  }

  lemma WithoutIds(a: seq<Op>, i: nat)
    requires i < |a|
    ensures Ids(Without(a, i)) == Ids(a)[..i] + Ids(a)[i + 1..]
  {
  }

  lemma TagsDistinct(s: State, i: nat)
    requires Inv(s) && i < |s.active|
    ensures forall j :: 0 <= j < |s.active| - 1 ==> Without(s.active, i)[j].tag != s.active[i].tag
  {
    hide Agenda, EventsOk, Waiting, Lives, Counted;
  }

  lemma FreeTagKeeps(s: State, tag: int)
    requires Inv(s)
    ensures var r := FreeTag(s, tag);
      && Inv(r) && Ids(r.active) == Dropped(Ids(s.active), Some(tag))
      && r.lastCycle == s.lastCycle && r.nextGid == s.nextGid && r.scheduled == s.scheduled
      && (forall i :: 0 <= i < |r.active| ==> r.active[i].tag != tag)
  {
    hide Inv, InvWith, LifeOf;
    SlotIds(s.active, tag);
    var i := Slot(s.active, tag);
    if i < |s.active| {
      TagsDistinct(s, i);
      var r := Emit(s, [Comment]).(stats := s.stats.(tagReuseErrors := s.stats.tagReuseErrors + 1));
      CommentKeeps(s, r.stats);
      FlushOneKeeps(r, i);
      WithoutIds(s.active, i);
      assert FlushOne(r, i).active == Without(s.active, i);
    }
  }

  lemma DispatchKeeps(s: State, stage: Stage, rec: Option<Dispatched>)
    requires Inv(s) && !IsCommit(stage)
    ensures var r := Dispatch(s, stage, rec);
      && Inv(r) && Ids(r.active) == Placed(Ids(s.active), s.nextGid, rec)
      && r.lastCycle == s.lastCycle && r.nextGid == NextGid(s.nextGid, rec)
      && r.scheduled.Keys == s.scheduled.Keys + if rec.Some? then {s.lastCycle + 1} else {}
  {
    hide Inv, InvWith, LifeOf;
    if rec.Some? {
      FreeTagKeeps(s, rec.value.tag);
      AllocateKeeps(FreeTag(s, rec.value.tag), stage, rec.value);
    }
  }

  // ---- One snapshot ----------------------------------------------------------------

  lemma ObserveKeeps(s: State, snap: Snapshot)
    requires Inv(s)
    ensures var r := Observe(s, snap);
      && Inv(r) && Ids(r.active) == Ids(s.active) && r.lastCycle == s.lastCycle && r.nextGid == s.nextGid
      && r.scheduled.Keys == s.scheduled.Keys +
        if Hits(Ids(s.active), snap.complete0) || Hits(Ids(s.active), snap.complete1) then {s.lastCycle + 1} else {}
  {
    hide Inv, InvWith, Issue, Complete, Ids, Find;
    IssueKeeps(s, Ex0, snap.issue0);
    var s1 := Issue(s, Ex0, snap.issue0);
    IssueKeeps(s1, Ex1, snap.issue1);
    var s2 := Issue(s1, Ex1, snap.issue1);
    IssueKeeps(s2, ExF, snap.issueF);
    var s3 := Issue(s2, ExF, snap.issueF);
    CompleteKeeps(s3, Wb0, snap.complete0);
    CompleteKeeps(Complete(s3, Wb0, snap.complete0), Wb1, snap.complete1);
  }

  lemma ResolveKeeps(s: State, snap: Snapshot)
    requires Inv(s)
    ensures var r := Resolve(s, snap);
      && Inv(r) && Ids(r.active) == NextWindow(Ids(s.active), s.nextGid, snap)
      && r.lastCycle == s.lastCycle && r.nextGid == NextGid(NextGid(s.nextGid, snap.dispatch0), snap.dispatch1)
      && r.scheduled.Keys == s.scheduled.Keys +
        if Hits(Kept(Ids(s.active), snap), snap.commit0)
           || Hits(Dropped(Kept(Ids(s.active), snap), snap.commit0), snap.commit1)
           || snap.dispatch0.Some? || snap.dispatch1.Some? then {s.lastCycle + 1} else {}
  {
    hide Inv, InvWith, Recover, Commit, Dispatch, Ids, Find, Kept, Dropped, Placed, NextGid, Hits;
    RecoverKeeps(s, snap);
    var s1 := Recover(s, snap);
    CommitKeeps(s1, Cm0, snap.commit0);
    var s2 := Commit(s1, Cm0, snap.commit0);
    CommitKeeps(s2, Cm1, snap.commit1);
    var s3 := Commit(s2, Cm1, snap.commit1);
    DispatchKeeps(s3, Rn0, snap.dispatch0);
    var s4 := Dispatch(s3, Rn0, snap.dispatch0);
    DispatchKeeps(s4, Rn1, snap.dispatch1);
  }

  lemma {:induction false} FireAllFrame(s: State, es: seq<Event>)
    ensures var r := FireAll(s, es);
      && Ids(r.active) == Ids(s.active) && r.lastCycle == s.lastCycle && r.nextGid == s.nextGid
      && r.scheduled == s.scheduled && r.stats == s.stats
    decreases |es|
  {
    if es != [] {
      FireAllFrame(Fire(s, es[0]), es[1..]);
      assert Ids(Fire(s, es[0]).active) == Ids(s.active);
    }
  }

  lemma ClockKeeps(s: State, delta: int)
    requires Inv(s)
    ensures Inv(Emit(s, [C(delta)]))
  {
    hide InvWith;
    QuietKeeps(s, C(delta), 0, []);
  }

  lemma AdvanceKeeps(s: State, cycle: int)
    requires Inv(s) && cycle > s.lastCycle
    ensures var r := Advance(s, cycle);
      && Inv(r) && Ids(r.active) == Ids(s.active) && r.lastCycle == cycle && r.nextGid == s.nextGid
      && r.scheduled.Keys == s.scheduled.Keys - {cycle} && r.stats == s.stats
  {
    hide Inv, InvWith, LifeOf;
    var c := Emit(s, [C(cycle - s.lastCycle)]);
    ClockKeeps(s, cycle - s.lastCycle);
    var t := Emit(c, [Comment]);
    CommentKeeps(c, c.stats);
    LaterKeeps(t, cycle);
    var u := t.(lastCycle := cycle);
    ApplyKeeps(u, cycle);
    FireAllFrame(Pop(u, cycle), Deferred(u.scheduled, cycle));
  }

  lemma LaterKeeps(s: State, cycle: int)
    requires Inv(s) && cycle >= s.lastCycle
    ensures Inv(s.(lastCycle := cycle))
  {
    hide Window, EventsOk, Waiting, Lives, Counted;
  }

  lemma ProcessKeeps(s: State, snap: Snapshot)
    requires Inv(s) && snap.cycle > s.lastCycle
    ensures var r := Process(s, snap);
      && Inv(r) && r.lastCycle == snap.cycle
      && r.nextGid == NextGid(NextGid(s.nextGid, snap.dispatch0), snap.dispatch1)
      && Ids(r.active) == NextWindow(Ids(s.active), s.nextGid, snap)
      && r.scheduled.Keys == (s.scheduled.Keys - {snap.cycle}) +
        if Defers(Ids(s.active), snap) then {snap.cycle + 1} else {}
  {
    hide Inv, InvWith, Advance, Observe, Resolve, Ids, Find, Kept, Dropped, Hits, NextWindow, NextGid;
    AdvanceKeeps(s, snap.cycle);
    var t := Advance(s, snap.cycle);
    ObserveKeeps(t, snap);
    ResolveKeeps(Observe(t, snap), snap);
  }

  // ---- Whole runs ------------------------------------------------------------------

  function RunOf(snaps: seq<Snapshot>): State {
    if snaps == [] then START else Process(RunOf(snaps[..|snaps| - 1]), snaps[|snaps| - 1])
  }

  predicate Increasing(snaps: seq<Snapshot>) {
    && (forall i :: 0 <= i < |snaps| ==> snaps[i].cycle >= 0)
    && (forall i :: 0 < i < |snaps| ==> snaps[i - 1].cycle < snaps[i].cycle)
  }

  predicate Consecutive(snaps: seq<Snapshot>) {
    && (forall i :: 0 <= i < |snaps| ==> snaps[i].cycle >= 0)
    && (forall i :: 0 < i < |snaps| ==> snaps[i].cycle == snaps[i - 1].cycle + 1)
  }

  /** The live instructions after a run, from the snapshots alone. */
  function WindowOf(snaps: seq<Snapshot>): seq<Id> {
    if snaps == [] then []
    else
      var before := snaps[..|snaps| - 1];
      NextWindow(WindowOf(before), BornIn(before), snaps[|snaps| - 1])
  }

  function BornIn(snaps: seq<Snapshot>): nat {
    if snaps == [] then 0
    else
      var last := snaps[|snaps| - 1];
      NextGid(NextGid(BornIn(snaps[..|snaps| - 1]), last.dispatch0), last.dispatch1)
  }

  lemma StartInv()
    ensures Inv(START)
  {
    assert forall g: nat :: LifeOf(START.out, g).Unborn?;
  }

  function LastCycle(snaps: seq<Snapshot>): int {
    if snaps == [] then -1 else snaps[|snaps| - 1].cycle
  }

  lemma {:induction false} RunKeeps(snaps: seq<Snapshot>)
    requires Increasing(snaps)
    ensures Inv(RunOf(snaps)) && RunOf(snaps).lastCycle == LastCycle(snaps)
    ensures Ids(RunOf(snaps).active) == WindowOf(snaps) && RunOf(snaps).nextGid == BornIn(snaps)
    decreases |snaps|
  {
    hide Inv, Process, NextWindow, NextGid;
    if snaps == [] {
      StartInv();
    } else {
      RunKeeps(snaps[..|snaps| - 1]);
      ProcessKeeps(RunOf(snaps[..|snaps| - 1]), snaps[|snaps| - 1]);
    }
  }

  // ---- When finish raises ------------------------------------------------------------

  /** A transition was deferred to a cycle that no snapshot had. */
  predicate Stale(s: State) {
    exists k :: k in s.scheduled && k != s.lastCycle + 1
  }

  /** Snapshot `i` defers a transition and the next snapshot skips the cycle it is due in. */
  predicate Missed(snaps: seq<Snapshot>, i: nat) {
    i + 1 < |snaps| && Defers(WindowOf(snaps[..i]), snaps[i]) && snaps[i + 1].cycle != snaps[i].cycle + 1
  }

  ghost predicate MissesOne(snaps: seq<Snapshot>) {
    exists i: nat :: Missed(snaps, i)
  }

  lemma NoneBeyond(s: State)
    requires Inv(s)
    ensures forall k :: k in s.scheduled ==> k <= s.lastCycle + 1
  {
    hide Window, EventsOk, Waiting, Lives, Counted;
  }

  lemma DueIff(snaps: seq<Snapshot>)
    requires Increasing(snaps) && snaps != []
    ensures var n := |snaps| - 1;
      LastCycle(snaps) + 1 in RunOf(snaps).scheduled <==> Defers(WindowOf(snaps[..n]), snaps[n])
  {
    hide Inv, Process, Defers, NextWindow, WindowOf, Ids;
    var n := |snaps| - 1;
    RunKeeps(snaps[..n]);
    ProcessKeeps(RunOf(snaps[..n]), snaps[n]);
    NoneBeyond(RunOf(snaps[..n]));
  }

  /** The stale transitions after one more snapshot. */
  lemma StaleAfter(s: State, snap: Snapshot)
    requires Inv(s) && snap.cycle > s.lastCycle
    ensures Stale(Process(s, snap)) <==>
      Stale(s) || (s.lastCycle + 1 in s.scheduled && snap.cycle != s.lastCycle + 1)
  {
    hide Inv, Process, Defers, NextWindow, Ids;
    ProcessKeeps(s, snap);
    NoneBeyond(s);
    var r := Process(s, snap);
    forall k ensures k in r.scheduled && k != snap.cycle + 1 <==> k in s.scheduled && k != snap.cycle {
      assert k in r.scheduled <==> k in r.scheduled.Keys;
    }
  }

  lemma StaleStep(snaps: seq<Snapshot>)
    requires Increasing(snaps) && |snaps| > 1
    ensures var n := |snaps| - 1;
      Stale(RunOf(snaps)) <==>
      Stale(RunOf(snaps[..n])) ||
      (Defers(WindowOf(snaps[..n - 1]), snaps[n - 1]) && snaps[n].cycle != snaps[n - 1].cycle + 1)
  {
    hide Inv, Process, Defers, NextWindow, WindowOf, Ids, Stale;
    var n := |snaps| - 1;
    RunKeeps(snaps[..n]);
    StaleAfter(RunOf(snaps[..n]), snaps[n]);
    DueIff(snaps[..n]);
    assert snaps[..n][..n - 1] == snaps[..n - 1];
  }

  /** Only the last pair of snapshots can add a missed transition. */
  lemma MissedStep(snaps: seq<Snapshot>)
    requires |snaps| > 1
    ensures MissesOne(snaps) <==> MissesOne(snaps[..|snaps| - 1]) || Missed(snaps, |snaps| - 2)
  {
    hide WindowOf, Defers;
    var n := |snaps| - 1;
    forall i: nat | i < n - 1 ensures Missed(snaps, i) <==> Missed(snaps[..n], i) {
      assert snaps[..n][..i] == snaps[..i];
    }
    if i: nat :| Missed(snaps, i) {
      if i != n - 1 {
        assert Missed(snaps[..n], i);
      }
    }
  }

  lemma {:induction false} StaleIff(snaps: seq<Snapshot>)
    requires Increasing(snaps)
    ensures Stale(RunOf(snaps)) <==> MissesOne(snaps)
    decreases |snaps|
  {
    hide Inv, Process, WindowOf, Defers;
    if |snaps| == 1 {
      StartInv();
      StaleAfter(START, snaps[0]);
      assert RunOf(snaps[..0]) == START;
    } else if snaps != [] {
      StaleStep(snaps);
      StaleIff(snaps[..|snaps| - 1]);
      MissedStep(snaps);
    }
  }

  lemma ConsecutiveNeverStale(snaps: seq<Snapshot>)
    requires Consecutive(snaps)
    ensures Increasing(snaps) && !Stale(RunOf(snaps))
  {
    assert Increasing(snaps);
    StaleIff(snaps);
  }

  function Idle(cycle: int): Snapshot {
    Snapshot(cycle, false, false, 0, None, None, None, None, None, None, None, None, None)
  }

  /** A dispatch in cycle 0 and a next snapshot in cycle 2: `finish` raises. */
  lemma GapExample()
    ensures var snaps := [Idle(0).(dispatch0 := Some(Dispatched(3, 0))), Idle(2)];
      Increasing(snaps) && Stale(RunOf(snaps))
  {
    var snaps := [Idle(0).(dispatch0 := Some(Dispatched(3, 0))), Idle(2)];
    assert Increasing(snaps);
    assert snaps[0].dispatch0.Some?;
    assert Missed(snaps, 0);
    StaleIff(snaps);
  }

  // ---- The end of a run --------------------------------------------------------------

  lemma FinishKeeps(s: State)
    requires Inv(s)
    ensures var r := Finish(s);
      && Inv(r) && r.active == [] && r.nextGid == s.nextGid
      && r.scheduled == s.scheduled - {s.lastCycle + 1} && r.stats.dispatched == s.stats.dispatched
  {
    hide Inv, InvWith, FireAll, Flush, Ids;
    var k := s.lastCycle + 1;
    var t := Emit(s, [C(1)]);
    ClockKeeps(s, 1);
    ApplyKeeps(t, k);
    FireAllFrame(Pop(t, k), Deferred(t.scheduled, k));
    var u := ApplyScheduled(t, k);
    if u.active != [] {
      CommentKeeps(u, u.stats);
      var v := Emit(u, [Comment]);
      FlushKeeps(v, 0, |v.active|);
      FlushFrame(v, 0, |v.active|);
    }
  }

  /** Every instruction of the run has one closed life in the finished trace. */
  ghost predicate AllClosed(t: Trace, n: nat) {
    forall g: nat :: if g < n then LifeOf(t, g).Closed? else LifeOf(t, g).Unborn?
  }

  lemma NoneWaiting(s: State)
    requires Inv(s) && s.scheduled == map[]
    ensures s.retiring == map[]
  {
    hide Window, EventsOk, Lives, Counted, Agenda;
    assert forall g, p :: !Queued(s.scheduled, g, p, 0, []);
    assert forall g :: g !in s.retiring;
  }

  lemma EmptyCloses(s: State)
    requires Inv(s) && s.active == [] && s.retiring == map[]
    ensures AllClosed(s.out, s.nextGid)
    ensures Begins(s.out) == Ends(s.out)
    ensures Commits(s.out) == s.stats.committed && Flushes(s.out) == s.stats.flushed
    ensures s.stats.dispatched == s.nextGid == s.stats.committed + s.stats.flushed
  {
    hide Begins, Ends, Commits, Flushes, LifeOf, EventsOk, Window, Agenda, Waiting;
    assert forall g: nat :: !Member(s.active, g);
  }

  lemma FinishCloses(s: State)
    requires Inv(s) && !Stale(s)
    ensures var r := Finish(s);
      && r.retiring == map[] && AllClosed(r.out, s.nextGid)
      && Begins(r.out) == Ends(r.out)
      && Commits(r.out) == r.stats.committed && Flushes(r.out) == r.stats.flushed
      && s.stats.dispatched == s.nextGid == r.stats.committed + r.stats.flushed
  {
    hide Finish, Begins, Ends, Commits, Flushes, AllClosed, Inv;
    FinishKeeps(s);
    var r := Finish(s);
    assert forall k :: k in r.scheduled ==> k in s.scheduled && k != s.lastCycle + 1;
    assert r.scheduled == map[];
    NoneWaiting(r);
    EmptyCloses(r);
  }

  function UpTo(n: nat): (r: set<nat>)
    ensures |r| == n && forall g: nat :: g in r <==> g < n
  {
    if n == 0 then {} else UpTo(n - 1) + {n - 1}
  }

  /** `validate_kanata` finds every gid initialized and retired, and nothing else. */
  lemma ClosedValidates(t: Trace, n: nat)
    requires AllClosed(t, n)
    ensures Initialized(t) == UpTo(n) && Retired(t) == UpTo(n)
    ensures forall g: nat :: g < n ==> Births(t, g) == 1 && Deaths(t, g) == 1
  {
    forall g: nat ensures (g in Initialized(t) <==> g < n) && (g in Retired(t) <==> g < n) {
      LifeSets(t, g);
    }
    forall g: nat | g < n ensures Births(t, g) == 1 && Deaths(t, g) == 1 {
      LifeCounts(t, g);
    }
  }
}
