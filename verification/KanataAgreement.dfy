/**
  The event converter and the legacy V2 converter give every instruction the
  same fate, although one writes the retire record a cycle after the other.
*/
module KanataAgreement {
  import opened Wrappers
  import opened KanataTrace
  import opened KanataModel
  import opened KanataLife
  import opened KanataRun
  import opened KanataLegacy

  // ---- Queued retirements ------------------------------------------------------------

  function Retirements(es: seq<Event>): nat {
    if es == [] then 0 else Retirements(es[..|es| - 1]) + if es[|es| - 1].Retire? then 1 else 0
  }

  /** How many retirements are queued before the one of `g`. */
  function Rank(es: seq<Event>, g: nat): Option<nat> {
    if es == [] then None
    else if es[0].Retire? && es[0].gid == g then Some(0)
    else
      var k := Rank(es[1..], g);
      if k.None? then None else Some(k.value + if es[0].Retire? then 1 else 0)
  }

  lemma {:induction false} RetirementsCons(e: Event, es: seq<Event>)
    ensures Retirements([e] + es) == Retirements(es) + if e.Retire? then 1 else 0
    decreases |es|
  {
    var all := [e] + es;
    if es == [] {
      assert all[..0] == [];
    } else {
      assert all[..|all| - 1] == [e] + es[..|es| - 1];
      RetirementsCons(e, es[..|es| - 1]);
    }
  }

  lemma RetirementsSnoc(es: seq<Event>, e: Event)
    ensures Retirements(es + [e]) == Retirements(es) + if e.Retire? then 1 else 0
  {
    assert (es + [e])[..|es|] == es;
  }

  lemma {:induction false} RankSnoc(es: seq<Event>, e: Event, g: nat)
    ensures Rank(es + [e], g) ==
      if Rank(es, g).Some? then Rank(es, g)
      else if e.Retire? && e.gid == g then Some(Retirements(es))
      else None
    decreases |es|
  {
    if es != [] {
      assert (es + [e])[1..] == es[1..] + [e];
      RankSnoc(es[1..], e, g);
      assert es == [es[0]] + es[1..];
      RetirementsCons(es[0], es[1..]);
    } else {
      assert (es + [e])[1..] == [];
    }
  }

  lemma {:induction false} RankIsQueued(es: seq<Event>, g: nat)
    ensures Rank(es, g).Some? <==> exists i :: 0 <= i < |es| && es[i].Retire? && es[i].gid == g
    decreases |es|
  {
    if es != [] {
      RankIsQueued(es[1..], g);
      if i :| 0 <= i < |es| && es[i].Retire? && es[i].gid == g {
        if i > 0 {
          assert es[1..][i - 1] == es[i];
        }
      }
    }
  }

  /** Every queued retirement will fire, and fires once. */
  predicate Lined(retiring: map<nat, Pending>, es: seq<Event>) {
    && (forall i :: 0 <= i < |es| && es[i].Retire? ==>
         es[i].gid in retiring && retiring[es[i].gid].stage == es[i].expected)
    && (forall i, j :: 0 <= i < j < |es| && es[i].Retire? && es[j].Retire? ==> es[i].gid != es[j].gid)
  }

  // ---- The relation ------------------------------------------------------------------

  /** The fate of `g`: what the trace says, or what the queue will make of it. */
  function FateIn(out: Trace, nextRid: nat, es: seq<Event>, g: nat): Fate {
    if !FateOf(out, g).Open? then FateOf(out, g)
    else if Rank(es, g).None? then Open
    else Done(false, nextRid + Rank(es, g).value)
  }

  ghost predicate SameFates(out: Trace, nextRid: nat, es: seq<Event>, legacy: Trace) {
    forall g: nat :: FateOf(legacy, g + 1) == FateIn(out, nextRid, es, g)
  }

  predicate SameWindow(active: seq<Op>, entries: seq<Entry>) {
    && |active| == |entries|
    && (forall i :: 0 <= i < |active| ==> entries[i].iid == active[i].gid + 1 && entries[i].tag == active[i].tag)
  }

  predicate SameStats(s: Stats, l: Tally) {
    && s.dispatched == l.dispatched && s.committed == l.committed && s.flushed == l.flushed
    && s.orphanIssues == l.orphanIssues && s.orphanCompletions == l.orphanCompletions
    && s.orphanCommits == l.orphanCommits
  }

  function Due(s: State): seq<Event> {
    Deferred(s.scheduled, s.lastCycle + 1)
  }

  ghost predicate AgreeOn(s: State, l: Legacy, es: seq<Event>) {
    && l.nextIid == s.nextGid + 1
    && l.nextRid == s.nextRid + Retirements(es)
    && SameWindow(s.active, l.active)
    && SameStats(s.stats, l.stats)
    && Lined(s.retiring, es)
    && SameFates(s.out, s.nextRid, es, l.out)
  }

  ghost predicate Agree(s: State, l: Legacy) {
    AgreeOn(s, l, Due(s))
  }

  lemma CalmAgree(out: Trace, nextRid: nat, es: seq<Event>, legacy: Trace, out': Trace, legacy': Trace)
    requires SameFates(out, nextRid, es, legacy) && Calm(out, out') && Calm(legacy, legacy')
    ensures SameFates(out', nextRid, es, legacy')
  {
    hide FateOf, Rank;
    CalmFates(out, out');
    CalmFates(legacy, legacy');
    forall g: nat ensures FateOf(legacy', g + 1) == FateIn(out', nextRid, es, g) {
      assert FateOf(legacy, g + 1) == FateIn(out, nextRid, es, g);
    }
  }

  lemma MoveAgree(out: Trace, nextRid: nat, es: seq<Event>, legacy: Trace, retiring: map<nat, Pending>, e: Event)
    requires SameFates(out, nextRid, es, legacy) && e.Move? && Lined(retiring, es)
    ensures SameFates(out, nextRid, es + [e], legacy) && Lined(retiring, es + [e])
    ensures Retirements(es + [e]) == Retirements(es)
  {
    RetirementsSnoc(es, e);
    forall g: nat ensures FateOf(legacy, g + 1) == FateIn(out, nextRid, es + [e], g) {
      RankSnoc(es, e, g);
      assert FateOf(legacy, g + 1) == FateIn(out, nextRid, es, g);
    }
  }

  lemma SlotsAgree(active: seq<Op>, entries: seq<Entry>, tag: int)
    requires SameWindow(active, entries)
    ensures Slot(active, tag) == EntrySlot(entries, tag)
  {
    hide Slot, EntrySlot;
    var i := Slot(active, tag);
    var j := EntrySlot(entries, tag);
    assert i < |active| ==> entries[i].tag == tag;
    assert j < |entries| ==> active[j].tag == tag;
  }

  lemma EnterAgrees(s: State, l: Legacy, i: nat, stage: Stage, legacyStage: Stage)
    requires SameWindow(s.active, l.active) && i < |s.active|
    ensures var r := Enter(s, i, stage);
      var m := EnterStage(l, i, legacyStage);
      && r == s.(out := r.out, active := r.active) && m == l.(out := m.out, active := m.active)
      && SameWindow(r.active, m.active) && Calm(s.out, r.out + [L(s.active[i].gid, 2)]) && Calm(l.out, m.out)
  {
    assert Calm(s.out, Enter(s, i, stage).out);
  }

  // ---- Observation -------------------------------------------------------------------

  lemma IssueAgrees(s: State, l: Legacy, port: Stage, rec: Option<int>)
    requires Agree(s, l)
    ensures Agree(Issue(s, port, rec), LegacyIssue(l, port, rec))
  {
    hide FateOf, FateIn, SameFates, Lined, Retirements, Rank, Slot, EntrySlot, Enter, EnterStage, SameWindow, Calm;
    if rec.Some? {
      SlotsAgree(s.active, l.active, rec.value);
      var i := Slot(s.active, rec.value);
      WindowLength(s.active, l.active);
      if i < |s.active| {
        var stage := if s.active[i].fu == 2 then LS else port;
        EnterAgrees(s, l, i, stage, port);
        CalmAgree(s.out, s.nextRid, Due(s), l.out,
          Enter(s, i, stage).out + [L(s.active[i].gid, 2)], EnterStage(l, i, port).out);
      } else {
        CommentCalm(s.out);
        CommentCalm(l.out);
        CalmAgree(s.out, s.nextRid, Due(s), l.out, s.out + [Comment], l.out + [Comment]);
      }
    }
  }

  lemma WindowLength(active: seq<Op>, entries: seq<Entry>)
    requires SameWindow(active, entries)
    ensures |active| == |entries|
  {
  }

  lemma CommentCalm(t: Trace)
    ensures Calm(t, t + [Comment])
  {
  }

  lemma CompleteAgrees(s: State, l: Legacy, stage: Stage, rec: Option<int>)
    requires Agree(s, l)
    ensures Agree(Complete(s, stage, rec), LegacyComplete(l, stage, rec))
  {
    hide FateOf, FateIn, SameFates, Lined, Retirements, Rank, Slot, EntrySlot, Enter, EnterStage, SameWindow, Calm;
    if rec.Some? {
      SlotsAgree(s.active, l.active, rec.value);
      WindowLength(s.active, l.active);
      var i := Slot(s.active, rec.value);
      if i < |s.active| {
        EnterAgrees(s, l, i, stage, stage);
        var out, legacy := Enter(s, i, stage).out + [L(s.active[i].gid, 2)], EnterStage(l, i, stage).out;
        CalmAgree(s.out, s.nextRid, Due(s), l.out, out, legacy);
        MoveAgree(out, s.nextRid, Due(s), legacy, s.retiring, Move(s.active[i].gid, stage, Rob));
      } else {
        CommentCalm(s.out);
        CommentCalm(l.out);
        CalmAgree(s.out, s.nextRid, Due(s), l.out, s.out + [Comment], l.out + [Comment]);
      }
    }
  }

  // ---- Flushes -----------------------------------------------------------------------

  /** A live instruction has no fate yet, in either converter. */
  lemma LiveIsOpen(s: State, l: Legacy, i: nat)
    requires Inv(s) && Agree(s, l) && i < |s.active|
    ensures var g := s.active[i].gid;
      g !in s.retiring && FateOf(s.out, g).Open? && Rank(Due(s), g).None? && FateOf(l.out, g + 1).Open?
  {
    var g := s.active[i].gid;
    ActiveAlive(s, i);
    FateOfLife(s.out, g);
    assert Member(s.active, g);
    hide LifeOf, FateOf, Window, Counted, Agenda, SameStats;
    RankIsQueued(Due(s), g);
    assert FateOf(l.out, g + 1) == FateIn(s.out, s.nextRid, Due(s), g);
  }

  /** Both traces end the open instruction `g` in the same way. */
  lemma EndAgrees(out: Trace, nextRid: nat, es: seq<Event>, legacy: Trace, g: nat, flushed: bool, rid: nat)
    requires SameFates(out, nextRid, es, legacy) && FateOf(out, g).Open? && FateOf(legacy, g + 1).Open?
    ensures SameFates(out + [R(g, rid, flushed)], nextRid, es, legacy + [R(g + 1, rid, flushed)])
  {
    forall h: nat
      ensures FateOf(legacy + [R(g + 1, rid, flushed)], h + 1) == FateIn(out + [R(g, rid, flushed)], nextRid, es, h)
    {
      FateSnoc(out, R(g, rid, flushed), h);
      FateSnoc(legacy, R(g + 1, rid, flushed), h + 1);
      assert FateOf(legacy, h + 1) == FateIn(out, nextRid, es, h);
    }
  }

  lemma WithoutAgrees(active: seq<Op>, entries: seq<Entry>, i: nat)
    requires SameWindow(active, entries) && i < |active|
    ensures SameWindow(active[..i] + active[i + 1..], entries[..i] + entries[i + 1..])
    ensures entries[i].iid == active[i].gid + 1
  {
  }

  lemma FlushOneAgrees(s: State, l: Legacy, i: nat)
    requires Inv(s) && Agree(s, l) && i < |s.active|
    ensures i < |l.active| && Agree(FlushOne(s, i), CloseFlushed(l, i))
  {
    hide Inv, FateOf, FateIn, SameFates, Lined, Retirements, Rank, SameWindow;
    var op := s.active[i];
    LiveIsOpen(s, l, i);
    WindowLength(s.active, l.active);
    WithoutAgrees(s.active, l.active, i);
    var out := s.out + [E(op.gid, op.stage)];
    var legacy := l.out + StageRec(l.active[i], Fl);
    CalmAgree(s.out, s.nextRid, Due(s), l.out, out, legacy);
    CalmFates(s.out, out);
    CalmFates(l.out, legacy);
    EndAgrees(out, s.nextRid, Due(s), legacy, op.gid, true, 0);
  }

  lemma {:induction false} FlushAgrees(s: State, l: Legacy, i: nat, n: nat)
    requires Inv(s) && Agree(s, l) && i + n <= |s.active|
    ensures |l.active| == |s.active|
    ensures Agree(Flush(s, i, n), FlushEntries(l, i, n))
    decreases n
  {
    hide Inv, SameFates, Lined, SameWindow;
    WindowLength(s.active, l.active);
    if n > 0 {
      FlushOneKeeps(s, i);
      FlushOneAgrees(s, l, i);
      FlushAgrees(FlushOne(s, i), CloseFlushed(l, i), i, n - 1);
    }
  }

  lemma NoteAgrees(s: State, l: Legacy, stats: Stats)
    requires Inv(s) && Agree(s, l)
    requires stats.dispatched == s.stats.dispatched && stats.committed == s.stats.committed
    requires stats.flushed == s.stats.flushed && stats.orphanIssues == s.stats.orphanIssues
    requires stats.orphanCompletions == s.stats.orphanCompletions && stats.orphanCommits == s.stats.orphanCommits
    ensures var r := Emit(s, [Comment]).(stats := stats);
      Inv(r) && Agree(r, Note(l))
  {
    hide Inv, SameFates, Lined, SameWindow, Retirements;
    CommentKeeps(s, stats);
    CalmAgree(s.out, s.nextRid, Due(s), l.out, s.out + [Comment], l.out + [Comment]);
  }

  lemma AgreeSlots(s: State, l: Legacy, tag: int)
    requires Agree(s, l)
    ensures |s.active| == |l.active| && Slot(s.active, tag) == EntrySlot(l.active, tag)
  {
    hide SameFates, Lined, SameStats, Retirements;
    SlotsAgree(s.active, l.active, tag);
  }

  lemma RecoverAgrees(s: State, l: Legacy, snap: Snapshot)
    requires Inv(s) && Agree(s, l)
    ensures Agree(Recover(s, snap), LegacyRecover(l, snap))
  {
    hide Inv, Agree, Flush, FlushEntries, Slot, EntrySlot;
    AgreeSlots(s, l, snap.recoverTag);
    if snap.globalFlush {
      var stats := s.stats.(globalFlushes := s.stats.globalFlushes + 1);
      NoteAgrees(s, l, stats);
      FlushAgrees(Emit(s, [Comment]).(stats := stats), Note(l), 0, |s.active|);
    } else if snap.recover {
      var i := Slot(s.active, snap.recoverTag);
      var stats := s.stats.(recoveries := s.stats.recoveries + 1);
      if i == |s.active| {
        NoteAgrees(s, l, stats.(inactiveRecoveries := stats.inactiveRecoveries + 1));
      } else {
        NoteAgrees(s, l, stats);
        FlushAgrees(Emit(s, [Comment]).(stats := stats), Note(l), i + 1, |s.active| - (i + 1));
      }
    }
  }

  // ---- Commits -----------------------------------------------------------------------

  /** The legacy record is written now; the other converter queues it with the same rid. */
  lemma QueueAgrees(out: Trace, nextRid: nat, es: seq<Event>, legacy: Trace, g: nat, stage: Stage)
    requires SameFates(out, nextRid, es, legacy)
    requires FateOf(out, g).Open? && FateOf(legacy, g + 1).Open? && Rank(es, g).None?
    ensures SameFates(out, nextRid, es + [Retire(g, stage)], legacy + [R(g + 1, nextRid + Retirements(es), false)])
  {
    hide FateOf, Rank, Retirements;
    var rid := nextRid + Retirements(es);
    forall h: nat
      ensures FateOf(legacy + [R(g + 1, rid, false)], h + 1) == FateIn(out, nextRid, es + [Retire(g, stage)], h)
    {
      RankSnoc(es, Retire(g, stage), h);
      FateSnoc(legacy, R(g + 1, rid, false), h + 1);
      assert FateOf(legacy, h + 1) == FateIn(out, nextRid, es, h);
    }
  }

  lemma QueueLined(retiring: map<nat, Pending>, es: seq<Event>, g: nat, p: Pending)
    requires Lined(retiring, es) && g !in retiring
    ensures Lined(retiring[g := p], es + [Retire(g, p.stage)])
  {
  }

  lemma CommitOneAgrees(s: State, l: Legacy, i: nat, stage: Stage)
    requires Inv(s) && Agree(s, l) && i < |s.active| && IsCommit(stage)
    ensures i < |l.active| && Agree(Depart(Enter(s, i, stage), i), CloseCommitted(l, i, stage))
  {
    hide Inv, FateOf, FateIn, SameFates, Lined, Retirements, Rank, SameWindow, Depart, Enter;
    var op := s.active[i];
    ActiveAlive(s, i);
    LiveIsOpen(s, l, i);
    WindowLength(s.active, l.active);
    WithoutAgrees(s.active, l.active, i);
    DepartIs(s, i, stage);
    var out := s.out + [E(op.gid, op.stage)] + [S(op.gid, stage)] + [L(op.gid, 2)];
    var legacy := l.out + StageRec(l.active[i], stage);
    CalmAgree(s.out, s.nextRid, Due(s), l.out, out, legacy);
    CalmFates(s.out, out);
    CalmFates(l.out, legacy);
    QueueAgrees(out, s.nextRid, Due(s), legacy, op.gid, stage);
    QueueLined(s.retiring, Due(s), op.gid, Pending(stage, s.lastCycle + 1));
    RetirementsSnoc(Due(s), Retire(op.gid, stage));
  }

  lemma CommitAgrees(s: State, l: Legacy, stage: Stage, rec: Option<int>)
    requires Inv(s) && Agree(s, l) && IsCommit(stage)
    ensures Agree(Commit(s, stage, rec), LegacyCommit(l, stage, rec))
  {
    hide Inv, SameFates, Lined, SameWindow, Retirements, Slot, EntrySlot, Enter, Depart, CloseCommitted;
    if rec.Some? {
      SlotsAgree(s.active, l.active, rec.value);
      WindowLength(s.active, l.active);
      var i := Slot(s.active, rec.value);
      if i < |s.active| {
        CommitOneAgrees(s, l, i, stage);
      } else {
        CommentCalm(s.out);
        CommentCalm(l.out);
        CalmAgree(s.out, s.nextRid, Due(s), l.out, s.out + [Comment], l.out + [Comment]);
      }
    }
  }

  // ---- Dispatches --------------------------------------------------------------------

  lemma FreeAgrees(s: State, l: Legacy, tag: int)
    requires Inv(s) && Agree(s, l)
    ensures Agree(FreeTag(s, tag), LegacyFree(l, tag))
  {
    hide Inv, Agree, Slot, EntrySlot, FlushOne, CloseFlushed;
    AgreeSlots(s, l, tag);
    var i := Slot(s.active, tag);
    if i < |s.active| {
      var stats := s.stats.(tagReuseErrors := s.stats.tagReuseErrors + 1);
      NoteAgrees(s, l, stats);
      FlushOneAgrees(Emit(s, [Comment]).(stats := stats), Note(l), i);
    }
  }

  lemma AllocateAgrees(s: State, l: Legacy, stage: Stage, legacyStage: Stage, d: Dispatched)
    requires Agree(s, l)
    ensures Agree(Allocate(s, stage, d), LegacyAllocate(l, legacyStage, d))
  {
    hide SameFates, Lined, Retirements;
    var r, m := Allocate(s, stage, d), LegacyAllocate(l, legacyStage, d);
    CalmAgree(s.out, s.nextRid, Due(s), l.out, r.out, m.out);
    MoveAgree(r.out, s.nextRid, Due(s), m.out, s.retiring, Move(s.nextGid, stage, Iq));
  }

  lemma DispatchAgrees(s: State, l: Legacy, stage: Stage, legacyStage: Stage, rec: Option<Dispatched>)
    requires Inv(s) && Agree(s, l)
    ensures Agree(Dispatch(s, stage, rec), LegacyDispatch(l, legacyStage, rec))
  {
    hide Inv, Agree, FreeTag, LegacyFree, Allocate, LegacyAllocate;
    if rec.Some? {
      FreeAgrees(s, l, rec.value.tag);
      AllocateAgrees(FreeTag(s, rec.value.tag), LegacyFree(l, rec.value.tag), stage, legacyStage, rec.value);
    }
  }

  // ---- The deferred retirements catch up -----------------------------------------------

  lemma LinedTail(retiring: map<nat, Pending>, e: Event, es: seq<Event>)
    requires Lined(retiring, [e] + es)
    ensures Lined(retiring, es)
    ensures e.Retire? ==>
      e.gid in retiring && retiring[e.gid].stage == e.expected && Lined(retiring - {e.gid}, es)
  {
    var all := [e] + es;
    assert all[0] == e;
    assert forall i :: 0 <= i < |es| ==> es[i] == all[i + 1];
    assert forall i, j :: 0 <= i < j < |es| ==> es[i] == all[i + 1] && es[j] == all[j + 1];
  }

  lemma RankCons(e: Event, es: seq<Event>, g: nat)
    ensures Rank([e] + es, g) ==
      if e.Retire? && e.gid == g then Some(0)
      else if Rank(es, g).None? then None
      else Some(Rank(es, g).value + if e.Retire? then 1 else 0)
  {
    assert ([e] + es)[1..] == es;
  }

  lemma MoveFires(out: Trace, nextRid: nat, e: Event, es: seq<Event>, legacy: Trace)
    requires SameFates(out, nextRid, [e] + es, legacy) && e.Move?
    ensures SameFates(out, nextRid, es, legacy)
  {
    forall g: nat ensures FateOf(legacy, g + 1) == FateIn(out, nextRid, es, g) {
      RankCons(e, es, g);
      assert FateOf(legacy, g + 1) == FateIn(out, nextRid, [e] + es, g);
    }
  }

  lemma RetireFires(out: Trace, nextRid: nat, e: Event, es: seq<Event>, legacy: Trace)
    requires SameFates(out, nextRid, [e] + es, legacy) && e.Retire? && FateOf(out, e.gid).Open?
    ensures SameFates(out + [R(e.gid, nextRid, false)], nextRid + 1, es, legacy)
  {
    var rid := nextRid + 1;
    forall g: nat ensures FateOf(legacy, g + 1) == FateIn(out + [R(e.gid, nextRid, false)], rid, es, g) {
      RankCons(e, es, g);
      FateSnoc(out, R(e.gid, nextRid, false), g);
      assert FateOf(legacy, g + 1) == FateIn(out, nextRid, [e] + es, g);
    }
  }

  lemma WaitingIsOpen(s: State, cycle: int, todo: seq<Event>, g: nat)
    requires InvWith(s, cycle, todo) && g in s.retiring
    ensures FateOf(s.out, g).Open?
  {
    hide Window, Waiting, Agenda, Counted, EventsOk;
    FateOfLife(s.out, g);
  }

  lemma FireAgrees(s: State, l: Legacy, e: Event, cycle: int, es: seq<Event>)
    requires InvWith(s, cycle, [e] + es) && AgreeOn(s, l, [e] + es)
    ensures AgreeOn(Fire(s, e), l, es)
  {
    hide InvWith, SameFates, Lined, Retirements, Position;
    RetirementsCons(e, es);
    LinedTail(s.retiring, e, es);
    if e.Retire? {
      WaitingIsOpen(s, cycle, [e] + es, e.gid);
      var out := s.out + [E(e.gid, e.expected)];
      CalmAgree(s.out, s.nextRid, [e] + es, l.out, out, l.out);
      CalmFates(s.out, out);
      RetireFires(out, s.nextRid, e, es, l.out);
    } else {
      MoveFires(s.out, s.nextRid, e, es, l.out);
      CalmAgree(s.out, s.nextRid, es, l.out, Fire(s, e).out, l.out);
    }
  }

  lemma {:induction false} FireAllAgrees(s: State, l: Legacy, cycle: int, es: seq<Event>)
    requires InvWith(s, cycle, es) && AgreeOn(s, l, es)
    ensures AgreeOn(FireAll(s, es), l, [])
    decreases |es|
  {
    hide InvWith, AgreeOn, Fire;
    if es != [] {
      assert es == [es[0]] + es[1..];
      FireKeeps(s, es[0], cycle, es[1..]);
      FireAgrees(s, l, es[0], cycle, es[1..]);
      FireAllAgrees(Fire(s, es[0]), l, cycle, es[1..]);
    }
  }

  // ---- Whole runs --------------------------------------------------------------------

  lemma ObserveAgrees(s: State, l: Legacy, snap: Snapshot)
    requires Agree(s, l)
    ensures Agree(Observe(s, snap), LegacyObserve(l, snap))
  {
    hide Agree, Issue, LegacyIssue, Complete, LegacyComplete;
    IssueAgrees(s, l, Ex0, snap.issue0);
    var s1, l1 := Issue(s, Ex0, snap.issue0), LegacyIssue(l, Ex0, snap.issue0);
    IssueAgrees(s1, l1, Ex1, snap.issue1);
    var s2, l2 := Issue(s1, Ex1, snap.issue1), LegacyIssue(l1, Ex1, snap.issue1);
    IssueAgrees(s2, l2, ExF, snap.issueF);
    var s3, l3 := Issue(s2, ExF, snap.issueF), LegacyIssue(l2, ExF, snap.issueF);
    CompleteAgrees(s3, l3, Wb0, snap.complete0);
    CompleteAgrees(Complete(s3, Wb0, snap.complete0), LegacyComplete(l3, Wb0, snap.complete0), Wb1, snap.complete1);
  }

  lemma ResolveAgrees(s: State, l: Legacy, snap: Snapshot)
    requires Inv(s) && Agree(s, l)
    ensures Agree(Resolve(s, snap), LegacyResolve(l, snap))
  {
    hide Inv, Agree, Recover, LegacyRecover, Commit, LegacyCommit, Dispatch, LegacyDispatch, Ids;
    RecoverKeeps(s, snap);
    RecoverAgrees(s, l, snap);
    var s1, l1 := Recover(s, snap), LegacyRecover(l, snap);
    CommitKeeps(s1, Cm0, snap.commit0);
    CommitAgrees(s1, l1, Cm0, snap.commit0);
    var s2, l2 := Commit(s1, Cm0, snap.commit0), LegacyCommit(l1, Cm0, snap.commit0);
    CommitKeeps(s2, Cm1, snap.commit1);
    CommitAgrees(s2, l2, Cm1, snap.commit1);
    var s3, l3 := Commit(s2, Cm1, snap.commit1), LegacyCommit(l2, Cm1, snap.commit1);
    DispatchKeeps(s3, Rn0, snap.dispatch0);
    DispatchAgrees(s3, l3, Rn0, DRn0, snap.dispatch0);
    var s4, l4 := Dispatch(s3, Rn0, snap.dispatch0), LegacyDispatch(l3, DRn0, snap.dispatch0);
    DispatchAgrees(s4, l4, Rn1, DRn1, snap.dispatch1);
  }

  /** Firing everything that is due leaves nothing deferred, and both converters level. */
  lemma ApplyAgrees(s: State, l: Legacy, cycle: int)
    requires Inv(s) && AgreeOn(s, l, Deferred(s.scheduled, cycle))
    ensures AgreeOn(ApplyScheduled(s, cycle), l, [])
  {
    hide Inv, InvWith, SameFates, Lined, SameWindow, SameStats, Retirements;
    PopKeeps(s, cycle);
    FireAllAgrees(Pop(s, cycle), l, cycle, Deferred(s.scheduled, cycle));
  }

  lemma AdvanceAgrees(s: State, l: Legacy, cycle: int)
    requires Inv(s) && Agree(s, l) && cycle > s.lastCycle
    requires s.lastCycle + 1 in s.scheduled ==> cycle == s.lastCycle + 1
    ensures Agree(Advance(s, cycle), LegacyAdvance(l, cycle))
  {
    hide Inv, InvWith, SameFates, Lined, SameWindow, SameStats, Retirements, FireAll;
    var t := s.(lastCycle := cycle, out := s.out + [C(cycle - s.lastCycle)] + [Comment]);
    var m := LegacyAdvance(l, cycle);
    ClockKeeps(s, cycle - s.lastCycle);
    var c := Emit(s, [C(cycle - s.lastCycle)]);
    CommentKeeps(c, c.stats);
    LaterKeeps(Emit(c, [Comment]), cycle);
    CalmAgree(s.out, s.nextRid, Due(s), l.out, t.out, m.out);
    NoneBeyond(s);
    assert Deferred(t.scheduled, cycle) == Due(s);
    ApplyAgrees(t, m, cycle);
    FireAllFrame(Pop(t, cycle), Deferred(t.scheduled, cycle));
  }

  lemma ProcessAgrees(s: State, l: Legacy, snap: Snapshot)
    requires Inv(s) && Agree(s, l) && snap.cycle > s.lastCycle
    requires s.lastCycle + 1 in s.scheduled ==> snap.cycle == s.lastCycle + 1
    ensures Agree(Process(s, snap), LegacyProcess(l, snap))
  {
    hide Inv, Agree, Advance, LegacyAdvance, Observe, LegacyObserve, Resolve, LegacyResolve;
    AdvanceKeeps(s, snap.cycle);
    AdvanceAgrees(s, l, snap.cycle);
    var t, m := Advance(s, snap.cycle), LegacyAdvance(l, snap.cycle);
    ObserveKeeps(t, snap);
    ObserveAgrees(t, m, snap);
    ResolveAgrees(Observe(t, snap), LegacyObserve(m, snap), snap);
  }

  lemma StartAgrees()
    ensures Agree(START, LEGACY_START)
  {
    assert Due(START) == [];
    forall g: nat ensures FateOf(LEGACY_START.out, g + 1) == FateIn(START.out, 0, [], g) {
    }
  }

  /** As long as nothing is stale, the two converters agree after every snapshot. */
  lemma {:induction false} RunAgrees(snaps: seq<Snapshot>)
    requires Increasing(snaps) && !Stale(RunOf(snaps))
    ensures Agree(RunOf(snaps), LegacyRun(snaps))
    decreases |snaps|
  {
    hide Inv, Agree, Process, LegacyProcess, WindowOf;
    if snaps == [] {
      StartAgrees();
    } else {
      var before, snap := snaps[..|snaps| - 1], snaps[|snaps| - 1];
      RunKeeps(before);
      StaleAfter(RunOf(before), snap);
      RunAgrees(before);
      ProcessAgrees(RunOf(before), LegacyRun(before), snap);
    }
  }

  lemma FinishAgrees(s: State, l: Legacy)
    requires Inv(s) && Agree(s, l)
    ensures AgreeOn(Finish(s), LegacyFinish(l), [])
  {
    hide Inv, InvWith, SameFates, Lined, SameStats, Retirements, FireAll, Flush, FlushEntries;
    var k := s.lastCycle + 1;
    var t := Emit(s, [C(1)]);
    ClockKeeps(s, 1);
    CalmAgree(s.out, s.nextRid, Due(s), l.out, t.out, l.out);
    ApplyAgrees(t, l, k);
    ApplyKeeps(t, k);
    var u := ApplyScheduled(t, k);
    FireAllFrame(Pop(t, k), Deferred(t.scheduled, k));
    assert Due(u) == [];
    if u.active != [] {
      NoteAgrees(u, l, u.stats);
      var v := Emit(u, [Comment]);
      FlushAgrees(v, Note(l), 0, |u.active|);
      FlushFrame(v, 0, |u.active|);
    }
  }

  /**
    The two converters agree on every run that ends without an error: the same
    instructions, the same fate and rid for each, and equal statistics.
  */
  lemma ConvertersAgree(snaps: seq<Snapshot>)
    requires Increasing(snaps) && !MissesOne(snaps)
    ensures
      var r := Finish(RunOf(snaps));
      var l := LegacyFinish(LegacyRun(snaps));
      && l.nextIid == r.nextGid + 1 && l.nextRid == r.nextRid && SameStats(r.stats, l.stats)
      && forall g: nat :: g < r.nextGid ==>
           LifeOf(r.out, g).Closed? && FateOf(l.out, g + 1) == Done(LifeOf(r.out, g).flushed, LifeOf(r.out, g).rid)
  {
    hide Inv, Finish, LegacyFinish, SameStats, Missed, LifeOf, FateOf, Stale;
    StaleIff(snaps);
    RunKeeps(snaps);
    RunAgrees(snaps);
    FinishKeeps(RunOf(snaps));
    FinishCloses(RunOf(snaps));
    FinishAgrees(RunOf(snaps), LegacyRun(snaps));
    var r, l := Finish(RunOf(snaps)), LegacyFinish(LegacyRun(snaps));
    forall g: nat | g < r.nextGid
      ensures LifeOf(r.out, g).Closed? && FateOf(l.out, g + 1) == Done(LifeOf(r.out, g).flushed, LifeOf(r.out, g).rid)
    {
      FateOfLife(r.out, g);
      assert FateOf(l.out, g + 1) == FateIn(r.out, r.nextRid, [], g);
    }
  }
}
