/**
  Which stages an instruction passes, and when: read off the finished trace,
  and told from the snapshots alone.
*/
module KanataStages {
  import opened Wrappers
  import opened KanataTrace
  import opened KanataModel
  import opened KanataLife
  import opened KanataRun

  // ---- What a trace shows --------------------------------------------------------------

  /** A stage and the cycle it begins in. */
  datatype Stamp = Stamp(stage: Stage, cycle: int)

  function ClockOf(t: Trace): int {
    if t == [] then -1 else ClockOf(t[..|t| - 1]) + if t[|t| - 1].C? then t[|t| - 1].delta else 0
  }

  /** The stages that `g` begins, in order. */
  function PathOf(t: Trace, g: nat): seq<Stamp> {
    if t == [] then []
    else
      var before, r := t[..|t| - 1], t[|t| - 1];
      PathOf(before, g) + if r.S? && r.sid == g then [Stamp(r.stage, ClockOf(before))] else []
  }

  lemma TraceSnoc(t: Trace, r: Rec, g: nat)
    ensures ClockOf(t + [r]) == ClockOf(t) + if r.C? then r.delta else 0
    ensures PathOf(t + [r], g) == PathOf(t, g) + if r.S? && r.sid == g then [Stamp(r.stage, ClockOf(t))] else []
  {
    assert (t + [r])[..|t|] == t;
  }

  /** A record that neither moves the clock nor begins a stage of `g`. */
  predicate Silent(r: Rec, g: nat) {
    !r.C? && !(r.S? && r.sid == g)
  }

  lemma SilentSnoc(t: Trace, r: Rec, g: nat)
    requires Silent(r, g)
    ensures ClockOf(t + [r]) == ClockOf(t) && PathOf(t + [r], g) == PathOf(t, g)
  {
    TraceSnoc(t, r, g);
  }

  // ---- What the snapshots tell -----------------------------------------------------------

  /** What is known of one instruction: its unit, its stages, and when a deferred transition is due. */
  datatype Track = Track(fu: int, stages: seq<Stamp>, due: int)

  const UNSEEN := Track(0, [], -1)

  function Last(t: Track): Stage
    requires t.stages != []
  {
    t.stages[|t.stages| - 1].stage
  }

  function Go(t: Track, stage: Stage, cycle: int): Track {
    if t.stages != [] && Last(t) == stage then t else t.(stages := t.stages + [Stamp(stage, cycle)])
  }

  predicate Moving(stage: Stage) {
    stage.Rn0? || stage.Rn1? || stage.Wb0? || stage.Wb1?
  }

  /** Renaming is followed by the queue, write-back by the reorder buffer. */
  function After(stage: Stage): Stage {
    if stage.Rn0? || stage.Rn1? then Iq else Rob
  }

  function Settle(t: Track, cycle: int): Track {
    if t.stages != [] && t.due == cycle && Moving(Last(t)) then Go(t, After(Last(t)), cycle) else t
  }

  /** The record names instruction `g` of the window `w`. */
  predicate Named(w: seq<Id>, rec: Option<int>, g: nat) {
    Hits(w, rec) && w[Find(w, rec.value)].gid == g
  }

  predicate Inside(w: seq<Id>, g: nat) {
    exists i :: 0 <= i < |w| && w[i].gid == g
  }

  function Issued(t: Track, w: seq<Id>, port: Stage, rec: Option<int>, cycle: int, g: nat): Track {
    if Named(w, rec, g) then Go(t, if t.fu == 2 then LS else port, cycle) else t
  }

  function Completed(t: Track, w: seq<Id>, stage: Stage, rec: Option<int>, cycle: int, g: nat): Track {
    if Named(w, rec, g) then Go(t, stage, cycle).(due := cycle + 1) else t
  }

  function Committed(t: Track, w: seq<Id>, stage: Stage, rec: Option<int>, cycle: int, g: nat): Track {
    if Named(w, rec, g) then Go(t, stage, cycle) else t
  }

  function Born(t: Track, next: nat, stage: Stage, rec: Option<Dispatched>, cycle: int, g: nat): Track {
    if rec.Some? && g == next then Track(rec.value.fu, [Stamp(stage, cycle)], cycle + 1) else t
  }

  function Worked(t: Track, w: seq<Id>, snap: Snapshot, g: nat): Track {
    var c := snap.cycle;
    var t := Issued(Issued(Issued(t, w, Ex0, snap.issue0, c, g), w, Ex1, snap.issue1, c, g), w, ExF, snap.issueF, c, g);
    Completed(Completed(t, w, Wb0, snap.complete0, c, g), w, Wb1, snap.complete1, c, g)
  }

  function Left(t: Track, w: seq<Id>, snap: Snapshot, g: nat): Track {
    var k := Kept(w, snap);
    Committed(Committed(t, k, Cm0, snap.commit0, snap.cycle, g),
              Dropped(k, snap.commit0), Cm1, snap.commit1, snap.cycle, g)
  }

  function Entered(t: Track, next: nat, snap: Snapshot, g: nat): Track {
    Born(Born(t, next, Rn0, snap.dispatch0, snap.cycle, g),
         NextGid(next, snap.dispatch0), Rn1, snap.dispatch1, snap.cycle, g)
  }

  /** One snapshot, seen from instruction `g`: `w` is the window before it and `next` the next gid. */
  function Seen(t: Track, w: seq<Id>, next: nat, snap: Snapshot, g: nat): Track {
    var t := if Inside(w, g) then Settle(t, snap.cycle) else t;
    Entered(Left(Worked(t, w, snap, g), w, snap, g), next, snap, g)
  }

  function Follow(snaps: seq<Snapshot>, g: nat): Track {
    if snaps == [] then UNSEEN
    else
      var before := snaps[..|snaps| - 1];
      Seen(Follow(before, g), WindowOf(before), BornIn(before), snaps[|snaps| - 1], g)
  }

  /** The stages of `g` when the run ends. */
  function Path(snaps: seq<Snapshot>, g: nat): seq<Stamp> {
    var t := Follow(snaps, g);
    (if Inside(WindowOf(snaps), g) then Settle(t, LastCycle(snaps) + 1) else t).stages
  }

  // ---- The trace shows what the snapshots tell ---------------------------------------------

  /** The trace and the window agree with what is known of `g`. */
  predicate Shows(s: State, t: Track, g: nat) {
    && PathOf(s.out, g) == t.stages && ClockOf(s.out) == s.lastCycle
    && (forall i :: 0 <= i < |s.active| && s.active[i].gid == g ==>
         t.stages != [] && s.active[i].stage == Last(t) && s.active[i].fu == t.fu)
  }

  predicate MovesOk(es: seq<Event>) {
    forall i :: 0 <= i < |es| && es[i].Move? ==> Moving(es[i].expected) && es[i].next == After(es[i].expected)
  }

  predicate Armed(es: seq<Event>, g: nat, stage: Stage) {
    exists i :: 0 <= i < |es| && es[i].Move? && es[i].gid == g && es[i].expected == stage
  }

  /** The list due in `cycle` moves `g` exactly when a transition is known to be due. */
  predicate Awaits(es: seq<Event>, t: Track, cycle: int, g: nat) {
    && MovesOk(es) && t.due <= cycle
    && (t.stages != [] ==> (Armed(es, g, Last(t)) <==> t.due == cycle && Moving(Last(t))))
  }

  ghost predicate Follows(s: State, t: Track, g: nat) {
    && Window(s.active, s.nextGid)
    && Shows(s, t, g)
    && Awaits(Deferred(s.scheduled, s.lastCycle + 1), t, s.lastCycle + 1, g)
  }

  lemma GoLast(t: Track, stage: Stage, cycle: int)
    ensures var u := Go(t, stage, cycle);
      u.stages != [] && Last(u) == stage && u.fu == t.fu && u.due == t.due
  {
  }

  lemma SilentShows(s: State, t: Track, g: nat, r: Rec)
    requires Shows(s, t, g) && Silent(r, g)
    ensures Shows(Emit(s, [r]), t, g)
  {
    hide Last, PathOf, ClockOf;
    SilentSnoc(s.out, r, g);
  }

  /** Another stage for the instruction in slot `i`. */
  lemma RestageShows(s: State, t: Track, g: nat, i: nat, next: Stage)
    requires Window(s.active, s.nextGid) && Shows(s, t, g) && i < |s.active| && s.active[i].stage != next
    ensures Shows(Restage(s, i, next), if s.active[i].gid == g then Go(t, next, s.lastCycle) else t, g)
    ensures Window(Restage(s, i, next).active, s.nextGid) || IsCommit(next)
  {
    hide PathOf, ClockOf;
    var op := s.active[i];
    SilentSnoc(s.out, E(op.gid, op.stage), g);
    TraceSnoc(s.out + [E(op.gid, op.stage)], S(op.gid, next), g);
    GoLast(t, next, s.lastCycle);
    RestageSame(s.active, i, next);
  }

  lemma EnterShows(s: State, t: Track, g: nat, i: nat, next: Stage)
    requires Window(s.active, s.nextGid) && Shows(s, t, g) && i < |s.active|
    ensures Shows(Enter(s, i, next), if s.active[i].gid == g then Go(t, next, s.lastCycle) else t, g)
    ensures Window(Enter(s, i, next).active, s.nextGid) || IsCommit(next)
  {
    hide Window, PathOf, ClockOf;
    if s.active[i].stage != next {
      RestageShows(s, t, g, i, next);
    }
  }

  lemma SlotNamed(active: seq<Op>, rec: Option<int>, g: nat)
    ensures rec.None? ==> !Named(Ids(active), rec, g)
    ensures rec.Some? ==> (Named(Ids(active), rec, g) <==>
      Slot(active, rec.value) < |active| && active[Slot(active, rec.value)].gid == g)
  {
    if rec.Some? {
      SlotIds(active, rec.value);
    }
  }

  lemma GoAwaits(es: seq<Event>, t: Track, cycle: int, g: nat, stage: Stage, now: int)
    requires Awaits(es, t, cycle, g) && !Moving(stage)
    ensures Awaits(es, Go(t, stage, now), cycle, g)
  {
    GoLast(t, stage, now);
  }

  lemma MoveAwaits(es: seq<Event>, t: Track, cycle: int, g: nat, e: Event)
    requires Awaits(es, t, cycle, g) && e.Move? && Moving(e.expected) && e.next == After(e.expected)
    requires t.stages != [] && e.gid == g ==> e.expected == Last(t) && t.due == cycle
    ensures Awaits(es + [e], t, cycle, g)
  {
    var fs := es + [e];
    assert forall i :: 0 <= i < |es| ==> fs[i] == es[i];
    assert fs[|es|] == e;
    if t.stages != [] && Armed(es, g, Last(t)) {
      var i :| 0 <= i < |es| && es[i].Move? && es[i].gid == g && es[i].expected == Last(t);
      assert fs[i] == es[i];
    }
  }

  // ---- One step --------------------------------------------------------------------------

  lemma NoteFollows(s: State, t: Track, g: nat, r: Rec, stats: Stats)
    requires Follows(s, t, g) && Silent(r, g)
    ensures Follows(Emit(s, [r]).(stats := stats), t, g)
  {
    hide Window, Awaits, PathOf, ClockOf, Last;
    SilentSnoc(s.out, r, g);
  }

  lemma IssueFollows(s: State, t: Track, g: nat, port: Stage, rec: Option<int>)
    requires Follows(s, t, g) && !IsCommit(port) && !Moving(port)
    ensures Follows(Issue(s, port, rec), Issued(t, Ids(s.active), port, rec, s.lastCycle, g), g)
  {
    hide Window, Awaits, PathOf, ClockOf, Slot, Named, Ids, Go, Enter;
    SlotNamed(s.active, rec, g);
    if rec.Some? {
      var i := Slot(s.active, rec.value);
      if i == |s.active| {
        NoteFollows(s, t, g, Comment, s.stats.(orphanIssues := s.stats.orphanIssues + 1));
      } else {
        var op := s.active[i];
        var next := if op.fu == 2 then LS else port;
        EnterShows(s, t, g, i, next);
        GoAwaits(Deferred(s.scheduled, s.lastCycle + 1), t, s.lastCycle + 1, g, next, s.lastCycle);
        EnterFrame(s, i, next);
        var u := if op.gid == g then Go(t, next, s.lastCycle) else t;
        assert Follows(Enter(s, i, next), u, g);
        NoteFollows(Enter(s, i, next), u, g, L(op.gid, 2), s.stats.(issued := s.stats.issued + 1));
      }
    }
  }

  lemma EnterFrame(s: State, i: nat, next: Stage)
    requires i < |s.active|
    ensures var r := Enter(s, i, next);
      r.lastCycle == s.lastCycle && r.scheduled == s.scheduled && r.nextGid == s.nextGid && r.stats == s.stats
  {
  }

  lemma CompleteFollows(s: State, t: Track, g: nat, stage: Stage, rec: Option<int>)
    requires Follows(s, t, g) && (stage.Wb0? || stage.Wb1?)
    ensures Follows(Complete(s, stage, rec), Completed(t, Ids(s.active), stage, rec, s.lastCycle, g), g)
  {
    hide Window, Awaits, PathOf, ClockOf, Slot, Named, Ids, Go, Enter;
    SlotNamed(s.active, rec, g);
    if rec.Some? {
      var i := Slot(s.active, rec.value);
      if i == |s.active| {
        NoteFollows(s, t, g, Comment, s.stats.(orphanCompletions := s.stats.orphanCompletions + 1));
      } else {
        var op := s.active[i];
        EnterShows(s, t, g, i, stage);
        EnterFrame(s, i, stage);
        var k := s.lastCycle + 1;
        var es := Deferred(s.scheduled, k);
        var u := Completed(t, Ids(s.active), stage, rec, s.lastCycle, g);
        QueueAwaits(es, t, s.lastCycle, g, op.gid, stage);
        var r := Enter(s, i, stage);
        DueShows(r, if op.gid == g then Go(t, stage, s.lastCycle) else t, g, u);
        SilentShows(r, u, g, L(op.gid, 2));
      }
    }
  }

  lemma DueShows(s: State, t: Track, g: nat, u: Track)
    requires Shows(s, t, g) && u == t.(due := u.due)
    ensures Shows(s, u, g)
  {
  }

  /** A completion queues the move to the reorder buffer. */
  lemma QueueAwaits(es: seq<Event>, t: Track, now: int, g: nat, h: nat, stage: Stage)
    requires Awaits(es, t, now + 1, g) && (stage.Wb0? || stage.Wb1?)
    ensures Awaits(es + [Move(h, stage, Rob)], if h == g then Go(t, stage, now).(due := now + 1) else t, now + 1, g)
  {
    var fs := es + [Move(h, stage, Rob)];
    GoLast(t, stage, now);
    if h == g {
      assert fs[|es|] == Move(g, stage, Rob);
    } else {
      MoveAwaits(es, t, now + 1, g, Move(h, stage, Rob));
    }
  }

  lemma FewerShows(s: State, t: Track, g: nat, i: nat)
    requires i < |s.active| && Shows(s, t, g)
    ensures Shows(s.(active := Without(s.active, i)), t, g)
  {
    hide Last, PathOf, ClockOf;
    var b := Without(s.active, i);
    assert forall j :: 0 <= j < |b| ==> b[j] == s.active[if j < i then j else j + 1];
  }

  lemma FlushOneFollows(s: State, t: Track, g: nat, i: nat)
    requires Follows(s, t, g) && i < |s.active|
    ensures Follows(FlushOne(s, i), t, g)
  {
    hide Window, Awaits, PathOf, ClockOf, Last;
    var op := s.active[i];
    SilentSnoc(s.out, E(op.gid, op.stage), g);
    SilentSnoc(s.out + [E(op.gid, op.stage)], R(op.gid, 0, true), g);
    WithoutWindow(s.active, i, s.nextGid);
    FewerShows(s, t, g, i);
  }

  lemma {:induction false} FlushFollows(s: State, t: Track, g: nat, i: nat, n: nat)
    requires Follows(s, t, g) && i + n <= |s.active|
    ensures Follows(Flush(s, i, n), t, g)
    decreases n
  {
    hide Follows;
    if n > 0 {
      FlushOneFollows(s, t, g, i);
      FlushFollows(FlushOne(s, i), t, g, i, n - 1);
    }
  }

  lemma RecoverFollows(s: State, t: Track, g: nat, snap: Snapshot)
    requires Follows(s, t, g)
    ensures Follows(Recover(s, snap), t, g)
  {
    hide Follows, Flush, Slot;
    var n := |s.active|;
    if snap.globalFlush {
      var stats := s.stats.(globalFlushes := s.stats.globalFlushes + 1);
      NoteFollows(s, t, g, Comment, stats);
      FlushFollows(Emit(s, [Comment]).(stats := stats), t, g, 0, n);
    } else if snap.recover {
      var i := Slot(s.active, snap.recoverTag);
      var stats := s.stats.(recoveries := s.stats.recoveries + 1);
      if i == n {
        NoteFollows(s, t, g, Comment, stats.(inactiveRecoveries := stats.inactiveRecoveries + 1));
      } else {
        NoteFollows(s, t, g, Comment, stats);
        FlushFollows(Emit(s, [Comment]).(stats := stats), t, g, i + 1, n - (i + 1));
      }
    }
  }

  lemma RetireAwaits(es: seq<Event>, t: Track, cycle: int, g: nat, e: Event)
    requires Awaits(es, t, cycle, g) && e.Retire?
    ensures Awaits(es + [e], t, cycle, g)
  {
    var fs := es + [e];
    assert forall i :: 0 <= i < |es| ==> fs[i] == es[i];
    assert fs[|es|] == e;
    if t.stages != [] && Armed(es, g, Last(t)) {
      var i :| 0 <= i < |es| && es[i].Move? && es[i].gid == g && es[i].expected == Last(t);
      assert fs[i] == es[i];
    }
  }

  lemma DepartFollows(s: State, t: Track, g: nat, i: nat, stage: Stage)
    requires Follows(s, t, g) && i < |s.active| && IsCommit(stage)
    ensures Follows(Depart(Enter(s, i, stage), i), if s.active[i].gid == g then Go(t, stage, s.lastCycle) else t, g)
  {
    var op := s.active[i];
    assert op.stage != stage;
    hide Window, Awaits, Shows, Go, Enter, Depart, Without, Restage;
    var k := s.lastCycle + 1;
    var es := Deferred(s.scheduled, k);
    var u := if op.gid == g then Go(t, stage, s.lastCycle) else t;
    DepartIs(s, i, stage);
    DepartShows(s, t, g, i, stage);
    WithoutWindow(s.active, i, s.nextGid);
    GoAwaits(es, t, k, g, stage, s.lastCycle);
    RetireAwaits(es, u, k, g, Retire(op.gid, stage));
    var r := Depart(Enter(s, i, stage), i);
    assert Deferred(r.scheduled, k) == es + [Retire(op.gid, stage)];
    SameShows(s.(out := r.out, active := r.active), r, u, g);
  }

  lemma SameShows(s: State, r: State, t: Track, g: nat)
    requires Shows(s, t, g) && r.out == s.out && r.active == s.active && r.lastCycle == s.lastCycle
    ensures Shows(r, t, g)
  {
  }

  lemma DepartShows(s: State, t: Track, g: nat, i: nat, stage: Stage)
    requires Window(s.active, s.nextGid) && Shows(s, t, g) && i < |s.active| && s.active[i].stage != stage
    ensures Shows(s.(out := Restage(s, i, stage).out + [L(s.active[i].gid, 2)], active := Without(s.active, i)),
      if s.active[i].gid == g then Go(t, stage, s.lastCycle) else t, g)
  {
    hide Window, Shows, Go, Without;
    var op := s.active[i];
    var u := if op.gid == g then Go(t, stage, s.lastCycle) else t;
    RestageShows(s, t, g, i, stage);
    var r := Emit(Restage(s, i, stage), [L(op.gid, 2)]);
    SilentShows(Restage(s, i, stage), u, g, L(op.gid, 2));
    FewerShows(r, u, g, i);
    WithoutSame(s.active, i, stage);
    assert r.active == s.active[i := op.(stage := stage)];
  }

  lemma WithoutSame(a: seq<Op>, i: nat, stage: Stage)
    requires i < |a|
    ensures Without(a[i := a[i].(stage := stage)], i) == Without(a, i)
  {
  }

  lemma CommitFollows(s: State, t: Track, g: nat, stage: Stage, rec: Option<int>)
    requires Follows(s, t, g) && IsCommit(stage)
    ensures Follows(Commit(s, stage, rec), Committed(t, Ids(s.active), stage, rec, s.lastCycle, g), g)
  {
    hide Follows, Slot, Named, Ids, Go, Enter, Depart;
    SlotNamed(s.active, rec, g);
    if rec.Some? {
      var i := Slot(s.active, rec.value);
      if i == |s.active| {
        NoteFollows(s, t, g, Comment, s.stats.(orphanCommits := s.stats.orphanCommits + 1));
      } else {
        DepartFollows(s, t, g, i, stage);
      }
    }
  }

  lemma FreeFollows(s: State, t: Track, g: nat, tag: int)
    requires Follows(s, t, g)
    ensures Follows(FreeTag(s, tag), t, g)
  {
    hide Follows, Slot, FlushOne;
    var i := Slot(s.active, tag);
    if i < |s.active| {
      var stats := s.stats.(tagReuseErrors := s.stats.tagReuseErrors + 1);
      NoteFollows(s, t, g, Comment, stats);
      FlushOneFollows(Emit(s, [Comment]).(stats := stats), t, g, i);
    }
  }

  lemma BirthPath(t: Trace, h: nat, stage: Stage, g: nat)
    ensures ClockOf(Birth(t, h, stage)) == ClockOf(t)
    ensures PathOf(Birth(t, h, stage), g) == PathOf(t, g) + if h == g then [Stamp(stage, ClockOf(t))] else []
  {
    hide PathOf, ClockOf;
    SilentSnoc(t, I(h, h), g);
    SilentSnoc(t + [I(h, h)], L(h, 0), g);
    SilentSnoc(t + [I(h, h)] + [L(h, 0)], L(h, 1), g);
    TraceSnoc(t + [I(h, h)] + [L(h, 0)] + [L(h, 1)], S(h, stage), g);
  }

  lemma AllocateShows(s: State, t: Track, g: nat, op: Op, cycle: int)
    requires Shows(s, t, g) && Window(s.active, s.nextGid) && op.gid == s.nextGid && cycle == s.lastCycle
    requires g == op.gid ==> t.stages == []
    ensures Shows(s.(out := Birth(s.out, op.gid, op.stage), active := s.active + [op]),
      if g == op.gid then Track(op.fu, [Stamp(op.stage, cycle)], cycle + 1) else t, g)
  {
    hide PathOf, ClockOf, Birth;
    BirthPath(s.out, op.gid, op.stage, g);
    var a := s.active + [op];
    assert forall i :: 0 <= i < |s.active| ==> a[i] == s.active[i];
    assert a[|s.active|] == op;
  }

  lemma BornAwaits(es: seq<Event>, t: Track, now: int, g: nat, h: nat, stage: Stage, fu: int)
    requires Awaits(es, t, now + 1, g) && (stage.Rn0? || stage.Rn1?)
    ensures Awaits(es + [Move(h, stage, Iq)], if g == h then Track(fu, [Stamp(stage, now)], now + 1) else t, now + 1, g)
  {
    var fs := es + [Move(h, stage, Iq)];
    if g == h {
      assert fs[|es|] == Move(g, stage, Iq);
    } else {
      MoveAwaits(es, t, now + 1, g, Move(h, stage, Iq));
    }
  }

  lemma AllocateFollows(s: State, t: Track, g: nat, stage: Stage, d: Dispatched)
    requires Follows(s, t, g) && (stage.Rn0? || stage.Rn1?) && (g >= s.nextGid ==> t.stages == [])
    requires forall i :: 0 <= i < |s.active| ==> s.active[i].tag != d.tag
    ensures Follows(Allocate(s, stage, d), Born(t, s.nextGid, stage, Some(d), s.lastCycle, g), g)
  {
    var op := Op(s.nextGid, d.tag, d.fu, stage);
    var a := s.active + [op];
    assert Window(a, s.nextGid + 1) by {
      assert forall i :: 0 <= i < |s.active| ==> a[i] == s.active[i];
    }
    hide Window, Awaits, Shows, Birth, Allocate;
    var k := s.lastCycle + 1;
    var es := Deferred(s.scheduled, k);
    AllocateIs(s, stage, d);
    AllocateShows(s, t, g, op, s.lastCycle);
    BornAwaits(es, t, s.lastCycle, g, s.nextGid, stage, d.fu);
    var r := Allocate(s, stage, d);
    assert Deferred(r.scheduled, k) == es + [Move(s.nextGid, stage, Iq)];
    SameShows(s.(out := r.out, active := r.active), r, Born(t, s.nextGid, stage, Some(d), s.lastCycle, g), g);
  }

  lemma {:induction false} UnbornPath(t: Trace, g: nat)
    requires LifeOf(t, g).Unborn?
    ensures PathOf(t, g) == []
    decreases |t|
  {
    if t != [] {
      UnbornPath(t[..|t| - 1], g);
    }
  }

  lemma UnbornTrack(s: State, t: Track, g: nat)
    requires Inv(s) && Follows(s, t, g)
    ensures g >= s.nextGid ==> t.stages == []
  {
    hide Window, Agenda, EventsOk, Waiting, Counted, Awaits, LifeOf, PathOf;
    if g >= s.nextGid {
      UnbornPath(s.out, g);
    }
  }

  lemma DispatchFollows(s: State, t: Track, g: nat, stage: Stage, rec: Option<Dispatched>)
    requires Inv(s) && Follows(s, t, g) && (stage.Rn0? || stage.Rn1?)
    ensures Follows(Dispatch(s, stage, rec), Born(t, s.nextGid, stage, rec, s.lastCycle, g), g)
  {
    hide Inv, Follows, FreeTag, Allocate;
    if rec.Some? {
      UnbornTrack(s, t, g);
      FreeFollows(s, t, g, rec.value.tag);
      FreeTagKeeps(s, rec.value.tag);
      AllocateFollows(FreeTag(s, rec.value.tag), t, g, stage, rec.value);
    }
  }

  // ---- Deferred transitions ----------------------------------------------------------------

  /** The transition moves `g` on. */
  predicate Moves(active: seq<Op>, t: Track, e: Event, g: nat) {
    e.Move? && e.gid == g && Member(active, g) && t.stages != [] && e.expected == Last(t)
  }

  lemma MoveShows(s: State, t: Track, g: nat, e: Event)
    requires Window(s.active, s.nextGid) && Shows(s, t, g) && e.Move? && !IsCommit(e.next) && e.next != e.expected
    ensures var r := Fire(s, e);
      && Shows(r, if Moves(s.active, t, e, g) then Go(t, e.next, s.lastCycle) else t, g)
      && Window(r.active, s.nextGid)
  {
    var i := Position(s.active, e.gid);
    assert e.gid == g && i == |s.active| ==> !Member(s.active, g);
    assert i < |s.active| && s.active[i].gid == g ==>
      Member(s.active, g) && t.stages != [] && s.active[i].stage == Last(t);
    if i < |s.active| && s.active[i].stage == e.expected {
      hide Window, Shows, Position, Go, Member;
      RestageShows(s, t, g, i, e.next);
    }
  }

  lemma FireShows(s: State, t: Track, g: nat, e: Event)
    requires Window(s.active, s.nextGid) && Shows(s, t, g)
    requires e.Move? ==> Moving(e.expected) && e.next == After(e.expected)
    ensures var r := Fire(s, e);
      && Shows(r, if Moves(s.active, t, e, g) then Go(t, e.next, s.lastCycle) else t, g)
      && Window(r.active, s.nextGid)
  {
    hide Window, Shows, Go, Last;
    if e.Move? {
      hide Fire;
      MoveShows(s, t, g, e);
    } else {
      RetireShows(s, t, g, e);
    }
  }

  lemma RetireShows(s: State, t: Track, g: nat, e: Event)
    requires Shows(s, t, g) && e.Retire?
    ensures Shows(Fire(s, e), t, g) && Fire(s, e).active == s.active
  {
    hide Shows;
    if Fire(s, e) != s {
      var u := Emit(s, [E(e.gid, e.expected)]);
      var v := Emit(u, [R(e.gid, s.nextRid, false)]);
      SilentShows(s, t, g, E(e.gid, e.expected));
      SilentShows(u, t, g, R(e.gid, s.nextRid, false));
      SameShows(v, Fire(s, e), t, g);
    }
  }

  lemma FireFrame(s: State, e: Event, g: nat)
    ensures var r := Fire(s, e);
      && r.lastCycle == s.lastCycle && r.scheduled == s.scheduled && r.nextGid == s.nextGid
      && (Member(r.active, g) <==> Member(s.active, g))
  {
    var r := Fire(s, e);
    assert |r.active| == |s.active| && forall i :: 0 <= i < |s.active| ==> r.active[i].gid == s.active[i].gid;
  }

  /** Whether the list moves `g`, told from its first event and the rest. */
  lemma ArmedFirst(es: seq<Event>, g: nat, stage: Stage)
    requires es != []
    ensures Armed(es, g, stage) <==>
      (es[0].Move? && es[0].gid == g && es[0].expected == stage) || Armed(es[1..], g, stage)
  {
    if i :| 0 <= i < |es| && es[i].Move? && es[i].gid == g && es[i].expected == stage {
      if i > 0 {
        assert es[1..][i - 1] == es[i];
      }
    }
    if i :| 0 <= i < |es[1..]| && es[1..][i].Move? && es[1..][i].gid == g && es[1..][i].expected == stage {
      assert es[i + 1] == es[1..][i];
    }
  }

  function Fired(active: seq<Op>, t: Track, es: seq<Event>, cycle: int, g: nat): Track {
    if Member(active, g) && t.stages != [] && Armed(es, g, Last(t)) then Go(t, After(Last(t)), cycle) else t
  }

  lemma FiredFirst(active: seq<Op>, t: Track, es: seq<Event>, cycle: int, g: nat)
    requires MovesOk(es) && es != []
    ensures var u := if Moves(active, t, es[0], g) then Go(t, es[0].next, cycle) else t;
      Fired(active, u, es[1..], cycle, g) == Fired(active, t, es, cycle, g)
    ensures MovesOk(es[1..]) && (es[0].Move? ==> Moving(es[0].expected) && es[0].next == After(es[0].expected))
  {
    assert forall i :: 0 <= i < |es[1..]| ==> es[1..][i] == es[i + 1];
    if t.stages != [] {
      ArmedFirst(es, g, Last(t));
      if Moves(active, t, es[0], g) {
        GoLast(t, es[0].next, cycle);
        Unarmed(es[1..], g, es[0].next);
      }
    }
  }

  lemma Unarmed(es: seq<Event>, g: nat, stage: Stage)
    requires MovesOk(es) && !Moving(stage)
    ensures !Armed(es, g, stage)
  {
  }

  lemma {:induction false} FireAllShows(s: State, t: Track, g: nat, es: seq<Event>)
    requires Window(s.active, s.nextGid) && Shows(s, t, g) && MovesOk(es)
    ensures var r := FireAll(s, es);
      Shows(r, Fired(s.active, t, es, s.lastCycle, g), g) && Window(r.active, s.nextGid)
    decreases |es|
  {
    hide Window, Shows, Fire, MovesOk, Go, Last, Member;
    if es == [] {
      NothingFired(s.active, t, s.lastCycle, g);
    } else {
      hide Fired;
      FiredFirst(s.active, t, es, s.lastCycle, g);
      FireShows(s, t, g, es[0]);
      FireFrame(s, es[0], g);
      var u := if Moves(s.active, t, es[0], g) then Go(t, es[0].next, s.lastCycle) else t;
      FireAllShows(Fire(s, es[0]), u, g, es[1..]);
      SameMember(s.active, Fire(s, es[0]).active, u, es[1..], s.lastCycle, g);
    }
  }

  lemma NothingFired(active: seq<Op>, t: Track, cycle: int, g: nat)
    ensures Fired(active, t, [], cycle, g) == t
  {
  }

  lemma SameMember(a: seq<Op>, b: seq<Op>, t: Track, es: seq<Event>, cycle: int, g: nat)
    requires Member(a, g) <==> Member(b, g)
    ensures Fired(a, t, es, cycle, g) == Fired(b, t, es, cycle, g)
  {
  }

  lemma InsideMember(active: seq<Op>, g: nat)
    ensures Inside(Ids(active), g) <==> Member(active, g)
  {
    var w := Ids(active);
    assert forall i :: 0 <= i < |w| ==> w[i].gid == active[i].gid;
    if Member(active, g) {
      var i :| 0 <= i < |active| && active[i].gid == g;
      assert w[i].gid == g;
    }
    if Inside(w, g) {
      var i :| 0 <= i < |w| && w[i].gid == g;
      assert active[i].gid == g;
    }
  }

  /** The list due in `cycle` settles what is known to be due then. */
  lemma FiredSettles(active: seq<Op>, t: Track, es: seq<Event>, cycle: int, g: nat)
    requires Awaits(es, t, cycle, g)
    ensures Fired(active, t, es, cycle, g) == if Inside(Ids(active), g) then Settle(t, cycle) else t
  {
    InsideMember(active, g);
  }

  lemma ApplyShows(s: State, t: Track, g: nat, cycle: int)
    requires Window(s.active, s.nextGid) && Shows(s, t, g) && s.lastCycle == cycle
    requires Awaits(Deferred(s.scheduled, cycle), t, cycle, g)
    ensures var r := ApplyScheduled(s, cycle);
      && Shows(r, if Inside(Ids(s.active), g) then Settle(t, cycle) else t, g)
      && Window(r.active, r.nextGid)
  {
    var es := Deferred(s.scheduled, cycle);
    FiredSettles(s.active, t, es, cycle, g);
    hide Window, Fired, Settle, FireAll, Ids;
    var p := Pop(s, cycle);
    SameShows(s, p, t, g);
    hide Shows;
    FireAllShows(p, t, g, es);
    FireAllFrame(p, es);
  }

  // ---- One snapshot --------------------------------------------------------------------------

  lemma NothingDeferred(s: State, cycle: int)
    requires Inv(s) && cycle > s.lastCycle + 1
    ensures Deferred(s.scheduled, cycle) == []
  {
    hide Inv;
    NoneBeyond(s);
  }

  lemma NoneAwaited(t: Track, cycle: int, g: nat)
    requires t.due < cycle
    ensures Awaits([], t, cycle, g)
  {
  }

  lemma ClockShows(s: State, t: Track, g: nat, cycle: int)
    requires Shows(s, t, g)
    ensures Shows(s.(lastCycle := cycle, out := s.out + [C(cycle - s.lastCycle)] + [Comment]), t, g)
    ensures Shows(s.(lastCycle := cycle, out := s.out + [C(cycle - s.lastCycle)]), t, g)
  {
    hide PathOf, ClockOf, Last;
    TraceSnoc(s.out, C(cycle - s.lastCycle), g);
    SilentSnoc(s.out + [C(cycle - s.lastCycle)], Comment, g);
  }

  /** What the next snapshot or the end of the run finds due. */
  lemma DueAwaits(s: State, t: Track, g: nat, cycle: int)
    requires Inv(s) && Follows(s, t, g) && cycle > s.lastCycle
    ensures Awaits(Deferred(s.scheduled, cycle), t, cycle, g) && t.due <= cycle
  {
    hide Inv, Window, Shows;
    if cycle > s.lastCycle + 1 {
      NothingDeferred(s, cycle);
      NoneAwaited(t, cycle, g);
    }
  }

  lemma AdvanceFollows(s: State, t: Track, g: nat, cycle: int)
    requires Inv(s) && Follows(s, t, g) && cycle > s.lastCycle
    ensures Follows(Advance(s, cycle), if Inside(Ids(s.active), g) then Settle(t, cycle) else t, g)
  {
    hide Inv, Window, Shows, Awaits, Ids, Settle, Inside, Deferred, ApplyScheduled;
    DueAwaits(s, t, g, cycle);
    ClockShows(s, t, g, cycle);
    ApplyShows(s.(lastCycle := cycle, out := s.out + [C(cycle - s.lastCycle)] + [Comment]), t, g, cycle);
    hide Advance;
    AdvanceKeeps(s, cycle);
    NothingNext(s, cycle);
    SettleDue(t, cycle);
    NoneAwaited(if Inside(Ids(s.active), g) then Settle(t, cycle) else t, cycle + 1, g);
  }

  lemma SettleDue(t: Track, cycle: int)
    ensures Settle(t, cycle).due == t.due
  {
  }

  lemma NothingNext(s: State, cycle: int)
    requires Inv(s) && cycle > s.lastCycle
    ensures Deferred(Advance(s, cycle).scheduled, cycle + 1) == []
  {
    hide Inv, Advance;
    AdvanceKeeps(s, cycle);
    NoneBeyond(s);
    assert cycle + 1 !in Advance(s, cycle).scheduled.Keys;
  }

  lemma ObserveFollows(s: State, t: Track, g: nat, snap: Snapshot)
    requires Inv(s) && Follows(s, t, g) && snap.cycle == s.lastCycle
    ensures Follows(Observe(s, snap), Worked(t, Ids(s.active), snap, g), g)
  {
    hide Inv, Follows, Issue, Complete, Issued, Completed, Ids;
    var w, c := Ids(s.active), snap.cycle;
    IssueKeeps(s, Ex0, snap.issue0);
    IssueFollows(s, t, g, Ex0, snap.issue0);
    var s1, t1 := Issue(s, Ex0, snap.issue0), Issued(t, w, Ex0, snap.issue0, c, g);
    IssueKeeps(s1, Ex1, snap.issue1);
    IssueFollows(s1, t1, g, Ex1, snap.issue1);
    var s2, t2 := Issue(s1, Ex1, snap.issue1), Issued(t1, w, Ex1, snap.issue1, c, g);
    IssueKeeps(s2, ExF, snap.issueF);
    IssueFollows(s2, t2, g, ExF, snap.issueF);
    var s3, t3 := Issue(s2, ExF, snap.issueF), Issued(t2, w, ExF, snap.issueF, c, g);
    CompleteKeeps(s3, Wb0, snap.complete0);
    CompleteFollows(s3, t3, g, Wb0, snap.complete0);
    CompleteFollows(Complete(s3, Wb0, snap.complete0), Completed(t3, w, Wb0, snap.complete0, c, g), g,
      Wb1, snap.complete1);
  }

  lemma ResolveFollows(s: State, t: Track, g: nat, snap: Snapshot)
    requires Inv(s) && Follows(s, t, g) && snap.cycle == s.lastCycle
    ensures Follows(Resolve(s, snap), Entered(Left(t, Ids(s.active), snap, g), s.nextGid, snap, g), g)
  {
    hide Inv, Follows, Recover, Commit, Dispatch, Ids, Kept, Dropped, Placed, NextGid, Hits, Committed, Born;
    RecoverKeeps(s, snap);
    RecoverFollows(s, t, g, snap);
    var s1 := Recover(s, snap);
    CommitKeeps(s1, Cm0, snap.commit0);
    CommitFollows(s1, t, g, Cm0, snap.commit0);
    var s2, t2 := Commit(s1, Cm0, snap.commit0), Committed(t, Ids(s1.active), Cm0, snap.commit0, snap.cycle, g);
    CommitKeeps(s2, Cm1, snap.commit1);
    CommitFollows(s2, t2, g, Cm1, snap.commit1);
    var s3, t3 := Commit(s2, Cm1, snap.commit1), Committed(t2, Ids(s2.active), Cm1, snap.commit1, snap.cycle, g);
    DispatchKeeps(s3, Rn0, snap.dispatch0);
    DispatchFollows(s3, t3, g, Rn0, snap.dispatch0);
    DispatchFollows(Dispatch(s3, Rn0, snap.dispatch0), Born(t3, s3.nextGid, Rn0, snap.dispatch0, snap.cycle, g), g,
      Rn1, snap.dispatch1);
  }

  lemma ProcessFollows(s: State, t: Track, g: nat, snap: Snapshot)
    requires Inv(s) && Follows(s, t, g) && snap.cycle > s.lastCycle
    ensures Follows(Process(s, snap), Seen(t, Ids(s.active), s.nextGid, snap, g), g)
  {
    hide Inv, Follows, Advance, Observe, Resolve, Ids, Worked, Left, Entered, Settle, Inside;
    AdvanceKeeps(s, snap.cycle);
    AdvanceFollows(s, t, g, snap.cycle);
    var s1 := Advance(s, snap.cycle);
    var t1 := if Inside(Ids(s.active), g) then Settle(t, snap.cycle) else t;
    ObserveKeeps(s1, snap);
    ObserveFollows(s1, t1, g, snap);
    ResolveFollows(Observe(s1, snap), Worked(t1, Ids(s1.active), snap, g), g, snap);
  }

  lemma StartFollows(g: nat)
    ensures Follows(START, UNSEEN, g)
  {
  }

  lemma {:induction false} RunFollows(snaps: seq<Snapshot>, g: nat)
    requires Increasing(snaps)
    ensures Follows(RunOf(snaps), Follow(snaps, g), g)
    decreases |snaps|
  {
    hide Inv, Follows, Process, Seen, WindowOf, BornIn, Ids;
    if snaps == [] {
      StartFollows(g);
    } else {
      var before, snap := snaps[..|snaps| - 1], snaps[|snaps| - 1];
      RunKeeps(before);
      RunFollows(before, g);
      ProcessFollows(RunOf(before), Follow(before, g), g, snap);
    }
  }

  lemma {:induction false} FlushShows(s: State, t: Track, g: nat, i: nat, n: nat)
    requires Shows(s, t, g) && i + n <= |s.active|
    ensures Shows(Flush(s, i, n), t, g)
    decreases n
  {
    hide Shows;
    if n > 0 {
      var op := s.active[i];
      var u := Emit(s, [E(op.gid, op.stage)]);
      var v := Emit(u, [R(op.gid, 0, true)]);
      SilentShows(s, t, g, E(op.gid, op.stage));
      SilentShows(u, t, g, R(op.gid, 0, true));
      FewerShows(v, t, g, i);
      SameShows(v.(active := Without(v.active, i)), FlushOne(s, i), t, g);
      FlushShows(FlushOne(s, i), t, g, i, n - 1);
    }
  }

  lemma FinishShows(s: State, t: Track, g: nat)
    requires Inv(s) && Follows(s, t, g)
    ensures PathOf(Finish(s).out, g) ==
      (if Inside(Ids(s.active), g) then Settle(t, s.lastCycle + 1) else t).stages
  {
    hide Inv, Window, Awaits, Ids, Settle, Inside, PathOf, ClockOf, Shows, ApplyScheduled, Flush;
    var k := s.lastCycle + 1;
    var a := s.(lastCycle := k, out := s.out + [C(1)]);
    ClockShows(s, t, g, k);
    ApplyShows(a, t, g, k);
    var u := if Inside(Ids(s.active), g) then Settle(t, k) else t;
    ApplyAnyClock(Emit(s, [C(1)]), k, k);
    var b := ApplyScheduled(a, k);
    var c := ApplyScheduled(Emit(s, [C(1)]), k);
    if c.active == [] {
      ShownPath(b, u, g);
    } else {
      var d := Emit(b, [Comment]);
      SilentShows(b, u, g, Comment);
      FlushShows(d, u, g, 0, |d.active|);
      ShownPath(Flush(d, 0, |d.active|), u, g);
      FlushAnyClock(Emit(c, [Comment]), 0, |c.active|, k);
    }
  }

  lemma ShownPath(s: State, t: Track, g: nat)
    requires Shows(s, t, g)
    ensures PathOf(s.out, g) == t.stages
  {
  }

  /** The last cycle is not looked at. */
  lemma {:induction false} FireAllAnyClock(s: State, es: seq<Event>, c: int)
    ensures FireAll(s.(lastCycle := c), es) == FireAll(s, es).(lastCycle := c)
    decreases |es|
  {
    if es != [] {
      assert Fire(s.(lastCycle := c), es[0]) == Fire(s, es[0]).(lastCycle := c);
      FireAllAnyClock(Fire(s, es[0]), es[1..], c);
    }
  }

  lemma ApplyAnyClock(s: State, cycle: int, c: int)
    ensures ApplyScheduled(s.(lastCycle := c), cycle) == ApplyScheduled(s, cycle).(lastCycle := c)
  {
    FireAllAnyClock(Pop(s, cycle), Deferred(s.scheduled, cycle), c);
  }

  lemma {:induction false} FlushAnyClock(s: State, i: nat, n: nat, c: int)
    requires i + n <= |s.active|
    ensures Flush(s.(lastCycle := c), i, n) == Flush(s, i, n).(lastCycle := c)
    decreases n
  {
    if n > 0 {
      assert FlushOne(s.(lastCycle := c), i) == FlushOne(s, i).(lastCycle := c);
      FlushAnyClock(FlushOne(s, i), i, n - 1, c);
    }
  }

  /** The stages in the finished trace are those the snapshots tell, with their cycles. */
  lemma StagesAre(snaps: seq<Snapshot>, g: nat)
    requires Increasing(snaps)
    ensures PathOf(Finish(RunOf(snaps)).out, g) == Path(snaps, g)
  {
    hide Inv, Follows, Finish, RunOf, Follow, WindowOf, Ids, Settle, Inside, PathOf;
    RunKeeps(snaps);
    RunFollows(snaps, g);
    FinishShows(RunOf(snaps), Follow(snaps, g), g);
  }
}
