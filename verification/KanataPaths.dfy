/**
  What the path of an instruction says: where it was renamed, on which unit it
  ran, where it was written back and committed, and when the deferred stages
  were reached.
*/
module KanataPaths {
  import opened Wrappers
  import opened KanataTrace
  import opened KanataModel
  import opened KanataLife
  import opened KanataRun
  import opened KanataStages

  // ---- The records that name an instruction --------------------------------------------------

  /** The issue record of a port. */
  function IssueOn(snap: Snapshot, port: Stage): Option<int> {
    match port case Ex0 => snap.issue0 case Ex1 => snap.issue1 case ExF => snap.issueF case _ => None
  }

  /**
    A record of the snapshot brings instruction `g` of unit `fu` into the stage.
    `w` is the window before the snapshot and `next` the gid of its first
    dispatch; commits see what a flush or a recovery has left of the window.
  */
  predicate Does(w: seq<Id>, next: nat, snap: Snapshot, g: nat, fu: int, stage: Stage) {
    var left := Kept(w, snap);
    match stage
    case Rn0 => snap.dispatch0.Some? && g == next && snap.dispatch0.value.fu == fu
    case Rn1 => snap.dispatch1.Some? && g == NextGid(next, snap.dispatch0) && snap.dispatch1.value.fu == fu
    case Ex0 => fu != 2 && Named(w, snap.issue0, g)
    case Ex1 => fu != 2 && Named(w, snap.issue1, g)
    case ExF => fu != 2 && Named(w, snap.issueF, g)
    case LS => fu == 2 && (Named(w, snap.issue0, g) || Named(w, snap.issue1, g) || Named(w, snap.issueF, g))
    case Wb0 => Named(w, snap.complete0, g)
    case Wb1 => Named(w, snap.complete1, g)
    case Cm0 => Named(left, snap.commit0, g)
    case Cm1 => Named(Dropped(left, snap.commit0), snap.commit1, g)
    case _ => false
  }

  predicate DoesAt(snaps: seq<Snapshot>, k: nat, g: nat, fu: int, stage: Stage) {
    k < |snaps| && Does(WindowOf(snaps[..k]), BornIn(snaps[..k]), snaps[k], g, fu, stage)
  }

  /** `g` outlives snapshot `k - 1`, and snapshot `k`, if there is one, has the next cycle. */
  predicate Undisturbed(snaps: seq<Snapshot>, k: nat, g: nat) {
    && 0 < k <= |snaps| && Inside(WindowOf(snaps[..k]), g)
    && (k < |snaps| ==> snaps[k].cycle == snaps[k - 1].cycle + 1)
  }

  /** What brings the instruction into the stage at snapshot `k`, or at the end of the run. */
  predicate EntersAt(snaps: seq<Snapshot>, k: nat, g: nat, fu: int, stage: Stage) {
    match stage
    case Iq => Undisturbed(snaps, k, g) && (DoesAt(snaps, k - 1, g, fu, Rn0) || DoesAt(snaps, k - 1, g, fu, Rn1))
    case Rob => Undisturbed(snaps, k, g) && (DoesAt(snaps, k - 1, g, fu, Wb0) || DoesAt(snaps, k - 1, g, fu, Wb1))
    case _ => DoesAt(snaps, k, g, fu, stage)
  }

  predicate Passed(stages: seq<Stamp>, stage: Stage) {
    exists i :: 0 <= i < |stages| && stages[i].stage == stage
  }

  // ---- One snapshot ---------------------------------------------------------------------------

  lemma PassedSnoc(stages: seq<Stamp>, x: Stamp, stage: Stage)
    ensures Passed(stages + [x], stage) <==> Passed(stages, stage) || stage == x.stage
  {
    var all := stages + [x];
    assert all[|stages|] == x && forall i :: 0 <= i < |stages| ==> all[i] == stages[i];
    if i :| 0 <= i < |stages| && stages[i].stage == stage {
      assert all[i].stage == stage;
    }
  }

  lemma GoPassed(t: Track, next: Stage, cycle: int, stage: Stage)
    ensures Passed(Go(t, next, cycle).stages, stage) <==> Passed(t.stages, stage) || stage == next
  {
    if t.stages != [] && Last(t) == next {
      assert t.stages[|t.stages| - 1].stage == next;
    } else {
      hide Passed;
      PassedSnoc(t.stages, Stamp(next, cycle), stage);
    }
  }

  lemma WorkedPassed(t: Track, w: seq<Id>, snap: Snapshot, g: nat, stage: Stage)
    ensures var u := Worked(t, w, snap, g);
      && u.fu == t.fu
      && (Passed(u.stages, stage) <==>
        || Passed(t.stages, stage)
        || (stage.LS? && t.fu == 2
          && (Named(w, snap.issue0, g) || Named(w, snap.issue1, g) || Named(w, snap.issueF, g)))
        || (t.fu != 2 && Named(w, IssueOn(snap, stage), g))
        || (stage.Wb0? && Named(w, snap.complete0, g)) || (stage.Wb1? && Named(w, snap.complete1, g)))
  {
    hide Passed, Go, Named;
    var c := snap.cycle;
    NotNamed(w, g);
    var t1 := Issued(t, w, Ex0, snap.issue0, c, g);
    var t2 := Issued(t1, w, Ex1, snap.issue1, c, g);
    var t3 := Issued(t2, w, ExF, snap.issueF, c, g);
    var t4 := Completed(t3, w, Wb0, snap.complete0, c, g);
    IssuedPassed(t, w, Ex0, snap.issue0, c, g, stage);
    IssuedPassed(t1, w, Ex1, snap.issue1, c, g, stage);
    IssuedPassed(t2, w, ExF, snap.issueF, c, g, stage);
    CompletedPassed(t3, w, Wb0, snap.complete0, c, g, stage);
    CompletedPassed(t4, w, Wb1, snap.complete1, c, g, stage);
  }

  lemma NotNamed(w: seq<Id>, g: nat)
    ensures !Named(w, None, g)
  {
  }

  lemma IssuedPassed(t: Track, w: seq<Id>, port: Stage, rec: Option<int>, cycle: int, g: nat, stage: Stage)
    ensures var u := Issued(t, w, port, rec, cycle, g);
      && u.fu == t.fu
      && (Passed(u.stages, stage) <==>
        Passed(t.stages, stage) || (Named(w, rec, g) && stage == if t.fu == 2 then LS else port))
  {
    GoPassed(t, if t.fu == 2 then LS else port, cycle, stage);
  }

  lemma CompletedPassed(t: Track, w: seq<Id>, next: Stage, rec: Option<int>, cycle: int, g: nat, stage: Stage)
    ensures var u := Completed(t, w, next, rec, cycle, g);
      u.fu == t.fu && (Passed(u.stages, stage) <==> Passed(t.stages, stage) || (Named(w, rec, g) && stage == next))
  {
    GoPassed(t, next, cycle, stage);
  }

  lemma LeftPassed(t: Track, w: seq<Id>, snap: Snapshot, g: nat, stage: Stage)
    ensures var u := Left(t, w, snap, g);
      && u.fu == t.fu && u.due == t.due
      && (Passed(u.stages, stage) <==>
        || Passed(t.stages, stage)
        || (stage.Cm0? && Named(Kept(w, snap), snap.commit0, g))
        || (stage.Cm1? && Named(Dropped(Kept(w, snap), snap.commit0), snap.commit1, g)))
  {
    hide Passed, Named, Kept, Dropped;
    GoPassed(t, Cm0, snap.cycle, stage);
    GoPassed(t, Cm1, snap.cycle, stage);
    GoPassed(Go(t, Cm0, snap.cycle), Cm1, snap.cycle, stage);
  }

  lemma SettledPassed(t: Track, cycle: int, stage: Stage)
    ensures var u := Settle(t, cycle);
      && u.fu == t.fu && u.due == t.due
      && (Passed(u.stages, stage) <==>
        Passed(t.stages, stage) ||
        (t.stages != [] && t.due == cycle && Moving(Last(t)) && stage == After(Last(t))))
  {
    hide Passed;
    if t.stages != [] {
      GoPassed(t, After(Last(t)), cycle, stage);
    }
  }

  // ---- Windows ----------------------------------------------------------------------------------

  lemma NamedInside(w: seq<Id>, rec: Option<int>, g: nat)
    requires Named(w, rec, g)
    ensures Inside(w, g)
  {
  }

  lemma KeptInside(w: seq<Id>, snap: Snapshot, g: nat)
    requires Inside(Kept(w, snap), g)
    ensures Inside(w, g)
  {
    var i :| 0 <= i < |Kept(w, snap)| && Kept(w, snap)[i].gid == g;
    assert w[i].gid == g;
  }

  lemma DroppedInside(w: seq<Id>, rec: Option<int>, g: nat)
    requires Inside(Dropped(w, rec), g)
    ensures Inside(w, g)
  {
    if Hits(w, rec) {
      var n := Find(w, rec.value);
      var i :| 0 <= i < |Dropped(w, rec)| && Dropped(w, rec)[i].gid == g;
      assert w[if i < n then i else i + 1].gid == g;
    }
  }

  /** Nothing names an instruction that is not in the window. */
  lemma Outside(w: seq<Id>, snap: Snapshot, g: nat)
    requires !Inside(w, g)
    ensures forall rec :: !Named(w, rec, g)
    ensures !Named(Kept(w, snap), snap.commit0, g)
    ensures !Named(Dropped(Kept(w, snap), snap.commit0), snap.commit1, g)
  {
    hide Inside, Named, Kept, Dropped;
    var k := Kept(w, snap);
    forall rec ensures !Named(w, rec, g) {
      if Named(w, rec, g) { NamedInside(w, rec, g); }
    }
    if Inside(Dropped(k, snap.commit0), g) { DroppedInside(k, snap.commit0, g); }
    if Inside(k, g) { KeptInside(w, snap, g); }
    if Named(k, snap.commit0, g) { NamedInside(k, snap.commit0, g); }
    if Named(Dropped(k, snap.commit0), snap.commit1, g) {
      NamedInside(Dropped(k, snap.commit0), snap.commit1, g);
    }
  }

  /** An instruction that is not dispatched yet has no stages and no place in the window. */
  lemma NotYet(snaps: seq<Snapshot>, g: nat)
    requires Increasing(snaps) && g >= BornIn(snaps)
    ensures Follow(snaps, g).stages == [] && !Inside(WindowOf(snaps), g)
  {
    hide Inv, RunOf, Follow, Follows;
    RunKeeps(snaps);
    RunFollows(snaps, g);
    UnbornTrack(RunOf(snaps), Follow(snaps, g), g);
    InsideMember(RunOf(snaps).active, g);
    NoMember(RunOf(snaps), g);
  }

  lemma NoMember(s: State, g: nat)
    requires Inv(s) && g >= s.nextGid
    ensures !Member(s.active, g)
  {
    hide Agenda, EventsOk, Waiting, Counted, Lives;
  }

  lemma DueBound(snaps: seq<Snapshot>, g: nat)
    requires Increasing(snaps)
    ensures Follow(snaps, g).due <= LastCycle(snaps) + 1
  {
    hide Inv, RunOf, Follow, Window, Shows, MovesOk, Armed, Moving;
    RunKeeps(snaps);
    RunFollows(snaps, g);
  }

  /** The deferred transition that is due in `cycle` leads to `stage`. */
  predicate Settling(t: Track, cycle: int, stage: Stage) {
    t.stages != [] && t.due == cycle && Moving(Last(t)) && stage == After(Last(t))
  }

  /** What is known before a snapshot of an instruction that it may dispatch. */
  predicate Fresh(t: Track, w: seq<Id>, next: nat, g: nat) {
    g >= next ==> t.stages == [] && !Inside(w, g)
  }

  lemma EnteredPassed(t: Track, next: nat, snap: Snapshot, g: nat, stage: Stage)
    requires g >= next ==> t.stages == []
    ensures var u := Entered(t, next, snap, g);
      && (u == t || (u.due == snap.cycle + 1 && |u.stages| == 1 && Moving(Last(u)) && After(Last(u)) == Iq))
      && (u == t <==> g < next || g >= NextGid(NextGid(next, snap.dispatch0), snap.dispatch1))
      && (Passed(u.stages, stage) <==>
        || Passed(t.stages, stage)
        || (stage.Rn0? && snap.dispatch0.Some? && g == next && snap.dispatch0.value.fu == u.fu)
        || (stage.Rn1? && snap.dispatch1.Some? && g == NextGid(next, snap.dispatch0)
          && snap.dispatch1.value.fu == u.fu))
  {
    var u := Entered(t, next, snap, g);
    if u != t {
      assert u.stages[0].stage.Rn0? || u.stages[0].stage.Rn1?;
      assert Passed(u.stages, u.stages[0].stage);
    }
  }

  /** The stages that one snapshot adds. */
  lemma SeenPassed(t: Track, w: seq<Id>, next: nat, snap: Snapshot, g: nat, stage: Stage)
    requires Fresh(t, w, next, g)
    ensures var u := Seen(t, w, next, snap, g);
      Passed(u.stages, stage) <==>
        || Passed(t.stages, stage)
        || (Inside(w, g) && Settling(t, snap.cycle, stage))
        || Does(w, next, snap, g, u.fu, stage)
  {
    hide Passed, Settle, Worked, Left, Entered, Named, Kept, Dropped, Inside;
    var t1 := if Inside(w, g) then Settle(t, snap.cycle) else t;
    SettledPassed(t, snap.cycle, stage);
    var t2 := Worked(t1, w, snap, g);
    WorkedPassed(t1, w, snap, g, stage);
    var t3 := Left(t2, w, snap, g);
    LeftPassed(t2, w, snap, g, stage);
    NotNamed(w, g);
    if g >= next {
      Outside(w, snap, g);
      OutsideSame(t, w, snap, g);
    }
    EnteredPassed(t3, next, snap, g, stage);
  }

  /** A snapshot leaves an instruction outside its window alone. */
  lemma OutsideSame(t: Track, w: seq<Id>, snap: Snapshot, g: nat)
    requires !Inside(w, g)
    ensures Worked(t, w, snap, g) == t && Left(t, w, snap, g) == t
  {
    hide Inside, Named, Kept, Dropped;
    Outside(w, snap, g);
  }

  // ---- When the deferred stages are reached -----------------------------------------------------

  predicate Distinct(w: seq<Id>) {
    forall i, j :: 0 <= i < j < |w| ==> w[i].gid != w[j].gid
  }

  lemma KeptDistinct(w: seq<Id>, snap: Snapshot)
    requires Distinct(w)
    ensures Distinct(Kept(w, snap))
  {
  }

  lemma DroppedDistinct(w: seq<Id>, rec: Option<int>, g: nat)
    requires Distinct(w)
    ensures Distinct(Dropped(w, rec)) && (Named(w, rec, g) ==> !Inside(Dropped(w, rec), g))
  {
    hide Find;
    if Hits(w, rec) {
      WithoutDistinct(w, Find(w, rec.value));
    }
  }

  lemma WithoutDistinct(w: seq<Id>, n: nat)
    requires Distinct(w) && n < |w|
    ensures var d := w[..n] + w[n + 1..];
      Distinct(d) && forall i :: 0 <= i < |d| ==> d[i].gid != w[n].gid
  {
    var d := w[..n] + w[n + 1..];
    assert forall i :: 0 <= i < |d| ==> d[i] == w[if i < n then i else i + 1];
    forall i, j | 0 <= i < j < |d| ensures d[i].gid != d[j].gid {
      var k, l := if i < n then i else i + 1, if j < n then j else j + 1;
      assert d[i] == w[k] && d[j] == w[l];
    }
  }

  lemma PlacedInside(w: seq<Id>, next: nat, rec: Option<Dispatched>, g: nat)
    requires Inside(Placed(w, next, rec), g) && g != next
    ensures Inside(w, g)
  {
    if rec.Some? {
      var d := Dropped(w, Some(rec.value.tag));
      var i :| 0 <= i < |Placed(w, next, rec)| && Placed(w, next, rec)[i].gid == g;
      assert i < |d| && d[i].gid == g;
      DroppedInside(w, Some(rec.value.tag), g);
    }
  }

  /** An older instruction that is in the window after a snapshot was not committed by it. */
  lemma NotCommitted(w: seq<Id>, next: nat, snap: Snapshot, g: nat)
    requires Distinct(w) && g < next && Inside(NextWindow(w, next, snap), g)
    ensures var k := Kept(w, snap);
      !Named(k, snap.commit0, g) && !Named(Dropped(k, snap.commit0), snap.commit1, g)
  {
    hide Inside, Named, Kept, Dropped, Placed, Distinct;
    var k := Kept(w, snap);
    var a := Dropped(k, snap.commit0);
    var b := Dropped(a, snap.commit1);
    var c := Placed(b, next, snap.dispatch0);
    KeptDistinct(w, snap);
    DroppedDistinct(k, snap.commit0, g);
    DroppedDistinct(a, snap.commit1, g);
    PlacedInside(c, NextGid(next, snap.dispatch0), snap.dispatch1, g);
    PlacedInside(b, next, snap.dispatch0, g);
    DroppedInside(a, snap.commit1, g);
  }

  lemma GoSame(t: Track, stage: Stage, cycle: int)
    ensures var u := Go(t, stage, cycle);
      u.due == t.due && u.stages != [] && Last(u) == stage
  {
  }

  /** After the records of a snapshot a transition is due exactly for a completed instruction. */
  lemma WorkedDue(t: Track, w: seq<Id>, snap: Snapshot, g: nat, stage: Stage)
    requires t.due <= snap.cycle
    ensures Settling(Worked(t, w, snap, g), snap.cycle + 1, stage) <==>
      stage.Rob? && (Named(w, snap.complete0, g) || Named(w, snap.complete1, g))
  {
    hide Named, Go;
    var c := snap.cycle;
    var t1 := Issued(t, w, Ex0, snap.issue0, c, g);
    var t2 := Issued(t1, w, Ex1, snap.issue1, c, g);
    var t3 := Issued(t2, w, ExF, snap.issueF, c, g);
    GoSame(t, if t.fu == 2 then LS else Ex0, c);
    GoSame(t1, if t1.fu == 2 then LS else Ex1, c);
    GoSame(t2, if t2.fu == 2 then LS else ExF, c);
    assert t3.due == t.due;
    var t4 := Completed(t3, w, Wb0, snap.complete0, c, g);
    GoSame(t3, Wb0, c);
    GoSame(t4, Wb1, c);
  }

  lemma SeenDue(t: Track, w: seq<Id>, next: nat, snap: Snapshot, g: nat, stage: Stage)
    requires Fresh(t, w, next, g) && Distinct(w) && t.due <= snap.cycle
    requires Inside(NextWindow(w, next, snap), g) && g < NextGid(NextGid(next, snap.dispatch0), snap.dispatch1)
    ensures var u := Seen(t, w, next, snap, g);
      Settling(u, snap.cycle + 1, stage) <==>
        || (stage.Iq? && (Does(w, next, snap, g, u.fu, Rn0) || Does(w, next, snap, g, u.fu, Rn1)))
        || (stage.Rob? && (Does(w, next, snap, g, u.fu, Wb0) || Does(w, next, snap, g, u.fu, Wb1)))
  {
    hide Passed, Settle, Worked, Named, Kept, Dropped, Inside, Distinct, NextWindow;
    var t1 := if Inside(w, g) then Settle(t, snap.cycle) else t;
    SettleDue(t, snap.cycle);
    var t2 := Worked(t1, w, snap, g);
    if g >= next {
      Outside(w, snap, g);
    } else {
      NotCommitted(w, next, snap, g);
      WorkedDue(t1, w, snap, g, stage);
    }
  }

  lemma DistinctWindow(snaps: seq<Snapshot>)
    requires Increasing(snaps)
    ensures Distinct(WindowOf(snaps))
  {
    hide Inv, RunOf, WindowOf;
    RunKeeps(snaps);
    IdsDistinct(RunOf(snaps));
  }

  lemma IdsDistinct(s: State)
    requires Inv(s)
    ensures Distinct(Ids(s.active))
  {
    hide Agenda, EventsOk, Waiting, Counted, Lives;
  }

  lemma FreshFollow(snaps: seq<Snapshot>, g: nat)
    requires Increasing(snaps)
    ensures Fresh(Follow(snaps, g), WindowOf(snaps), BornIn(snaps), g)
  {
    hide Follow, WindowOf, BornIn, Inside;
    if g >= BornIn(snaps) {
      NotYet(snaps, g);
    }
  }

  /** What is due behind the last snapshot. */
  lemma FollowDue(snaps: seq<Snapshot>, g: nat, stage: Stage)
    requires Increasing(snaps) && snaps != [] && Inside(WindowOf(snaps), g)
    ensures var n, t := |snaps| - 1, Follow(snaps, g);
      Settling(t, snaps[n].cycle + 1, stage) <==>
        || (stage.Iq? && (DoesAt(snaps, n, g, t.fu, Rn0) || DoesAt(snaps, n, g, t.fu, Rn1)))
        || (stage.Rob? && (DoesAt(snaps, n, g, t.fu, Wb0) || DoesAt(snaps, n, g, t.fu, Wb1)))
  {
    hide Seen, NextWindow, Inside, Does, Settling, Distinct, Fresh, NextGid;
    var n := |snaps| - 1;
    var before := snaps[..n];
    FreshFollow(before, g);
    DistinctWindow(before);
    DueBound(before, g);
    InsideOld(snaps, g);
    SeenDue(Follow(before, g), WindowOf(before), BornIn(before), snaps[n], g, stage);
  }

  lemma InsideOld(snaps: seq<Snapshot>, g: nat)
    requires Increasing(snaps) && Inside(WindowOf(snaps), g)
    ensures g < BornIn(snaps)
  {
    hide WindowOf, BornIn, Inside, Follow;
    if g >= BornIn(snaps) {
      NotYet(snaps, g);
    }
  }

  // ---- Whole paths ------------------------------------------------------------------------------

  ghost predicate EntersBefore(snaps: seq<Snapshot>, n: nat, g: nat, fu: int, stage: Stage) {
    exists k: nat :: k < n && EntersAt(snaps, k, g, fu, stage)
  }

  lemma DoesPrefix(snaps: seq<Snapshot>, n: nat, k: nat, g: nat, fu: int, stage: Stage)
    requires k < n <= |snaps|
    ensures DoesAt(snaps[..n], k, g, fu, stage) <==> DoesAt(snaps, k, g, fu, stage)
  {
    hide Does, WindowOf, BornIn;
    assert snaps[..n][..k] == snaps[..k];
  }

  lemma EntersPrefix(snaps: seq<Snapshot>, n: nat, g: nat, fu: int, stage: Stage)
    requires n <= |snaps|
    ensures EntersBefore(snaps[..n], n, g, fu, stage) <==> EntersBefore(snaps, n, g, fu, stage)
  {
    hide DoesAt, WindowOf, Inside;
    forall k: nat | k < n ensures EntersAt(snaps[..n], k, g, fu, stage) <==> EntersAt(snaps, k, g, fu, stage) {
      assert snaps[..n][..k] == snaps[..k];
      DoesPrefix(snaps, n, k, g, fu, stage);
      if k > 0 {
        DoesPrefix(snaps, n, k - 1, g, fu, Rn0);
        DoesPrefix(snaps, n, k - 1, g, fu, Rn1);
        DoesPrefix(snaps, n, k - 1, g, fu, Wb0);
        DoesPrefix(snaps, n, k - 1, g, fu, Wb1);
      }
    }
  }

  /** The deferred stage that begins when the run reaches `cycle`, the cycle of snapshot `n` or behind the last one. */
  lemma SettlingIff(snaps: seq<Snapshot>, n: nat, g: nat, cycle: int, stage: Stage)
    requires Increasing(snaps) && n <= |snaps|
    requires cycle == if n < |snaps| then snaps[n].cycle else LastCycle(snaps) + 1
    ensures Increasing(snaps[..n])
    ensures Inside(WindowOf(snaps[..n]), g) && Settling(Follow(snaps[..n], g), cycle, stage) <==>
      (stage.Iq? || stage.Rob?) && EntersAt(snaps, n, g, Follow(snaps[..n], g).fu, stage)
  {
    hide WindowOf, BornIn, Does, Follow, Inside;
    var before := snaps[..n];
    if n == 0 {
      NothingInside(before, g);
    } else if Inside(WindowOf(before), g) {
      var fu := Follow(before, g).fu;
      FollowDue(before, g, stage);
      DueBound(before, g);
      DoesPrefix(snaps, n, n - 1, g, fu, Rn0);
      DoesPrefix(snaps, n, n - 1, g, fu, Rn1);
      DoesPrefix(snaps, n, n - 1, g, fu, Wb0);
      DoesPrefix(snaps, n, n - 1, g, fu, Wb1);
    }
  }

  lemma NothingInside(snaps: seq<Snapshot>, g: nat)
    requires snaps == []
    ensures !Inside(WindowOf(snaps), g) && Follow(snaps, g) == UNSEEN
  {
  }

  /** The unit of an instruction is that of the record that dispatched it. */
  lemma SeenUnit(t: Track, w: seq<Id>, next: nat, snap: Snapshot, g: nat)
    ensures g < next ==> Seen(t, w, next, snap, g).fu == t.fu
  {
    hide Settle, Worked, Left, Inside;
    SettledPassed(t, snap.cycle, Iq);
    var t1 := if Inside(w, g) then Settle(t, snap.cycle) else t;
    WorkedPassed(t1, w, snap, g, Iq);
    LeftPassed(Worked(t1, w, snap, g), w, snap, g, Iq);
  }

  lemma NoDefer(w: seq<Id>, next: nat, snap: Snapshot, g: nat, fu: int, stage: Stage)
    ensures stage.Iq? || stage.Rob? ==> !Does(w, next, snap, g, fu, stage)
  {
  }

  /** An instruction outside the window depends on its unit only through its dispatch. */
  lemma UnitKnown(snaps: seq<Snapshot>, g: nat, fu: int, stage: Stage)
    requires Increasing(snaps) && snaps != [] && (g < BornIn(snaps) ==> Follow(snaps, g).fu == fu)
    ensures var n := |snaps| - 1;
      Does(WindowOf(snaps[..n]), BornIn(snaps[..n]), snaps[n], g, Follow(snaps, g).fu, stage)
      <==> DoesAt(snaps, n, g, fu, stage)
  {
    var n := |snaps| - 1;
    hide Follow, WindowOf, Inside, Named, Kept, Dropped;
    if g >= BornIn(snaps) {
      NotYet(snaps[..n], g);
      Outside(WindowOf(snaps[..n]), snaps[n], g);
    }
  }

  /** What the last snapshot adds. */
  lemma LastAdds(snaps: seq<Snapshot>, g: nat, fu: int, stage: Stage)
    requires Increasing(snaps) && snaps != [] && (g < BornIn(snaps) ==> Follow(snaps, g).fu == fu)
    ensures var n := |snaps| - 1;
      Passed(Follow(snaps, g).stages, stage) <==>
        Passed(Follow(snaps[..n], g).stages, stage) || EntersAt(snaps, n, g, fu, stage)
  {
    var n := |snaps| - 1;
    var before := snaps[..n];
    var t, w, next := Follow(before, g), WindowOf(before), BornIn(before);
    hide Seen, Does, Inside, Passed, Settling, WindowOf, BornIn, Fresh, DoesAt;
    FreshFollow(before, g);
    SeenPassed(t, w, next, snaps[n], g, stage);
    SettlingIff(snaps, n, g, snaps[n].cycle, stage);
    UnitKnown(snaps, g, fu, stage);
    NoDefer(w, next, snaps[n], g, Follow(snaps, g).fu, stage);
    hide Follow;
    if Inside(w, g) {
      InsideOld(before, g);
      SameUnit(snaps, g);
    }
  }

  lemma SameUnit(snaps: seq<Snapshot>, g: nat)
    requires snaps != [] && g < BornIn(snaps[..|snaps| - 1])
    ensures Follow(snaps, g).fu == Follow(snaps[..|snaps| - 1], g).fu && g < BornIn(snaps)
  {
    hide Seen;
    var before := snaps[..|snaps| - 1];
    SeenUnit(Follow(before, g), WindowOf(before), BornIn(before), snaps[|snaps| - 1], g);
  }

  lemma {:induction false} FollowEnters(snaps: seq<Snapshot>, g: nat, fu: int, stage: Stage)
    requires Increasing(snaps) && (g < BornIn(snaps) ==> Follow(snaps, g).fu == fu)
    ensures Passed(Follow(snaps, g).stages, stage) <==> EntersBefore(snaps, |snaps|, g, fu, stage)
    decreases |snaps|
  {
    if snaps == [] {
      NothingInside(snaps, g);
    } else {
      hide Follow, Passed, EntersAt, EntersBefore, BornIn;
      var n := |snaps| - 1;
      if g < BornIn(snaps[..n]) {
        SameUnit(snaps, g);
      }
      FollowEnters(snaps[..n], g, fu, stage);
      EntersPrefix(snaps, n, g, fu, stage);
      LastAdds(snaps, g, fu, stage);
      LastEntry(snaps, n, g, fu, stage);
    }
  }

  lemma LastEntry(snaps: seq<Snapshot>, n: nat, g: nat, fu: int, stage: Stage)
    ensures EntersBefore(snaps, n + 1, g, fu, stage) <==>
      EntersBefore(snaps, n, g, fu, stage) || EntersAt(snaps, n, g, fu, stage)
  {
    hide EntersAt;
  }

  // ---- The first stage ----------------------------------------------------------------------------

  predicate Renames(stage: Stage) {
    stage.Rn0? || stage.Rn1?
  }

  predicate Starts(t: Track, first: Stamp, fu: int) {
    t.stages != [] && t.stages[0] == first && t.fu == fu
  }

  lemma SeenStarts(t: Track, w: seq<Id>, next: nat, snap: Snapshot, g: nat, first: Stamp, fu: int)
    requires Starts(t, first, fu) && g < next
    ensures Starts(Seen(t, w, next, snap, g), first, fu)
  {
    hide Starts, Settle, Worked, Left, Inside;
    var t1 := if Inside(w, g) then Settle(t, snap.cycle) else t;
    SettleStarts(t, snap.cycle, first, fu);
    WorkedStarts(t1, w, snap, g, first, fu);
    LeftStarts(Worked(t1, w, snap, g), w, snap, g, first, fu);
  }

  lemma SettleStarts(t: Track, cycle: int, first: Stamp, fu: int)
    requires Starts(t, first, fu)
    ensures Starts(Settle(t, cycle), first, fu)
  {
  }

  lemma GoStarts(t: Track, stage: Stage, cycle: int, first: Stamp, fu: int)
    requires Starts(t, first, fu)
    ensures Starts(Go(t, stage, cycle), first, fu)
  {
  }

  lemma IssuedStarts(t: Track, w: seq<Id>, port: Stage, rec: Option<int>, cycle: int, g: nat, first: Stamp, fu: int)
    requires Starts(t, first, fu)
    ensures Starts(Issued(t, w, port, rec, cycle, g), first, fu)
  {
    hide Named;
  }

  lemma CompletedStarts(t: Track, w: seq<Id>, stage: Stage, rec: Option<int>, cycle: int, g: nat, first: Stamp, fu: int)
    requires Starts(t, first, fu)
    ensures Starts(Completed(t, w, stage, rec, cycle, g), first, fu)
  {
    hide Named;
  }

  lemma WorkedStarts(t: Track, w: seq<Id>, snap: Snapshot, g: nat, first: Stamp, fu: int)
    requires Starts(t, first, fu)
    ensures Starts(Worked(t, w, snap, g), first, fu)
  {
    hide Starts, Issued, Completed;
    var c := snap.cycle;
    var t1 := Issued(t, w, Ex0, snap.issue0, c, g);
    var t2 := Issued(t1, w, Ex1, snap.issue1, c, g);
    var t3 := Issued(t2, w, ExF, snap.issueF, c, g);
    IssuedStarts(t, w, Ex0, snap.issue0, c, g, first, fu);
    IssuedStarts(t1, w, Ex1, snap.issue1, c, g, first, fu);
    IssuedStarts(t2, w, ExF, snap.issueF, c, g, first, fu);
    CompletedStarts(t3, w, Wb0, snap.complete0, c, g, first, fu);
    CompletedStarts(Completed(t3, w, Wb0, snap.complete0, c, g), w, Wb1, snap.complete1, c, g, first, fu);
  }

  lemma LeftStarts(t: Track, w: seq<Id>, snap: Snapshot, g: nat, first: Stamp, fu: int)
    requires Starts(t, first, fu)
    ensures Starts(Left(t, w, snap, g), first, fu)
  {
    hide Starts, Named, Kept, Dropped, Go;
    GoStarts(t, Cm0, snap.cycle, first, fu);
    GoStarts(t, Cm1, snap.cycle, first, fu);
    GoStarts(Go(t, Cm0, snap.cycle), Cm1, snap.cycle, first, fu);
  }

  lemma SeenBorn(t: Track, w: seq<Id>, next: nat, snap: Snapshot, g: nat, stage: Stage, fu: int)
    requires Renames(stage) && Does(w, next, snap, g, fu, stage)
    ensures Starts(Seen(t, w, next, snap, g), Stamp(stage, snap.cycle), fu)
    ensures next <= g < NextGid(NextGid(next, snap.dispatch0), snap.dispatch1)
  {
    hide Worked, Left, Settle, Inside, Named;
  }

  /** The record that dispatches an instruction gives its unit and its first stage. */
  lemma {:induction false} FollowStarts(snaps: seq<Snapshot>, k: nat, g: nat, fu: int, stage: Stage)
    requires Renames(stage) && DoesAt(snaps, k, g, fu, stage)
    ensures Starts(Follow(snaps, g), Stamp(stage, snaps[k].cycle), fu) && g < BornIn(snaps)
    decreases |snaps|
  {
    hide Does, Seen, Starts, WindowOf;
    var n := |snaps| - 1;
    var before := snaps[..n];
    if k == n {
      SeenBorn(Follow(before, g), WindowOf(before), BornIn(before), snaps[n], g, stage, fu);
    } else {
      DoesPrefix(snaps, n, k, g, fu, stage);
      FollowStarts(before, k, g, fu, stage);
      SeenStarts(Follow(before, g), WindowOf(before), BornIn(before), snaps[n], g, Stamp(stage, snaps[k].cycle), fu);
    }
  }

  /** Every gid below the count comes from a record. */
  lemma {:induction false} DispatchOf(snaps: seq<Snapshot>, g: nat) returns (k: nat, stage: Stage, fu: int)
    requires g < BornIn(snaps)
    ensures Renames(stage) && DoesAt(snaps, k, g, fu, stage)
    decreases |snaps|
  {
    hide Named, Kept, Dropped, WindowOf;
    var n := |snaps| - 1;
    var before, snap := snaps[..n], snaps[n];
    if g < BornIn(before) {
      k, stage, fu := DispatchOf(before, g);
      DoesPrefix(snaps, n, k, g, fu, stage);
    } else if snap.dispatch0.Some? && g == BornIn(before) {
      k, stage, fu := n, Rn0, snap.dispatch0.value.fu;
    } else {
      k, stage, fu := n, Rn1, snap.dispatch1.value.fu;
    }
  }

  // ---- The order of the stages --------------------------------------------------------------------

  /** Two stages in a row. */
  predicate Linked(a: Stamp, b: Stamp) {
    && a.cycle <= b.cycle && a.stage != b.stage && !IsCommit(a.stage) && !Renames(b.stage)
    && (b.stage.Iq? ==> Renames(a.stage) && b.cycle == a.cycle + 1)
    && (b.stage.Rob? ==> a.stage.Wb0? || a.stage.Wb1?)
  }

  predicate Chained(p: seq<Stamp>) {
    forall j :: 0 < j < |p| ==> Linked(p[j - 1], p[j])
  }

  predicate Sound(t: Track, now: int) {
    && Chained(t.stages)
    && (t.stages != [] ==>
      var last := t.stages[|t.stages| - 1];
      last.cycle <= now && (Renames(last.stage) ==> t.due == last.cycle + 1))
  }

  /** An instruction in the window is in a stage it can leave. */
  predicate Running(t: Track) {
    t.stages != [] && !IsCommit(Last(t))
  }

  lemma ChainedSnoc(p: seq<Stamp>, x: Stamp)
    requires Chained(p) && (p != [] ==> Linked(p[|p| - 1], x))
    ensures Chained(p + [x])
  {
    hide Linked;
  }

  lemma GoSound(t: Track, stage: Stage, now: int)
    requires Sound(t, now) && Running(t) && !Renames(stage) && !stage.Iq? && !stage.Rob?
    ensures Sound(Go(t, stage, now), now) && (!IsCommit(stage) ==> Running(Go(t, stage, now)))
    ensures Last(Go(t, stage, now)) == stage
  {
    if Last(t) != stage {
      ChainedSnoc(t.stages, Stamp(stage, now));
    }
  }

  lemma SettleSound(t: Track, was: int, now: int)
    requires Sound(t, was) && Running(t) && was <= now
    ensures Sound(Settle(t, now), now) && Running(Settle(t, now))
  {
    if t.due == now && Moving(Last(t)) {
      ChainedSnoc(t.stages, Stamp(After(Last(t)), now));
    }
  }

  lemma CompletedSound(t: Track, w: seq<Id>, stage: Stage, rec: Option<int>, now: int, g: nat)
    requires Sound(t, now) && Running(t) && (stage.Wb0? || stage.Wb1?)
    ensures var u := Completed(t, w, stage, rec, now, g); Sound(u, now) && Running(u)
  {
    hide Named, Chained;
    GoSound(t, stage, now);
  }

  lemma IssuedSound(t: Track, w: seq<Id>, port: Stage, rec: Option<int>, now: int, g: nat)
    requires Sound(t, now) && Running(t) && (port.Ex0? || port.Ex1? || port.ExF?)
    ensures var u := Issued(t, w, port, rec, now, g); Sound(u, now) && Running(u)
  {
    hide Named, Sound, Go, Running;
    GoSound(t, if t.fu == 2 then LS else port, now);
  }

  lemma WorkedSound(t: Track, w: seq<Id>, snap: Snapshot, g: nat)
    requires Sound(t, snap.cycle) && Running(t)
    ensures var u := Worked(t, w, snap, g); Sound(u, snap.cycle) && Running(u)
  {
    hide Issued, Completed, Sound, Running;
    var c := snap.cycle;
    var t1 := Issued(t, w, Ex0, snap.issue0, c, g);
    var t2 := Issued(t1, w, Ex1, snap.issue1, c, g);
    var t3 := Issued(t2, w, ExF, snap.issueF, c, g);
    IssuedSound(t, w, Ex0, snap.issue0, c, g);
    IssuedSound(t1, w, Ex1, snap.issue1, c, g);
    IssuedSound(t2, w, ExF, snap.issueF, c, g);
    CompletedSound(t3, w, Wb0, snap.complete0, c, g);
    CompletedSound(Completed(t3, w, Wb0, snap.complete0, c, g), w, Wb1, snap.complete1, c, g);
  }

  /** At most one commit record of a snapshot names the instruction. */
  lemma LeftSound(t: Track, w: seq<Id>, snap: Snapshot, g: nat)
    requires Sound(t, snap.cycle) && Running(t) && Distinct(w)
    ensures Sound(Left(t, w, snap, g), snap.cycle)
  {
    hide Named, Kept, Dropped, Sound, Running, Go, Distinct, Inside;
    var k := Kept(w, snap);
    KeptDistinct(w, snap);
    DroppedDistinct(k, snap.commit0, g);
    if Named(k, snap.commit0, g) && Named(Dropped(k, snap.commit0), snap.commit1, g) {
      NamedInside(Dropped(k, snap.commit0), snap.commit1, g);
    }
    GoSound(t, Cm0, snap.cycle);
    GoSound(t, Cm1, snap.cycle);
  }

  lemma LaterSound(t: Track, was: int, now: int)
    requires Sound(t, was) && was <= now
    ensures Sound(t, now)
  {
  }

  lemma SeenSound(t: Track, w: seq<Id>, next: nat, snap: Snapshot, g: nat, was: int)
    requires Fresh(t, w, next, g) && Distinct(w) && Sound(t, was) && was <= snap.cycle
    requires Inside(w, g) ==> Running(t)
    ensures Sound(Seen(t, w, next, snap, g), snap.cycle)
  {
    hide Inside, Worked, Left, Settle, Distinct, Fresh, Chained, Running;
    if Inside(w, g) {
      SettleSound(t, was, snap.cycle);
      var t1 := Settle(t, snap.cycle);
      WorkedSound(t1, w, snap, g);
      LeftSound(Worked(t1, w, snap, g), w, snap, g);
    } else {
      LaterSound(t, was, snap.cycle);
      OutsideSame(t, w, snap, g);
    }
    forall stage ensures Chained([Stamp(stage, snap.cycle)]) { OneChained(Stamp(stage, snap.cycle)); }
  }

  lemma OneChained(x: Stamp)
    ensures Chained([x])
  {
  }

  lemma InsideRuns(snaps: seq<Snapshot>, g: nat)
    requires Increasing(snaps) && Inside(WindowOf(snaps), g)
    ensures Running(Follow(snaps, g))
  {
    hide Inv, RunOf, Follow, WindowOf, PathOf, ClockOf, Awaits;
    RunKeeps(snaps);
    RunFollows(snaps, g);
    InsideMember(RunOf(snaps).active, g);
  }

  lemma {:induction false} FollowSound(snaps: seq<Snapshot>, g: nat)
    requires Increasing(snaps)
    ensures Sound(Follow(snaps, g), LastCycle(snaps))
    decreases |snaps|
  {
    hide Seen, Fresh, Distinct, Inside, WindowOf, BornIn, Running;
    if snaps != [] {
      hide Sound;
      var before, snap := snaps[..|snaps| - 1], snaps[|snaps| - 1];
      FollowSound(before, g);
      FreshFollow(before, g);
      DistinctWindow(before);
      if Inside(WindowOf(before), g) {
        InsideRuns(before, g);
      }
      SeenSound(Follow(before, g), WindowOf(before), BornIn(before), snap, g, LastCycle(before));
    }
  }

  // ---- The theorem --------------------------------------------------------------------------------

  ghost predicate Enters(snaps: seq<Snapshot>, g: nat, fu: int, stage: Stage) {
    exists k: nat :: k <= |snaps| && EntersAt(snaps, k, g, fu, stage)
  }

  lemma PathChained(snaps: seq<Snapshot>, g: nat)
    requires Increasing(snaps)
    ensures Chained(Path(snaps, g))
  {
    hide Follow, WindowOf, Inside, Settle, Chained, Running;
    FollowSound(snaps, g);
    if Inside(WindowOf(snaps), g) {
      InsideRuns(snaps, g);
      SettleSound(Follow(snaps, g), LastCycle(snaps), LastCycle(snaps) + 1);
    }
  }

  lemma PathEnters(snaps: seq<Snapshot>, g: nat, fu: int, stage: Stage)
    requires Increasing(snaps) && Follow(snaps, g).fu == fu
    ensures Passed(Path(snaps, g), stage) <==> Enters(snaps, g, fu, stage)
  {
    hide Follow, WindowOf, Inside, Settle, Passed, DoesAt;
    var n := |snaps|;
    FollowEnters(snaps, g, fu, stage);
    SettledPassed(Follow(snaps, g), LastCycle(snaps) + 1, stage);
    assert snaps[..n] == snaps;
    SettlingIff(snaps, n, g, LastCycle(snaps) + 1, stage);
    NotBehind(snaps, g, fu, stage);
    LastEntry(snaps, n, g, fu, stage);
    hide EntersAt;
  }

  lemma NotBehind(snaps: seq<Snapshot>, g: nat, fu: int, stage: Stage)
    ensures EntersAt(snaps, |snaps|, g, fu, stage) ==> stage.Iq? || stage.Rob?
  {
  }

  lemma PathStarts(snaps: seq<Snapshot>, g: nat, first: Stamp, fu: int)
    requires Starts(Follow(snaps, g), first, fu)
    ensures Path(snaps, g) != [] && Path(snaps, g)[0] == first
  {
  }

  /**
    The finished trace brings an instruction into a stage exactly when a record
    calls for it.  It begins in the rename stage of its dispatch lane, and each
    stage follows one that may come before it.
  */
  lemma PathMeaning(snaps: seq<Snapshot>, k: nat, g: nat, fu: int, lane: Stage)
    requires Increasing(snaps) && Renames(lane) && DoesAt(snaps, k, g, fu, lane)
    ensures var p := PathOf(Finish(RunOf(snaps)).out, g);
      && p != [] && p[0] == Stamp(lane, snaps[k].cycle) && Chained(p)
      && forall stage :: Passed(p, stage) <==> Enters(snaps, g, fu, stage)
  {
    hide Follow, Path, PathOf, RunOf, Finish, Does, Passed, Enters, Chained;
    StagesAre(snaps, g);
    FollowStarts(snaps, k, g, fu, lane);
    PathStarts(snaps, g, Stamp(lane, snaps[k].cycle), fu);
    PathChained(snaps, g);
    forall stage ensures Passed(Path(snaps, g), stage) <==> Enters(snaps, g, fu, stage) {
      PathEnters(snaps, g, fu, stage);
    }
  }
}
