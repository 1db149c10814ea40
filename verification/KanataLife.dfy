/**
  What every step of the converter keeps: the window is in dispatch order with
  distinct tags, every committed instruction has its retirement queued, every
  gid has one well-formed life in the trace, and the statistics balance.
*/
module KanataLife {
  import opened Wrappers
  import opened KanataTrace
  import opened KanataModel

  predicate IsCommit(stage: Stage) {
    stage.Cm0? || stage.Cm1?
  }

  predicate Member(active: seq<Op>, g: nat) {
    exists i :: 0 <= i < |active| && active[i].gid == g
  }

  predicate Window(active: seq<Op>, nextGid: nat) {
    && (forall i, j :: 0 <= i < j < |active| ==> active[i].gid < active[j].gid && active[i].tag != active[j].tag)
    && (forall i :: 0 <= i < |active| ==> active[i].gid < nextGid && !IsCommit(active[i].stage))
  }

  predicate EventOk(e: Event) {
    match e
    case Move(_, expected, next) => !IsCommit(expected) && !IsCommit(next)
    case Retire(_, expected) => IsCommit(expected)
  }

  predicate EventsOk(es: seq<Event>) {
    forall i :: 0 <= i < |es| ==> EventOk(es[i])
  }

  predicate Agenda(scheduled: map<int, seq<Event>>, lastCycle: int) {
    forall k :: k in scheduled ==> k <= lastCycle + 1 && EventsOk(scheduled[k])
  }

  /** The retirement of `g` lies in `todo` (the list due at `cycle`) or is still scheduled. */
  predicate Queued(scheduled: map<int, seq<Event>>, g: nat, p: Pending, cycle: int, todo: seq<Event>) {
    || (p.due in scheduled && Retire(g, p.stage) in scheduled[p.due])
    || (p.due == cycle && Retire(g, p.stage) in todo)
  }

  predicate Waiting(
    active: seq<Op>, retiring: map<nat, Pending>, scheduled: map<int, seq<Event>>, nextGid: nat,
    cycle: int, todo: seq<Event>)
  {
    forall g :: g in retiring ==>
      && g < nextGid && IsCommit(retiring[g].stage) && !Member(active, g)
      && Queued(scheduled, g, retiring[g], cycle, todo)
  }

  ghost predicate Lives(out: Trace, active: seq<Op>, retiring: map<nat, Pending>, nextGid: nat) {
    && (forall i :: 0 <= i < |active| ==> LifeOf(out, active[i].gid) == Alive(Some(active[i].stage)))
    && (forall g :: g in retiring ==> LifeOf(out, g) == Alive(Some(retiring[g].stage)))
    && (forall g: nat :: g < nextGid && !Member(active, g) && g !in retiring ==> LifeOf(out, g).Closed?)
    && (forall g: nat :: g >= nextGid ==> LifeOf(out, g).Unborn?)
  }

  predicate Counted(out: Trace, live: nat, waiting: nat, nextGid: nat, nextRid: nat, stats: Stats) {
    && Begins(out) == Ends(out) + live + waiting
    && Commits(out) == nextRid
    && nextRid + waiting == stats.committed
    && Flushes(out) == stats.flushed
    && stats.dispatched == nextGid == stats.committed + stats.flushed + live
  }

  ghost predicate InvWith(s: State, cycle: int, todo: seq<Event>) {
    && Window(s.active, s.nextGid)
    && Agenda(s.scheduled, s.lastCycle)
    && EventsOk(todo)
    && Waiting(s.active, s.retiring, s.scheduled, s.nextGid, cycle, todo)
    && Lives(s.out, s.active, s.retiring, s.nextGid)
    && Counted(s.out, |s.active|, |s.retiring|, s.nextGid, s.nextRid, s.stats)
  }

  ghost predicate Inv(s: State) {
    InvWith(s, 0, [])
  }

  // ---- Emitting --------------------------------------------------------------------

  lemma LifeTwo(t: Trace, a: Rec, b: Rec, sid: nat)
    ensures !About(a, sid) && !About(b, sid) ==> LifeOf(t + [a] + [b], sid) == LifeOf(t, sid)
    ensures About(a, sid) && About(b, sid) ==>
      LifeOf(t + [a] + [b], sid) == LifeStep(LifeStep(LifeOf(t, sid), a), b)
  {
    LifeSnoc(t, a, sid);
    LifeSnoc(t + [a], b, sid);
  }

  /** Two records about `g` leave every other life alone. */
  lemma OthersTwo(t: Trace, a: Rec, b: Rec, g: nat)
    requires forall h: nat :: h != g ==> !About(a, h) && !About(b, h)
    ensures forall h: nat :: h != g ==> LifeOf(t + [a] + [b], h) == LifeOf(t, h)
  {
    forall h: nat | h != g ensures LifeOf(t + [a] + [b], h) == LifeOf(t, h) {
      LifeTwo(t, a, b, h);
    }
  }

  lemma CountTwo(t: Trace, a: Rec, b: Rec)
    ensures Begins(t + [a] + [b]) == Begins(t) + (if a.S? then 1 else 0) + (if b.S? then 1 else 0)
    ensures Ends(t + [a] + [b]) == Ends(t) + (if a.E? then 1 else 0) + (if b.E? then 1 else 0)
    ensures Commits(t + [a] + [b]) ==
      Commits(t) + (if a.R? && !a.flushed then 1 else 0) + (if b.R? && !b.flushed then 1 else 0)
    ensures Flushes(t + [a] + [b]) ==
      Flushes(t) + (if a.R? && a.flushed then 1 else 0) + (if b.R? && b.flushed then 1 else 0)
  {
    CountSnoc(t, a);
    CountSnoc(t + [a], b);
  }

  /** A record that concerns no life, or only labels a living instruction. */
  predicate Quiet(t: Trace, r: Rec) {
    r.Comment? || r.C? || (r.L? && LifeOf(t, r.sid).Alive?)
  }

  lemma QuietLife(t: Trace, r: Rec)
    requires Quiet(t, r)
    ensures forall g: nat :: LifeOf(t + [r], g) == LifeOf(t, g)
    ensures Begins(t + [r]) == Begins(t) && Ends(t + [r]) == Ends(t)
    ensures Commits(t + [r]) == Commits(t) && Flushes(t + [r]) == Flushes(t)
  {
    CountSnoc(t, r);
    forall g: nat ensures LifeOf(t + [r], g) == LifeOf(t, g) {
      LifeSnoc(t, r, g);
    }
  }

  lemma SameLives(t: Trace, u: Trace, active: seq<Op>, retiring: map<nat, Pending>, nextGid: nat)
    requires Lives(t, active, retiring, nextGid)
    requires forall g: nat :: LifeOf(u, g) == LifeOf(t, g)
    ensures Lives(u, active, retiring, nextGid)
  {
    hide LifeOf;
  }

  lemma QuietKeeps(s: State, r: Rec, cycle: int, todo: seq<Event>)
    requires InvWith(s, cycle, todo) && Quiet(s.out, r)
    ensures InvWith(Emit(s, [r]), cycle, todo)
  {
    hide Window, Agenda, EventsOk, Waiting, LifeOf, Lives, Begins, Ends, Commits, Flushes, Quiet;
    QuietLife(s.out, r);
    SameLives(s.out, s.out + [r], s.active, s.retiring, s.nextGid);
  }

  // ---- Stage changes ---------------------------------------------------------------

  /** An active instruction moves to another stage. */
  function Restage(s: State, i: nat, next: Stage): State
    requires i < |s.active|
  {
    var op := s.active[i];
    s.(out := s.out + [E(op.gid, op.stage)] + [S(op.gid, next)], active := s.active[i := op.(stage := next)])
  }

  lemma RestageSame(a: seq<Op>, i: nat, next: Stage)
    requires i < |a|
    ensures var b := a[i := a[i].(stage := next)];
      && (forall j :: 0 <= j < |b| ==> b[j].gid == a[j].gid && b[j].tag == a[j].tag)
      && (forall g: nat :: Member(b, g) <==> Member(a, g))
  {
    var b := a[i := a[i].(stage := next)];
    assert forall j :: 0 <= j < |b| ==> b[j].gid == a[j].gid && b[j].tag == a[j].tag;
  }

  lemma RestageLives(s: State, i: nat, next: Stage)
    requires Window(s.active, s.nextGid) && i < |s.active|
    requires forall g :: g in s.retiring ==> !Member(s.active, g)
    requires Lives(s.out, s.active, s.retiring, s.nextGid)
    ensures Lives(Restage(s, i, next).out, Restage(s, i, next).active, s.retiring, s.nextGid)
  {
    var op := s.active[i];
    LifeTwo(s.out, E(op.gid, op.stage), S(op.gid, next), op.gid);
    OthersTwo(s.out, E(op.gid, op.stage), S(op.gid, next), op.gid);
    RestageSame(s.active, i, next);
    hide LifeOf;
    assert Member(s.active, op.gid);
  }

  lemma RestageKeeps(s: State, i: nat, next: Stage, cycle: int, todo: seq<Event>)
    requires InvWith(s, cycle, todo) && i < |s.active| && !IsCommit(next)
    ensures InvWith(Restage(s, i, next), cycle, todo)
  {
    hide LifeOf, Begins, Ends, Commits, Flushes, Queued, EventsOk, Agenda, Lives;
    RestageLives(s, i, next);
    RestageSame(s.active, i, next);
    CountTwo(s.out, E(s.active[i].gid, s.active[i].stage), S(s.active[i].gid, next));
  }

  lemma EnterKeeps(s: State, i: nat, next: Stage)
    requires Inv(s) && i < |s.active| && !IsCommit(next)
    ensures Inv(Enter(s, i, next))
    ensures var r := Enter(s, i, next);
      && |r.active| == |s.active| && r.active[i].gid == s.active[i].gid && r.lastCycle == s.lastCycle
      && LifeOf(r.out, s.active[i].gid).Alive? && r.stats == s.stats
  {
    hide LifeOf;
    if s.active[i].stage != next {
      RestageKeeps(s, i, next, 0, []);
    }
    hide InvWith, LifeOf;
    ActiveAlive(Enter(s, i, next), i);
  }

  lemma ActiveAlive(s: State, i: nat)
    requires Inv(s) && i < |s.active|
    ensures LifeOf(s.out, s.active[i].gid).Alive? && !IsCommit(s.active[i].stage) && s.active[i].gid < s.nextGid
  {
  }

  // ---- Deferred transitions --------------------------------------------------------

  lemma ScheduleKeeps(s: State, e: Event)
    requires Inv(s) && EventOk(e)
    ensures Inv(Schedule(s, s.lastCycle + 1, e))
  {
    hide Window, Lives, Counted, EventOk;
    var k := s.lastCycle + 1;
    var r := Schedule(s, k, e);
    assert EventsOk(r.scheduled[k]) by {
      assert EventsOk(Deferred(s.scheduled, k));
    }
    forall g | g in s.retiring ensures Queued(r.scheduled, g, s.retiring[g], 0, []) {
      assert Queued(s.scheduled, g, s.retiring[g], 0, []);
    }
  }

  lemma PopAgenda(scheduled: map<int, seq<Event>>, lastCycle: int, cycle: int)
    requires Agenda(scheduled, lastCycle)
    ensures Agenda(scheduled - {cycle}, lastCycle) && EventsOk(Deferred(scheduled, cycle))
  {
    hide EventOk;
  }

  lemma PopQueued(scheduled: map<int, seq<Event>>, g: nat, p: Pending, cycle: int)
    requires Queued(scheduled, g, p, 0, [])
    ensures Queued(scheduled - {cycle}, g, p, cycle, Deferred(scheduled, cycle))
  {
    assert p.due in scheduled;
    if p.due != cycle {
      assert p.due in scheduled - {cycle};
    }
  }

  lemma PopKeeps(s: State, cycle: int)
    requires Inv(s)
    ensures InvWith(Pop(s, cycle), cycle, Deferred(s.scheduled, cycle))
  {
    hide Window, Lives, Counted, Agenda, EventsOk, Queued, Deferred;
    PopAgenda(s.scheduled, s.lastCycle, cycle);
    forall g | g in s.retiring
      ensures Queued(s.scheduled - {cycle}, g, s.retiring[g], cycle, Deferred(s.scheduled, cycle))
    {
      PopQueued(s.scheduled, g, s.retiring[g], cycle);
    }
  }

  lemma RetireLives(s: State, g: nat)
    requires g in s.retiring && !Member(s.active, g) && g < s.nextGid
    requires Lives(s.out, s.active, s.retiring, s.nextGid)
    ensures Lives(s.out + [E(g, s.retiring[g].stage)] + [R(g, s.nextRid, false)], s.active, s.retiring - {g}, s.nextGid)
  {
    var stage := s.retiring[g].stage;
    LifeTwo(s.out, E(g, stage), R(g, s.nextRid, false), g);
    OthersTwo(s.out, E(g, stage), R(g, s.nextRid, false), g);
    hide LifeOf;
    assert LifeOf(s.out, g) == Alive(Some(stage));
  }

  /** A retirement that fires. */
  lemma RetireKeeps(s: State, e: Event, cycle: int, todo: seq<Event>)
    requires InvWith(s, cycle, [e] + todo)
    requires e.Retire? && e.gid in s.retiring && s.retiring[e.gid].stage == e.expected
    ensures InvWith(Fire(s, e), cycle, todo)
  {
    hide Window, Agenda, EventOk, LifeOf, Begins, Ends, Commits, Flushes, Lives;
    RetireLives(s, e.gid);
    CountTwo(s.out, E(e.gid, e.expected), R(e.gid, s.nextRid, false));
    assert |s.retiring - {e.gid}| == |s.retiring| - 1 by {
      assert s.retiring.Keys == (s.retiring - {e.gid}).Keys + {e.gid};
    }
    TodoTail(s, e, cycle, todo, s.retiring - {e.gid});
  }

  lemma TodoTail(s: State, e: Event, cycle: int, todo: seq<Event>, retiring: map<nat, Pending>)
    requires InvWith(s, cycle, [e] + todo)
    requires forall g :: g in retiring ==> g in s.retiring && retiring[g] == s.retiring[g]
    requires forall g :: g in retiring ==> e != Retire(g, retiring[g].stage)
    ensures EventsOk(todo) && EventOk(e)
    ensures Waiting(s.active, retiring, s.scheduled, s.nextGid, cycle, todo)
  {
    hide Window, Lives, Counted, EventOk, Agenda;
    assert forall i :: 0 <= i < |todo| ==> todo[i] == ([e] + todo)[i + 1];
    assert ([e] + todo)[0] == e;
  }

  lemma FireKeeps(s: State, e: Event, cycle: int, todo: seq<Event>)
    requires InvWith(s, cycle, [e] + todo)
    ensures InvWith(Fire(s, e), cycle, todo)
  {
    if e.Retire? && e.gid in s.retiring && s.retiring[e.gid].stage == e.expected {
      RetireKeeps(s, e, cycle, todo);
    } else {
      TodoTail(s, e, cycle, todo, s.retiring);
      hide Window, Agenda, EventsOk, Waiting, Lives, Counted;
      if e.Move? {
        var i := Position(s.active, e.gid);
        if i < |s.active| && s.active[i].stage == e.expected {
          RestageKeeps(s, i, e.next, cycle, todo);
        }
      }
    }
  }

  lemma {:induction false} FireAllKeeps(s: State, cycle: int, todo: seq<Event>)
    requires InvWith(s, cycle, todo)
    ensures Inv(FireAll(s, todo))
    decreases |todo|
  {
    if todo == [] {
      NothingDue(s, cycle);
    } else {
      assert todo == [todo[0]] + todo[1..];
      FireKeeps(s, todo[0], cycle, todo[1..]);
      FireAllKeeps(Fire(s, todo[0]), cycle, todo[1..]);
    }
  }

  lemma NothingDue(s: State, cycle: int)
    requires InvWith(s, cycle, [])
    ensures Inv(s)
  {
    hide Window, Lives, Counted, Agenda;
  }

  lemma ApplyKeeps(s: State, cycle: int)
    requires Inv(s)
    ensures Inv(ApplyScheduled(s, cycle))
  {
    hide Inv, InvWith;
    PopKeeps(s, cycle);
    FireAllKeeps(Pop(s, cycle), cycle, Deferred(s.scheduled, cycle));
  }

  // ---- Leaving the window ----------------------------------------------------------

  function Without(a: seq<Op>, i: nat): seq<Op>
    requires i < |a|
  {
    a[..i] + a[i + 1..]
  }

  lemma WithoutWindow(a: seq<Op>, i: nat, n: nat)
    requires Window(a, n) && i < |a|
    ensures Window(Without(a, i), n)
    ensures forall g: nat :: Member(Without(a, i), g) <==> Member(a, g) && g != a[i].gid
  {
    var b := Without(a, i);
    assert forall j :: 0 <= j < |b| ==> b[j] == a[if j < i then j else j + 1];
    forall g: nat | Member(a, g) && g != a[i].gid ensures Member(b, g) {
      var j :| 0 <= j < |a| && a[j].gid == g;
      assert b[if j < i then j else j - 1] == a[j];
    }
  }

  /** When the instruction in slot `i` leaves, the other lives are as they were. */
  lemma OtherLives(t: Trace, u: Trace, a: seq<Op>, i: nat, retiring: map<nat, Pending>, n: nat)
    requires Window(a, n) && i < |a| && Lives(t, a, retiring, n)
    requires forall g :: g in retiring ==> !Member(a, g)
    requires forall h: nat :: h != a[i].gid ==> LifeOf(u, h) == LifeOf(t, h)
    ensures a[i].gid < n && a[i].gid !in retiring && LifeOf(t, a[i].gid) == Alive(Some(a[i].stage))
    ensures forall j :: 0 <= j < |Without(a, i)| ==>
      LifeOf(u, Without(a, i)[j].gid) == Alive(Some(Without(a, i)[j].stage))
    ensures forall g :: g in retiring ==> LifeOf(u, g) == Alive(Some(retiring[g].stage))
    ensures forall g: nat :: g < n && !Member(Without(a, i), g) && g !in retiring && g != a[i].gid ==>
      LifeOf(u, g).Closed?
    ensures forall g: nat :: g >= n ==> LifeOf(u, g).Unborn?
  {
    hide LifeOf;
    assert Member(a, a[i].gid);
    WithoutWindow(a, i, n);
    var b := Without(a, i);
    forall j | 0 <= j < |b| ensures LifeOf(u, b[j].gid) == Alive(Some(b[j].stage)) {
      var k := if j < i then j else j + 1;
      assert b[j] == a[k] && a[k].gid != a[i].gid;
    }
  }

  lemma FlushLives(s: State, i: nat)
    requires Window(s.active, s.nextGid) && i < |s.active|
    requires forall g :: g in s.retiring ==> !Member(s.active, g)
    requires Lives(s.out, s.active, s.retiring, s.nextGid)
    ensures Lives(FlushOne(s, i).out, Without(s.active, i), s.retiring, s.nextGid)
  {
    hide LifeOf, Window, Without;
    var op := s.active[i];
    var u := FlushOne(s, i).out;
    LifeTwo(s.out, E(op.gid, op.stage), R(op.gid, 0, true), op.gid);
    OthersTwo(s.out, E(op.gid, op.stage), R(op.gid, 0, true), op.gid);
    OtherLives(s.out, u, s.active, i, s.retiring, s.nextGid);
    hide Member;
    assert LifeOf(u, op.gid).Closed?;
  }

  lemma FlushOneKeeps(s: State, i: nat)
    requires Inv(s) && i < |s.active|
    ensures Inv(FlushOne(s, i))
  {
    hide Window, LifeOf, Begins, Ends, Commits, Flushes, Queued, EventsOk, Agenda, Lives;
    WithoutWindow(s.active, i, s.nextGid);
    FlushLives(s, i);
    CountTwo(s.out, E(s.active[i].gid, s.active[i].stage), R(s.active[i].gid, 0, true));
  }

  lemma {:induction false} FlushKeeps(s: State, i: nat, n: nat)
    requires Inv(s) && i + n <= |s.active|
    ensures Inv(Flush(s, i, n))
    ensures Flush(s, i, n).active == s.active[..i] + s.active[i + n..]
    ensures Flush(s, i, n).lastCycle == s.lastCycle
    decreases n
  {
    hide Inv;
    if n > 0 {
      FlushOneKeeps(s, i);
      FlushKeeps(FlushOne(s, i), i, n - 1);
    }
  }

  lemma DepartLives(s: State, i: nat, stage: Stage)
    requires Window(s.active, s.nextGid) && i < |s.active|
    requires forall g :: g in s.retiring ==> !Member(s.active, g)
    requires Lives(s.out, s.active, s.retiring, s.nextGid)
    ensures
      var g := s.active[i].gid;
      var r := s.retiring[g := Pending(stage, s.lastCycle + 1)];
      Lives(Restage(s, i, stage).out + [L(g, 2)], Without(s.active, i), r, s.nextGid)
  {
    hide LifeOf, Window, Without;
    var op := s.active[i];
    var u := Restage(s, i, stage).out;
    LifeTwo(s.out, E(op.gid, op.stage), S(op.gid, stage), op.gid);
    OthersTwo(s.out, E(op.gid, op.stage), S(op.gid, stage), op.gid);
    OtherLives(s.out, u, s.active, i, s.retiring, s.nextGid);
    QuietLife(u, L(op.gid, 2));
    hide Member;
    assert LifeOf(u, op.gid) == Alive(Some(stage));
  }

  lemma DepartWaiting(s: State, i: nat, stage: Stage)
    requires Inv(s) && i < |s.active| && IsCommit(stage)
    ensures var g := s.active[i].gid;
      var k := s.lastCycle + 1;
      var scheduled := s.scheduled[k := Deferred(s.scheduled, k) + [Retire(g, stage)]];
      && Waiting(Without(s.active, i), s.retiring[g := Pending(stage, k)], scheduled, s.nextGid, 0, [])
      && Agenda(scheduled, s.lastCycle)
  {
    var g := s.active[i].gid;
    var k := s.lastCycle + 1;
    ScheduleKeeps(s, Retire(g, stage));
    WithoutWindow(s.active, i, s.nextGid);
    hide Lives, Counted, EventOk, EventsOk;
  }

  lemma DepartCounts(s: State, i: nat, stage: Stage)
    requires i < |s.active| && s.active[i].gid !in s.retiring
    requires Counted(s.out, |s.active|, |s.retiring|, s.nextGid, s.nextRid, s.stats)
    ensures
      var g := s.active[i].gid;
      var r := s.retiring[g := Pending(stage, s.lastCycle + 1)];
      Counted(Restage(s, i, stage).out + [L(g, 2)], |s.active| - 1, |r|, s.nextGid, s.nextRid,
        s.stats.(committed := s.stats.committed + 1))
  {
    hide Begins, Ends, Commits, Flushes;
    var g := s.active[i].gid;
    CountTwo(s.out, E(g, s.active[i].stage), S(g, stage));
    CountSnoc(Restage(s, i, stage).out, L(g, 2));
    assert s.retiring[g := Pending(stage, s.lastCycle + 1)].Keys == s.retiring.Keys + {g};
  }

  lemma DepartIs(s: State, i: nat, stage: Stage)
    requires i < |s.active| && s.active[i].stage != stage
    ensures
      var g := s.active[i].gid;
      var k := s.lastCycle + 1;
      Depart(Enter(s, i, stage), i) == s.(
        out := Restage(s, i, stage).out + [L(g, 2)],
        active := Without(s.active, i),
        retiring := s.retiring[g := Pending(stage, k)],
        scheduled := s.scheduled[k := Deferred(s.scheduled, k) + [Retire(g, stage)]],
        stats := s.stats.(committed := s.stats.committed + 1))
  {
    var a := s.active[i := s.active[i].(stage := stage)];
    assert Without(a, i) == Without(s.active, i);
  }

  lemma CommitOneKeeps(s: State, i: nat, stage: Stage)
    requires Inv(s) && i < |s.active| && IsCommit(stage)
    ensures Inv(Depart(Enter(s, i, stage), i))
    ensures Depart(Enter(s, i, stage), i).lastCycle == s.lastCycle
    ensures Depart(Enter(s, i, stage), i).active == Without(s.active, i)
  {
    var op := s.active[i];
    assert op.stage != stage && op.gid !in s.retiring by {
      assert Member(s.active, op.gid);
    }
    DepartLives(s, i, stage);
    DepartWaiting(s, i, stage);
    DepartCounts(s, i, stage);
    WithoutWindow(s.active, i, s.nextGid);
    DepartIs(s, i, stage);
    hide LifeOf, Counted, EventsOk, Agenda, Lives, Waiting, Window, Depart, Enter, Restage, Without, Deferred;
    assert |Without(s.active, i)| == |s.active| - 1 by {
      WithoutLength(s.active, i);
    }
  }

  lemma WithoutLength(a: seq<Op>, i: nat)
    requires i < |a|
    ensures |Without(a, i)| == |a| - 1
  {
  }

  // ---- Entering the window ---------------------------------------------------------

  function Birth(t: Trace, g: nat, stage: Stage): Trace {
    t + [I(g, g)] + [L(g, 0)] + [L(g, 1)] + [S(g, stage)]
  }

  lemma BirthLives(t: Trace, g: nat, stage: Stage)
    requires LifeOf(t, g).Unborn?
    ensures LifeOf(Birth(t, g, stage), g) == Alive(Some(stage))
    ensures forall h: nat :: h != g ==> LifeOf(Birth(t, g, stage), h) == LifeOf(t, h)
    ensures Begins(Birth(t, g, stage)) == Begins(t) + 1 && Ends(Birth(t, g, stage)) == Ends(t)
    ensures Commits(Birth(t, g, stage)) == Commits(t) && Flushes(Birth(t, g, stage)) == Flushes(t)
  {
    LifeTwo(t, I(g, g), L(g, 0), g);
    OthersTwo(t, I(g, g), L(g, 0), g);
    CountTwo(t, I(g, g), L(g, 0));
    var u := t + [I(g, g)] + [L(g, 0)];
    LifeTwo(u, L(g, 1), S(g, stage), g);
    OthersTwo(u, L(g, 1), S(g, stage), g);
    CountTwo(u, L(g, 1), S(g, stage));
  }

  lemma AppendWindow(s: State, op: Op)
    requires Window(s.active, s.nextGid) && Waiting(s.active, s.retiring, s.scheduled, s.nextGid, 0, [])
    requires op.gid == s.nextGid && !IsCommit(op.stage)
    requires forall i :: 0 <= i < |s.active| ==> s.active[i].tag != op.tag
    ensures Window(s.active + [op], s.nextGid + 1)
    ensures Waiting(s.active + [op], s.retiring, s.scheduled, s.nextGid + 1, 0, [])
    ensures forall h: nat :: Member(s.active + [op], h) <==> Member(s.active, h) || h == op.gid
  {
    hide Queued;
    var a := s.active + [op];
    assert forall j :: 0 <= j < |s.active| ==> a[j] == s.active[j];
    assert a[|s.active|] == op;
  }

  lemma AppendLives(s: State, op: Op)
    requires Lives(s.out, s.active, s.retiring, s.nextGid) && op.gid == s.nextGid
    requires Window(s.active, s.nextGid) && Waiting(s.active, s.retiring, s.scheduled, s.nextGid, 0, [])
    requires forall h: nat :: Member(s.active + [op], h) <==> Member(s.active, h) || h == op.gid
    ensures Lives(Birth(s.out, op.gid, op.stage), s.active + [op], s.retiring, s.nextGid + 1)
    ensures var t := Birth(s.out, op.gid, op.stage);
      && Begins(t) == Begins(s.out) + 1 && Ends(t) == Ends(s.out)
      && Commits(t) == Commits(s.out) && Flushes(t) == Flushes(s.out)
  {
    hide LifeOf, Birth, Queued;
    BirthLives(s.out, op.gid, op.stage);
    var a := s.active + [op];
    assert forall j :: 0 <= j < |s.active| ==> a[j] == s.active[j];
  }

  lemma AllocateKeeps(s: State, stage: Stage, d: Dispatched)
    requires Inv(s) && !IsCommit(stage)
    requires forall i :: 0 <= i < |s.active| ==> s.active[i].tag != d.tag
    ensures Inv(Allocate(s, stage, d))
  {
    hide LifeOf, Begins, Ends, Commits, Flushes, EventsOk, Agenda, Waiting, Lives, Window, Birth;
    var g := s.nextGid;
    var op := Op(g, d.tag, d.fu, stage);
    AppendWindow(s, op);
    AppendLives(s, op);
    var r := s.(out := Birth(s.out, g, stage), nextGid := g + 1, active := s.active + [op],
                stats := s.stats.(dispatched := s.stats.dispatched + 1));
    assert Inv(r);
    ScheduleKeeps(r, Move(g, stage, Iq));
    AllocateIs(s, stage, d);
  }

  lemma AllocateIs(s: State, stage: Stage, d: Dispatched)
    ensures Allocate(s, stage, d) == Schedule(
      s.(out := Birth(s.out, s.nextGid, stage), nextGid := s.nextGid + 1,
         active := s.active + [Op(s.nextGid, d.tag, d.fu, stage)],
         stats := s.stats.(dispatched := s.stats.dispatched + 1)),
      s.lastCycle + 1, Move(s.nextGid, stage, Iq))
  {
  }
}
