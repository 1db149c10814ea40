/**
  Kanata 0004 traces as sequences of records, what a well-formed instruction
  lifetime is, and what `validate_kanata` counts
  (tools/kanata/tb_dump_v2_to_kanata.py).
*/
module KanataTrace {
  import opened Wrappers

  /** The first place where `p` holds, or the length. */
  function FirstWhere<T(!new)>(s: seq<T>, p: T -> bool): (i: nat)
    ensures i <= |s|
    ensures i < |s| ==> p(s[i])
    ensures forall j :: 0 <= j < i ==> !p(s[j])
  {
    if s == [] then 0
    else if p(s[0]) then 0
    else
      var i := FirstWhere(s[1..], p);
      assert forall j :: 0 < j < i + 1 ==> s[j] == s[1..][j - 1];
      i + 1
  }

  datatype Stage =
    | Rn0 | Rn1 | Iq | Ex0 | Ex1 | ExF | LS | Wb0 | Wb1 | Rob | Cm0 | Cm1
    | DRn0 | DRn1 | IqRob | Fl // only the legacy converter writes these

  /** One line of a trace; comments carry no meaning. */
  datatype Rec =
    | C(delta: int)
    | I(sid: nat, gid: nat)
    | L(sid: nat, kind: nat)
    | S(sid: nat, stage: Stage)
    | E(sid: nat, stage: Stage)
    | R(sid: nat, rid: nat, flushed: bool)
    | Comment

  type Trace = seq<Rec>

  // ---- Lifetimes -----------------------------------------------------------------

  /** The life of one sid: unborn, alive with at most one open stage, closed once, or broken. */
  datatype Life = Unborn | Alive(open: Option<Stage>) | Closed(flushed: bool, rid: nat) | Broken

  predicate About(r: Rec, sid: nat) {
    !r.C? && !r.Comment? && r.sid == sid
  }

  function LifeStep(l: Life, r: Rec): Life {
    match r
    case I(_, _) => if l.Unborn? then Alive(None) else Broken
    case L(_, _) => if l.Alive? then l else Broken
    case S(_, st) => if l == Alive(None) then Alive(Some(st)) else Broken
    case E(_, st) => if l == Alive(Some(st)) then Alive(None) else Broken
    case R(_, rid, flushed) => if l == Alive(None) then Closed(flushed, rid) else Broken
    case _ => l
  }

  function LifeOf(t: Trace, sid: nat): Life {
    if t == [] then Unborn
    else
      var l := LifeOf(t[..|t| - 1], sid);
      if About(t[|t| - 1], sid) then LifeStep(l, t[|t| - 1]) else l
  }

  lemma LifeSnoc(t: Trace, r: Rec, sid: nat)
    ensures LifeOf(t + [r], sid) == if About(r, sid) then LifeStep(LifeOf(t, sid), r) else LifeOf(t, sid)
  {
    assert (t + [r])[..|t|] == t;
  }

  // ---- Counting --------------------------------------------------------------------

  function Begins(t: Trace): nat {
    if t == [] then 0 else Begins(t[..|t| - 1]) + if t[|t| - 1].S? then 1 else 0
  }

  function Ends(t: Trace): nat {
    if t == [] then 0 else Ends(t[..|t| - 1]) + if t[|t| - 1].E? then 1 else 0
  }

  function Commits(t: Trace): nat {
    if t == [] then 0 else Commits(t[..|t| - 1]) + if t[|t| - 1].R? && !t[|t| - 1].flushed then 1 else 0
  }

  function Flushes(t: Trace): nat {
    if t == [] then 0 else Flushes(t[..|t| - 1]) + if t[|t| - 1].R? && t[|t| - 1].flushed then 1 else 0
  }

  function Initialized(t: Trace): set<nat> {
    if t == [] then {} else Initialized(t[..|t| - 1]) + if t[|t| - 1].I? then {t[|t| - 1].sid} else {}
  }

  function Retired(t: Trace): set<nat> {
    if t == [] then {} else Retired(t[..|t| - 1]) + if t[|t| - 1].R? then {t[|t| - 1].sid} else {}
  }

  lemma CountSnoc(t: Trace, r: Rec)
    ensures Begins(t + [r]) == Begins(t) + (if r.S? then 1 else 0)
    ensures Ends(t + [r]) == Ends(t) + (if r.E? then 1 else 0)
    ensures Commits(t + [r]) == Commits(t) + (if r.R? && !r.flushed then 1 else 0)
    ensures Flushes(t + [r]) == Flushes(t) + (if r.R? && r.flushed then 1 else 0)
    ensures Initialized(t + [r]) == Initialized(t) + (if r.I? then {r.sid} else {})
    ensures Retired(t + [r]) == Retired(t) + (if r.R? then {r.sid} else {})
  {
    assert (t + [r])[..|t|] == t;
  }

  /** The counters of `validate_kanata`. */
  datatype Counts = Counts(
    initialized: set<nat>, retired: set<nat>, stageBegin: nat, stageEnd: nat, commits: nat, flushes: nat)

  function CountsOf(t: Trace): Counts {
    Counts(Initialized(t), Retired(t), Begins(t), Ends(t), Commits(t), Flushes(t))
  }

  method Validate(t: Trace) returns (c: Counts)
    ensures c == CountsOf(t)
  {
    c := Counts({}, {}, 0, 0, 0, 0);
    var i := 0;
    while i < |t|
      invariant i <= |t| && c == CountsOf(t[..i])
    {
      match t[i] {
        case I(sid, _) => c := c.(initialized := c.initialized + {sid});
        case S(_, _) => c := c.(stageBegin := c.stageBegin + 1);
        case E(_, _) => c := c.(stageEnd := c.stageEnd + 1);
        case R(sid, _, flushed) =>
          c := c.(retired := c.retired + {sid});
          if flushed {
            c := c.(flushes := c.flushes + 1);
          } else {
            c := c.(commits := c.commits + 1);
          }
        case _ =>
      }
      assert t[..i + 1] == t[..i] + [t[i]];
      CountSnoc(t[..i], t[i]);
      i := i + 1;
    }
    assert t[..|t|] == t;
  }

  /** How often `sid` is initialized, and how often retired. */
  function Births(t: Trace, sid: nat): nat {
    if t == [] then 0 else Births(t[..|t| - 1], sid) + if t[|t| - 1].I? && t[|t| - 1].sid == sid then 1 else 0
  }

  function Deaths(t: Trace, sid: nat): nat {
    if t == [] then 0 else Deaths(t[..|t| - 1], sid) + if t[|t| - 1].R? && t[|t| - 1].sid == sid then 1 else 0
  }

  /** A closed life has exactly one I and one R. */
  lemma {:induction false} LifeCounts(t: Trace, sid: nat)
    requires !LifeOf(t, sid).Broken?
    ensures Births(t, sid) == (if LifeOf(t, sid).Unborn? then 0 else 1)
    ensures Deaths(t, sid) == (if LifeOf(t, sid).Closed? then 1 else 0)
    decreases |t|
  {
    if t != [] {
      LifeCounts(t[..|t| - 1], sid);
    }
  }

  /** A life that is not broken says whether the sid was initialized and retired. */
  lemma {:induction false} LifeSets(t: Trace, sid: nat)
    requires !LifeOf(t, sid).Broken?
    ensures sid in Initialized(t) <==> !LifeOf(t, sid).Unborn?
    ensures sid in Retired(t) <==> LifeOf(t, sid).Closed?
    decreases |t|
  {
    if t != [] {
      LifeSets(t[..|t| - 1], sid);
    }
  }

  // ---- Fates -----------------------------------------------------------------------

  /** How an instruction ended, judged by its R records alone. */
  datatype Fate = Open | Done(flushed: bool, rid: nat) | Twice

  function FateOf(t: Trace, sid: nat): Fate {
    if t == [] then Open
    else
      var f := FateOf(t[..|t| - 1], sid);
      var r := t[|t| - 1];
      if r.R? && r.sid == sid then (if f.Open? then Done(r.flushed, r.rid) else Twice) else f
  }

  lemma FateSnoc(t: Trace, r: Rec, sid: nat)
    ensures FateOf(t + [r], sid) ==
      if r.R? && r.sid == sid then (if FateOf(t, sid).Open? then Done(r.flushed, r.rid) else Twice) else FateOf(t, sid)
  {
    assert (t + [r])[..|t|] == t;
  }

  lemma {:induction false} FateOfLife(t: Trace, sid: nat)
    requires !LifeOf(t, sid).Broken?
    ensures FateOf(t, sid) ==
      match LifeOf(t, sid) { case Closed(flushed, rid) => Done(flushed, rid) case _ => Open }
    decreases |t|
  {
    if t != [] {
      FateOfLife(t[..|t| - 1], sid);
    }
  }

  /** `u` continues `t` without an R record. */
  predicate Calm(t: Trace, u: Trace) {
    |t| <= |u| && u[..|t|] == t && forall i :: |t| <= i < |u| ==> !u[i].R?
  }

  lemma {:induction false} CalmFates(t: Trace, u: Trace)
    requires Calm(t, u)
    ensures forall sid: nat :: FateOf(u, sid) == FateOf(t, sid)
    decreases |u|
  {
    if |u| == |t| {
      assert u == t;
    } else {
      var v := u[..|u| - 1];
      assert v[..|t|] == u[..|t|];
      CalmFates(t, v);
    }
  }
}
