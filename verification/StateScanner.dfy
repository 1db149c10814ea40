/**
  The number scanner of coremark/core_state.c: its automaton, the languages
  its states stand for, and the pointer-advancing loop.
*/
module StateScanner {

  type Byte = bv8

  const NUL: Byte := 0
  const COMMA: Byte := 0x2c

  datatype State = Start | Invalid | S1 | S2 | Int | Float | Exponent | Scientific

  function Index(s: State): (i: nat)
    ensures i < 8
  {
    match s
    case Start => 0 case Invalid => 1 case S1 => 2 case S2 => 3
    case Int => 4 case Float => 5 case Exponent => 6 case Scientific => 7
  }

  // ---- Symbols ---------------------------------------------------------------------

  predicate IsDigit(b: Byte) { 0x30 <= b <= 0x39 }
  predicate IsSign(b: Byte) { b == 0x2b || b == 0x2d }
  predicate IsDot(b: Byte) { b == 0x2e }
  predicate IsExp(b: Byte) { b == 0x45 || b == 0x65 }
  predicate Ends(b: Byte) { b == NUL || b == COMMA }

  lemma SymbolsApart(b: Byte)
    ensures IsDigit(b) ==> !IsSign(b) && !IsDot(b) && !IsExp(b) && !Ends(b)
    ensures IsSign(b) ==> !IsDot(b) && !IsExp(b) && !Ends(b)
    ensures IsDot(b) ==> !IsExp(b) && !Ends(b)
    ensures IsExp(b) ==> !Ends(b)
  {
  }

  // ---- The automaton ---------------------------------------------------------------

  function Next(s: State, b: Byte): State {
    match s
    case Start => if IsDigit(b) then Int else if IsSign(b) then S1 else if IsDot(b) then Float else Invalid
    case S1 => if IsDigit(b) then Int else if IsDot(b) then Float else Invalid
    case Int => if IsDot(b) then Float else if !IsDigit(b) then Invalid else Int
    case Float => if IsExp(b) then S2 else if !IsDigit(b) then Invalid else Float
    case S2 => if IsSign(b) then Exponent else Invalid
    case Exponent => if IsDigit(b) then Scientific else Invalid
    case Scientific => if !IsDigit(b) then Invalid else Scientific
    case Invalid => Invalid
  }

  function RunFrom(s: State, t: seq<Byte>): State {
    if t == [] then s else Next(RunFrom(s, t[..|t| - 1]), t[|t| - 1])
  }

  function Run(t: seq<Byte>): State {
    RunFrom(Start, t)
  }

  lemma RunSnoc(s: State, t: seq<Byte>, b: Byte)
    ensures RunFrom(s, t + [b]) == Next(RunFrom(s, t), b)
  {
    assert (t + [b])[..|t|] == t;
  }

  lemma {:induction false} RunConcat(s: State, t: seq<Byte>, u: seq<Byte>)
    ensures RunFrom(s, t + u) == RunFrom(RunFrom(s, t), u)
    decreases |u|
  {
    if u == [] {
      assert t + u == t;
    } else {
      var n := |u| - 1;
      RunConcat(s, t, u[..n]);
      assert t + u == (t + u[..n]) + [u[n]];
      RunSnoc(s, t + u[..n], u[n]);
    }
  }

  // ---- Languages -------------------------------------------------------------------

  predicate Digits(t: seq<Byte>) {
    forall i :: 0 <= i < |t| ==> IsDigit(t[i])
  }

  /** The length of the leading sign. */
  function SignLength(t: seq<Byte>): (k: nat)
    ensures k <= |t| && k <= 1
  {
    if t != [] && IsSign(t[0]) then 1 else 0
  }

  predicate SignedDigits(t: seq<Byte>) {
    Digits(t[SignLength(t)..])
  }

  predicate InInt(t: seq<Byte>) {
    SignedDigits(t) && |t| > SignLength(t)
  }

  predicate FloatSplit(t: seq<Byte>, d: nat) {
    d < |t| && SignedDigits(t[..d]) && IsDot(t[d]) && Digits(t[d + 1..])
  }

  ghost predicate InFloat(t: seq<Byte>) {
    exists d: nat :: FloatSplit(t, d)
  }

  /** A float, an exponent letter at `e`. */
  ghost predicate ExpSplit(t: seq<Byte>, e: nat) {
    e < |t| && InFloat(t[..e]) && IsExp(t[e])
  }

  ghost predicate InS2(t: seq<Byte>) {
    t != [] && ExpSplit(t, |t| - 1)
  }

  ghost predicate InExponent(t: seq<Byte>) {
    |t| >= 2 && ExpSplit(t, |t| - 2) && IsSign(t[|t| - 1])
  }

  ghost predicate SciSplit(t: seq<Byte>, e: nat) {
    e + 2 < |t| && ExpSplit(t, e) && IsSign(t[e + 1]) && Digits(t[e + 2..])
  }

  ghost predicate InScientific(t: seq<Byte>) {
    exists e: nat :: SciSplit(t, e)
  }

  predicate InS1(t: seq<Byte>) {
    |t| == 1 && IsSign(t[0])
  }

  /** The words of each state, without mention of the automaton. */
  ghost predicate In(s: State, t: seq<Byte>) {
    match s
    case Start => t == []
    case S1 => InS1(t)
    case Int => InInt(t)
    case Float => InFloat(t)
    case S2 => InS2(t)
    case Exponent => InExponent(t)
    case Scientific => InScientific(t)
    case Invalid => !Viable(t)
  }

  ghost predicate IsNumber(t: seq<Byte>) {
    InInt(t) || InFloat(t) || InScientific(t)
  }

  /** Some continuation makes it a number. */
  ghost predicate Viable(t: seq<Byte>) {
    exists u: seq<Byte> :: IsNumber(t + u)
  }

  // ---- Words lead to their states ----------------------------------------------------

  lemma SignedDigitsPrefix(t: seq<Byte>)
    requires SignedDigits(t) && |t| > 1
    ensures var before := t[..|t| - 1];
      SignLength(before) == SignLength(t) && SignedDigits(before) && IsDigit(t[|t| - 1])
  {
    hide IsDigit, IsSign;
    var n, k := |t| - 1, SignLength(t);
    var before := t[..n];
    assert forall i :: 0 <= i < n - k ==> before[k..][i] == t[k..][i];
    assert t[k..][n - k] == t[n];
  }

  lemma {:induction false} RunSignedDigits(t: seq<Byte>)
    requires SignedDigits(t)
    ensures Run(t) == if |t| > SignLength(t) then Int else if t == [] then Start else S1
    decreases |t|
  {
    if |t| == 1 {
      RunSnoc(Start, [], t[0]);
      assert t == [] + [t[0]];
      SymbolsApart(t[0]);
    } else if t != [] {
      hide IsDigit, IsSign, IsDot, IsExp, SignedDigits;
      var n := |t| - 1;
      SignedDigitsPrefix(t);
      RunSignedDigits(t[..n]);
      assert t == t[..n] + [t[n]];
      RunSnoc(Start, t[..n], t[n]);
      SymbolsApart(t[n]);
    }
  }

  /** Digits keep the automaton where it is. */
  lemma {:induction false} RunDigits(s: State, t: seq<Byte>)
    requires Digits(t) && (s == Float || s == Scientific)
    ensures RunFrom(s, t) == s
    decreases |t|
  {
    hide IsDigit, IsDot, IsExp;
    if t != [] {
      SymbolsApart(t[|t| - 1]);
      RunDigits(s, t[..|t| - 1]);
    }
  }

  lemma FloatRuns(t: seq<Byte>)
    requires InFloat(t)
    ensures Run(t) == Float
  {
    var d: nat :| FloatSplit(t, d);
    hide IsDigit, IsDot, IsExp, IsSign, Digits, SignedDigits;
    SymbolsApart(t[d]);
    RunSignedDigits(t[..d]);
    RunSnoc(Start, t[..d], t[d]);
    assert t == (t[..d] + [t[d]]) + t[d + 1..];
    RunConcat(Start, t[..d] + [t[d]], t[d + 1..]);
    RunDigits(Float, t[d + 1..]);
  }

  lemma ExpRuns(t: seq<Byte>, e: nat)
    requires ExpSplit(t, e)
    ensures Run(t[..e + 1]) == S2
  {
    FloatRuns(t[..e]);
    assert t[..e + 1] == t[..e] + [t[e]];
    RunSnoc(Start, t[..e], t[e]);
  }

  lemma ExponentRuns(t: seq<Byte>, e: nat)
    requires ExpSplit(t, e) && e + 1 < |t| && IsSign(t[e + 1])
    ensures Run(t[..e + 2]) == Exponent
  {
    ExpRuns(t, e);
    assert t[..e + 2] == t[..e + 1] + [t[e + 1]];
    RunSnoc(Start, t[..e + 1], t[e + 1]);
  }

  lemma ScientificRuns(t: seq<Byte>)
    requires InScientific(t)
    ensures Run(t) == Scientific
  {
    var e: nat :| SciSplit(t, e);
    hide IsExp, IsSign, InFloat;
    var digits := t[e + 2..];
    ExponentRuns(t, e);
    assert t == t[..e + 2] + digits;
    RunConcat(Start, t[..e + 2], digits);
    assert digits == [digits[0]] + digits[1..];
    RunConcat(Exponent, [digits[0]], digits[1..]);
    RunSnoc(Exponent, [], digits[0]);
    assert [] + [digits[0]] == [digits[0]];
    RunDigits(Scientific, digits[1..]);
  }

  lemma WordsRun(s: State, t: seq<Byte>)
    requires s != Invalid && In(s, t)
    ensures Run(t) == s
  {
    hide FloatSplit, SciSplit, Viable;
    match s {
      case Start =>
      case S1 =>
        assert t == [] + [t[0]];
        SymbolsApart(t[0]);
        RunSnoc(Start, [], t[0]);
      case Int => RunSignedDigits(t);
      case Float => FloatRuns(t);
      case S2 =>
        ExpRuns(t, |t| - 1);
        assert t[..|t|] == t;
      case Exponent =>
        ExponentRuns(t, |t| - 2);
        assert t[..|t|] == t;
      case Scientific => ScientificRuns(t);
    }
  }

  // ---- States come from their words --------------------------------------------------

  /** A word of `s` followed by a symbol is a word of the next state. */
  lemma InStep(s: State, t: seq<Byte>, b: Byte)
    requires s != Invalid && In(s, t) && Next(s, b) != Invalid
    ensures In(Next(s, b), t + [b])
  {
    hide Viable;
    var u := t + [b];
    match s {
      case Start => StartStep(b);
      case S1 => SignStep(t, b);
      case Int => SignStep(t, b);
      case Float => FloatStep(t, b);
      case S2 =>
        assert u[..|u| - 2] == t[..|t| - 1];
      case Exponent =>
        var e := |t| - 2;
        assert u[..e] == t[..e] && u[e + 2..] == [b];
        assert SciSplit(u, e);
      case Scientific =>
        var e: nat :| SciSplit(t, e);
        assert u[..e] == t[..e] && u[e + 2..] == t[e + 2..] + [b];
        assert SciSplit(u, e);
    }
  }

  lemma StartStep(b: Byte)
    requires Next(Start, b) != Invalid
    ensures In(Next(Start, b), [] + [b])
  {
    hide Viable;
    var u: seq<Byte> := [] + [b];
    assert u == [b];
    SymbolsApart(b);
    if IsDot(b) {
      assert FloatSplit(u, 0);
    }
  }

  lemma SignStep(t: seq<Byte>, b: Byte)
    requires t != [] && SignedDigits(t) && (IsDigit(b) || IsDot(b))
    ensures IsDigit(b) ==> InInt(t + [b])
    ensures IsDot(b) ==> InFloat(t + [b])
  {
    var u := t + [b];
    var k := SignLength(t);
    assert SignLength(u) == k;
    assert u[k..] == t[k..] + [b];
    if IsDot(b) {
      assert u[..|t|] == t;
      assert FloatSplit(u, |t|);
    }
  }

  lemma FloatStep(t: seq<Byte>, b: Byte)
    requires InFloat(t) && (IsDigit(b) || IsExp(b))
    ensures IsDigit(b) ==> InFloat(t + [b])
    ensures IsExp(b) ==> InS2(t + [b])
  {
    var d: nat :| FloatSplit(t, d);
    var u := t + [b];
    assert u[..|t|] == t;
    if IsDigit(b) {
      assert u[..d] == t[..d] && u[d + 1..] == t[d + 1..] + [b];
      assert FloatSplit(u, d);
    }
  }

  lemma {:induction false} StatesAreWords(t: seq<Byte>)
    ensures Run(t) != Invalid ==> In(Run(t), t)
    decreases |t|
  {
    hide In, Next;
    if t == [] {
      EmptyIn();
    } else {
      var before, b := t[..|t| - 1], t[|t| - 1];
      StatesAreWords(before);
      assert t == before + [b];
      RunSnoc(Start, before, b);
      InvalidStays(b);
      if Run(t) != Invalid {
        InStep(Run(before), before, b);
      }
    }
  }

  lemma EmptyIn()
    ensures In(Start, [])
  {
  }

  lemma InvalidStays(b: Byte)
    ensures Next(Invalid, b) == Invalid
  {
  }

  lemma {:induction false} RunInvalid(t: seq<Byte>)
    ensures RunFrom(Invalid, t) == Invalid
    decreases |t|
  {
    if t != [] {
      RunInvalid(t[..|t| - 1]);
    }
  }

  // ---- Viability -------------------------------------------------------------------

  const ONE: Byte := 0x31
  const PLUS: Byte := 0x2b

  /** What completes a word of each state to a number. */
  function Completion(s: State): seq<Byte> {
    match s
    case Start => [ONE]
    case S1 => [ONE]
    case S2 => [PLUS, ONE]
    case Exponent => [ONE]
    case _ => []
  }

  lemma NumberRuns(t: seq<Byte>)
    ensures IsNumber(t) <==> Run(t) == Int || Run(t) == Float || Run(t) == Scientific
  {
    hide InInt, InFloat, InScientific, Run;
    StatesAreWords(t);
    if InInt(t) { WordsRun(Int, t); }
    if InFloat(t) { WordsRun(Float, t); }
    if InScientific(t) { WordsRun(Scientific, t); }
  }

  lemma ViableIff(t: seq<Byte>)
    ensures Viable(t) <==> Run(t) != Invalid
  {
    hide IsNumber;
    if Run(t) == Invalid {
      forall u: seq<Byte> ensures !IsNumber(t + u) {
        RunConcat(Start, t, u);
        RunInvalid(u);
        NumberRuns(t + u);
      }
    } else {
      var u := Completion(Run(t));
      RunConcat(Start, t, u);
      Completes(Run(t));
      NumberRuns(t + u);
    }
  }

  lemma Completes(s: State)
    requires s != Invalid
    ensures var r := RunFrom(s, Completion(s));
      r == Int || r == Float || r == Scientific
  {
    if s == S2 {
      assert Completion(s)[..1] == [PLUS];
      RunSnoc(s, [], PLUS);
      assert [] + [PLUS] == [PLUS];
    } else if s == Start || s == S1 || s == Exponent {
      RunSnoc(s, [], ONE);
      assert [] + [ONE] == [ONE];
    }
  }

  /** A state is reached exactly by the words of its language. */
  lemma Language(s: State, t: seq<Byte>)
    ensures Run(t) == s <==> In(s, t)
  {
    ViableIff(t);
    StatesAreWords(t);
    if s != Invalid && In(s, t) {
      WordsRun(s, t);
    }
  }

  // ---- Transition counts -------------------------------------------------------------

  /** How often the automaton leaves state `s` while reading `t`. */
  function Leaves(t: seq<Byte>, s: State): nat {
    if t == [] then 0
    else Leaves(t[..|t| - 1], s) + if Run(t[..|t| - 1]) == s && Run(t) != s then 1 else 0
  }

  /**
    What a token adds to each counter: the departures from a state.  Entering
    Invalid counts only from Start and Scientific, and leaving Scientific is
    counted there alone.
  */
  function Share(t: seq<Byte>, s: State): nat {
    match s
    case Scientific => 0
    case Invalid => Leaves(t, Scientific) +
      if Leaves(t, Start) > 0 && Run(t) == Invalid && |t| == 1 then 1 else 0
    case _ => Leaves(t, s)
  }

  /** The counter increments of one symbol. */
  function Bump(from: State, to: State, s: State): nat {
    match s
    case Scientific => 0
    case Invalid => if to == Invalid && (from == Start || from == Scientific) then 1 else 0
    case _ => if from == s && to != s then 1 else 0
  }

  /** Every counter has grown by the token's share. */
  predicate Tallied(was: seq<nat>, now: seq<nat>, t: seq<Byte>) {
    |was| == 8 && |now| == 8 && forall s: State :: now[Index(s)] == was[Index(s)] + Share(t, s)
  }

  lemma TalliedSnoc(was: seq<nat>, now: seq<nat>, later: seq<nat>, t: seq<Byte>, b: Byte)
    requires Tallied(was, now, t) && Run(t) != Invalid && |later| == 8
    requires forall s: State :: later[Index(s)] == now[Index(s)] + Bump(Run(t), Next(Run(t), b), s)
    ensures Tallied(was, later, t + [b])
    ensures Run(t + [b]) == Next(Run(t), b)
  {
    hide Share, Run, RunFrom, Next, Bump, Index;
    forall s: State ensures later[Index(s)] == was[Index(s)] + Share(t + [b], s) {
      ShareSnoc(t, b, s);
    }
    RunNext(t, b);
  }

  lemma RunNext(t: seq<Byte>, b: Byte)
    ensures Run(t + [b]) == Next(Run(t), b)
  {
    RunSnoc(Start, t, b);
  }

  lemma NothingRead(t: seq<Byte>)
    requires t == []
    ensures Run(t) == Start && forall s: State :: Share(t, s) == 0
  {
    forall s: State ensures Share(t, s) == 0 {
      LeavesNone(s);
      LeavesNone(Scientific);
    }
  }

  lemma ShareSnoc(t: seq<Byte>, b: Byte, s: State)
    requires Run(t) != Invalid
    ensures Share(t + [b], s) == Share(t, s) + Bump(Run(t), Next(Run(t), b), s)
  {
    hide IsDigit, IsSign, IsDot, IsExp;
    assert (t + [b])[..|t|] == t;
    RunSnoc(Start, t, b);
    StartOnce(t);
    if t == [] {
      LeavesNone(s);
    }
  }

  lemma LeavesNone(s: State)
    ensures Leaves([], s) == 0
  {
  }

  /** Start is left with the first symbol and never entered again. */
  lemma {:induction false} StartOnce(t: seq<Byte>)
    ensures Run(t) == Start <==> t == []
    ensures Leaves(t, Start) == if t == [] then 0 else 1
    decreases |t|
  {
    if t != [] {
      StartOnce(t[..|t| - 1]);
    }
  }

  // ---- The scanner -----------------------------------------------------------------

  /** `t` runs from `p` to `e` and holds neither separator nor terminator. */
  predicate TokenAt(m: seq<Byte>, p: nat, e: nat) {
    p <= e <= |m| && forall i :: p <= i < e ==> !Ends(m[i])
  }

  /** `q` is where the scanner stops: after a comma, at a NUL, or right after the byte that spoils the token. */
  predicate StopsAt(m: seq<Byte>, p: nat, e: nat, q: nat)
    requires p <= e <= |m|
  {
    if Run(m[p..e]) == Invalid then q == e && p < e && Run(m[p..e - 1]) != Invalid
    else e < |m| && ((m[e] == COMMA && q == e + 1) || (m[e] == NUL && q == e))
  }

  method Transition(mem: array<Byte>, p: nat, counts: array<nat>) returns (state: State, q: nat, ghost e: nat)
    requires counts.Length == 8 && (mem as object) != counts
    requires exists z :: p <= z < mem.Length && mem[z] == NUL
    modifies counts
    ensures TokenAt(mem[..], p, e) && StopsAt(mem[..], p, e, q) && state == Run(mem[p..e])
    ensures Tallied(old(counts[..]), counts[..], mem[p..e])
    ensures p < mem.Length && (mem[p] != NUL ==> p < q)
    ensures forall z :: p <= z < mem.Length && mem[z] == NUL ==> q <= z
  {
    hide Run, RunFrom, Share, Bump, Next, Leaves, Index;
    ghost var z :| p <= z < mem.Length && mem[z] == NUL;
    q, state, e := p, Start, p;
    NothingRead(mem[p..p]);
    while mem[q] != NUL && state != Invalid
      invariant p <= q < mem.Length && e == q && TokenAt(mem[..], p, q) && state == Run(mem[p..q])
      invariant state == Invalid ==> p < q && Run(mem[p..q - 1]) != Invalid
      invariant q <= z
      invariant Tallied(old(counts[..]), counts[..], mem[p..q])
      decreases mem.Length - q
    {
      var symbol := mem[q];
      if symbol == COMMA {
        q := q + 1;
        break;
      }
      ghost var t := mem[p..q];
      ghost var was := counts[..];
      state := Count(symbol, state, counts);
      TalliedSnoc(old(counts[..]), was, counts[..], t, symbol);
      assert mem[p..q + 1] == t + [symbol];
      assert mem[p..q + 1 - 1] == t;
      q := q + 1;
      e := q;
    }
  }

  /** The switch of the scanner loop: the next state and the counters it touches. */
  method Count(symbol: Byte, from: State, counts: array<nat>) returns (state: State)
    requires counts.Length == 8 && from != Invalid
    modifies counts
    ensures state == Next(from, symbol)
    ensures forall s: State :: counts[Index(s)] == old(counts[Index(s)]) + Bump(from, state, s)
  {
    hide IsDigit, IsSign, IsDot, IsExp;
    state := from;
    match from {
      case Start =>
        if IsDigit(symbol) {
          state := Int;
        } else if IsSign(symbol) {
          state := S1;
        } else if IsDot(symbol) {
          state := Float;
        } else {
          state := Invalid;
          counts[Index(Invalid)] := counts[Index(Invalid)] + 1;
        }
        counts[Index(Start)] := counts[Index(Start)] + 1;
      case S1 =>
        if IsDigit(symbol) {
          state := Int;
        } else if IsDot(symbol) {
          state := Float;
        } else {
          state := Invalid;
        }
        counts[Index(S1)] := counts[Index(S1)] + 1;
      case Int =>
        if IsDot(symbol) {
          state := Float;
          counts[Index(Int)] := counts[Index(Int)] + 1;
        } else if !IsDigit(symbol) {
          state := Invalid;
          counts[Index(Int)] := counts[Index(Int)] + 1;
        }
      case Float =>
        if IsExp(symbol) {
          state := S2;
          counts[Index(Float)] := counts[Index(Float)] + 1;
        } else if !IsDigit(symbol) {
          state := Invalid;
          counts[Index(Float)] := counts[Index(Float)] + 1;
        }
      case S2 =>
        if IsSign(symbol) {
          state := Exponent;
        } else {
          state := Invalid;
        }
        counts[Index(S2)] := counts[Index(S2)] + 1;
      case Exponent =>
        if IsDigit(symbol) {
          state := Scientific;
        } else {
          state := Invalid;
        }
        counts[Index(Exponent)] := counts[Index(Exponent)] + 1;
      case Scientific =>
        if !IsDigit(symbol) {
          state := Invalid;
          counts[Index(Invalid)] := counts[Index(Invalid)] + 1;
        }
    }
  }
}
