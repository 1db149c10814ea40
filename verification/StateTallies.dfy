/**
  What the first scan of a freshly filled block finds: the block is cut in one
  way only, and the cut is known for every seed and every size.
*/
module StateTallies {
  import opened StateScanner
  import opened StateBench

  // ---- Characters --------------------------------------------------------------------

  /** The bytes of `t` are the characters of `s`. */
  predicate Reads(t: seq<Byte>, s: string) {
    |t| == |s| && forall i :: 0 <= i < |t| ==> t[i] as char == s[i]
  }

  lemma Punctuation()
    ensures 0x2b as Byte as char == '+' && 0x2d as Byte as char == '-' && 0x2e as Byte as char == '.'
    ensures 0x5e as Byte as char == '^'
  {
  }

  lemma Numerals()
    ensures 0x30 as Byte as char == '0' && 0x31 as Byte as char == '1' && 0x32 as Byte as char == '2'
    ensures 0x33 as Byte as char == '3' && 0x34 as Byte as char == '4' && 0x35 as Byte as char == '5'
    ensures 0x36 as Byte as char == '6' && 0x37 as Byte as char == '7' && 0x38 as Byte as char == '8'
  {
  }

  lemma Letters()
    ensures 0x65 as Byte as char == 'e' && 0x46 as Byte as char == 'F' && 0x54 as Byte as char == 'T'
    ensures 0x71 as Byte as char == 'q' && 0x7a as Byte as char == 'z'
  {
  }

  /** The symbols of the automaton as characters. */
  lemma Symbols(b: Byte)
    ensures IsDigit(b) <==> '0' <= b as char <= '9'
    ensures IsSign(b) <==> b as char == '+' || b as char == '-'
    ensures IsDot(b) <==> b as char == '.'
    ensures IsExp(b) <==> b as char == 'E' || b as char == 'e'
    ensures Ends(b) <==> b as int == 0 || b as char == ','
  {
  }

  lemma IntPatternTexts(k: nat)
    requires k < 4
    ensures Reads(IntPattern(k), ["5012", "1234", "-874", "+122"][k])
  {
    Punctuation();
    Numerals();
    Letters();
  }

  lemma FloatPatternTexts(k: nat)
    requires k < 4
    ensures Reads(FloatPattern(k), ["35.54400", ".1234500", "-110.700", "+0.64400"][k])
  {
    Punctuation();
    Numerals();
    Letters();
  }

  lemma SciPatternTexts(k: nat)
    requires k < 4
    ensures Reads(SciPattern(k), ["5.500e+3", "-.123e-2", "-87e+832", "+0.6e-12"][k])
  {
    Punctuation();
    Numerals();
    Letters();
  }

  lemma ErrPatternTexts(k: nat)
    requires k < 4
    ensures Reads(ErrPattern(k), ["T0.3e-1F", "-T.T++Tq", "1T3.4e4z", "34.0e-T^"][k])
  {
    Punctuation();
    Numerals();
    Letters();
  }

  // ---- What a seed selects -------------------------------------------------------------

  /** Bits 0 to 2 of the seed select the kind of the pattern, bits 3 and 4 the pattern. */
  function Kind(seed: S16): nat {
    (seed as int) % 8
  }

  function Choice(seed: S16): nat {
    ((seed as int) / 8) % 4
  }

  /** What the automaton makes of a whole pattern. */
  lemma PatternKinds(seed: S16)
    ensures Run(Pattern(seed)) == Int <==> Kind(seed) <= 2
    ensures Run(Pattern(seed)) == Float <==> Kind(seed) == 3 || Kind(seed) == 4
    ensures Run(Pattern(seed)) == Scientific <==> (Kind(seed) == 5 || Kind(seed) == 6) && Choice(seed) != 2
    ensures Run(Pattern(seed)) == Invalid <==>
      Kind(seed) == 7 || ((Kind(seed) == 5 || Kind(seed) == 6) && Choice(seed) == 2)
  {
    hide Run, IntPattern, FloatPattern, SciPattern, ErrPattern;
    IntPatternsAreInts(Choice(seed));
    FloatPatternsAreFloats(Choice(seed));
    SciPatternKinds(Choice(seed));
    ErrPatternsAreInvalid(Choice(seed));
  }

  /** Seeds of one kind select the same pattern exactly when they agree in bits 3 and 4. */
  lemma PatternChosen(seed: S16, other: S16)
    requires Kind(seed) == Kind(other)
    ensures Pattern(seed) == Pattern(other) <==> Choice(seed) == Choice(other)
  {
    hide IntPattern, FloatPattern, SciPattern, ErrPattern;
    if Choice(seed) != Choice(other) {
      IntPatternsDiffer(Choice(seed), Choice(other));
      FloatPatternsDiffer(Choice(seed), Choice(other));
      SciPatternsDiffer(Choice(seed), Choice(other));
      ErrPatternsDiffer(Choice(seed), Choice(other));
    }
  }

  lemma IntPatternsDiffer(j: nat, k: nat)
    requires j < 4 && k < 4 && j != k
    ensures IntPattern(j) != IntPattern(k)
  {
    assert IntPattern(j)[0] != IntPattern(k)[0];
  }

  lemma FloatPatternsDiffer(j: nat, k: nat)
    requires j < 4 && k < 4 && j != k
    ensures FloatPattern(j) != FloatPattern(k)
  {
    assert FloatPattern(j)[0] != FloatPattern(k)[0];
  }

  lemma SciPatternsDiffer(j: nat, k: nat)
    requires j < 4 && k < 4 && j != k
    ensures SciPattern(j) != SciPattern(k)
  {
    assert SciPattern(j)[3] != SciPattern(k)[3];
  }

  lemma ErrPatternsDiffer(j: nat, k: nat)
    requires j < 4 && k < 4 && j != k
    ensures ErrPattern(j) != ErrPattern(k)
  {
    assert ErrPattern(j)[0] != ErrPattern(k)[0];
  }

  // ---- A text is cut in one way --------------------------------------------------------

  function Written(piece: Piece): seq<Byte> {
    piece.token + if piece.comma then [COMMA] else []
  }

  lemma SpelledSnoc(ps: seq<Piece>, piece: Piece)
    ensures Spelled(ps + [piece]) == Spelled(ps) + Written(piece)
    ensures forall s: State :: Finals(ps + [piece], s) == Finals(ps, s) + if Run(piece.token) == s then 1 else 0
  {
    hide Run, Share;
    PieceSnoc(ps, piece);
  }

  lemma {:induction false} SpelledConcat(ps: seq<Piece>, qs: seq<Piece>)
    ensures Spelled(ps + qs) == Spelled(ps) + Spelled(qs)
    decreases |qs|
  {
    if qs == [] {
      assert ps + qs == ps;
    } else {
      hide Spelled, Written;
      var before, x := qs[..|qs| - 1], qs[|qs| - 1];
      SpelledConcat(ps, before);
      Split(ps, qs);
      SpelledSnoc(ps + before, x);
      SpelledSnoc(before, x);
    }
  }

  lemma {:induction false} FinalsConcat(ps: seq<Piece>, qs: seq<Piece>, s: State)
    ensures Finals(ps + qs, s) == Finals(ps, s) + Finals(qs, s)
    decreases |qs|
  {
    if qs == [] {
      assert ps + qs == ps;
    } else {
      hide Run, Finals;
      var before, x := qs[..|qs| - 1], qs[|qs| - 1];
      FinalsConcat(ps, before, s);
      Split(ps, qs);
      SpelledSnoc(ps + before, x);
      SpelledSnoc(before, x);
    }
  }

  lemma Split(ps: seq<Piece>, qs: seq<Piece>)
    requires qs != []
    ensures var before, x := qs[..|qs| - 1], qs[|qs| - 1];
      qs == before + [x] && ps + qs == (ps + before) + [x]
  {
  }

  lemma SpelledFirst(ps: seq<Piece>)
    requires ps != []
    ensures Spelled(ps) == Written(ps[0]) + Spelled(ps[1..])
  {
    assert ps == [ps[0]] + ps[1..];
    SpelledConcat([ps[0]], ps[1..]);
    assert [ps[0]][..0] == [];
  }

  /** A piece is followed by nothing unless a comma or a spoiling byte ends it. */
  predicate Followed(piece: Piece, rest: seq<Byte>) {
    PieceOk(piece) && (piece.comma || Run(piece.token) == Invalid || rest == [])
  }

  lemma NotShorter(x: Piece, a: seq<Byte>, y: Piece, b: seq<Byte>)
    requires Followed(x, a) && PieceOk(y) && Written(x) + a == Written(y) + b
    ensures |x.token| >= |y.token|
  {
    hide Run, Ends;
    var n := |x.token|;
    var t := Written(x) + a;
    if n < |y.token| {
      assert t[..n] == x.token && t[..|y.token|] == y.token;
      if x.comma {
        assert t[n] == COMMA && t[n] == y.token[n];
        CommaEnds();
      } else if Run(x.token) == Invalid {
        var m := |y.token|;
        assert y.token == x.token + y.token[n..] && y.token[..m - 1] == x.token + y.token[n..m - 1];
        StaysInvalid(x.token, y.token[n..]);
        StaysInvalid(x.token, y.token[n..m - 1]);
      }
    }
  }

  lemma CommaEnds()
    ensures Ends(COMMA)
  {
  }

  lemma StaysInvalid(t: seq<Byte>, u: seq<Byte>)
    requires Run(t) == Invalid
    ensures Run(t + u) == Invalid
  {
    RunConcat(Start, t, u);
    RunInvalid(u);
  }

  lemma FirstSame(x: Piece, a: seq<Byte>, y: Piece, b: seq<Byte>)
    requires Followed(x, a) && Followed(y, b) && Written(x) + a == Written(y) + b
    ensures x == y && a == b
  {
    hide Run, Ends;
    NotShorter(x, a, y, b);
    NotShorter(y, b, x, a);
    var n, t := |x.token|, Written(x) + a;
    assert x.token == t[..n] && y.token == t[..n];
    assert Written(x) == Written(y) && t[|Written(x)|..] == a && (Written(y) + b)[|Written(y)|..] == b;
  }

  /** Two cuts of one text are the same. */
  lemma {:induction false} CutOnce(ps: seq<Piece>, qs: seq<Piece>)
    requires PiecesOk(ps, true) && PiecesOk(qs, true) && Spelled(ps) == Spelled(qs)
    ensures ps == qs
    decreases |ps|
  {
    hide Run, PieceOk, Spelled;
    if ps != [] { FirstOf(ps); }
    if qs != [] { FirstOf(qs); }
    if ps == [] && qs == [] {
    } else if ps == [] || qs == [] {
      EmptySpelled();
    } else {
      FirstSame(ps[0], Spelled(ps[1..]), qs[0], Spelled(qs[1..]));
      CutOnce(ps[1..], qs[1..]);
      assert ps == [ps[0]] + ps[1..] && qs == [qs[0]] + qs[1..];
    }
  }

  lemma EmptySpelled()
    ensures Spelled([]) == []
  {
  }

  lemma FirstOf(ps: seq<Piece>)
    requires ps != [] && PiecesOk(ps, true)
    ensures Spelled(ps) == Written(ps[0]) + Spelled(ps[1..]) && Spelled(ps) != []
    ensures Followed(ps[0], Spelled(ps[1..])) && PiecesOk(ps[1..], true)
  {
    hide Run;
    SpelledFirst(ps);
    if |ps| == 1 {
      EmptySpelled();
      assert ps[1..] == [];
    }
  }

  // ---- The cut of a pattern ------------------------------------------------------------

  /** A number and the comma behind it. */
  function Good(t: seq<Byte>): Piece {
    Piece(t, true)
  }

  /** A token that its last byte spoils. */
  function Bad(t: seq<Byte>, b: Byte): Piece {
    Piece(t + [b], false)
  }

  /** How the scanner cuts a pattern and its comma. */
  function Cut(kind: nat, k: nat): seq<Piece> {
    if kind <= 2 then [Good(IntPattern(k))]
    else if kind <= 4 then [Good(FloatPattern(k))]
    else if kind <= 6 then SciCut(k)
    else ErrCut(k)
  }

  function SciCut(k: nat): seq<Piece> {
    if k == 2 then [Bad([0x2d, 0x38, 0x37], 0x65), Good([0x2b, 0x38, 0x33, 0x32])] // -87e +832
    else [Good(SciPattern(k))]
  }

  function ErrCut(k: nat): seq<Piece> {
    if k == 0 then [Bad([], 0x54), Bad([0x30, 0x2e, 0x33, 0x65, 0x2d, 0x31], 0x46), Good([])] // T 0.3e-1F
    else if k == 1 then // -T .T ++ T q
      [Bad([0x2d], 0x54), Bad([0x2e], 0x54), Bad([0x2b], 0x2b), Bad([], 0x54), Bad([], 0x71), Good([])]
    else if k == 2 then [Bad([0x31], 0x54), Bad([0x33, 0x2e, 0x34, 0x65], 0x34), Bad([], 0x7a), Good([])] // 1T 3.4e4 z
    else [Bad([0x33, 0x34, 0x2e, 0x30, 0x65, 0x2d], 0x54), Bad([], 0x5e), Good([])] // 34.0e-T ^
  }

  /** How many tokens of a pattern end in state `s`. */
  function Tally(kind: nat, k: nat, s: State): nat {
    match s
    case Start => if kind == 7 then 1 else 0
    case Invalid => if kind == 7 then (if k == 1 then 5 else if k == 2 then 3 else 2) else NoPoint(kind, k)
    case Int => if kind <= 2 then 1 else NoPoint(kind, k)
    case Float => if kind == 3 || kind == 4 then 1 else 0
    case Scientific => if kind == 5 || kind == 6 then 1 - NoPoint(kind, k) else 0
    case _ => 0
  }

  /** 1 for the pattern -87e+832, which is cut at its exponent letter. */
  function NoPoint(kind: nat, k: nat): (r: nat)
    ensures r <= 1
  {
    if (kind == 5 || kind == 6) && k == 2 then 1 else 0
  }

  predicate CutOf(ps: seq<Piece>, t: seq<Byte>) {
    PiecesOk(ps, false) && Spelled(ps) == t
  }

  predicate Clean(t: seq<Byte>) {
    forall i :: 0 <= i < |t| ==> !Ends(t[i])
  }

  lemma GoodCut(ps: seq<Piece>, t: seq<Byte>, u: seq<Byte>) returns (qs: seq<Piece>, w: seq<Byte>)
    requires CutOf(ps, t) && Clean(u) && Run(u) != Invalid
    ensures qs == ps + [Good(u)] && w == t + u + [COMMA] && CutOf(qs, w)
    ensures forall s: State :: Finals(qs, s) == Finals(ps, s) + if Run(u) == s then 1 else 0
  {
    hide Run;
    qs, w := ps + [Good(u)], t + u + [COMMA];
    PieceSnoc(ps, Good(u));
  }

  lemma BadCut(ps: seq<Piece>, t: seq<Byte>, u: seq<Byte>, b: Byte) returns (qs: seq<Piece>, w: seq<Byte>)
    requires CutOf(ps, t) && Clean(u) && !Ends(b) && Run(u) != Invalid && Next(Run(u), b) == Invalid
    ensures qs == ps + [Bad(u, b)] && w == t + u + [b] && CutOf(qs, w)
    ensures forall s: State :: Finals(qs, s) == Finals(ps, s) + if s == Invalid then 1 else 0
  {
    hide Run;
    qs, w := ps + [Bad(u, b)], t + u + [b];
    RunNext(u, b);
    assert (u + [b])[..|u|] == u;
    PieceSnoc(ps, Bad(u, b));
    assert t + (u + [b]) == t + u + [b];
  }

  // ---- Short tokens ----------------------------------------------------------------------

  lemma RunOne(s: State, a: Byte)
    ensures RunFrom(s, [a]) == Next(s, a)
  {
    RunSnoc(s, [], a);
    assert [] + [a] == [a];
  }

  lemma RunTwo(s: State, a: Byte, b: Byte)
    ensures RunFrom(s, [a, b]) == Next(Next(s, a), b)
  {
    RunOne(s, a);
    RunSnoc(s, [a], b);
    assert [a] + [b] == [a, b];
  }

  lemma RunThree(s: State, a: Byte, b: Byte, c: Byte)
    ensures RunFrom(s, [a, b, c]) == Next(Next(Next(s, a), b), c)
  {
    RunTwo(s, a, b);
    RunSnoc(s, [a, b], c);
    assert [a, b] + [c] == [a, b, c];
  }

  lemma RunSix(s: State, a: Byte, b: Byte, c: Byte, d: Byte, e: Byte, f: Byte)
    ensures RunFrom(s, [a, b, c, d, e, f]) == Next(Next(Next(Next(Next(Next(s, a), b), c), d), e), f)
  {
    hide Next;
    RunFour(s, a, b, c, d);
    RunTwo(RunFrom(s, [a, b, c, d]), e, f);
    RunConcat(s, [a, b, c, d], [e, f]);
    assert [a, b, c, d] + [e, f] == [a, b, c, d, e, f];
  }

  /** Where the tokens that a byte spoils stand before it. */
  lemma SpoiledTokens()
    ensures Run([0x2d, 0x38, 0x37]) == Int && Run([0x2b, 0x38, 0x33, 0x32]) == Int
    ensures Run([0x30, 0x2e, 0x33, 0x65, 0x2d, 0x31]) == Scientific && Run([0x33, 0x2e, 0x34, 0x65]) == S2
    ensures Run([0x33, 0x34, 0x2e, 0x30, 0x65, 0x2d]) == Exponent
  {
    RunThree(Start, 0x2d, 0x38, 0x37);
    RunFour(Start, 0x2b, 0x38, 0x33, 0x32);
    RunSix(Start, 0x30, 0x2e, 0x33, 0x65, 0x2d, 0x31);
    RunFour(Start, 0x33, 0x2e, 0x34, 0x65);
    RunSix(Start, 0x33, 0x34, 0x2e, 0x30, 0x65, 0x2d);
  }

  lemma ShortTokens()
    ensures Run([]) == Start && Run([0x2d]) == S1 && Run([0x2e]) == Float && Run([0x2b]) == S1 && Run([0x31]) == Int
  {
    RunOne(Start, 0x2d);
    RunOne(Start, 0x2e);
    RunOne(Start, 0x2b);
    RunOne(Start, 0x31);
  }

  lemma Spoilers()
    ensures Next(Int, 0x65) == Next(Start, 0x54) == Next(Scientific, 0x46) == Next(S1, 0x54) == Invalid
    ensures Next(Float, 0x54) == Next(S1, 0x2b) == Next(Start, 0x71) == Next(Int, 0x54) == Invalid
    ensures Next(S2, 0x34) == Next(Start, 0x7a) == Next(Exponent, 0x54) == Next(Start, 0x5e) == Invalid
    ensures !Ends(0x65) && !Ends(0x54) && !Ends(0x46) && !Ends(0x2b) && !Ends(0x71)
    ensures !Ends(0x34) && !Ends(0x7a) && !Ends(0x5e)
  {
  }

  lemma CleanTokens()
    ensures Clean([0x2d, 0x38, 0x37]) && Clean([0x2b, 0x38, 0x33, 0x32]) && Clean([0x33, 0x2e, 0x34, 0x65])
    ensures Clean([0x30, 0x2e, 0x33, 0x65, 0x2d, 0x31]) && Clean([0x33, 0x34, 0x2e, 0x30, 0x65, 0x2d])
    ensures Clean([]) && Clean([0x2d]) && Clean([0x2e]) && Clean([0x2b]) && Clean([0x31])
  {
  }

  lemma NothingCut()
    ensures CutOf([], []) && forall s: State :: Finals([], s) == 0
  {
  }

  lemma NoPointCut()
    ensures CutOf(SciCut(2), SciPattern(2) + [COMMA])
    ensures forall s: State :: Finals(SciCut(2), s) == Tally(5, 2, s)
  {
    hide Run, CutOf, Finals, Next, Clean, Ends, Bad, Good;
    NothingCut();
    SpoiledTokens();
    ShortTokens();
    Spoilers();
    CleanTokens();
    var ps, t := BadCut([], [], [0x2d, 0x38, 0x37], 0x65);
    ps, t := GoodCut(ps, t, [0x2b, 0x38, 0x33, 0x32]);
    assert ps == SciCut(2) && t == SciPattern(2) + [COMMA];
  }

  lemma ErrCut0()
    ensures CutOf(ErrCut(0), ErrPattern(0) + [COMMA])
    ensures forall s: State :: Finals(ErrCut(0), s) == Tally(7, 0, s)
  {
    hide Run, CutOf, Finals, Next, Clean, Ends, Bad, Good;
    NothingCut();
    SpoiledTokens();
    ShortTokens();
    Spoilers();
    CleanTokens();
    var ps, t := BadCut([], [], [], 0x54);
    ps, t := BadCut(ps, t, [0x30, 0x2e, 0x33, 0x65, 0x2d, 0x31], 0x46);
    ps, t := GoodCut(ps, t, []);
    assert ps == ErrCut(0) && t == ErrPattern(0) + [COMMA];
  }

  lemma Spoiled3() returns (ps: seq<Piece>, t: seq<Byte>)
    ensures ps == [Bad([0x2d], 0x54), Bad([0x2e], 0x54), Bad([0x2b], 0x2b)]
    ensures t == [0x2d, 0x54, 0x2e, 0x54, 0x2b, 0x2b] && CutOf(ps, t)
    ensures forall s: State :: Finals(ps, s) == if s == Invalid then 3 else 0
  {
    hide Run, CutOf, Finals, Next, Clean, Ends, Bad, Good;
    NothingCut();
    SpoiledTokens();
    ShortTokens();
    Spoilers();
    CleanTokens();
    ps, t := BadCut([], [], [0x2d], 0x54);
    ps, t := BadCut(ps, t, [0x2e], 0x54);
    ps, t := BadCut(ps, t, [0x2b], 0x2b);
  }

  lemma ErrCut1()
    ensures CutOf(ErrCut(1), ErrPattern(1) + [COMMA])
    ensures forall s: State :: Finals(ErrCut(1), s) == Tally(7, 1, s)
  {
    hide Run, CutOf, Finals, Next, Clean, Ends, Bad, Good;
    ShortTokens();
    Spoilers();
    CleanTokens();
    var ps, t := Spoiled3();
    ps, t := BadCut(ps, t, [], 0x54);
    ps, t := BadCut(ps, t, [], 0x71);
    ps, t := GoodCut(ps, t, []);
    assert ps == ErrCut(1) && t == ErrPattern(1) + [COMMA];
  }

  lemma ErrCut2()
    ensures CutOf(ErrCut(2), ErrPattern(2) + [COMMA])
    ensures forall s: State :: Finals(ErrCut(2), s) == Tally(7, 2, s)
  {
    hide Run, CutOf, Finals, Next, Clean, Ends, Bad, Good;
    NothingCut();
    SpoiledTokens();
    ShortTokens();
    Spoilers();
    CleanTokens();
    var ps, t := BadCut([], [], [0x31], 0x54);
    ps, t := BadCut(ps, t, [0x33, 0x2e, 0x34, 0x65], 0x34);
    ps, t := BadCut(ps, t, [], 0x7a);
    ps, t := GoodCut(ps, t, []);
    assert ps == ErrCut(2) && t == ErrPattern(2) + [COMMA];
  }

  lemma ErrCut3()
    ensures CutOf(ErrCut(3), ErrPattern(3) + [COMMA])
    ensures forall s: State :: Finals(ErrCut(3), s) == Tally(7, 3, s)
  {
    hide Run, CutOf, Finals, Next, Clean, Ends, Bad, Good;
    NothingCut();
    SpoiledTokens();
    ShortTokens();
    Spoilers();
    CleanTokens();
    var ps, t := BadCut([], [], [0x33, 0x34, 0x2e, 0x30, 0x65, 0x2d], 0x54);
    ps, t := BadCut(ps, t, [], 0x5e);
    ps, t := GoodCut(ps, t, []);
    assert ps == ErrCut(3) && t == ErrPattern(3) + [COMMA];
  }

  /** A pattern that is one number. */
  lemma WholeCut(u: seq<Byte>)
    requires AllPatternBytes(u) && Run(u) != Invalid
    ensures CutOf([Good(u)], u + [COMMA])
    ensures forall s: State :: Finals([Good(u)], s) == if Run(u) == s then 1 else 0
  {
    hide Run, CutOf, Finals;
    NothingCut();
    PatternClean(u);
    var ps, t := GoodCut([], [], u);
    assert ps == [Good(u)] && t == u + [COMMA];
  }

  lemma PatternClean(u: seq<Byte>)
    requires AllPatternBytes(u)
    ensures Clean(u)
  {
  }

  lemma SciCuts(k: nat, kind: nat)
    requires k < 4 && 5 <= kind <= 6
    ensures CutOf(SciCut(k), SciPattern(k) + [COMMA])
    ensures forall s: State :: Finals(SciCut(k), s) == Tally(kind, k, s)
  {
    hide Run, CutOf, Finals, SciPattern;
    SciPatternKinds(k);
    SciPatternSpelled(k);
    if k == 2 {
      NoPointCut();
    } else {
      WholeCut(SciPattern(k));
    }
  }

  lemma ErrCuts(k: nat)
    requires k < 4
    ensures CutOf(ErrCut(k), ErrPattern(k) + [COMMA])
    ensures forall s: State :: Finals(ErrCut(k), s) == Tally(7, k, s)
  {
    hide CutOf, Finals, ErrPattern, ErrCut, Tally;
    ErrCut0();
    ErrCut1();
    ErrCut2();
    ErrCut3();
    assert k == 0 || k == 1 || k == 2 || k == 3;
  }

  /** Every pattern is cut as told, and its tokens end as the table says. */
  lemma PatternCut(seed: S16)
    ensures CutOf(Cut(Kind(seed), Choice(seed)), Pattern(seed) + [COMMA])
    ensures forall s: State :: Finals(Cut(Kind(seed), Choice(seed)), s) == Tally(Kind(seed), Choice(seed), s)
  {
    hide Run, CutOf, Finals, IntPattern, FloatPattern, SciPattern, ErrPattern, SciCut, ErrCut, AllPatternBytes;
    var kind, k := Kind(seed), Choice(seed);
    if kind <= 2 {
      IntPatternsAreInts(k);
      IntPatternSpelled(k);
      WholeCut(IntPattern(k));
    } else if kind <= 4 {
      FloatPatternsAreFloats(k);
      FloatPatternSpelled(k);
      WholeCut(FloatPattern(k));
    } else if kind <= 6 {
      SciCuts(k, kind);
    } else {
      ErrCuts(k);
    }
  }

  // ---- The cut of a block ----------------------------------------------------------------

  /** The pieces of the first `n` patterns. */
  function TextCut(seed: S16, n: nat): seq<Piece> {
    if n == 0 then []
    else TextCut(seed, n - 1) + Cut(Kind(SeedAfter(seed, n)), Choice(SeedAfter(seed, n)))
  }

  function Tallies(seed: S16, n: nat, s: State): nat {
    if n == 0 then 0
    else Tallies(seed, n - 1, s) + Tally(Kind(SeedAfter(seed, n)), Choice(SeedAfter(seed, n)), s)
  }

  lemma CutConcat(ps: seq<Piece>, t: seq<Byte>, qs: seq<Piece>, u: seq<Byte>)
    requires CutOf(ps, t) && CutOf(qs, u)
    ensures CutOf(ps + qs, t + u)
  {
    hide Run, PieceOk;
    SpelledConcat(ps, qs);
  }

  lemma {:induction false} TextCutOf(seed: S16, n: nat)
    ensures CutOf(TextCut(seed, n), Text(seed, n))
    decreases n
  {
    hide CutOf, Pattern, Cut, SeedAfter;
    if n == 0 {
      NothingCut();
    } else {
      var next := SeedAfter(seed, n);
      TextCutOf(seed, n - 1);
      PatternCut(next);
      CutConcat(TextCut(seed, n - 1), Text(seed, n - 1), Cut(Kind(next), Choice(next)), Pattern(next) + [COMMA]);
      assert Text(seed, n - 1) + (Pattern(next) + [COMMA]) == Text(seed, n);
    }
  }

  lemma {:induction false} TextTallies(seed: S16, n: nat, s: State)
    ensures Finals(TextCut(seed, n), s) == Tallies(seed, n, s)
    decreases n
  {
    hide Finals, CutOf, Pattern, Cut, SeedAfter, Tally;
    if n == 0 {
      NothingCut();
    } else {
      var next := SeedAfter(seed, n);
      TextTallies(seed, n - 1, s);
      PatternCut(next);
      FinalsConcat(TextCut(seed, n - 1), Cut(Kind(next), Choice(next)), s);
    }
  }

  /** The text of a filled block ends at its first NUL. */
  lemma FilledText(m: seq<Byte>, seed: S16, n: nat, ps: seq<Piece>)
    requires Filled(m, seed, n) && CutInto(m, ps)
    ensures Spelled(ps) == Text(seed, n)
  {
    hide PiecesOk, Spelled, Text, PatternByte;
    TextSpelled(seed, n);
    NulIsNone();
    TextEnds(m, Text(seed, n), Spelled(ps));
  }

  /** The bytes of `m` before its first NUL are `t`. */
  predicate TextIs(m: seq<Byte>, t: seq<Byte>) {
    |t| < |m| && m[..|t|] == t && m[|t|] == NUL && forall i :: 0 <= i < |t| ==> t[i] != NUL
  }

  lemma TextEnds(m: seq<Byte>, t: seq<Byte>, u: seq<Byte>)
    requires TextIs(m, t) && TextIs(m, u)
    ensures t == u
  {
    assert forall i :: 0 <= i < |t| ==> m[i] == m[..|t|][i];
    assert forall i :: 0 <= i < |u| ==> m[i] == m[..|u|][i];
    assert |t| >= |u|;
    assert |u| >= |t|;
  }

  lemma NulIsNone()
    ensures NUL != COMMA && !PatternByte(NUL)
  {
  }

  /** The first scan of a filled block finds the tokens of its patterns, one pattern after the other. */
  lemma FirstScan(m: seq<Byte>, seed: S16, n: nat, ps: seq<Piece>)
    requires Filled(m, seed, n) && CutInto(m, ps)
    ensures ps == TextCut(seed, n)
    ensures forall s: State :: Finals(ps, s) == Tallies(seed, n, s)
  {
    FilledText(m, seed, n, ps);
    hide Spelled, PieceOk, Filled, Text, Finals, TextCut, Tallies, Run;
    TextCutOf(seed, n);
    CutOnce(ps, TextCut(seed, n));
    forall s: State ensures Finals(ps, s) == Tallies(seed, n, s) {
      TextTallies(seed, n, s);
    }
  }
}
