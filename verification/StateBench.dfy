/**
  The buffer of the state benchmark in coremark/core_state.c: how it is filled,
  scanned, corrupted, scanned again and restored.
*/
module StateBench {
  import opened StateScanner
  import opened Arithmetic
  import Crc

  // ---- The generator ---------------------------------------------------------------

  newtype S16 = x: int | -0x8000 <= x < 0x8000

  function Succ(seed: S16): S16 {
    if seed == 0x7fff then -0x8000 else seed + 1
  }

  function IntPattern(k: nat): seq<Byte> {
    if k == 0 then [0x35, 0x30, 0x31, 0x32] // 5012
    else if k == 1 then [0x31, 0x32, 0x33, 0x34] // 1234
    else if k == 2 then [0x2d, 0x38, 0x37, 0x34] // -874
    else [0x2b, 0x31, 0x32, 0x32] // +122
  }

  function FloatPattern(k: nat): seq<Byte> {
    if k == 0 then [0x33, 0x35, 0x2e, 0x35, 0x34, 0x34, 0x30, 0x30] // 35.54400
    else if k == 1 then [0x2e, 0x31, 0x32, 0x33, 0x34, 0x35, 0x30, 0x30] // .1234500
    else if k == 2 then [0x2d, 0x31, 0x31, 0x30, 0x2e, 0x37, 0x30, 0x30] // -110.700
    else [0x2b, 0x30, 0x2e, 0x36, 0x34, 0x34, 0x30, 0x30] // +0.64400
  }

  function SciPattern(k: nat): seq<Byte> {
    if k == 0 then [0x35, 0x2e, 0x35, 0x30, 0x30, 0x65, 0x2b, 0x33] // 5.500e+3
    else if k == 1 then [0x2d, 0x2e, 0x31, 0x32, 0x33, 0x65, 0x2d, 0x32] // -.123e-2
    else if k == 2 then [0x2d, 0x38, 0x37, 0x65, 0x2b, 0x38, 0x33, 0x32] // -87e+832
    else [0x2b, 0x30, 0x2e, 0x36, 0x65, 0x2d, 0x31, 0x32] // +0.6e-12
  }

  function ErrPattern(k: nat): seq<Byte> {
    if k == 0 then [0x54, 0x30, 0x2e, 0x33, 0x65, 0x2d, 0x31, 0x46] // T0.3e-1F
    else if k == 1 then [0x2d, 0x54, 0x2e, 0x54, 0x2b, 0x2b, 0x54, 0x71] // -T.T++Tq
    else if k == 2 then [0x31, 0x54, 0x33, 0x2e, 0x34, 0x65, 0x34, 0x7a] // 1T3.4e4z
    else [0x33, 0x34, 0x2e, 0x30, 0x65, 0x2d, 0x54, 0x5e] // 34.0e-T^
  }

  /** The pattern `seed` selects by its low five bits. */
  function Pattern(seed: S16): (p: seq<Byte>)
    ensures |p| == 4 || |p| == 8
  {
    var kind, k := (seed as int) % 8, ((seed as int) / 8) % 4;
    if kind <= 2 then IntPattern(k)
    else if kind <= 4 then FloatPattern(k)
    else if kind <= 6 then SciPattern(k)
    else ErrPattern(k)
  }

  /** The seed `n` later, in 16 bits. */
  function SeedAfter(seed: S16, n: nat): S16 {
    ((seed as int + n + 0x8000) % 0x1_0000 - 0x8000) as S16
  }

  lemma SeedSucc(seed: S16, n: nat)
    ensures SeedAfter(seed, 0) == seed && SeedAfter(seed, n + 1) == Succ(SeedAfter(seed, n))
  {
  }

  /** `n` patterns, each followed by a comma. */
  function Text(seed: S16, n: nat): seq<Byte> {
    if n == 0 then [] else Text(seed, n - 1) + Pattern(SeedAfter(seed, n)) + [COMMA]
  }

  /** Patterns as long as the next one leaves room for two bytes, then NULs. */
  predicate Filled(m: seq<Byte>, seed: S16, n: nat) {
    var total := |Text(seed, n)|;
    && total < |m| && (|m| >= 2 ==> total + 2 <= |m|)
    && m[..total] == Text(seed, n)
    && (forall i :: total <= i < |m| ==> m[i] == NUL)
    && |Text(seed, n + 1)| + 1 >= |m|
  }

  method CopyPattern(mem: array<Byte>, total: nat, buf: seq<Byte>)
    requires total + |buf| < mem.Length
    modifies mem
    ensures mem[..] == old(mem[..total]) + buf + [COMMA] + old(mem[total + |buf| + 1..])
  {
    var i := 0;
    while i < |buf|
      invariant i <= |buf|
      invariant mem[..total + i] == old(mem[..total]) + buf[..i]
      invariant mem[total + i..] == old(mem[total + i..])
    {
      mem[total + i] := buf[i];
      i := i + 1;
    }
    mem[total + i] := COMMA;
  }

  method ZeroFill(mem: array<Byte>, total: nat, size: nat)
    requires total <= size <= mem.Length
    modifies mem
    ensures forall i :: 0 <= i < total || size <= i < mem.Length ==> mem[i] == old(mem[i])
    ensures forall i :: total <= i < size ==> mem[i] == NUL
  {
    var k := total;
    while k < size
      invariant total <= k <= size
      invariant forall i :: 0 <= i < total || k <= i < mem.Length ==> mem[i] == old(mem[i])
      invariant forall i :: total <= i < k ==> mem[i] == NUL
    {
      mem[k] := NUL;
      k := k + 1;
    }
  }

  method InitState(size: nat, seed: S16, mem: array<Byte>) returns (ghost n: nat)
    requires 1 <= size <= mem.Length
    modifies mem
    ensures Filled(mem[..size], seed, n)
    ensures mem[size..] == old(mem[size..])
  {
    hide Pattern, Succ, SeedAfter;
    SeedSucc(seed, 0);
    var total, next := 0, 0;
    var buf := [];
    var current := seed;
    n := 0;
    while total + next + 1 < size - 1
      invariant total == |Text(seed, n)| && total < size && (size >= 2 ==> total + 2 <= size)
      invariant mem[..total] == Text(seed, n) && mem[size..] == old(mem[size..])
      invariant next == |buf|
      invariant next == 0 ==> n == 0 && current == seed
      invariant next > 0 ==> current == SeedAfter(seed, n + 1) && buf == Pattern(current)
      decreases size - total, if next == 0 then 1 else 0
    {
      if next > 0 {
        ghost var before := mem[..];
        CopyPattern(mem, total, buf);
        assert mem[..total + next + 1] == before[..total] + buf + [COMMA];
        assert mem[size..] == before[size..];
        total := total + next + 1;
        n := n + 1;
      }
      SeedSucc(seed, n);
      current := Succ(current);
      buf := Pattern(current);
      next := |buf|;
    }
    assert |Text(seed, n + 1)| + 1 >= size by {
      assert |Text(seed, n + 1)| == total + |Pattern(SeedAfter(seed, n + 1))| + 1;
    }
    ghost var before := mem[..];
    ZeroFill(mem, total, size);
    assert mem[..size][..total] == before[..total];
    assert mem[size..] == before[size..];
  }

  // ---- What the patterns are ---------------------------------------------------------

  lemma RunFour(s: State, a: Byte, b: Byte, c: Byte, d: Byte)
    ensures RunFrom(s, [a, b, c, d]) == Next(Next(Next(Next(s, a), b), c), d)
  {
    hide Next;
    var t: seq<Byte> := [a, b, c, d];
    assert t[..0] == [] && t[..1] == [] + [a] && t[..2] == t[..1] + [b];
    assert t[..3] == t[..2] + [c] && t == t[..3] + [d];
    RunSnoc(s, [], a);
    RunSnoc(s, t[..1], b);
    RunSnoc(s, t[..2], c);
    RunSnoc(s, t[..3], d);
  }

  lemma RunEight(s: State, a: Byte, b: Byte, c: Byte, d: Byte, e: Byte, f: Byte, g: Byte, h: Byte)
    ensures RunFrom(s, [a, b, c, d, e, f, g, h]) ==
      Next(Next(Next(Next(Next(Next(Next(Next(s, a), b), c), d), e), f), g), h)
  {
    hide Next;
    RunFour(s, a, b, c, d);
    RunFour(RunFrom(s, [a, b, c, d]), e, f, g, h);
    RunConcat(s, [a, b, c, d], [e, f, g, h]);
    assert [a, b, c, d] + [e, f, g, h] == [a, b, c, d, e, f, g, h];
  }

  lemma IntPatternsAreInts(k: nat)
    requires k < 4
    ensures Run(IntPattern(k)) == Int
  {
    hide RunFrom;
    if k == 0 {
      RunFour(Start, 0x35, 0x30, 0x31, 0x32);
    } else if k == 1 {
      RunFour(Start, 0x31, 0x32, 0x33, 0x34);
    } else if k == 2 {
      RunFour(Start, 0x2d, 0x38, 0x37, 0x34);
    } else {
      RunFour(Start, 0x2b, 0x31, 0x32, 0x32);
    }
  }

  lemma FloatPatternsAreFloats(k: nat)
    requires k < 4
    ensures Run(FloatPattern(k)) == Float
  {
    hide RunFrom;
    if k == 0 {
      RunEight(Start, 0x33, 0x35, 0x2e, 0x35, 0x34, 0x34, 0x30, 0x30);
    } else if k == 1 {
      RunEight(Start, 0x2e, 0x31, 0x32, 0x33, 0x34, 0x35, 0x30, 0x30);
    } else if k == 2 {
      RunEight(Start, 0x2d, 0x31, 0x31, 0x30, 0x2e, 0x37, 0x30, 0x30);
    } else {
      RunEight(Start, 0x2b, 0x30, 0x2e, 0x36, 0x34, 0x34, 0x30, 0x30);
    }
  }

  lemma ErrPatternsAreInvalid(k: nat)
    requires k < 4
    ensures Run(ErrPattern(k)) == Invalid
  {
    hide RunFrom;
    if k == 0 {
      RunEight(Start, 0x54, 0x30, 0x2e, 0x33, 0x65, 0x2d, 0x31, 0x46);
    } else if k == 1 {
      RunEight(Start, 0x2d, 0x54, 0x2e, 0x54, 0x2b, 0x2b, 0x54, 0x71);
    } else if k == 2 {
      RunEight(Start, 0x31, 0x54, 0x33, 0x2e, 0x34, 0x65, 0x34, 0x7a);
    } else {
      RunEight(Start, 0x33, 0x34, 0x2e, 0x30, 0x65, 0x2d, 0x54, 0x5e);
    }
  }

  /** One scientific pattern, -87e+832, has no point and is rejected at its exponent letter. */
  lemma SciPatternKinds(k: nat)
    requires k < 4
    ensures Run(SciPattern(k)) == if k == 2 then Invalid else Scientific
    ensures k == 2 ==> Run(SciPattern(k)[..4]) == Invalid
  {
    hide RunFrom;
    if k == 0 {
      RunEight(Start, 0x35, 0x2e, 0x35, 0x30, 0x30, 0x65, 0x2b, 0x33);
    } else if k == 1 {
      RunEight(Start, 0x2d, 0x2e, 0x31, 0x32, 0x33, 0x65, 0x2d, 0x32);
    } else if k == 2 {
      RunEight(Start, 0x2d, 0x38, 0x37, 0x65, 0x2b, 0x38, 0x33, 0x32);
    } else {
      RunEight(Start, 0x2b, 0x30, 0x2e, 0x36, 0x65, 0x2d, 0x31, 0x32);
    }
    RunFour(Start, 0x2d, 0x38, 0x37, 0x65);
    assert SciPattern(2)[..4] == [0x2d, 0x38, 0x37, 0x65];
  }

  // ---- Corruption ------------------------------------------------------------------

  function Flip(b: Byte, s: Byte): Byte {
    if b == COMMA then b else b ^ s
  }

  function Corrupted(m: seq<Byte>, step: nat, s: Byte): (r: seq<Byte>)
    requires step > 0
    ensures |r| == |m|
    ensures forall i :: 0 <= i < |m| ==> r[i] == if i % step == 0 then Flip(m[i], s) else m[i]
  {
    seq(|m|, i requires 0 <= i < |m| => if i % step == 0 then Flip(m[i], s) else m[i])
  }

  method Corrupt(mem: array<Byte>, blksize: nat, step: nat, s: Byte)
    requires blksize <= mem.Length && step > 0
    modifies mem
    ensures mem[..blksize] == Corrupted(old(mem[..blksize]), step, s)
    ensures mem[blksize..] == old(mem[blksize..])
  {
    hide Flip;
    var p := 0;
    while p < blksize
      invariant p % step == 0
      invariant forall i :: 0 <= i < mem.Length ==>
        mem[i] == if i % step == 0 && i < p && i < blksize then Flip(old(mem[i]), s) else old(mem[i])
    {
      mem[p] := FlipByte(mem[p], s);
      NextSample(p, step);
      p := p + step;
    }
  }

  method FlipByte(b: Byte, s: Byte) returns (r: Byte)
    ensures r == Flip(b, s)
  {
    r := b;
    if b != COMMA {
      r := b ^ s;
    }
  }

  /** No multiple of `step` lies strictly between two consecutive ones. */
  lemma NextSample(p: nat, step: nat)
    requires step > 0 && p % step == 0
    ensures (p + step) % step == 0
    ensures forall i :: p < i < p + step ==> i % step != 0
  {
    var k := p / step;
    assert p == k * step;
    assert p + step == (k + 1) * step;
    Multiple(k + 1, step);
    forall i | p < i < p + step ensures i % step != 0 {
      Between(k, i, step);
    }
  }

  lemma Multiple(k: nat, step: nat)
    requires step > 0
    ensures (k * step) % step == 0
  {
    var q := (k * step) / step;
    assert k * step == q * step + (k * step) % step;
    Scaled(q + 1, k, step);
    Scaled(k + 1, q, step);
    Scaled(q, k, step);
    Scaled(k, q, step);
  }

  lemma Between(k: nat, i: nat, step: nat)
    requires step > 0 && k * step < i < (k + 1) * step
    ensures i % step != 0
  {
    var q := i / step;
    assert i == q * step + i % step;
    Scaled(q, k, step);
    Scaled(k + 1, q, step);
  }

  /** The sampled bytes that the second pass would take for separators. */
  predicate Survives(m: seq<Byte>, step: nat, s: Byte)
    requires step > 0
  {
    forall i :: 0 <= i < |m| && i % step == 0 ==> m[i] == COMMA || m[i] ^ s != COMMA
  }

  lemma FlipTwice(b: Byte, s: Byte)
    ensures Flip(Flip(b, s), s) == b <==> b == COMMA || b ^ s != COMMA
  {
    assert (b ^ s) ^ s == b;
  }

  /** The second pass restores the block exactly when no sampled byte turns into a comma. */
  lemma RestoredIff(m: seq<Byte>, step: nat, s: Byte)
    requires step > 0
    ensures Corrupted(Corrupted(m, step, s), step, s) == m <==> Survives(m, step, s)
  {
    hide Flip;
    var r := Corrupted(Corrupted(m, step, s), step, s);
    forall i | 0 <= i < |m| ensures r[i] == m[i] <==> (i % step == 0 ==> m[i] == COMMA || m[i] ^ s != COMMA) {
      FlipTwice(m[i], s);
    }
    if Survives(m, step, s) {
      assert forall i :: 0 <= i < |m| ==> r[i] == m[i];
    }
  }

  /** A digit 0 at a sampled place does not come back from the seed byte 0x1c. */
  lemma LostDigit()
    ensures var m := [0x30, NUL, NUL]; Corrupted(Corrupted(m, 2, 0x1c), 2, 0x1c) != m
  {
    var m: seq<Byte> := [0x30, NUL, NUL];
    assert m[0] ^ 0x1c == COMMA;
    RestoredIff(m, 2, 0x1c);
  }

  // ---- The built-in patterns ---------------------------------------------------------

  /** The bytes of the sixteen patterns. */
  predicate PatternByte(b: Byte) {
    || 0x30 <= b <= 0x38 || b == 0x2b || b == 0x2d || b == 0x2e || b == 0x65
    || b == 0x46 || b == 0x54 || b == 0x5e || b == 0x71 || b == 0x7a
  }

  predicate AllPatternBytes(t: seq<Byte>) {
    forall i :: 0 <= i < |t| ==> PatternByte(t[i])
  }

  lemma AllFour(a: Byte, b: Byte, c: Byte, d: Byte)
    requires PatternByte(a) && PatternByte(b) && PatternByte(c) && PatternByte(d)
    ensures AllPatternBytes([a, b, c, d])
  {
    hide PatternByte;
  }

  lemma AllEight(a: Byte, b: Byte, c: Byte, d: Byte, e: Byte, f: Byte, g: Byte, h: Byte)
    requires PatternByte(a) && PatternByte(b) && PatternByte(c) && PatternByte(d)
    requires PatternByte(e) && PatternByte(f) && PatternByte(g) && PatternByte(h)
    ensures AllPatternBytes([a, b, c, d, e, f, g, h])
  {
    hide PatternByte;
  }

  lemma IntPatternSpelled(k: nat)
    ensures AllPatternBytes(IntPattern(k))
  {
    hide AllPatternBytes;
    AllFour(0x35, 0x30, 0x31, 0x32);
    AllFour(0x31, 0x32, 0x33, 0x34);
    AllFour(0x2d, 0x38, 0x37, 0x34);
    AllFour(0x2b, 0x31, 0x32, 0x32);
  }

  lemma FloatPatternSpelled(k: nat)
    ensures AllPatternBytes(FloatPattern(k))
  {
    hide AllPatternBytes;
    AllEight(0x33, 0x35, 0x2e, 0x35, 0x34, 0x34, 0x30, 0x30);
    AllEight(0x2e, 0x31, 0x32, 0x33, 0x34, 0x35, 0x30, 0x30);
    AllEight(0x2d, 0x31, 0x31, 0x30, 0x2e, 0x37, 0x30, 0x30);
    AllEight(0x2b, 0x30, 0x2e, 0x36, 0x34, 0x34, 0x30, 0x30);
  }

  lemma SciPatternSpelled(k: nat)
    ensures AllPatternBytes(SciPattern(k))
  {
    hide AllPatternBytes;
    AllEight(0x35, 0x2e, 0x35, 0x30, 0x30, 0x65, 0x2b, 0x33);
    AllEight(0x2d, 0x2e, 0x31, 0x32, 0x33, 0x65, 0x2d, 0x32);
    AllEight(0x2d, 0x38, 0x37, 0x65, 0x2b, 0x38, 0x33, 0x32);
    AllEight(0x2b, 0x30, 0x2e, 0x36, 0x65, 0x2d, 0x31, 0x32);
  }

  lemma ErrPatternSpelled(k: nat)
    ensures AllPatternBytes(ErrPattern(k))
  {
    hide AllPatternBytes;
    AllEight(0x54, 0x30, 0x2e, 0x33, 0x65, 0x2d, 0x31, 0x46);
    AllEight(0x2d, 0x54, 0x2e, 0x54, 0x2b, 0x2b, 0x54, 0x71);
    AllEight(0x31, 0x54, 0x33, 0x2e, 0x34, 0x65, 0x34, 0x7a);
    AllEight(0x33, 0x34, 0x2e, 0x30, 0x65, 0x2d, 0x54, 0x5e);
  }

  lemma PatternSpelled(seed: S16)
    ensures AllPatternBytes(Pattern(seed))
  {
    hide AllPatternBytes, IntPattern, FloatPattern, SciPattern, ErrPattern;
    var k := ((seed as int) / 8) % 4;
    IntPatternSpelled(k);
    FloatPatternSpelled(k);
    SciPatternSpelled(k);
    ErrPatternSpelled(k);
  }

  lemma {:induction false} TextSpelled(seed: S16, n: nat)
    ensures forall i :: 0 <= i < |Text(seed, n)| ==> Text(seed, n)[i] == COMMA || PatternByte(Text(seed, n)[i])
    decreases n
  {
    hide PatternByte, Pattern;
    if n > 0 {
      TextSpelled(seed, n - 1);
      PatternSpelled(SeedAfter(seed, n));
    }
  }

  /** A seed byte that turns no pattern byte and no NUL into a comma. */
  predicate HarmlessSeed(s: Byte) {
    s != COMMA && !PatternByte(COMMA ^ s)
  }

  lemma HarmlessFlip(b: Byte, s: Byte)
    requires HarmlessSeed(s) && (PatternByte(b) || b == NUL)
    ensures b ^ s != COMMA
  {
    assert b ^ s == COMMA ==> COMMA ^ s == b;
    assert COMMA ^ s == NUL ==> s == COMMA;
  }

  /** A freshly filled block is restored by every harmless seed, whatever the sampling step. */
  lemma FilledRestored(m: seq<Byte>, seed: S16, n: nat, step: nat, s: Byte)
    requires Filled(m, seed, n) && step > 0 && HarmlessSeed(s)
    ensures Corrupted(Corrupted(m, step, s), step, s) == m
  {
    hide PatternByte, HarmlessSeed, Corrupted;
    TextSpelled(seed, n);
    forall i | 0 <= i < |m| && i % step == 0 ensures m[i] == COMMA || m[i] ^ s != COMMA {
      var total := |Text(seed, n)|;
      if i < total {
        assert m[i] == m[..total][i];
      }
      if m[i] != COMMA {
        HarmlessFlip(m[i], s);
      }
    }
    RestoredIff(m, step, s);
  }

  /** The seed byte of this port, and those of the other two published runs. */
  lemma PortSeedsHarmless()
    ensures HarmlessSeed(0x15) && HarmlessSeed(0) && HarmlessSeed(0x08)
    ensures !HarmlessSeed(0x1c)
  {
  }

  // ---- Scanning a block --------------------------------------------------------------

  /** What one call of the scanner consumes: a token and perhaps the comma behind it. */
  datatype Piece = Piece(token: seq<Byte>, comma: bool)

  function Spelled(ps: seq<Piece>): seq<Byte> {
    if ps == [] then []
    else
      var last := ps[|ps| - 1];
      Spelled(ps[..|ps| - 1]) + last.token + if last.comma then [COMMA] else []
  }

  /** How many tokens end in state `s`. */
  function Finals(ps: seq<Piece>, s: State): nat {
    if ps == [] then 0
    else Finals(ps[..|ps| - 1], s) + if Run(ps[|ps| - 1].token) == s then 1 else 0
  }

  function Shares(ps: seq<Piece>, s: State): nat {
    if ps == [] then 0 else Shares(ps[..|ps| - 1], s) + Share(ps[|ps| - 1].token, s)
  }

  lemma PieceSnoc(ps: seq<Piece>, piece: Piece)
    ensures Spelled(ps + [piece]) == Spelled(ps) + piece.token + if piece.comma then [COMMA] else []
    ensures forall s: State :: Finals(ps + [piece], s) == Finals(ps, s) + if Run(piece.token) == s then 1 else 0
    ensures forall s: State :: Shares(ps + [piece], s) == Shares(ps, s) + Share(piece.token, s)
  {
    hide Run, Share;
    assert (ps + [piece])[..|ps|] == ps;
  }

  /** A comma ends a token that is not invalid; an invalid token ends with the byte that spoils it. */
  predicate PieceOk(piece: Piece) {
    && (piece.comma || piece.token != [])
    && (forall i :: 0 <= i < |piece.token| ==> !Ends(piece.token[i]))
    && (piece.comma ==> Run(piece.token) != Invalid)
    && (Run(piece.token) == Invalid ==> piece.token != [] && Run(piece.token[..|piece.token| - 1]) != Invalid)
  }

  /** Only the last token can end at a NUL. */
  predicate PiecesOk(ps: seq<Piece>, ended: bool) {
    forall i :: 0 <= i < |ps| ==>
      PieceOk(ps[i]) && (ps[i].comma || Run(ps[i].token) == Invalid || (ended && i == |ps| - 1))
  }

  predicate Totals(was: seq<nat>, now: seq<nat>, ps: seq<Piece>) {
    |was| == |now| == 8 && forall s: State :: now[Index(s)] == was[Index(s)] + Finals(ps, s)
  }

  predicate Tracks(was: seq<nat>, now: seq<nat>, ps: seq<Piece>) {
    |was| == |now| == 8 && forall s: State :: now[Index(s)] == was[Index(s)] + Shares(ps, s)
  }

  lemma NoPieces(was: seq<nat>)
    requires |was| == 8
    ensures Totals(was, was, []) && Tracks(was, was, []) && Spelled([]) == []
  {
  }

  lemma TotalsSnoc(was: seq<nat>, now: seq<nat>, ps: seq<Piece>, piece: Piece)
    requires Totals(was, now, ps)
    ensures var i := Index(Run(piece.token));
      Totals(was, now[i := now[i] + 1], ps + [piece])
  {
    hide Run;
    PieceSnoc(ps, piece);
  }

  lemma TracksSnoc(was: seq<nat>, now: seq<nat>, later: seq<nat>, ps: seq<Piece>, piece: Piece)
    requires Tracks(was, now, ps) && Tallied(now, later, piece.token)
    ensures Tracks(was, later, ps + [piece])
  {
    hide Run, Share, Index;
    PieceSnoc(ps, piece);
  }

  /** One call of the scanner, as a piece of the block. */
  lemma PieceOf(m: seq<Byte>, p: nat, e: nat, q: nat) returns (piece: Piece)
    requires TokenAt(m, p, e) && StopsAt(m, p, e, q) && p < q
    ensures piece.token == m[p..e] && PieceOk(piece)
    ensures p <= q <= |m| && m[p..q] == piece.token + if piece.comma then [COMMA] else []
    ensures forall i :: p <= i < q ==> m[i] != NUL
    ensures piece.comma || Run(piece.token) == Invalid || (q < |m| && m[q] == NUL)
  {
    hide Run;
    piece := Piece(m[p..e], q > e);
    if Run(piece.token) == Invalid {
      assert piece.token[..|piece.token| - 1] == m[p..e - 1];
    }
  }

  method ScanAll(mem: array<Byte>, final: array<nat>, track: array<nat>) returns (ghost q: nat, ghost ps: seq<Piece>)
    requires final.Length == track.Length == 8 && final != track
    requires (mem as object) != final && (mem as object) != track
    requires exists z :: 0 <= z < mem.Length && mem[z] == NUL
    modifies final, track
    ensures q < mem.Length && mem[q] == NUL && (forall i :: 0 <= i < q ==> mem[i] != NUL)
    ensures mem[..q] == Spelled(ps) && PiecesOk(ps, true)
    ensures Totals(old(final[..]), final[..], ps) && Tracks(old(track[..]), track[..], ps)
  {
    hide Run, Spelled, Totals, Tracks, PieceOk, TokenAt, StopsAt, Tallied, Index;
    ghost var m := mem[..];
    ghost var z :| 0 <= z < mem.Length && mem[z] == NUL;
    var p := 0;
    ps := [];
    NoPieces(final[..]);
    NoPieces(track[..]);
    assert m[..0] == [] == Spelled([]);
    while mem[p] != NUL
      invariant p <= z && (forall i :: 0 <= i < p ==> m[i] != NUL)
      invariant m[..p] == Spelled(ps) && PiecesOk(ps, m[p] == NUL)
      invariant Totals(old(final[..]), final[..], ps) && Tracks(old(track[..]), track[..], ps)
      decreases mem.Length - p
    {
      ghost var wasFinal, wasTrack := final[..], track[..];
      var state, next;
      ghost var e;
      state, next, e := Transition(mem, p, track);
      ghost var piece := PieceOf(m, p, e, next);
      TracksSnoc(old(track[..]), wasTrack, track[..], ps, piece);
      TotalsSnoc(old(final[..]), wasFinal, ps, piece);
      PieceSnoc(ps, piece);
      final[Index(state)] := final[Index(state)] + 1;
      assert m[..next] == m[..p] + m[p..next];
      ps := ps + [piece];
      p := next;
    }
    q := p;
  }

  // ---- The benchmark ---------------------------------------------------------------

  /** The sampling step `calc_func` derives from bits 3 to 6 of a data item. */
  function Period(d: nat): (step: nat)
    requires d < 16
    ensures 0x22 <= step <= 0xff && (step == 0x22 || step == 0x11 * d) && step >= 0x11 * d
  {
    var dtype := d * 16 + d;
    if dtype < 0x22 then 0x22 else dtype
  }

  predicate TwoNulsAtEnd(m: seq<Byte>) {
    |m| >= 2 && m[|m| - 1] == NUL && m[|m| - 2] == NUL
  }

  lemma FilledEnds(m: seq<Byte>, seed: S16, n: nat)
    requires Filled(m, seed, n) && |m| >= 2
    ensures TwoNulsAtEnd(m)
  {
  }

  /** Corruption reaches at most one of two neighbouring bytes. */
  lemma NulRemains(m: seq<Byte>, step: nat, s: Byte)
    requires TwoNulsAtEnd(m) && step >= 2
    ensures exists z :: 0 <= z < |m| && Corrupted(m, step, s)[z] == NUL
  {
    var n := |m| - 2;
    if n % step == 0 {
      NextSample(n, step);
      assert (n + 1) % step != 0;
      assert Corrupted(m, step, s)[n + 1] == NUL;
    } else {
      assert Corrupted(m, step, s)[n] == NUL;
    }
  }

  /** The bytes the checksum covers: each final count and then each transition count. */
  function CountBytes(final: seq<nat>, track: seq<nat>, n: nat): seq<Byte>
    requires n <= |final| && n <= |track|
  {
    if n == 0 then []
    else
      CountBytes(final, track, n - 1) + Crc.LittleEndian(Crc.WordOf(final[n - 1]))
      + Crc.LittleEndian(Crc.WordOf(track[n - 1]))
  }

  method Checksum(final: array<nat>, track: array<nat>, crc: bv16) returns (r: bv16)
    requires final.Length == track.Length == 8
    ensures r == Crc.CrcBytes(CountBytes(final[..], track[..], 8), crc)
  {
    hide Crc.LittleEndian, Crc.WordOf;
    r := crc;
    var i := 0;
    while i < 8
      invariant i <= 8 && r == Crc.CrcBytes(CountBytes(final[..], track[..], i), crc)
    {
      ghost var before := CountBytes(final[..], track[..], i);
      var f, t := Crc.WordOf(final[i]), Crc.WordOf(track[i]);
      r := Crc.Crcu32(f, r);
      Crc.CrcBytesConcat(before, Crc.LittleEndian(f), crc);
      r := Crc.Crcu32(t, r);
      Crc.CrcBytesConcat(before + Crc.LittleEndian(f), Crc.LittleEndian(t), crc);
      i := i + 1;
    }
  }

  /** What both scans together leave in the two count arrays. */
  predicate BothScans(final: seq<nat>, track: seq<nat>, ps: seq<Piece>, qs: seq<Piece>) {
    && |final| == |track| == 8
    && (forall s: State :: final[Index(s)] == Finals(ps, s) + Finals(qs, s))
    && (forall s: State :: track[Index(s)] == Shares(ps, s) + Shares(qs, s))
  }

  lemma AddScans(zero: seq<nat>, f1: seq<nat>, t1: seq<nat>, f2: seq<nat>, t2: seq<nat>, ps: seq<Piece>, qs: seq<Piece>)
    requires |zero| == 8 && forall i :: 0 <= i < 8 ==> zero[i] == 0
    requires Totals(zero, f1, ps) && Totals(f1, f2, qs) && Tracks(zero, t1, ps) && Tracks(t1, t2, qs)
    ensures BothScans(f2, t2, ps, qs)
  {
    hide Index, Finals, Shares;
  }

  /** The text before the first NUL is cut into `ps`. */
  predicate CutInto(m: seq<Byte>, ps: seq<Piece>) {
    && |Spelled(ps)| < |m| && m[..|Spelled(ps)|] == Spelled(ps) && m[|Spelled(ps)|] == NUL
    && (forall i :: 0 <= i < |Spelled(ps)| ==> Spelled(ps)[i] != NUL)
    && PiecesOk(ps, true)
  }

  /** One scan of the whole block. */
  method ScanBlock(mem: array<Byte>, final: array<nat>, track: array<nat>) returns (ghost ps: seq<Piece>)
    requires final.Length == track.Length == 8 && final != track
    requires (mem as object) != final && (mem as object) != track
    requires exists z :: 0 <= z < |mem[..]| && mem[..][z] == NUL
    modifies final, track
    ensures CutInto(mem[..], ps)
    ensures Totals(old(final[..]), final[..], ps) && Tracks(old(track[..]), track[..], ps)
  {
    hide Spelled, PiecesOk, Totals, Tracks;
    ghost var z :| 0 <= z < |mem[..]| && mem[..][z] == NUL;
    assert mem[z] == NUL;
    ghost var q;
    q, ps := ScanAll(mem, final, track);
    assert mem[..][..q] == mem[..q];
  }

  /** One pass of corruption over the whole block. */
  method CorruptBlock(mem: array<Byte>, step: nat, s: Byte)
    requires step > 0
    modifies mem
    ensures mem[..] == Corrupted(old(mem[..]), step, s)
  {
    hide Corrupted;
    assert mem[..mem.Length] == mem[..];
    Corrupt(mem, mem.Length, step, s);
    assert mem[..mem.Length] == mem[..];
  }

  method BenchState(mem: array<Byte>, seed1: Byte, seed2: Byte, step: nat, crc: bv16)
    returns (r: bv16, ghost ps: seq<Piece>, ghost qs: seq<Piece>, ghost final: seq<nat>, ghost track: seq<nat>)
    requires TwoNulsAtEnd(mem[..]) && step >= 2
    modifies mem
    ensures mem[..] == Corrupted(Corrupted(old(mem[..]), step, seed1), step, seed2)
    ensures CutInto(old(mem[..]), ps) && CutInto(Corrupted(old(mem[..]), step, seed1), qs)
    ensures BothScans(final, track, ps, qs) && r == Crc.CrcBytes(CountBytes(final, track, 8), crc)
  {
    hide CutInto, Totals, Tracks, BothScans, CountBytes, Corrupted, Crc.CrcBytes;
    var finalCounts := new nat[8](_ => 0);
    var trackCounts := new nat[8](_ => 0);
    ghost var zero := finalCounts[..];
    assert zero == trackCounts[..];
    assert mem[..][|mem[..]| - 1] == NUL;
    ps := ScanBlock(mem, finalCounts, trackCounts);
    ghost var f, t := finalCounts[..], trackCounts[..];
    NulRemains(mem[..], step, seed1);
    CorruptBlock(mem, step, seed1);
    qs := ScanBlock(mem, finalCounts, trackCounts);
    AddScans(zero, f, t, finalCounts[..], trackCounts[..], ps, qs);
    CorruptBlock(mem, step, seed2);
    r := Checksum(finalCounts, trackCounts, crc);
    final, track := finalCounts[..], trackCounts[..];
  }

  /** Repeated runs on a freshly filled block: each leaves it as it was, so each scans the same text. */
  method BenchRepeatedly(size: nat, seed: S16, s: Byte, periods: seq<nat>, crc: bv16)
    returns (r: bv16, mem: array<Byte>, ghost n: nat)
    requires size >= 2 && HarmlessSeed(s)
    requires forall i :: 0 <= i < |periods| ==> periods[i] < 16
    ensures fresh(mem) && mem.Length == size && Filled(mem[..], seed, n)
  {
    hide HarmlessSeed, Corrupted, BothScans, CutInto, TwoNulsAtEnd;
    mem := new Byte[size](_ => NUL);
    n := InitState(size, seed, mem);
    assert mem[..size] == mem[..];
    r := crc;
    for i := 0 to |periods|
      invariant Filled(mem[..], seed, n)
    {
      FilledEnds(mem[..], seed, n);
      FilledRestored(mem[..], seed, n, Period(periods[i]), s);
      ghost var ps, qs, final, track;
      r, ps, qs, final, track := BenchState(mem, s, s, Period(periods[i]), r);
    }
  }
}
