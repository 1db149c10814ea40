/**
  The matrix benchmark of coremark/core_matrix.c: the choice of the dimension
  and the layout in the block, and the operations on the three matrices.
  MATDAT is 16 bits wide and MATRES 32; both wrap.
*/
module Matrix {
  import opened Arithmetic
  import BitOps
  import Crc

  // ---- Machine integers ------------------------------------------------------------

  function Wrap16(x: int): (r: int)
    ensures -0x8000 <= r < 0x8000
  {
    (x + 0x8000) % 0x1_0000 - 0x8000
  }

  function Wrap32(x: int): (r: int)
    ensures -0x8000_0000 <= r < 0x8000_0000
  {
    (x + 0x8000_0000) % 0x1_0000_0000 - 0x8000_0000
  }

  /** Wrapping adds a multiple of the range. */
  lemma WrapCongruent(x: int)
    ensures x == Wrap16(x) + 0x1_0000 * ((x + 0x8000) / 0x1_0000)
    ensures x == Wrap32(x) + 0x1_0000_0000 * ((x + 0x8000_0000) / 0x1_0000_0000)
  {
  }

  predicate IsS16(x: int) {
    -0x8000 <= x < 0x8000
  }

  /** Adding a constant and then its negative gives every 16-bit value back, -0x8000 included. */
  lemma AddThenSubtract(a: int, val: int)
    requires IsS16(a)
    ensures Wrap16(Wrap16(a + val) + Wrap16(-val)) == a
  {
    WrapsAway(a + val, -val);
  }

  lemma WrapsAway(x: int, y: int)
    ensures Wrap16(Wrap16(x) + Wrap16(y)) == Wrap16(x + y)
  {
    var p, q := (x + 0x8000) / 0x1_0000, (y + 0x8000) / 0x1_0000;
    assert Wrap16(x) == x - p * 0x1_0000 && Wrap16(y) == y - q * 0x1_0000;
    var z := x + y + 0x8000;
    assert Wrap16(x) + Wrap16(y) + 0x8000 == z - (p + q) * 0x1_0000;
    assert (z - (p + q) * 0x1_0000) % 0x1_0000 == z % 0x1_0000;
  }

  // ---- Dimension and layout ----------------------------------------------------------

  method Dimension(blksize: nat) returns (n: nat)
    requires 0 < blksize <= 0x8000_0000
    ensures 8 * n * n < blksize <= 8 * (n + 1) * (n + 1)
  {
    var i, j := 0, 0;
    while j < blksize
      invariant i <= 16384 && j == 8 * i * i
      invariant i > 0 ==> 8 * (i - 1) * (i - 1) < blksize
      decreases blksize - j
    {
      Grows(i);
      i := i + 1;
      j := (i * i * 2 * 4) % 0x1_0000_0000;
    }
    n := i - 1;
  }

  /** The next square is larger and, below the largest block, still fits in 32 bits. */
  lemma Grows(i: nat)
    requires i <= 16384 && 8 * i * i < 0x8000_0000
    ensures i < 16384 && 8 * (i + 1) * (i + 1) > 8 * i * i
    ensures ((i + 1) * (i + 1) * 2 * 4) % 0x1_0000_0000 == 8 * (i + 1) * (i + 1)
  {
    assert (i + 1) * (i + 1) == i * i + 2 * i + 1;
    assert i * i <= 16384 * 16384;
    assert (i + 1) * (i + 1) <= 16384 * 16384 by {
      SquareBound(i + 1);
    }
  }

  lemma SquareBound(i: nat)
    requires i <= 16384
    ensures i * i <= 16384 * 16384
  {
    Scaled(i, 16384, i);
  }

  function Align(p: nat): nat {
    (p + 7) / 8 * 8
  }

  /** The byte addresses of A, B, C and the end of C in a block at `mem`. */
  datatype Layout = Layout(a: nat, b: nat, c: nat, end: nat)

  function LayoutOf(mem: nat, n: nat): Layout {
    var a := Align(mem);
    var b := a + 2 * (n * n);
    var c := Align(b + 2 * (n * n));
    Layout(a, b, c, c + 4 * (n * n))
  }

  /** Behind an aligned address, `q` four-byte units need a gap only if `q` is odd. */
  lemma AlignBehind(p: nat, q: nat)
    ensures p <= Align(p) <= p + 7 && Align(p) % 8 == 0
    ensures p % 8 == 0 ==> Align(p + 4 * q) == p + 4 * q + if q % 2 == 0 then 0 else 4
  {
    if p % 8 == 0 {
      var u, v := p / 8, q / 2;
      if q % 2 == 0 {
        assert p + 4 * q == 8 * (u + v);
      } else {
        assert p + 4 * q == 8 * (u + v) + 4;
      }
    }
  }

  /** The matrices follow one another without overlap; alignment can cost ten bytes past the block. */
  lemma LayoutDisjoint(mem: nat, n: nat, blksize: nat)
    requires 8 * n * n < blksize
    ensures var l := LayoutOf(mem, n);
      && mem <= l.a && l.a + 2 * (n * n) == l.b && l.b + 2 * (n * n) <= l.c && l.c + 4 * (n * n) == l.end
      && l.a % 8 == 0 && l.c % 8 == 0 && l.end < mem + blksize + 11
  {
    hide Align;
    var q := n * n;
    assert 8 * n * n == 8 * q;
    AlignBehind(mem, 0);
    AlignBehind(Align(mem), q);
    AlignBehind(Align(mem) + 4 * q, 0);
  }

  /** C ends inside the block exactly when the two gaps fit beside the matrices. */
  lemma LayoutFitsIff(mem: nat, n: nat, blksize: nat)
    ensures LayoutOf(mem, n).end <= mem + blksize <==>
      (Align(mem) - mem) + 8 * (n * n) + (if (n * n) % 2 == 0 then 0 else 4) <= blksize
  {
    hide Align;
    AlignBehind(mem, 0);
    AlignBehind(Align(mem), n * n);
  }

  lemma LayoutOverflows()
    ensures 8 * 1 * 1 < 9 && LayoutOf(1, 1).end > 1 + 9
  {
  }

  // ---- Cells -----------------------------------------------------------------------

  lemma Cell(i: nat, j: nat, n: nat)
    requires i < n && j < n
    ensures i * n + j < n * n && (i + 1) * n == i * n + n <= n * n
    ensures (i * n + j) / n == i && (i * n + j) % n == j
  {
    var k := i * n + j;
    var q := k / n;
    assert k == q * n + k % n;
    Scaled(i, n, n);
    Scaled(i + 1, n, n);
    Scaled(q, i, n);
    Scaled(q + 1, i, n);
    Scaled(i + 1, q, n);
  }

  // ---- Operations ------------------------------------------------------------------

  function Product(x: int, y: int): int {
    Wrap32(x * y)
  }

  method AddConst(n: nat, a: array<int>, val: int)
    requires a.Length == n * n
    modifies a
    ensures forall k :: 0 <= k < n * n ==> a[k] == Wrap16(old(a[k]) + val)
  {
    hide Wrap16;
    var i := 0;
    while i < n
      invariant i <= n && i * n <= n * n
      invariant forall k :: 0 <= k < n * n ==> a[k] == if k < i * n then Wrap16(old(a[k]) + val) else old(a[k])
    {
      var j := 0;
      while j < n
        invariant j <= n
        invariant forall k :: 0 <= k < n * n ==> a[k] == if k < i * n + j then Wrap16(old(a[k]) + val) else old(a[k])
      {
        Cell(i, j, n);
        a[i * n + j] := Wrap16(a[i * n + j] + val);
        j := j + 1;
      }
      Cell(i, 0, n);
      i := i + 1;
    }
  }

  method MulConst(n: nat, c: array<int>, a: array<int>, val: int)
    requires a.Length == n * n == c.Length && a != c
    modifies c
    ensures forall k :: 0 <= k < n * n ==> c[k] == Product(a[k], val)
  {
    hide Product;
    var i := 0;
    while i < n
      invariant i <= n && i * n <= n * n
      invariant forall k :: 0 <= k < n * n ==> k < i * n ==> c[k] == Product(a[k], val)
    {
      var j := 0;
      while j < n
        invariant j <= n
        invariant forall k :: 0 <= k < n * n ==> k < i * n + j ==> c[k] == Product(a[k], val)
      {
        Cell(i, j, n);
        c[i * n + j] := Product(a[i * n + j], val);
        j := j + 1;
      }
      Cell(i, 0, n);
      i := i + 1;
    }
  }

  // ---- Products --------------------------------------------------------------------

  /** Row `i`, column `j`. */
  function At(a: seq<int>, n: nat, i: nat, j: nat): int
    requires |a| == n * n && i < n && j < n
  {
    Cell(i, j, n);
    a[i * n + j]
  }

  method Fetch(a: array<int>, n: nat, i: nat, j: nat) returns (x: int)
    requires a.Length == n * n && i < n && j < n
    ensures x == At(a[..], n, i, j)
  {
    Cell(i, j, n);
    x := a[i * n + j];
  }

  /** The first `m` terms of row `i` of A times column `j` of B. */
  function Dot(a: seq<int>, b: seq<int>, n: nat, i: nat, j: nat, m: nat): int
    requires |a| == n * n == |b| && i < n && j < n && m <= n
  {
    if m == 0 then 0
    else
      Dot(a, b, n, i, j, m - 1) + At(a, n, i, m - 1) * At(b, n, m - 1, j)
  }

  /** `bit_extract`: shift right, keeping the sign, and mask. */
  function BitExtract(x: int, from: nat, to: nat): (r: nat)
    ensures r < Pow2(to)
  {
    (x / Pow2(from)) % Pow2(to)
  }

  /** Bit `k` of a pattern. */
  function BitAt(p: nat, k: nat): (b: nat)
    ensures b < 2
  {
    BitOps.Shift(p, k) % 2
  }

  /** The bits `from`, `from + 1`, .. of a pattern, weighted 1, 2, 4, .. */
  function Field(p: nat, from: nat, n: nat): nat
    decreases n
  {
    if n == 0 then 0 else BitAt(p, from) + 2 * Field(p, from + 1, n - 1)
  }

  /** The 32-bit two's-complement pattern of a number. */
  function Pattern32(x: int): nat {
    x % 0x1_0000_0000
  }

  /** Bits 2 to 5 of a product, as a number, times its bits 5 to 11. */
  function BitProduct(x: int, y: int): (r: nat)
    ensures r <= 1905
  {
    var p := Pattern32(x * y);
    FieldSmall(p, 2, 4);
    FieldSmall(p, 5, 7);
    assert Pow2(4) == 16 && Pow2(7) == 128;
    Bounded(Field(p, 2, 4), Field(p, 5, 7));
    Field(p, 2, 4) * Field(p, 5, 7)
  }

  lemma {:induction false} FieldSmall(p: nat, from: nat, n: nat)
    ensures Field(p, from, n) < Pow2(n)
    decreases n
  {
    if n > 0 {
      FieldSmall(p, from + 1, n - 1);
    }
  }

  lemma {:induction false} FieldIsLow(p: nat, from: nat, n: nat)
    ensures Field(p, from, n) == BitOps.Low(BitOps.Shift(p, from), n)
    decreases n
  {
    if n > 0 {
      FieldIsLow(p, from + 1, n - 1);
      BitOps.PartsAdd(p, from, 1);
      assert BitOps.Shift(BitOps.Shift(p, from), 1) == BitOps.Shift(p, from) / 2;
    }
  }

  /** Shifting and masking the signed product takes exactly those two fields. */
  lemma ExtractIsField(x: int)
    ensures BitExtract(Wrap32(x), 2, 4) == Field(Pattern32(x), 2, 4)
    ensures BitExtract(Wrap32(x), 5, 7) == Field(Pattern32(x), 5, 7)
  {
    hide Field, BitOps.Low, BitOps.Shift, Wrap32;
    var p := Pattern32(x);
    FieldIsLow(p, 2, 4);
    FieldIsLow(p, 5, 7);
    SmallShifts(p);
    BitOps.LowFour(p / 4, 0);
    BitOps.LowFour(p / 32, 3);
    LowThree(p / 4 / 16, p / 32 / 16);
    SignedShift(x);
    assert Pow2(2) == 4 && Pow2(4) == 16 && Pow2(5) == 32 && Pow2(7) == 128;
    SevenBits(p / 32);
  }

  lemma SevenBits(z: nat)
    ensures z % 128 == z % 16 + 16 * (z / 16 % 8)
  {
    assert z == 16 * (z / 16) + z % 16;
    assert z / 16 == 8 * (z / 16 / 8) + z / 16 % 8;
  }

  lemma SmallShifts(p: nat)
    ensures BitOps.Shift(p, 2) == p / 4 && BitOps.Shift(p, 5) == p / 32
  {
    assert BitOps.Shift(p, 2) == BitOps.Shift(p / 2, 1) == BitOps.Shift(p / 4, 0);
    BitOps.ShiftFour(p);
    BitOps.PartsAdd(p, 4, 1);
    assert BitOps.Shift(p / 16, 1) == BitOps.Shift(p / 32, 0);
  }

  lemma LowThree(y: nat, z: nat)
    ensures BitOps.Low(y, 0) == 0 && BitOps.Low(z, 3) == z % 8
  {
    assert BitOps.Low(z, 3) == z % 2 + 2 * BitOps.Low(z / 2, 2);
    assert BitOps.Low(z / 2, 2) == z / 2 % 2 + 2 * BitOps.Low(z / 4, 1);
    assert BitOps.Low(z / 4, 1) == z / 4 % 2 + 2 * BitOps.Low(z / 8, 0);
  }

  /** The sign makes no difference to low bits. */
  lemma SignedShift(x: int)
    ensures (Wrap32(x) / 4) % 16 == (Pattern32(x) / 4) % 16
    ensures (Wrap32(x) / 32) % 128 == (Pattern32(x) / 32) % 128
  {
    var w, p := Wrap32(x), Pattern32(x);
    WrapsToPattern(x);
    if w != p {
      Turned4(p);
      Turned32(p);
    }
  }

  lemma Turned4(p: nat)
    ensures ((p - 0x1_0000_0000) / 4) % 16 == (p / 4) % 16
  {
    var q := p / 4;
    assert (p - 0x1_0000_0000) / 4 == q - 0x4000_0000;
    assert q - 0x4000_0000 == 16 * (q / 16 - 0x400_0000) + q % 16;
  }

  lemma Turned32(p: nat)
    ensures ((p - 0x1_0000_0000) / 32) % 128 == (p / 32) % 128
  {
    var q := p / 32;
    assert (p - 0x1_0000_0000) / 32 == q - 0x800_0000;
    assert q - 0x800_0000 == 128 * (q / 128 - 0x10_0000) + q % 128;
  }

  lemma WrapsToPattern(x: int)
    ensures Wrap32(x) == Pattern32(x) || Wrap32(x) == Pattern32(x) - 0x1_0000_0000
  {
  }

  lemma Bounded(lo: nat, hi: nat)
    requires lo <= 15 && hi <= 127
    ensures lo * hi <= 1905
  {
    Scaled(lo, 15, hi);
  }

  function BitDot(a: seq<int>, b: seq<int>, n: nat, i: nat, j: nat, m: nat): (r: nat)
    requires |a| == n * n == |b| && i < n && j < n && m <= n
    ensures r <= 1905 * m
  {
    if m == 0 then 0
    else
      BitDot(a, b, n, i, j, m - 1) + BitProduct(At(a, n, i, m - 1), At(b, n, m - 1, j))
  }

  lemma WrapAdds(x: int, y: int)
    ensures Wrap32(Wrap32(x) + Wrap32(y)) == Wrap32(x + y)
  {
    var p, q := (x + 0x8000_0000) / 0x1_0000_0000, (y + 0x8000_0000) / 0x1_0000_0000;
    assert Wrap32(x) == x - p * 0x1_0000_0000 && Wrap32(y) == y - q * 0x1_0000_0000;
    var z := x + y + 0x8000_0000;
    assert Wrap32(x) + Wrap32(y) + 0x8000_0000 == z - (p + q) * 0x1_0000_0000;
    assert (z - (p + q) * 0x1_0000_0000) % 0x1_0000_0000 == z % 0x1_0000_0000;
  }

  /** The entry that belongs at cell `k` of the product. */
  function Entry(a: seq<int>, b: seq<int>, n: nat, k: nat): int
    requires |a| == n * n == |b| && k < n * n
  {
    Row(k, n);
    Wrap32(Dot(a, b, n, k / n, k % n, n))
  }

  lemma Row(k: nat, n: nat)
    requires k < n * n
    ensures n > 0 && k / n < n && k % n < n
  {
    if n > 0 {
      var q := k / n;
      assert k == q * n + k % n;
      Scaled(n, q, n);
    }
  }

  /** Row `i`, column `j` of the product. */
  lemma EntryAt(a: seq<int>, b: seq<int>, n: nat, i: nat, j: nat)
    requires |a| == n * n == |b| && i < n && j < n
    ensures i * n + j < n * n && Entry(a, b, n, i * n + j) == Wrap32(Dot(a, b, n, i, j, n))
    ensures BitEntry(a, b, n, i * n + j) == BitDot(a, b, n, i, j, n)
  {
    hide Wrap32, Dot, BitDot;
    Cell(i, j, n);
  }

  /** The innermost loop of the product, for the cell `at` of row `i` and column `j`. */
  method MulCell(n: nat, c: array<int>, a: array<int>, b: array<int>, i: nat, j: nat, at: nat)
    requires a.Length == n * n == b.Length && c.Length == n * n && a != c && b != c
    requires i < n && j < n && at < n * n
    modifies c
    ensures c[at] == Wrap32(Dot(a[..], b[..], n, i, j, n))
    ensures forall k :: 0 <= k < n * n && k != at ==> c[k] == old(c[k])
  {
    hide Dot, Wrap32, Product, At;
    c[at] := 0;
    EmptyDot(a[..], b[..], n, i, j);
    var k := 0;
    while k < n
      invariant k <= n && c[at] == Wrap32(Dot(a[..], b[..], n, i, j, k))
      invariant forall h :: 0 <= h < n * n && h != at ==> c[h] == old(c[h])
    {
      DotStep(a[..], b[..], n, i, j, k);
      var x := Fetch(a, n, i, k);
      var y := Fetch(b, n, k, j);
      c[at] := Wrap32(c[at] + Product(x, y));
      k := k + 1;
    }
  }

  lemma EmptyDot(a: seq<int>, b: seq<int>, n: nat, i: nat, j: nat)
    requires |a| == n * n == |b| && i < n && j < n
    ensures Wrap32(Dot(a, b, n, i, j, 0)) == 0
  {
  }

  lemma DotStep(a: seq<int>, b: seq<int>, n: nat, i: nat, j: nat, k: nat)
    requires |a| == n * n == |b| && i < n && j < n && k < n
    ensures Wrap32(Wrap32(Dot(a, b, n, i, j, k)) + Product(At(a, n, i, k), At(b, n, k, j))) ==
      Wrap32(Dot(a, b, n, i, j, k + 1))
  {
    hide Wrap32, At;
    WrapAdds(Dot(a, b, n, i, j, k), At(a, n, i, k) * At(b, n, k, j));
  }

  method MulMatrix(n: nat, c: array<int>, a: array<int>, b: array<int>)
    requires a.Length == n * n == b.Length && c.Length == n * n && a != c && b != c
    modifies c
    ensures forall k :: 0 <= k < n * n ==> c[k] == Entry(a[..], b[..], n, k)
  {
    hide Wrap32, Dot;
    ghost var sa, sb := a[..], b[..];
    var i := 0;
    while i < n
      invariant i <= n && i * n <= n * n && a[..] == sa && b[..] == sb
      invariant forall k :: 0 <= k < n * n ==> k < i * n ==> c[k] == Entry(sa, sb, n, k)
    {
      var j := 0;
      while j < n
        invariant j <= n && a[..] == sa && b[..] == sb
        invariant forall k :: 0 <= k < n * n ==> k < i * n + j ==> c[k] == Entry(sa, sb, n, k)
      {
        Cell(i, j, n);
        MulCell(n, c, a, b, i, j, i * n + j);
        j := j + 1;
      }
      Cell(i, 0, n);
      i := i + 1;
    }
  }

  // ---- Bit extraction --------------------------------------------------------------

  function BitEntry(a: seq<int>, b: seq<int>, n: nat, k: nat): (r: nat)
    requires |a| == n * n == |b| && k < n * n
    ensures r <= 1905 * n
  {
    Row(k, n);
    BitDot(a, b, n, k / n, k % n, n)
  }

  /** The innermost loop of the bit-extracting product. */
  method BitCell(n: nat, c: array<int>, a: array<int>, b: array<int>, i: nat, j: nat, at: nat)
    requires a.Length == n * n == b.Length && c.Length == n * n && a != c && b != c
    requires i < n && j < n && at < n * n && 1905 * n < 0x8000_0000
    modifies c
    ensures c[at] == BitDot(a[..], b[..], n, i, j, n)
    ensures forall k :: 0 <= k < n * n && k != at ==> c[k] == old(c[k])
  {
    hide BitDot, Wrap32, At, Field, Pattern32, BitExtract;
    c[at] := 0;
    EmptyBitDot(a[..], b[..], n, i, j);
    var k := 0;
    while k < n
      invariant k <= n && c[at] == BitDot(a[..], b[..], n, i, j, k)
      invariant forall h :: 0 <= h < n * n && h != at ==> c[h] == old(c[h])
    {
      BitDotStep(a[..], b[..], n, i, j, k);
      var x := Fetch(a, n, i, k);
      var y := Fetch(b, n, k, j);
      ExtractIsField(x * y);
      var tmp := Wrap32(x * y);
      c[at] := Wrap32(c[at] + BitExtract(tmp, 2, 4) * BitExtract(tmp, 5, 7));
      k := k + 1;
    }
  }

  lemma EmptyBitDot(a: seq<int>, b: seq<int>, n: nat, i: nat, j: nat)
    requires |a| == n * n == |b| && i < n && j < n
    ensures BitDot(a, b, n, i, j, 0) == 0
  {
  }

  lemma BitDotStep(a: seq<int>, b: seq<int>, n: nat, i: nat, j: nat, k: nat)
    requires |a| == n * n == |b| && i < n && j < n && k < n && 1905 * n < 0x8000_0000
    ensures var sum := BitDot(a, b, n, i, j, k) + BitProduct(At(a, n, i, k), At(b, n, k, j));
      BitDot(a, b, n, i, j, k + 1) == sum && Wrap32(sum) == sum
  {
    hide BitProduct, At;
    var sum := BitDot(a, b, n, i, j, k) + BitProduct(At(a, n, i, k), At(b, n, k, j));
    assert BitDot(a, b, n, i, j, k + 1) == sum;
    hide BitDot;
    assert 0 <= sum <= 1905 * (k + 1) <= 1905 * n;
  }

  /** No entry can overflow: each is the exact sum of its terms, between 0 and 1905 n. */
  method MulBitExtract(n: nat, c: array<int>, a: array<int>, b: array<int>)
    requires a.Length == n * n == b.Length && c.Length == n * n && a != c && b != c
    requires 1905 * n < 0x8000_0000
    modifies c
    ensures forall k :: 0 <= k < n * n ==> c[k] == BitEntry(a[..], b[..], n, k) && 0 <= c[k] <= 1905 * n
  {
    hide BitDot;
    ghost var sa, sb := a[..], b[..];
    var i := 0;
    while i < n
      invariant i <= n && i * n <= n * n && a[..] == sa && b[..] == sb
      invariant forall k :: 0 <= k < n * n ==> k < i * n ==> c[k] == BitEntry(sa, sb, n, k)
    {
      var j := 0;
      while j < n
        invariant j <= n && a[..] == sa && b[..] == sb
        invariant forall k :: 0 <= k < n * n ==> k < i * n + j ==> c[k] == BitEntry(sa, sb, n, k)
      {
        Cell(i, j, n);
        BitCell(n, c, a, b, i, j, i * n + j);
        j := j + 1;
      }
      Cell(i, 0, n);
      i := i + 1;
    }
  }

  // ---- Matrix by vector ------------------------------------------------------------

  /** Row `i` of A times the first row of B. */
  function RowDot(a: seq<int>, b: seq<int>, n: nat, i: nat, m: nat): int
    requires |a| == n * n == |b| && i < n && m <= n
  {
    if m == 0 then 0
    else
      RowDot(a, b, n, i, m - 1) + At(a, n, i, m - 1) * At(b, n, 0, m - 1)
  }

  /** The first `n` cells of C; the others keep what the previous product left. */
  method MulVect(n: nat, c: array<int>, a: array<int>, b: array<int>)
    requires a.Length == n * n == b.Length && c.Length == n * n && a != c && b != c
    modifies c
    ensures forall i: nat :: i < n ==> n <= n * n && c[i] == Wrap32(RowDot(a[..], b[..], n, i, n))
    ensures forall k :: n <= k < n * n ==> c[k] == old(c[k])
  {
    hide Wrap32;
    Scaled(1, n, n);
    var i := 0;
    while i < n
      invariant i <= n
      invariant forall h: nat :: h < i ==> n <= n * n && c[h] == Wrap32(RowDot(a[..], b[..], n, h, n))
      invariant forall k :: n <= k < n * n ==> c[k] == old(c[k])
    {
      VectCell(n, c, a, b, i);
      i := i + 1;
    }
  }

  method VectCell(n: nat, c: array<int>, a: array<int>, b: array<int>, i: nat)
    requires a.Length == n * n == b.Length && c.Length == n * n && a != c && b != c && i < n <= n * n
    modifies c
    ensures c[i] == Wrap32(RowDot(a[..], b[..], n, i, n))
    ensures forall k :: 0 <= k < n * n && k != i ==> c[k] == old(c[k])
  {
    c[i] := 0;
    var j := 0;
    while j < n
      invariant j <= n && c[i] == Wrap32(RowDot(a[..], b[..], n, i, j))
      invariant forall h :: 0 <= h < n * n && h != i ==> c[h] == old(c[h])
    {
      var x := Fetch(a, n, i, j);
      var y := Fetch(b, n, 0, j);
      WrapAdds(RowDot(a[..], b[..], n, i, j), x * y);
      c[i] := Wrap32(c[i] + Wrap32(x * y));
      j := j + 1;
    }
  }

  // ---- The sum ---------------------------------------------------------------------

  datatype Sum = Sum(tmp: int, prev: int, ret: int)

  function SumStep(s: Sum, cur: int, clip: int): Sum {
    var tmp := Wrap32(s.tmp + cur);
    if tmp > clip then Sum(0, cur, Wrap16(s.ret + 10))
    else Sum(tmp, cur, Wrap16(s.ret + if cur > s.prev then 1 else 0))
  }

  function SumOf(c: seq<int>, clip: int): Sum {
    if c == [] then Sum(0, 0, 0) else SumStep(SumOf(c[..|c| - 1], clip), c[|c| - 1], clip)
  }

  method MatrixSum(n: nat, c: array<int>, clip: int) returns (ret: int)
    requires c.Length == n * n
    ensures ret == SumOf(c[..], clip).ret
  {
    hide Wrap16, Wrap32;
    var tmp, prev := 0, 0;
    ret := 0;
    var i := 0;
    while i < n
      invariant i <= n && i * n <= n * n && Sum(tmp, prev, ret) == SumOf(c[..i * n], clip)
    {
      Cell(i, 0, n);
      var j := 0;
      while j < n
        invariant j <= n && i * n + j <= n * n && Sum(tmp, prev, ret) == SumOf(c[..i * n + j], clip)
      {
        Cell(i, j, n);
        assert c[..i * n + j + 1][..i * n + j] == c[..i * n + j];
        var cur := c[i * n + j];
        tmp := Wrap32(tmp + cur);
        if tmp > clip {
          ret := Wrap16(ret + 10);
          tmp := 0;
        } else {
          ret := Wrap16(ret + if cur > prev then 1 else 0);
        }
        prev := cur;
        j := j + 1;
      }
      i := i + 1;
    }
    assert c[..n * n] == c[..];
  }

  // ---- What the sum counts -----------------------------------------------------------

  predicate Passes(tmp: int, cur: int, clip: int) {
    Wrap32(tmp + cur) > clip
  }

  /** At which cells the running total passes the clip value and starts again. */
  function Resets(c: seq<int>, clip: int): (f: seq<bool>)
    ensures |f| == |c|
  {
    if c == [] then []
    else Resets(c[..|c| - 1], clip) + [Passes(SumOf(c[..|c| - 1], clip).tmp, c[|c| - 1], clip)]
  }

  /** The total of the cells since the last reset before cell `k`. */
  function Since(c: seq<int>, f: seq<bool>, k: nat): int
    requires k <= |c| == |f|
  {
    if k == 0 || f[k - 1] then 0 else Wrap32(Since(c, f, k - 1) + c[k - 1])
  }

  function CountTrue(f: seq<bool>): nat {
    if f == [] then 0 else CountTrue(f[..|f| - 1]) + if f[|f| - 1] then 1 else 0
  }

  /** The cells without a reset that are larger than the cell before them. */
  function Rises(c: seq<int>, f: seq<bool>): nat
    requires |c| == |f|
  {
    if c == [] then 0
    else
      var n := |c| - 1;
      Rises(c[..n], f[..n]) + if !f[n] && c[n] > (if n == 0 then 0 else c[n - 1]) then 1 else 0
  }

  /** A cell resets exactly when the total since the last reset passes the clip value. */
  ghost predicate ResetsAt(c: seq<int>, f: seq<bool>, clip: int) {
    && |f| == |c|
    && forall k :: 0 <= k < |c| ==> f[k] == Passes(Since(c, f, k), c[k], clip)
  }

  lemma {:induction false} SincePrefix(c: seq<int>, f: seq<bool>, x: int, b: bool, k: nat)
    requires k <= |c| == |f|
    ensures Since(c + [x], f + [b], k) == Since(c, f, k)
    decreases k
  {
    hide Wrap32;
    if k > 0 && !f[k - 1] {
      SincePrefix(c, f, x, b, k - 1);
    }
  }

  lemma ResetsSnoc(c: seq<int>, f: seq<bool>, clip: int, x: int, b: bool)
    requires ResetsAt(c, f, clip) && b == Passes(Since(c, f, |c|), x, clip)
    ensures ResetsAt(c + [x], f + [b], clip)
  {
    hide Passes, Since;
    forall k: nat | k <= |c| ensures Since(c + [x], f + [b], k) == Since(c, f, k) {
      SincePrefix(c, f, x, b, k);
    }
  }

  lemma SinceSnoc(c: seq<int>, f: seq<bool>, x: int, b: bool)
    requires |c| == |f|
    ensures Since(c + [x], f + [b], |c| + 1) == if b then 0 else Wrap32(Since(c, f, |c|) + x)
  {
    hide Wrap32;
    SincePrefix(c, f, x, b, |c|);
  }

  lemma CountsSnoc(c: seq<int>, f: seq<bool>, x: int, b: bool)
    requires |c| == |f|
    ensures CountTrue(f + [b]) == CountTrue(f) + (if b then 1 else 0)
    ensures Rises(c + [x], f + [b]) ==
      Rises(c, f) + if !b && x > (if c == [] then 0 else c[|c| - 1]) then 1 else 0
  {
    assert (c + [x])[..|c|] == c && (f + [b])[..|f|] == f;
  }

  /** What the three variables hold after the cells `c`, of which those in `f` reset. */
  ghost predicate Tallied(s: Sum, c: seq<int>, f: seq<bool>, clip: int) {
    && |f| == |c|
    && ResetsAt(c, f, clip)
    && s.tmp == Since(c, f, |c|)
    && s.prev == (if c == [] then 0 else c[|c| - 1])
    && s.ret == Wrap16(10 * CountTrue(f) + Rises(c, f))
  }

  lemma TalliedStep(s: Sum, c: seq<int>, f: seq<bool>, clip: int, x: int)
    requires Tallied(s, c, f, clip)
    ensures Tallied(SumStep(s, x, clip), c + [x], f + [Passes(s.tmp, x, clip)], clip)
  {
    hide Wrap16, Wrap32, Since, CountTrue, Rises, ResetsAt;
    var b := Passes(s.tmp, x, clip);
    ResetsSnoc(c, f, clip, x, b);
    SinceSnoc(c, f, x, b);
    CountsSnoc(c, f, x, b);
    var was := 10 * CountTrue(f) + Rises(c, f);
    AddWrapped(was, 10);
    AddWrapped(was, 1);
    AddWrapped(was, 0);
  }

  lemma SumOfSnoc(c: seq<int>, x: int, clip: int)
    ensures SumOf(c + [x], clip) == SumStep(SumOf(c, clip), x, clip)
  {
    hide SumStep;
    assert (c + [x])[..|c|] == c;
  }

  lemma FlagsSnoc(c: seq<int>, x: int, clip: int)
    ensures Resets(c + [x], clip) == Resets(c, clip) + [Passes(SumOf(c, clip).tmp, x, clip)]
  {
    hide Passes, SumOf;
    assert (c + [x])[..|c|] == c;
  }

  lemma NoneTallied(clip: int)
    ensures Tallied(Sum(0, 0, 0), [], [], clip)
  {
    hide Wrap32;
  }

  /** Ten for every reset and one for every other rise, in 16 bits. */
  lemma {:induction false} SumMeaning(c: seq<int>, clip: int)
    ensures Tallied(SumOf(c, clip), c, Resets(c, clip), clip)
    decreases |c|
  {
    hide Tallied;
    if c == [] {
      NoneTallied(clip);
    } else {
      hide SumOf, Resets, Passes, SumStep;
      var before, x := c[..|c| - 1], c[|c| - 1];
      assert before + [x] == c;
      SumMeaning(before, clip);
      TalliedStep(SumOf(before, clip), before, Resets(before, clip), clip, x);
      SumOfSnoc(before, x, clip);
      FlagsSnoc(before, x, clip);
    }
  }

  lemma AddWrapped(x: int, y: int)
    ensures Wrap16(Wrap16(x) + y) == Wrap16(x + y)
  {
    var p := (x + 0x8000) / 0x1_0000;
    assert Wrap16(x) == x - p * 0x1_0000;
    var z := x + y + 0x8000;
    assert (z - p * 0x1_0000) % 0x1_0000 == z % 0x1_0000;
  }

  /** `matrix_big` sets the top four of 16 bits, so the clip value is always negative. */
  function Big(val: int): (r: int)
    ensures -0x1000 <= r < 0
  {
    Wrap16(0xf000 + val % 0x1000)
  }

  /** The clip value keeps the low twelve bits. */
  lemma BigBits(val: int)
    ensures Big(val) % 0x1000 == val % 0x1000
  {
    assert Big(val) == val % 0x1000 - 0x1000;
  }

  /** Every cell of a matrix without negative entries counts ten. */
  lemma {:induction false} SumOfNonNegative(c: seq<int>, clip: int)
    requires clip < 0 && forall k :: 0 <= k < |c| ==> 0 <= c[k] < 0x8000_0000
    ensures SumOf(c, clip).ret == Wrap16(10 * |c|) && SumOf(c, clip).tmp == 0
    decreases |c|
  {
    if c != [] {
      var m := |c| - 1;
      SumOfNonNegative(c[..m], clip);
      assert Wrap16(Wrap16(10 * m) + 10) == Wrap16(10 * m + 10) by {
        WrapsAway(10 * m, 10);
      }
    }
  }

  // ---- The whole test --------------------------------------------------------------

  /** What `matrix_test` leaves in C after each of its four products. */
  predicate Products(mats: seq<seq<int>>, a: seq<int>, b: seq<int>, n: nat, val: int)
    requires |a| == n * n == |b|
  {
    && |mats| == 4 && (forall i :: 0 <= i < 4 ==> |mats[i]| == n * n)
    && (forall k :: 0 <= k < n * n ==> mats[0][k] == Product(a[k], val))
    && (forall i: nat :: i < n ==> n <= n * n && mats[1][i] == Wrap32(RowDot(a, b, n, i, n)))
    && (forall k :: n <= k < n * n ==> mats[1][k] == mats[0][k])
    && (forall i: nat, j: nat :: i < n && j < n ==> At(mats[2], n, i, j) == Wrap32(Dot(a, b, n, i, j, n)))
    && (forall i: nat, j: nat :: i < n && j < n ==> At(mats[3], n, i, j) == BitDot(a, b, n, i, j, n))
  }

  /** The four checksummed sums, low byte first. */
  function SumBytes(mats: seq<seq<int>>, clip: int): seq<bv8> {
    if mats == [] then []
    else
      var s := Crc.HalfOf(SumOf(mats[|mats| - 1], clip).ret);
      SumBytes(mats[..|mats| - 1], clip) + [Crc.Low8(s), Crc.High8(s)]
  }

  method SumInto(n: nat, c: array<int>, clip: int, crc: bv16, ghost mats: seq<seq<int>>) returns (r: bv16)
    requires c.Length == n * n && crc == Crc.CrcBytes(SumBytes(mats, clip), 0)
    ensures r == Crc.CrcBytes(SumBytes(mats + [c[..]], clip), 0)
  {
    hide Crc.Low8, Crc.High8, SumOf, Crc.HalfOf, Crc.CrcBytes;
    var sum := MatrixSum(n, c, clip);
    r := Crc.Crc16(Crc.HalfOf(sum), crc);
    var s := Crc.HalfOf(sum);
    Crc.CrcBytesConcat(SumBytes(mats, clip), [Crc.Low8(s), Crc.High8(s)], 0);
    assert (mats + [c[..]])[..|mats|] == mats;
  }

  function Added(a: seq<int>, val: int): (r: seq<int>)
    ensures |r| == |a| && forall k :: 0 <= k < |a| ==> r[k] == Wrap16(a[k] + val)
  {
    seq(|a|, k requires 0 <= k < |a| => Wrap16(a[k] + val))
  }

  /** The four products and their sums, on the changed A. */
  method FourProducts(n: nat, c: array<int>, a: array<int>, b: array<int>, val: int, clip: int)
    returns (crc: bv16, ghost mats: seq<seq<int>>)
    requires a.Length == n * n == b.Length && c.Length == n * n && a != c && b != c
    requires 1905 * n < 0x8000_0000 && clip < 0
    modifies c
    ensures Products(mats, a[..], b[..], n, val) && c[..] == mats[3]
    ensures crc == Crc.CrcBytes(SumBytes(mats, clip), 0)
    ensures SumOf(mats[3], clip).ret == Wrap16(10 * (n * n))
  {
    hide Wrap16, Wrap32, Product, RowDot, Entry, BitEntry, SumOf, SumBytes, Crc.CrcBytes;
    EmptySums(clip);
    MulConst(n, c, a, val);
    crc := SumInto(n, c, clip, 0, []);
    ghost var m0 := c[..];
    MulVect(n, c, a, b);
    crc := SumInto(n, c, clip, crc, [] + [m0]);
    ghost var m1 := c[..];
    MulMatrix(n, c, a, b);
    crc := SumInto(n, c, clip, crc, [] + [m0] + [m1]);
    ghost var m2 := c[..];
    MulBitExtract(n, c, a, b);
    crc := SumInto(n, c, clip, crc, [] + [m0] + [m1] + [m2]);
    ghost var m3 := c[..];
    mats := [m0, m1, m2, m3];
    assert mats == [] + [m0] + [m1] + [m2] + [m3];
    Bundle(m0, m1, m2, m3, a[..], b[..], n, val);
    hide Products;
    SumOfNonNegative(m3, clip);
  }

  /** A comes back for every constant, B is only read, and the last sum does not depend on the data. */
  method MatrixTest(n: nat, c: array<int>, a: array<int>, b: array<int>, val: int)
    returns (crc: bv16, ghost mats: seq<seq<int>>)
    requires a.Length == n * n == b.Length && c.Length == n * n && a != c && b != c && a != b
    requires forall k :: 0 <= k < n * n ==> IsS16(a[k])
    requires 1905 * n < 0x8000_0000
    modifies a, c
    ensures a[..] == old(a[..])
    ensures Products(mats, Added(old(a[..]), val), b[..], n, val) && c[..] == mats[3]
    ensures crc == Crc.CrcBytes(SumBytes(mats, Big(val)), 0)
    ensures SumOf(mats[3], Big(val)).ret == Wrap16(10 * (n * n))
  {
    hide Wrap16, SumOf, SumBytes, Crc.CrcBytes, Big;
    AddConst(n, a, val);
    assert a[..] == Added(old(a[..]), val);
    crc, mats := FourProducts(n, c, a, b, val, Big(val));
    hide Products;
    AddConst(n, a, Wrap16(-val));
    forall k | 0 <= k < n * n ensures a[k] == old(a[k]) {
      AddThenSubtract(old(a[k]), val);
    }
  }

  lemma Bundle(
    m0: seq<int>, m1: seq<int>, m2: seq<int>, m3: seq<int>, a: seq<int>, b: seq<int>, n: nat, val: int)
    requires |a| == n * n == |b| && |m0| == |m1| == |m2| == |m3| == n * n
    requires forall k :: 0 <= k < n * n ==> m0[k] == Product(a[k], val)
    requires forall i: nat :: i < n ==> n <= n * n && m1[i] == Wrap32(RowDot(a, b, n, i, n))
    requires forall k :: n <= k < n * n ==> m1[k] == m0[k]
    requires forall k :: 0 <= k < n * n ==> m2[k] == Entry(a, b, n, k) && m3[k] == BitEntry(a, b, n, k)
    ensures Products([m0, m1, m2, m3], a, b, n, val)
  {
    hide Product, Wrap32, RowDot, Entry, BitEntry, Dot, BitDot;
    var mats := [m0, m1, m2, m3];
    assert mats[0] == m0 && mats[1] == m1 && mats[2] == m2 && mats[3] == m3;
    hide At;
    forall i: nat, j: nat | i < n && j < n
      ensures At(m2, n, i, j) == Wrap32(Dot(a, b, n, i, j, n)) && At(m3, n, i, j) == BitDot(a, b, n, i, j, n)
    {
      CellIs(m2, m3, a, b, n, i, j);
    }
  }

  lemma CellIs(m2: seq<int>, m3: seq<int>, a: seq<int>, b: seq<int>, n: nat, i: nat, j: nat)
    requires |a| == n * n == |b| && |m2| == |m3| == n * n && i < n && j < n
    requires forall k :: 0 <= k < n * n ==> m2[k] == Entry(a, b, n, k) && m3[k] == BitEntry(a, b, n, k)
    ensures At(m2, n, i, j) == Wrap32(Dot(a, b, n, i, j, n)) && At(m3, n, i, j) == BitDot(a, b, n, i, j, n)
  {
    hide Wrap32, Entry, BitEntry, Dot, BitDot;
    EntryAt(a, b, n, i, j);
    assert At(m2, n, i, j) == m2[i * n + j] && At(m3, n, i, j) == m3[i * n + j];
  }

  lemma EmptySums(clip: int)
    ensures SumBytes([], clip) == [] && Crc.CrcBytes([], 0) == 0
  {
  }

  // ---- Initial values --------------------------------------------------------------

  /** C's remainder: truncated toward zero. */
  function Rem(x: int, m: nat): int
    requires m > 0
  {
    if x >= 0 then x % m else -((-x) % m)
  }

  /** The remainder has the sign of the number and completes a multiple. */
  lemma RemMeaning(x: int, m: nat)
    requires m > 0
    ensures 0 - m < Rem(x, m) < m && (x >= 0 ==> Rem(x, m) >= 0) && (x <= 0 ==> Rem(x, m) <= 0)
    ensures exists q :: x == m * q + Rem(x, m)
  {
    if x >= 0 {
      assert x == m * (x / m) + Rem(x, m);
    } else {
      var q := -((-x) / m);
      assert -x == m * ((-x) / m) + (-x) % m;
      assert m * q == -(m * ((-x) / m));
      assert x == m * q + Rem(x, m);
    }
  }

  /** The seed after `k` cells: each multiplies it by its position. */
  function SeedAt(seed: int, k: nat): int {
    if k == 0 then (if seed == 0 then 1 else seed) else Rem(Product(k, SeedAt(seed, k - 1)), 0x1_0000)
  }

  /** B is the seed plus the position, in 16 bits, and A the low byte of B plus the position. */
  predicate Paired(a: int, b: int, k: nat, seed: int) {
    b == Wrap16(SeedAt(seed, k + 1) + k + 1) && 0 <= a < 0x100 && a == (b + k + 1) % 0x100
  }

  method InitMatrix(n: nat, a: array<int>, b: array<int>, seed: int)
    requires a.Length == n * n == b.Length && a != b && n <= 16384
    modifies a, b
    ensures forall k :: 0 <= k < n * n ==> Paired(a[k], b[k], k, seed)
  {
    hide Wrap16, Product, Rem;
    var current := if seed == 0 then 1 else seed;
    var order := 1;
    var i := 0;
    while i < n
      invariant i <= n && i * n <= n * n && order == i * n + 1 && current == SeedAt(seed, order - 1)
      invariant forall k :: 0 <= k < n * n ==> k < i * n ==> Paired(a[k], b[k], k, seed)
    {
      var j := 0;
      while j < n
        invariant j <= n && order == i * n + j + 1 && current == SeedAt(seed, order - 1)
        invariant forall k :: 0 <= k < n * n ==> k < i * n + j ==> Paired(a[k], b[k], k, seed)
      {
        Cell(i, j, n);
        current := Rem(Product(order, current), 0x1_0000);
        var val := Wrap16(current + order);
        b[i * n + j] := val;
        LowByte(val, order);
        a[i * n + j] := Wrap16(val + order) % 0x100;
        order := order + 1;
        j := j + 1;
      }
      Cell(i, 0, n);
      i := i + 1;
    }
  }

  lemma LowByte(val: int, order: nat)
    ensures Wrap16(val + order) % 0x100 == (val + order) % 0x100
  {
    var x := val + order;
    var q := (x + 0x8000) / 0x1_0000;
    WholeTurns(x, q);
    Pages(x, 0x100 * q);
  }

  lemma WholeTurns(x: int, q: int)
    requires q == (x + 0x8000) / 0x1_0000
    ensures Wrap16(x) == x - 0x100 * (0x100 * q)
  {
  }

  lemma Pages(x: int, t: int)
    ensures (x - 0x100 * t) % 0x100 == x % 0x100
  {
  }
}
