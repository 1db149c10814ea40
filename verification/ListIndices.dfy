/**
  The indices `core_list_init` gives to a fresh list (coremark/core_list_join.c):
  the first fifth in sequence, the others mixed from the position and the seed.
  They are distinct exactly when no mixed index falls among the sequence and the
  list is short enough.
*/
module ListIndices {
  import opened ListItems
  import BitOps

  /** A 16-bit pattern, and the value of one. */
  function Word16(x: int): nat {
    x % 0x1_0000
  }

  function Signed16(k: nat): Index {
    if k % 0x1_0000 < 0x8000 then k % 0x1_0000 else k % 0x1_0000 - 0x1_0000
  }

  /** `0x3fff & ((((k + 1) & 0x07) << 8) | (k ^ seed))` in 16 bits. */
  function Mixed(seed: Index, k: nat): (i: Index)
    ensures 0 <= i < 0x4000
  {
    Pattern(seed, k) % 0x4000
  }

  function Pattern(seed: Index, k: nat): nat {
    BitOps.Or((k + 1) % 8 * 256, BitOps.Xor(Word16(k), Word16(seed)))
  }

  /** The index of the k-th item of the fresh list. */
  function ItemIndex(seed: Index, size: nat, k: nat): Index {
    if k < size / 5 then Signed16(k) else Mixed(seed, k)
  }

  /** Indices by cell: the head, the tail, and the items, the newest of which comes first in the list. */
  function CellIndex(seed: Index, size: nat, j: nat): Index {
    if j == 0 then 0 else if j == 1 then 0x7fff else ItemIndex(seed, size, if j < size then size - 1 - j else 0)
  }

  ghost predicate DistinctCells(seed: Index, size: nat) {
    forall i, j :: 0 <= i < j < size - 1 ==> CellIndex(seed, size, i) != CellIndex(seed, size, j)
  }

  /** A mixed index that is 0, the head's, or one of the sequence. */
  predicate FallsInSequence(seed: Index, size: nat, k: nat) {
    size / 5 <= k && 1 <= k <= size - 3 && (Mixed(seed, k) == 0 || Mixed(seed, k) < size / 5)
  }

  /** Some two mixed items are 256 apart. */
  predicate TooLong(size: nat) {
    size > 322
  }

  // ---- The parts of a mixed index ----------------------------------------------------

  lemma WordParts(k: nat)
    ensures Word16(k) % 256 == k % 256 && Word16(k) / 256 == k / 256 % 256
  {
  }

  lemma PatternParts(seed: Index, k: nat)
    ensures Pattern(seed, k) % 256 == BitOps.Xor(k % 256, Word16(seed) % 256)
    ensures Pattern(seed, k) / 256 == BitOps.Or((k + 1) % 8, BitOps.Xor(k / 256 % 256, Word16(seed) / 256))
  {
    hide BitOps.Or, BitOps.Xor, BitOps.Low, BitOps.Shift, Word16;
    var r, x := (k + 1) % 8 * 256, BitOps.Xor(Word16(k), Word16(seed));
    BitOps.OrParts(r, x, 8);
    BitOps.XorParts(Word16(k), Word16(seed), 8);
    BitOps.Parts8(r);
    BitOps.Parts8(x);
    BitOps.Parts8(BitOps.Or(r, x));
    BitOps.Parts8(Word16(k));
    BitOps.Parts8(Word16(seed));
    WordParts(k);
    BitOps.OrZero(x % 256);
    assert r % 256 == 0 && r / 256 == (k + 1) % 8;
  }

  lemma MixedParts(seed: Index, k: nat)
    ensures Mixed(seed, k) % 256 == Pattern(seed, k) % 256
  {
    hide Pattern;
    var p := Pattern(seed, k);
    assert p == 0x4000 * (p / 0x4000) + p % 0x4000;
  }

  /** Different low bytes stay different. */
  lemma LowBytesDiffer(seed: Index, k: nat, l: nat)
    requires k % 256 != l % 256
    ensures Mixed(seed, k) != Mixed(seed, l)
  {
    hide Pattern, Mixed, Word16;
    PatternParts(seed, k);
    PatternParts(seed, l);
    MixedParts(seed, k);
    MixedParts(seed, l);
    if Mixed(seed, k) == Mixed(seed, l) {
      BitOps.XorInjective(k % 256, l % 256, Word16(seed) % 256);
    }
  }

  /** An even item with bit 8 clear shares its mixed index with the one 256 later. */
  lemma EvenPairCollides(seed: Index, k: nat)
    requires k % 2 == 0 && k / 256 % 2 == 0
    ensures Mixed(seed, k) == Mixed(seed, k + 256)
  {
    hide Pattern, Word16, BitOps.Or, BitOps.Xor;
    var l, r := k + 256, (k + 1) % 8;
    var h, s := k / 256 % 256, Word16(seed) / 256;
    LaterParts(k);
    PatternParts(seed, k);
    PatternParts(seed, l);
    HiddenBit(r, h, s);
    SamePattern(Pattern(seed, k), Pattern(seed, l));
  }

  lemma LaterParts(k: nat)
    requires k % 2 == 0 && k / 256 % 2 == 0
    ensures (k + 256) / 256 % 256 == k / 256 % 256 + 1 && k / 256 % 256 % 2 == 0
    ensures (k + 1) % 8 == (k + 257) % 8 && (k + 1) % 8 % 2 == 1 && k % 256 == (k + 256) % 256
  {
    assert (k + 256) / 256 == k / 256 + 1;
    EvenByte(k / 256);
    EvenByte(k);
  }

  lemma EvenByte(h: nat)
    requires h % 2 == 0
    ensures h % 256 % 2 == 0 && (h + 1) % 256 == h % 256 + 1 && (h + 1) % 8 % 2 == 1
  {
    var g, q, r := h / 2, h / 256, h % 256;
    assert h == 2 * g && h == 256 * q + r;
    EvenPart(r, g - 128 * q);
    Split256(h + 1, q, r + 1);
    var p, o := (h + 1) / 8, (h + 1) % 8;
    assert h + 1 == 8 * p + o;
    OddPart(o, g - 4 * p);
  }

  lemma EvenPart(r: nat, k: int)
    requires r == 2 * k && r < 256
    ensures r % 2 == 0 && r + 1 < 256
  {
  }

  lemma OddPart(r: nat, k: int)
    requires r == 2 * k + 1
    ensures r % 2 == 1
  {
  }

  lemma Split256(x: nat, q: nat, r: nat)
    requires x == 256 * q + r && r < 256
    ensures x / 256 == q && x % 256 == r
  {
  }

  lemma SamePattern(p: nat, q: nat)
    requires p % 256 == q % 256 && p / 256 == q / 256
    ensures p == q
  {
  }

  /** A set bit hides the bit under it. */
  lemma HiddenBit(r: nat, h: nat, s: nat)
    requires r % 2 == 1 && h % 2 == 0
    ensures BitOps.Or(r, BitOps.Xor(h, s)) == BitOps.Or(r, BitOps.Xor(h + 1, s))
  {
    hide BitOps.Or, BitOps.Xor;
    BitOps.OrHalf(r, BitOps.Xor(h, s));
    BitOps.OrHalf(r, BitOps.Xor(h + 1, s));
    BitOps.XorHalf(h, s);
    BitOps.XorHalf(h + 1, s);
    assert h / 2 == (h + 1) / 2;
    BitOps.SameHalves(BitOps.Or(r, BitOps.Xor(h, s)), BitOps.Or(r, BitOps.Xor(h + 1, s)));
  }

  // ---- Distinctness ----------------------------------------------------------------

  /** An even place with bit 8 clear whose partner 256 later is still in the list. */
  lemma PairPlace(size: nat) returns (k: nat)
    requires TooLong(size)
    ensures size / 5 <= k && k + 256 <= size - 3 && k % 2 == 0 && k / 256 % 2 == 0
  {
    var q := size / 5;
    if q >= 255 {
      var t, rem := (q + 511) / 512, (q + 511) % 512;
      assert q + 511 == 512 * t + rem && size >= 5 * q;
      k := 512 * t;
      Split256(k, 2 * t, 0);
      Even(k, 256 * t);
      Even(2 * t, t);
    } else {
      k := if q % 2 == 0 then q else q + 1;
      Split256(k, 0, k);
    }
  }

  lemma Even(x: nat, h: nat)
    requires x == 2 * h
    ensures x % 2 == 0
  {
  }

  /** In a list that is too long two items share an index. */
  lemma TooLongCollides(seed: Index, size: nat)
    requires TooLong(size)
    ensures !DistinctCells(seed, size)
  {
    hide Mixed;
    var k := PairPlace(size);
    EvenPairCollides(seed, k);
    var i, j := size - 1 - (k + 256), size - 1 - k;
    assert CellIndex(seed, size, i) == CellIndex(seed, size, j);
  }

  lemma FallingCollides(seed: Index, size: nat, k: nat)
    requires FallsInSequence(seed, size, k) && !TooLong(size)
    ensures !DistinctCells(seed, size)
  {
    hide Mixed;
    var x := Mixed(seed, k);
    var j := size - 1 - k;
    assert CellIndex(seed, size, j) == x;
    if x == 0 {
      assert CellIndex(seed, size, 0) == x;
    } else {
      assert CellIndex(seed, size, size - 1 - x) == x;
    }
  }

  /** Two cells differ when nothing falls into the sequence. */
  lemma CellsDiffer(seed: Index, size: nat, i: nat, j: nat)
    requires !TooLong(size) && (forall k :: !FallsInSequence(seed, size, k)) && i < j < size - 1
    ensures CellIndex(seed, size, i) != CellIndex(seed, size, j)
  {
    hide Mixed;
    var k, l := size - 1 - j, size - 1 - i;
    if j > 1 {
      assert !FallsInSequence(seed, size, k);
      if i > 1 && size / 5 <= k {
        assert k % 256 != l % 256;
        LowBytesDiffer(seed, k, l);
      } else if i > 1 && size / 5 <= l {
        assert !FallsInSequence(seed, size, l);
      }
    }
  }

  /** The indices of a fresh list are distinct exactly in these cases. */
  lemma DistinctIff(seed: Index, size: nat)
    ensures DistinctCells(seed, size) <==> !TooLong(size) && forall k :: !FallsInSequence(seed, size, k)
  {
    hide FallsInSequence, TooLong, CellIndex, Mixed;
    if TooLong(size) {
      TooLongCollides(seed, size);
    } else if k :| FallsInSequence(seed, size, k) {
      FallingCollides(seed, size, k);
    } else {
      forall i, j | 0 <= i < j < size - 1
        ensures CellIndex(seed, size, i) != CellIndex(seed, size, j)
      {
        CellsDiffer(seed, size, i, j);
      }
    }
  }

  // ---- Seeds -----------------------------------------------------------------------

  /** A seed with one of bits 11 to 13 set keeps every mixed index above the sequence. */
  lemma HighSeedDistinct(seed: Index, size: nat)
    requires Word16(seed) / 2048 % 8 != 0
    ensures DistinctCells(seed, size) <==> !TooLong(size)
  {
    hide Mixed;
    DistinctIff(seed, size);
    if !TooLong(size) {
      forall k: nat ensures !FallsInSequence(seed, size, k) {
        if size / 5 <= k <= size - 3 {
          MixedAbove(seed, k);
        }
      }
    }
  }

  lemma MixedAbove(seed: Index, k: nat)
    requires k < 2048 && Word16(seed) / 2048 % 8 != 0
    ensures Mixed(seed, k) >= 2048
  {
    hide BitOps.Or, BitOps.Xor, BitOps.Low, BitOps.Shift, Word16;
    var r, x := (k + 1) % 8 * 256, BitOps.Xor(Word16(k), Word16(seed));
    SmallWord(k);
    BitOps.OrParts(r, x, 11);
    BitOps.XorParts(k, Word16(seed), 11);
    BitOps.Parts11(r);
    BitOps.Parts11(x);
    BitOps.Parts11(BitOps.Or(r, x));
    BitOps.Parts11(k);
    BitOps.Parts11(Word16(seed));
    BitOps.OrZero(x / 2048);
    BitOps.XorZero(Word16(seed) / 2048);
    AboveEleven(BitOps.Or(r, x));
  }

  lemma SmallWord(k: nat)
    requires k < 2048
    ensures Word16(k) == k && k / 2048 == 0
  {
  }

  lemma AboveEleven(p: nat)
    requires p / 2048 % 8 != 0
    ensures p % 0x4000 >= 2048
  {
    assert p == 0x4000 * (p / 0x4000) + p % 0x4000;
  }

  /** The seed 0x3415 of this port is one of those, and its list has 31 cells. */
  lemma PortListDistinct()
    ensures DistinctCells(0x3415, 31)
  {
    HighSeedDistinct(0x3415, 31);
  }

  /** With seed 7 the seventh of 31 items gets index 0, the head's. */
  lemma TiedFreshList()
    ensures !DistinctCells(7, 31)
  {
    hide Mixed;
    SeventhIsZero();
    assert FallsInSequence(7, 31, 7);
    DistinctIff(7, 31);
  }

  lemma SeventhIsZero()
    ensures Mixed(7, 7) == 0
  {
    hide BitOps.Or, BitOps.Xor;
    XorSelf(7);
    BitOps.OrZero(0);
  }

  lemma {:induction false} XorSelf(x: nat)
    ensures BitOps.Xor(x, x) == 0
    decreases x
  {
    if x != 0 {
      XorSelf(x / 2);
    }
  }
}
