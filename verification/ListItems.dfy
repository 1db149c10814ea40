/**
  The data of CoreMark's linked list (coremark/coremark.h, coremark/core_list_join.c)
  and the two comparators that `core_list_mergesort` is called with.  Both
  comparators write to the items they compare: `cmp_complex` caches a computed
  value in the low byte, `cmp_idx` without a result block rebuilds the low byte
  from the upper one.
*/
module ListItems {
  import Crc

  /** The bit pattern of an `ee_s16` data word. */
  type Data16 = x: int | 0 <= x < 0x1_0000

  /** The value of an `ee_s16`. */
  type Index = x: int | -0x8000 <= x < 0x8000

  class ListData {
    var data16: Data16
    var idx: Index

    constructor (data16: Data16, idx: Index)
      ensures this.data16 == data16 && this.idx == idx
    {
      this.data16 := data16;
      this.idx := idx;
    }
  }

  class ListHead {
    var next: ListHead?
    var info: ListData

    constructor (info: ListData)
      ensures this.next == null && this.info == info
    {
      this.next := null;
      this.info := info;
    }
  }

  /** `core_results`: the inputs of the list benchmark and the fields its comparators write. */
  class CoreResults {
    const list: ListHead
    const seed3: Index
    var crc: bv16
    var crcstate: Data16
    var crcmatrix: Data16

    constructor (list: ListHead, seed3: Index)
      ensures this.list == list && this.seed3 == seed3
    {
      this.list, this.seed3 := list, seed3;
      this.crc, this.crcstate, this.crcmatrix := 0, 0, 0;
    }
  }

  ghost function Block(res: CoreResults?): set<CoreResults> {
    if res == null then {} else {res}
  }

  function Low(d: Data16): Data16 { d % 256 }

  /** The backup byte. */
  function High(d: Data16): Data16 { d / 256 }

  /** Bit 7: the low seven bits hold a computed value. */
  predicate Cached(d: Data16) { (d / 128) % 2 == 1 }

  /** The low seven bits. */
  function Value(d: Data16): Data16 { d % 128 }

  /** Bits 0-2: the function to compute. */
  function Flag(d: Data16): Data16 { d % 8 }

  /** The fields of a word: upper byte, cache bit, seven-bit value; bits 0-2 of the value name the function. */
  lemma WordFields(d: Data16)
    ensures d == 256 * High(d) + (if Cached(d) then 128 else 0) + Value(d)
    ensures 0 <= High(d) < 256 && 0 <= Value(d) < 128
    ensures Low(d) == (if Cached(d) then 128 else 0) + Value(d)
    ensures exists data :: 0 <= data < 16 && Value(d) == 8 * data + Flag(d) && 0 <= Flag(d) < 8
  {
    var data := Value(d) / 8;
    assert Value(d) == 8 * data + Flag(d);
  }

  /** Regenerating copies the upper byte down; caching sets bit 7 and the value and keeps the upper byte. */
  lemma RewrittenFields(d: Data16, v: Data16)
    ensures High(Regenerated(d)) == High(d) && Low(Regenerated(d)) == High(d)
    ensures High(WithCache(d, v)) == High(d) && Cached(WithCache(d, v)) && Value(WithCache(d, v)) == Value(v)
  {
    var h, x := High(d), WithCache(d, v);
    assert x == 128 * (2 * h + 1) + Value(v);
    assert x / 128 == 2 * h + 1 && x % 128 == Value(v) && x / 256 == h;
  }

  /**
    What `calc_func` may make of a data word: nothing once it is cached, otherwise
    a cached value under the same backup byte; the plain data types are their own value.
  */
  predicate Computed(d0: Data16, d1: Data16) {
    && High(d1) == High(d0)
    && (d1 == d0 || (!Cached(d0) && Cached(d1) && (Flag(d0) >= 2 ==> Value(d1) == Value(d0))))
  }

  /** (d & 0xff00) | (0x00ff & (d >> 8)) */
  function Regenerated(d: Data16): Data16 { 256 * High(d) + High(d) }

  /** (d & 0xff00) | 0x0080 | v */
  function WithCache(d: Data16, v: Data16): Data16 { 256 * High(d) + 128 + Value(v) }

  /** The inner benchmarks run on other memory; nothing is known about their results. */
  method InnerBenchmark() returns (r: Data16)
  {
    r := *;
  }

  /** The first result of an inner benchmark is kept; `ran` says whether this call is one. */
  function Kept(crc: Data16, ran: bool, result: Data16): Data16 {
    if ran && crc == 0 then result else crc
  }

  /** `result` is what a call that finds no cached value computes and adds to the checksum. */
  method CalcFunc(item: ListData, res: CoreResults) returns (value: Data16, ghost result: Data16)
    modifies item`data16, res`crc, res`crcstate, res`crcmatrix
    ensures Cached(item.data16) && value == Value(item.data16)
    ensures Computed(old(item.data16), item.data16)
    ensures var computes := !Cached(old(item.data16));
      && (computes ==> value == Value(result) && (Flag(old(item.data16)) >= 2 ==> result == old(item.data16)))
      && res.crc == (if computes then CrcWord(result, old(res.crc)) else old(res.crc))
      && res.crcstate == Kept(old(res.crcstate), computes && Flag(old(item.data16)) == 0, result)
      && res.crcmatrix == Kept(old(res.crcmatrix), computes && Flag(old(item.data16)) == 1, result)
  {
    hide Cached, Value, Computed, Flag, WithCache, High, CrcWord;
    var data := item.data16;
    result := data;
    if Cached(data) {
      value := Value(data);
      ComputedReflexive(data);
    } else {
      var retval: Data16;
      if Flag(data) == 0 {
        retval := InnerBenchmark();
        if res.crcstate == 0 { res.crcstate := retval; }
      } else if Flag(data) == 1 {
        retval := InnerBenchmark();
        if res.crcmatrix == 0 { res.crcmatrix := retval; }
      } else {
        retval := data;
      }
      result := retval;
      UpdateCrc(retval, res);
      CacheFilled(data, retval);
      retval := Value(retval);
      item.data16 := WithCache(data, retval);
      value := retval;
    }
  }

  /** The checksum of one data word. */
  function CrcWord(d: Data16, c: bv16): bv16 {
    Crc.CrcBytes([Crc.Low8(d as bv16), Crc.High8(d as bv16)], c)
  }

  method UpdateCrc(retval: Data16, res: CoreResults)
    modifies res`crc
    ensures res.crc == CrcWord(retval, old(res.crc))
  {
    var crc := Crc.Crcu16(retval as bv16, res.crc);
    res.crc := crc;
  }

  lemma ComputedReflexive(d: Data16)
    ensures Computed(d, d)
  {
  }

  lemma CacheFilled(d: Data16, retval: Data16)
    requires !Cached(d) && (Flag(d) >= 2 ==> retval == d)
    ensures Cached(WithCache(d, Value(retval))) && Value(WithCache(d, Value(retval))) == Value(retval)
    ensures Computed(d, WithCache(d, Value(retval)))
  {
    var h, v := High(d), Value(retval);
    var x := WithCache(d, v);
    assert x == 128 * (2 * h + 1) + v && 0 <= v < 128;
    assert x / 128 == 2 * h + 1 && x % 128 == v && x / 256 == h;
  }

  // ---- Comparators -----------------------------------------------------------

  /** `CmpPure` stands for any comparator that only reads, given by a rank. */
  datatype Cmp = CmpComplex | CmpIdx | CmpPure(rank: (Data16, Index) -> int)

  /** What a comparison leaves behind in each of its two items. */
  predicate Settled(cmp: Cmp, regen: bool, d: Data16) {
    match cmp
    case CmpComplex => Cached(d)
    case CmpIdx => regen ==> Low(d) == High(d)
    case CmpPure(_) => true
  }

  /** The sort key of an item; it no longer changes once the item is settled. */
  function Key(cmp: Cmp, d: Data16, idx: Index): int {
    match cmp
    case CmpComplex => Value(d)
    case CmpIdx => idx
    case CmpPure(rank) => rank(d, idx)
  }

  /** How any number of comparisons may have changed a data word. */
  predicate Evolved(cmp: Cmp, regen: bool, d0: Data16, d1: Data16) {
    match cmp
    case CmpComplex => Computed(d0, d1)
    case CmpIdx => d1 == d0 || (regen && d1 == Regenerated(d0))
    case CmpPure(_) => d1 == d0
  }

  lemma EvolvedReflexive(cmp: Cmp, regen: bool, d: Data16)
    ensures Evolved(cmp, regen, d, d)
  {
  }

  lemma EvolvedTransitive(cmp: Cmp, regen: bool, d0: Data16, d1: Data16, d2: Data16)
    requires Evolved(cmp, regen, d0, d1) && Evolved(cmp, regen, d1, d2)
    ensures Evolved(cmp, regen, d0, d2)
  {
  }

  /** A settled item is never written again, so its key is final. */
  lemma SettledIsFinal(cmp: Cmp, regen: bool, d0: Data16, d1: Data16)
    requires Settled(cmp, regen, d0) && Evolved(cmp, regen, d0, d1)
    ensures d1 == d0
  {
  }

  lemma EvolvedKeepsHigh(cmp: Cmp, regen: bool, d0: Data16, d1: Data16)
    requires Evolved(cmp, regen, d0, d1)
    ensures High(d1) == High(d0)
  {
  }

  method Compare(cmp: Cmp, a: ListData, b: ListData, res: CoreResults?) returns (r: int)
    requires cmp.CmpComplex? ==> res != null
    modifies a`data16, b`data16, Block(res)`crc, Block(res)`crcstate, Block(res)`crcmatrix
    ensures Settled(cmp, res == null, a.data16) && Settled(cmp, res == null, b.data16)
    ensures Evolved(cmp, res == null, old(a.data16), a.data16)
    ensures Evolved(cmp, res == null, old(b.data16), b.data16)
    ensures r == Key(cmp, a.data16, a.idx) - Key(cmp, b.data16, b.idx)
  {
    hide Low, High, Cached, Value, Regenerated, Computed, CrcWord, Kept;
    match cmp {
      case CmpComplex =>
        ghost var result;
        var val1, val2;
        val1, result := CalcFunc(a, res);
        ghost var d := a.data16;
        val2, result := CalcFunc(b, res);
        ComputedReflexive(old(b.data16));
        if a == b {
          SettledIsFinal(cmp, false, d, a.data16);
        }
        r := val1 as int - val2 as int;
      case CmpIdx =>
        if res == null {
          a.data16 := Regenerated(a.data16);
          b.data16 := Regenerated(b.data16);
          RegeneratedTwice(old(a.data16));
          RegeneratedTwice(old(b.data16));
        }
        r := a.idx - b.idx;
      case CmpPure(rank) =>
        r := rank(a.data16, a.idx) - rank(b.data16, b.idx);
    }
  }

  lemma RegeneratedTwice(d: Data16)
    ensures Regenerated(Regenerated(d)) == Regenerated(d) && Low(Regenerated(d)) == High(Regenerated(d)) == High(d)
  {
  }
}
