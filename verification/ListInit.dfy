/**
  `core_list_init` and `core_list_insert_new` (coremark/core_list_join.c): the
  list is laid out in a caller's memory block, filled, indexed and sorted.

  The block is given as its cells: `heads` are the list headers and `datas` the
  data items that the pointers `memblock` and `datablock` run over.
*/
module ListInit {
  import opened ListItems
  import opened ListIndices
  import opened MergeSort
  import BitOps

  const PER_ITEM := 20

  /** The number of cells in a block, in 32-bit arithmetic. */
  function ListSize(blksize: nat): nat {
    (blksize / PER_ITEM - 2) % 0x1_0000_0000
  }

  /** All cells lie inside the block, headers before data items, for 4-byte and for 8-byte pointers. */
  lemma CellsFit(blksize: nat, headSize: nat)
    requires 2 * PER_ITEM <= blksize < 0x1_0000_0000 && headSize <= 16
    ensures PER_ITEM * (ListSize(blksize) + 2) <= blksize < PER_ITEM * (ListSize(blksize) + 3)
    ensures headSize * ListSize(blksize) + 4 * ListSize(blksize) <= blksize
    ensures forall i: nat :: i < ListSize(blksize) ==>
      && Header(headSize, i) + headSize <= Header(headSize, ListSize(blksize))
      && Header(headSize, i + 1) == Header(headSize, i) + headSize
  {
    var n := ListSize(blksize);
    assert n == blksize / PER_ITEM - 2;
    assert headSize * n <= 16 * n;
    forall i: nat | i < n ensures Header(headSize, i) + headSize <= Header(headSize, n) {
      assert headSize * (n - (i + 1)) >= 0;
    }
  }

  /** Byte offset of the i-th header; the data items follow the last one. */
  function Header(headSize: nat, i: nat): nat {
    headSize * i
  }

  /** `(dat << 8) | dat` with `dat = (((seed ^ i) & 0xf) << 3) | (i & 0x7)`. */
  function ItemData(seed: Index, i: nat): (d: Data16)
    ensures Low(d) == High(d)
  {
    TwiceByte(BitOps.Xor(Word16(seed), Word16(i)) % 16, i % 8);
    var dat := BitOps.Xor(Word16(seed), Word16(i)) % 16 * 8 + i % 8;
    256 * dat + dat
  }

  /** A fresh item has nothing cached, names function `i % 8`, and carries four bits of seed and position. */
  lemma ItemDataFields(seed: Index, i: nat)
    ensures var d := ItemData(seed, i);
      && !Cached(d) && Flag(d) == i % 8 && Value(d) == 8 * (BitOps.Xor(Word16(seed), Word16(i)) % 16) + Flag(d)
      && High(d) == Value(d)
  {
    TwiceByte(BitOps.Xor(Word16(seed), Word16(i)) % 16, i % 8);
  }

  lemma TwiceByte(p: nat, r: nat)
    requires p < 16 && r < 8
    ensures var dat := p * 8 + r;
      var d := 256 * dat + dat;
      d < 0x1_0000 && Low(d) == dat && High(d) == dat && !Cached(d) && Flag(d) == r && Value(d) == dat
  {
    var dat := p * 8 + r;
    var d := 256 * dat + dat;
    assert d == 128 * (2 * dat) + dat && d == 8 * (32 * dat + p) + r;
    assert d / 128 == 2 * dat;
  }

  /** Data word of the k-th cell. */
  function CellData(seed: Index, k: nat): (d: Data16)
    ensures Low(d) == High(d)
  {
    if k == 0 then 0x8080 else if k == 1 then 0xffff else ItemData(seed, k - 2)
  }

  /** The list after `m` insertions: the head, the inserted items newest first, and the tail item. */
  function Fresh(heads: seq<ListHead>, m: nat): (u: seq<ListHead>)
    requires m <= |heads|
    ensures |u| == m && forall k :: 0 <= k < m ==> u[k] == if k == 0 then heads[0] else heads[m - k]
  {
    seq(m, k requires 0 <= k < m => if k == 0 then heads[0] else heads[m - k])
  }

  ghost predicate Distinct(datas: seq<ListData>) {
    forall i, j :: 0 <= i < j < |datas| ==> datas[i] != datas[j]
  }

  /** The first `m` cells are linked as `Fresh` says and carry their data. */
  ghost predicate Filled(heads: seq<ListHead>, datas: seq<ListData>, m: nat, seed: Index)
    reads heads, datas
  {
    && 2 <= m <= |heads| == |datas|
    && heads[0].next == heads[m - 1] && heads[1].next == null
    && (forall j :: 2 <= j < m ==> heads[j].next == heads[j - 1])
    && (forall j :: 0 <= j < m ==> heads[j].info == datas[j] && datas[j].data16 == CellData(seed, j))
  }

  method InsertNew(point: ListHead, data: Data16, idx: Index, heads: seq<ListHead>, datas: seq<ListData>,
                   memblock: nat, datablock: nat)
    returns (newitem: ListHead?, memblock': nat, datablock': nat)
    modifies point`next, heads, datas
    ensures memblock + 1 >= |heads| || datablock + 1 >= |datas| ==>
              newitem == null && memblock' == memblock && datablock' == datablock &&
              unchanged(point) && unchanged(heads) && unchanged(datas)
    ensures memblock + 1 < |heads| && datablock + 1 < |datas| ==>
              && memblock' == memblock + 1 && datablock' == datablock + 1 && newitem == heads[memblock]
              && point.next == newitem && (point != newitem ==> newitem.next == old(point.next))
              && newitem.info == datas[datablock] && newitem.info.data16 == data && newitem.info.idx == idx
              && (forall j :: 0 <= j < |heads| && heads[j] != newitem && heads[j] != point ==>
                    heads[j].next == old(heads[j].next))
              && (forall j :: 0 <= j < |heads| && heads[j] != newitem ==> heads[j].info == old(heads[j].info))
              && (forall j :: 0 <= j < |datas| && datas[j] != newitem.info ==>
                    datas[j].data16 == old(datas[j].data16) && datas[j].idx == old(datas[j].idx))
  {
    memblock', datablock' := memblock, datablock;
    if memblock + 1 >= |heads| || datablock + 1 >= |datas| {
      return null, memblock, datablock;
    }
    var item := heads[memblock];
    memblock' := memblock + 1;
    item.next := point.next;
    point.next := item;
    item.info := datas[datablock];
    datablock' := datablock + 1;
    item.info.data16 := data;
    item.info.idx := idx;
    newitem := item;
  }

  /** Creates the head and tail items and inserts as many items as the block holds. */
  method Fill(seed: Index, heads: seq<ListHead>, datas: seq<ListData>)
    requires 3 <= |heads| == |datas| && NoDup(heads) && Distinct(datas)
    modifies heads, datas
    ensures Filled(heads, datas, |heads| - 1, seed)
    ensures datas[0].idx == 0 && datas[1].idx == 0x7fff
  {
    hide ItemData;
    var list := heads[0];
    list.next := null;
    list.info := datas[0];
    list.info.idx := 0;
    list.info.data16 := 0x8080;
    var tail, memblock, datablock := InsertNew(list, 0xffff, 0x7fff, heads, datas, 1, 1);
    assert heads[0] != heads[1] && datas[0] != datas[1];
    var i := 0;
    while i < |heads|
      invariant i <= |heads| && memblock == datablock == if 2 + i < |heads| then 2 + i else |heads| - 1
      invariant Filled(heads, datas, memblock, seed) && datas[0].idx == 0 && datas[1].idx == 0x7fff
    {
      memblock, datablock := InsertItem(seed, heads, datas, memblock, datablock, i);
      i := i + 1;
    }
  }

  method InsertItem(seed: Index, heads: seq<ListHead>, datas: seq<ListData>, m: nat, n: nat, i: nat)
    returns (m': nat, n': nat)
    requires 3 <= |heads| == |datas| && NoDup(heads) && Distinct(datas) && Filled(heads, datas, m, seed)
    requires m == n == if 2 + i < |heads| then 2 + i else |heads| - 1
    modifies heads, datas
    ensures m' == n' == if 3 + i < |heads| then 3 + i else |heads| - 1
    ensures Filled(heads, datas, m', seed) && datas[0].idx == old(datas[0].idx) && datas[1].idx == old(datas[1].idx)
  {
    hide ItemData, CellData;
    CellOfItem(seed, i);
    var newitem;
    newitem, m', n' := InsertNew(heads[0], ItemData(seed, i), 0x7fff, heads, datas, m, n);
    if m + 1 < |heads| {
      assert forall j :: 0 < j < m ==> heads[j] != heads[0] && heads[j] != heads[m];
      assert forall j :: 0 <= j < m ==> datas[j] != datas[m] && heads[j] != heads[m];
    }
  }

  lemma CellOfItem(seed: Index, i: nat)
    ensures CellData(seed, i + 2) == ItemData(seed, i)
  {
  }

  /** Numbers the list from its second node to the last but one. */
  method Number(seed: Index, heads: seq<ListHead>, datas: seq<ListData>)
    requires 3 <= |heads| == |datas| && Distinct(datas) && Filled(heads, datas, |heads| - 1, seed)
    requires datas[0].idx == 0 && datas[1].idx == 0x7fff
    modifies datas`idx
    ensures Filled(heads, datas, |heads| - 1, seed) && Numbered(heads, datas, |heads| - 1, seed)
  {
    hide CellData, ItemIndex;
    ghost var m := |heads| - 1;
    var finder := heads[0].next;
    var i := 1;
    while finder.next != null
      invariant 1 <= i <= m - 1 && finder == heads[m - i]
      invariant forall j :: 2 <= j < m ==> heads[j].next == heads[j - 1]
      invariant datas[0].idx == 0 && datas[1].idx == 0x7fff
      invariant forall j :: m - i < j < m ==> datas[j].idx == ItemIndex(seed, |heads|, m - j)
      decreases m - i
    {
      finder.info.idx := ItemIndex(seed, |heads|, i);
      i := i + 1;
      finder := finder.next;
    }
    ghost var before := heads[if i < m - 1 then m - i - 1 else 1];
    assert i == m - 1;
  }

  /** The freshly filled cells form a list. */
  lemma FilledChain(heads: seq<ListHead>, datas: seq<ListData>, m: nat, seed: Index)
    requires Filled(heads, datas, m, seed) && NoDup(heads)
    ensures Chain(heads[0], Fresh(heads, m)) && NoDup(Fresh(heads, m))
  {
    hide CellData;
    var u := Fresh(heads, m);
    forall k | 0 <= k < |u| ensures u[k].next == At(u, k + 1) {
      if 0 < k < m - 1 {
        assert u[k] == heads[m - k] && heads[m - k].next == heads[m - k - 1];
      }
    }
  }

  lemma AtIndex(u: seq<ListHead>, t: seq<ListHead>, n: ListHead) returns (i: nat)
    requires Permutation(u, t) && n in u
    ensures i < |t| && t[i] == n
  {
    assert n in multiset(t);
    i :| 0 <= i < |t| && t[i] == n;
  }

  /** The numbered cells before the sort. */
  ghost predicate Numbered(heads: seq<ListHead>, datas: seq<ListData>, m: nat, seed: Index)
    reads heads, datas
  {
    && 2 <= m && m + 1 == |heads| == |datas|
    && forall j :: 0 <= j < m ==> heads[j].info == datas[j] && datas[j].idx == CellIndex(seed, |heads|, j)
  }

  ghost predicate EndsInPlace(heads: seq<ListHead>, t: seq<ListHead>) {
    2 <= |t| && 2 <= |heads| && t[0] == heads[0] && t[|t| - 1] == heads[1]
  }

  /** Without wrapped indices the head item sorts first and the tail item last. */
  lemma EndsStay(heads: seq<ListHead>, datas: seq<ListData>, m: nat, seed: Index, t: seq<ListHead>)
    requires Numbered(heads, datas, m, seed) && NoDup(Fresh(heads, m)) && |heads| / 5 <= 0x8000
    requires Permutation(Fresh(heads, m), t) && StablySorted(CmpIdx, Fresh(heads, m), t)
    ensures EndsInPlace(heads, t)
  {
    hide NoDup, Permutation, Key;
    var u := Fresh(heads, m);
    var pos := PositionsOf(u);
    var a := AtIndex(u, t, u[0]);
    var b := AtIndex(u, t, u[m - 1]);
    PermutationLength(u, t);
    var x, y := t[0], t[m - 1];
    InRange(heads, datas, m, seed, t, x);
    InRange(heads, datas, m, seed, t, y);
    SortedPair(u, t, 0, a);
    SortedPair(u, t, b, m - 1);
  }

  lemma SortedPair(u: seq<ListHead>, t: seq<ListHead>, i: nat, j: nat)
    requires NoDup(u) && StablySorted(CmpIdx, u, t) && i <= j < |t|
    ensures i < j ==>
      && t[i] in PositionsOf(u) && t[j] in PositionsOf(u)
      && (t[i].info.idx < t[j].info.idx ||
          (t[i].info.idx == t[j].info.idx && PositionsOf(u)[t[i]] < PositionsOf(u)[t[j]]))
  {
  }

  lemma InRange(heads: seq<ListHead>, datas: seq<ListData>, m: nat, seed: Index, t: seq<ListHead>, n: ListHead)
    requires Numbered(heads, datas, m, seed) && NoDup(Fresh(heads, m)) && |heads| / 5 <= 0x8000
    requires Permutation(Fresh(heads, m), t) && n in t
    ensures 0 <= n.info.idx <= 0x7fff && n in PositionsOf(Fresh(heads, m)) && PositionsOf(Fresh(heads, m))[n] < m
  {
    hide NoDup;
    assert n in multiset(Fresh(heads, m));
    var k :| 0 <= k < m && Fresh(heads, m)[k] == n;
  }

  /** A list so long that an index wraps has an item that sorts before the head item. */
  lemma EndsMove(heads: seq<ListHead>, datas: seq<ListData>, m: nat, seed: Index, t: seq<ListHead>)
    requires Numbered(heads, datas, m, seed) && NoDup(Fresh(heads, m)) && |heads| / 5 > 0x8000
    requires Permutation(Fresh(heads, m), t) && StablySorted(CmpIdx, Fresh(heads, m), t)
    ensures !EndsInPlace(heads, t)
  {
    hide NoDup, Permutation, Key;
    var u, k := Fresh(heads, m), 0x8000;
    assert ItemIndex(seed, |heads|, k) == -0x8000;
    var c := AtIndex(u, t, u[k]);
    SortedPair(u, t, 0, c);
  }

  /** `core_list_init` on a block of `blksize` bytes, which holds at least three cells. */
  method Init(blksize: nat, seed: Index, heads: seq<ListHead>, datas: seq<ListData>, ghost nodes: set<ListHead>)
    returns (list: ListHead, ghost t: seq<ListHead>)
    requires 3 <= |heads| == |datas| == ListSize(blksize) && NoDup(heads) && Distinct(datas) && Inside(heads, nodes)
    modifies nodes, datas
    ensures Chain(list, t) && NoDup(t) && Permutation(Fresh(heads, |heads| - 1), t)
    ensures forall j :: 0 <= j < |heads| - 1 ==>
              && heads[j].info == datas[j] && datas[j].data16 == CellData(seed, j)
              && datas[j].idx == CellIndex(seed, |heads|, j)
    ensures forall i, j :: 0 <= i < j < |t| ==> t[i].info.idx <= t[j].info.idx
    ensures EndsInPlace(heads, t) <==> |heads| / 5 <= 0x8000
  {
    hide NoDup, ItemData, ItemIndex, CellData, CellIndex, Filled, Chain, Permutation, StablySorted, DataEvolved,
      Fresh, Distinct, ListSize;
    Fill(seed, heads, datas);
    Number(seed, heads, datas);
    list, t := SortCells(seed, heads, datas, nodes);
  }

  method SortCells(seed: Index, heads: seq<ListHead>, datas: seq<ListData>, ghost nodes: set<ListHead>)
    returns (list: ListHead, ghost t: seq<ListHead>)
    requires 3 <= |heads| == |datas| && NoDup(heads) && Inside(heads, nodes)
    requires Filled(heads, datas, |heads| - 1, seed) && Numbered(heads, datas, |heads| - 1, seed)
    modifies nodes`next, datas`data16
    ensures Chain(list, t) && NoDup(t) && Permutation(Fresh(heads, |heads| - 1), t)
    ensures forall j :: 0 <= j < |heads| - 1 ==> heads[j].info == datas[j] && datas[j].data16 == CellData(seed, j)
    ensures forall i, j :: 0 <= i < j < |t| ==> t[i].info.idx <= t[j].info.idx
    ensures EndsInPlace(heads, t) <==> |heads| / 5 <= 0x8000
  {
    hide NoDup, ItemData, ItemIndex, CellData, CellIndex, Chain, Permutation, StablySorted, DataEvolved, Evolved,
      Key, EndsInPlace;
    ghost var m := |heads| - 1;
    ghost var u := Fresh(heads, m);
    FilledChain(heads, datas, m, seed);
    assert Inside(u, nodes);
    CellInfos(heads, datas, m, seed);
    ghost var log, was := [], DataOf(u);
    list, t, log := Sort(heads[0], CmpIdx, null, u, nodes);
    CellsKept(heads, datas, m, seed, was);
    hide Filled, Numbered, DataOf, MergeSort.Infos;
    if |heads| / 5 <= 0x8000 {
      EndsStay(heads, datas, m, seed, t);
    } else {
      EndsMove(heads, datas, m, seed, t);
    }
    forall i, j | 0 <= i < j < |t| ensures t[i].info.idx <= t[j].info.idx {
      SortedPair(u, t, i, j);
    }
  }

  lemma CellInfos(heads: seq<ListHead>, datas: seq<ListData>, m: nat, seed: Index)
    requires Filled(heads, datas, m, seed)
    ensures forall j :: 0 <= j < m ==> datas[j] in MergeSort.Infos(Fresh(heads, m))
    ensures forall d :: d in MergeSort.Infos(Fresh(heads, m)) ==> d in datas
  {
    var u := Fresh(heads, m);
    forall j | 0 <= j < m ensures datas[j] in MergeSort.Infos(u) {
      var k := if j == 0 then 0 else m - j;
      assert u[k] == heads[j];
    }
  }

  /** Items whose bytes agree are not changed by a sort that rebuilds them. */
  lemma CellsKept(heads: seq<ListHead>, datas: seq<ListData>, m: nat, seed: Index, was: Data)
    requires m <= |datas| && DataEvolved(CmpIdx, true, was)
    requires forall j :: 0 <= j < m ==> datas[j] in was && was[datas[j]] == CellData(seed, j)
    ensures forall j :: 0 <= j < m ==> datas[j].data16 == CellData(seed, j)
  {
    hide CellData;
    forall j | 0 <= j < m ensures datas[j].data16 == CellData(seed, j) {
      var d := CellData(seed, j);
      assert Evolved(CmpIdx, true, was[datas[j]], datas[j].data16);
      SettledIsFinal(CmpIdx, true, d, datas[j].data16);
    }
  }
}
