/**
  The life of the list in a whole CoreMark program: it is laid out once
  (coremark/core_list_join.c) and then benchmarked in every iteration
  (coremark/core_main.c).
*/
module ListProgram {
  import opened ListItems
  import opened ListIndices
  import opened MergeSort
  import opened ListInit
  import ListBench

  /** Every cell of the list has its item, with the word and the index of the start. */
  ghost predicate CellsAre(seed: Index, heads: seq<ListHead>, datas: seq<ListData>)
    reads heads`info, datas`data16, datas`idx
  {
    && |heads| == |datas|
    && forall j :: 0 <= j < |heads| - 1 ==>
         && heads[j].info == datas[j] && datas[j].data16 == CellData(seed, j)
         && datas[j].idx == CellIndex(seed, |heads|, j)
  }

  ghost predicate SortedList(t: seq<ListHead>)
    reads t`info, MergeSort.Infos(t)`idx
  {
    forall i, j :: 0 <= i < j < |t| ==> t[i].info.idx <= t[j].info.idx
  }

  /** Every node of the list is one of the first `m` cells. */
  lemma CellOf(heads: seq<ListHead>, m: nat, t: seq<ListHead>, n: ListHead) returns (j: nat)
    requires m <= |heads| && Permutation(Fresh(heads, m), t) && n in t
    ensures j < m && heads[j] == n
  {
    assert n in multiset(Fresh(heads, m));
    var k :| 0 <= k < m && Fresh(heads, m)[k] == n;
    j := if k == 0 then 0 else m - k;
  }

  /** Distinct cell indices are distinct indices in the list. */
  lemma FreshDistinct(seed: Index, heads: seq<ListHead>, datas: seq<ListData>, t: seq<ListHead>)
    requires CellsAre(seed, heads, datas) && NoDup(t) && DistinctCells(seed, |heads|) && |heads| > 0
    requires Permutation(Fresh(heads, |heads| - 1), t)
    ensures forall i, j :: 0 <= i < j < |t| ==> t[i].info.idx != t[j].info.idx
  {
    hide CellData, CellIndex, NoDup, Permutation, Fresh;
    forall i, j | 0 <= i < j < |t| ensures t[i].info.idx != t[j].info.idx {
      var x := CellOf(heads, |heads| - 1, t, t[i]);
      var y := CellOf(heads, |heads| - 1, t, t[j]);
      ListBench.DistinctAt(t, i, j);
    }
  }

  /** The low byte of every item is its upper byte. */
  lemma FreshBacked(seed: Index, heads: seq<ListHead>, datas: seq<ListData>, t: seq<ListHead>)
    requires CellsAre(seed, heads, datas) && |heads| > 0 && Permutation(Fresh(heads, |heads| - 1), t)
    ensures ListBench.Backed(DataOf(t))
  {
    hide CellData, CellIndex, Permutation, Fresh, Low, High;
    forall d | d in DataOf(t) ensures Low(d.data16) == High(d.data16) {
      var i :| 0 <= i < |t| && t[i].info == d;
      var x := CellOf(heads, |heads| - 1, t, t[i]);
      CellBacked(seed, x);
    }
  }

  /** What the iterations need of a fresh list. */
  lemma FreshListReady(seed: Index, heads: seq<ListHead>, datas: seq<ListData>, t: seq<ListHead>)
    requires 4 <= |heads| && CellsAre(seed, heads, datas) && NoDup(t) && DistinctCells(seed, |heads|) && SortedList(t)
    requires Permutation(Fresh(heads, |heads| - 1), t)
    ensures |t| >= 3 && ListBench.Backed(DataOf(t))
    ensures ListBench.IndexSorted(t, ListBench.ViewOf(t)) && ListBench.DistinctIndices(t, ListBench.ViewOf(t))
  {
    FreshDistinct(seed, heads, datas, t);
    FreshBacked(seed, heads, datas, t);
    hide CellsAre, NoDup, DistinctCells, ListBench.Backed;
    var v := ListBench.ViewOf(t);
    assert forall i :: 0 <= i < |t| ==> t[i] in t && v[t[i]].1 == t[i].info.idx;
  }

  /** The list has exactly the first cells and their items. */
  lemma CellsInList(heads: seq<ListHead>, datas: seq<ListData>, t: seq<ListHead>, nodes: set<ListHead>)
    requires 2 <= |heads| == |datas| && Permutation(Fresh(heads, |heads| - 1), t) && Inside(heads, nodes)
    requires forall j :: 0 <= j < |heads| - 1 ==> heads[j].info == datas[j]
    ensures forall n :: n in t ==> n in nodes
    ensures forall d :: d in MergeSort.Infos(t) ==> d in datas
    ensures forall j :: 0 <= j < |heads| - 1 ==> heads[j] in t && datas[j] in MergeSort.Infos(t)
  {
    var m := |heads| - 1;
    forall n | n in t ensures n in nodes && n.info in datas {
      var j := CellOf(heads, m, t, n);
      assert heads[j] in nodes;
    }
    forall j | 0 <= j < m ensures heads[j] in t && datas[j] in MergeSort.Infos(t) {
      var k := if j == 0 then 0 else m - j;
      assert Fresh(heads, m)[k] == heads[j];
      assert heads[j] in multiset(Fresh(heads, m));
      assert heads[j] in multiset(t);
      var i :| 0 <= i < |t| && t[i] == heads[j];
    }
  }

  lemma CellBacked(seed: Index, j: nat)
    ensures Low(CellData(seed, j)) == High(CellData(seed, j))
  {
  }

  /** The placement of the cells, by the item of each node and the word of each item. */
  ghost predicate Placed(seed: Index, heads: seq<ListHead>, datas: seq<ListData>, infos: ListBench.Infos, was: Data) {
    && |heads| == |datas|
    && forall j :: 0 <= j < |heads| - 1 ==>
         && heads[j] in infos && infos[heads[j]] == datas[j]
         && datas[j] in was && was[datas[j]] == CellData(seed, j)
  }

  /** The indices of the cells, and the order of the list by them. */
  ghost predicate IndicesAre(seed: Index, heads: seq<ListHead>, datas: seq<ListData>, t: seq<ListHead>,
    infos: ListBench.Infos)
    reads datas`idx
  {
    && |heads| == |datas|
    && (forall j :: 0 <= j < |heads| - 1 ==> datas[j].idx == CellIndex(seed, |heads|, j))
    && forall i, j :: 0 <= i < j < |t| ==>
         && t[i] in infos && t[j] in infos && infos[t[i]] in datas && infos[t[j]] in datas
         && infos[t[i]].idx <= infos[t[j]].idx
  }

  lemma PlacedNow(seed: Index, heads: seq<ListHead>, datas: seq<ListData>, t: seq<ListHead>)
    requires CellsAre(seed, heads, datas) && SortedList(t)
    requires forall d :: d in MergeSort.Infos(t) ==> d in datas
    requires forall j :: 0 <= j < |heads| - 1 ==> heads[j] in t && datas[j] in MergeSort.Infos(t)
    ensures Placed(seed, heads, datas, ListBench.InfosOf(t), DataOf(t))
    ensures IndicesAre(seed, heads, datas, t, ListBench.InfosOf(t))
  {
    hide CellData, CellIndex;
    assert forall i :: 0 <= i < |t| ==> t[i] in t && t[i].info in MergeSort.Infos(t);
  }

  lemma PlacedStill(
    seed: Index, heads: seq<ListHead>, datas: seq<ListData>, t: seq<ListHead>, infos: ListBench.Infos, was: Data)
    requires Placed(seed, heads, datas, infos, was) && IndicesAre(seed, heads, datas, t, infos)
    requires forall n :: n in t ==> n in infos && n.info == infos[n]
    requires forall j :: 0 <= j < |heads| - 1 ==> heads[j] in t
    requires forall d :: d in was ==> d.data16 == was[d]
    ensures CellsAre(seed, heads, datas) && SortedList(t)
  {
    hide CellData, CellIndex;
  }

  /** The iterations on a fresh list. */
  method IterateFresh(res: CoreResults, seed: Index, finders: seq<Index>, heads: seq<ListHead>, datas: seq<ListData>,
                      ghost t: seq<ListHead>, ghost nodes: set<ListHead>)
    requires 4 <= |heads| == |datas| && DistinctCells(seed, |heads|) && Inside(heads, nodes)
    requires Chain(res.list, t) && NoDup(t) && Permutation(Fresh(heads, |heads| - 1), t)
    requires CellsAre(seed, heads, datas) && SortedList(t)
    modifies nodes`next, nodes`info, datas`data16, res`crc, res`crcstate, res`crcmatrix
    ensures Chain(res.list, t) && CellsAre(seed, heads, datas) && SortedList(t)
  {
    hide CellData, CellIndex, NoDup, Low, High, Chain, Permutation, Fresh, ListBench.IndexSorted,
      ListBench.DistinctIndices, ListBench.Backed, DistinctCells, ListBench.ViewOf, Inside;
    FreshListReady(seed, heads, datas, t);
    CellsInList(heads, datas, t, nodes);
    ghost var infos, was := ListBench.InfosOf(t), DataOf(t);
    PlacedNow(seed, heads, datas, t);
    hide CellsAre, SortedList, Placed, IndicesAre;
    ListBench.Iterate(res, finders, t);
    PlacedStill(seed, heads, datas, t, infos, was);
  }

  /**
    Initialize once, then benchmark with any finder indices: afterwards the list is
    the sorted list of the start, with every cell's item, word and index.
  */
  method InitAndIterate(blksize: nat, seed: Index, seed3: Index, finders: seq<Index>,
                        heads: seq<ListHead>, datas: seq<ListData>, ghost nodes: set<ListHead>)
    returns (res: CoreResults, ghost t: seq<ListHead>)
    requires 4 <= |heads| == |datas| == ListSize(blksize) && DistinctCells(seed, |heads|)
    requires NoDup(heads) && Distinct(datas) && Inside(heads, nodes)
    modifies nodes, datas
    ensures Chain(res.list, t) && NoDup(t) && Permutation(Fresh(heads, |heads| - 1), t)
    ensures CellsAre(seed, heads, datas) && SortedList(t) && EndsInPlace(heads, t)
  {
    hide CellData, CellIndex, NoDup, Chain, Permutation, Distinct, Fresh, DistinctCells, EndsInPlace, ListSize;
    var list;
    list, t := Init(blksize, seed, heads, datas, nodes);
    DistinctIff(seed, |heads|);
    res := new CoreResults(list, seed3);
    IterateFresh(res, seed, finders, heads, datas, t, nodes);
  }
}
