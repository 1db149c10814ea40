/**
  The list operations and the list benchmark of CoreMark
  (coremark/core_list_join.c).  `Bench` runs finds with reversals and moves, a
  sort whose comparator overwrites the data, a remove and its undo, and a sort by
  index; the headline result is that the list ends as it began.
*/
module ListBench {
  import opened ListItems
  import opened MergeSort
  import Crc

  // ---- Find and reverse --------------------------------------------------------

  /** What `core_list_find` looks for: an index, or a low data byte when the index is negative. */
  predicate Matches(d: Data16, i: Index, idx: Index, data: Data16) {
    if idx >= 0 then i == idx else Low(d) == data
  }

  method Find(list0: ListHead?, idx: Index, data: Data16, ghost s: seq<ListHead>)
    returns (list: ListHead?, ghost k: nat)
    requires Chain(list0, s)
    ensures k <= |s| && list == At(s, k)
    ensures forall i :: 0 <= i < k ==> !Matches(s[i].info.data16, s[i].info.idx, idx, data)
    ensures k < |s| ==> Matches(s[k].info.data16, s[k].info.idx, idx, data)
    ensures list == null <==> forall i :: 0 <= i < |s| ==> !Matches(s[i].info.data16, s[i].info.idx, idx, data)
    ensures list != null ==> Matches(list.info.data16, list.info.idx, idx, data)
  {
    list, k := list0, 0;
    if idx >= 0 {
      while list != null && list.info.idx != idx
        invariant k <= |s| && list == At(s, k)
        invariant forall i :: 0 <= i < k ==> s[i].info.idx != idx
        decreases |s| - k
      {
        list := list.next;
        k := k + 1;
      }
    } else {
      while list != null && Low(list.info.data16) != data
        invariant k <= |s| && list == At(s, k)
        invariant forall i :: 0 <= i < k ==> Low(s[i].info.data16) != data
        decreases |s| - k
      {
        list := list.next;
        k := k + 1;
      }
    }
  }

  function Reversed(s: seq<ListHead>): (r: seq<ListHead>)
    ensures |r| == |s|
  {
    seq(|s|, i requires 0 <= i < |s| => s[|s| - 1 - i])
  }

  function Prev(s: seq<ListHead>, i: nat): ListHead? {
    if 0 < i <= |s| then s[i - 1] else null
  }

  method Reverse(list0: ListHead?, ghost s: seq<ListHead>, ghost nodes: set<ListHead>) returns (next: ListHead?)
    requires Chain(list0, s) && NoDup(s) && Inside(s, nodes)
    modifies nodes`next
    ensures Chain(next, Reversed(s))
  {
    var list := list0;
    next := null;
    ghost var i := 0;
    while list != null
      invariant i <= |s| && list == At(s, i) && next == Prev(s, i)
      invariant forall x :: i <= x < |s| ==> s[x].next == At(s, x + 1)
      invariant forall x :: 0 <= x < i ==> s[x].next == Prev(s, x)
      decreases |s| - i
    {
      var tmp := list.next;
      list.next := next;
      next := list;
      list := tmp;
      i := i + 1;
    }
    ReversedChain(next, s);
  }

  lemma ReversedChain(h: ListHead?, s: seq<ListHead>)
    requires h == Prev(s, |s|) && forall x :: 0 <= x < |s| ==> s[x].next == Prev(s, x)
    ensures Chain(h, Reversed(s))
  {
    var r := Reversed(s);
    forall i | 0 <= i < |r| ensures r[i].next == At(r, i + 1) {
      var x := |s| - 1 - i;
      assert r[i] == s[x] && Prev(s, x) == At(r, i + 1);
    }
  }

  /** The node after position k, if any, moved to the second place. */
  function Moved(s: seq<ListHead>, k: nat): (r: seq<ListHead>)
    requires k < |s|
    ensures |r| == |s|
  {
    if k + 1 < |s| then [s[0], s[k + 1]] + s[1..k + 1] + s[k + 2..] else s
  }

  method MoveNext(list: ListHead, thisFind: ListHead, ghost s: seq<ListHead>, ghost k: nat, ghost nodes: set<ListHead>)
    requires Chain(list, s) && NoDup(s) && k < |s| && thisFind == s[k] && Inside(s, nodes)
    modifies nodes`next
    ensures Chain(list, Moved(s, k))
  {
    if thisFind.next != null {
      var finder := thisFind.next;
      thisFind.next := finder.next;
      finder.next := list.next;
      list.next := finder;
      MovedChain(list, s, k);
    }
  }

  lemma MovedChain(h: ListHead, s: seq<ListHead>, k: nat)
    requires k + 1 < |s| && h == s[0] && s[0].next == s[k + 1]
    requires k > 0 ==> s[k + 1].next == s[1] && s[k].next == At(s, k + 2)
    requires k == 0 ==> s[1].next == At(s, 2)
    requires forall i :: 0 < i < |s| && i != k && i != k + 1 ==> s[i].next == At(s, i + 1)
    ensures Chain(h, Moved(s, k))
  {
    var u := Moved(s, k);
    assert u[0] == s[0] && u[1] == s[k + 1];
    assert forall i :: 2 <= i < k + 2 ==> u[i] == s[i - 1];
    assert forall i :: k + 2 <= i < |s| ==> u[i] == s[i];
    forall i | 0 <= i < |u| ensures u[i].next == At(u, i + 1) {
      if 2 <= i < k + 2 {
        assert u[i] == s[i - 1];
      }
    }
  }

  // ---- Remove and undo -----------------------------------------------------------

  /** Removes the data of `item` = s[k]: the next node is unlinked and takes it along. */
  method Remove(item: ListHead, ghost h: ListHead?, ghost s: seq<ListHead>, ghost k: nat) returns (ret: ListHead)
    requires Chain(h, s) && NoDup(s) && k + 1 < |s| && item == s[k]
    modifies {item, s[k + 1]}`next, {item, s[k + 1]}`info
    ensures ret == s[k + 1] && ret.next == null && Chain(h, s[..k + 1] + s[k + 2..])
    ensures item.info == old(ret.info) && ret.info == old(item.info)
  {
    ret := item.next;
    var tmp := item.info;
    item.info := ret.info;
    ret.info := tmp;
    item.next := item.next.next;
    ret.next := null;
  }

  method UndoRemove(removed: ListHead, modified: ListHead, ghost h: ListHead?, ghost s: seq<ListHead>, ghost k: nat)
    requires Chain(h, s) && NoDup(s + [removed]) && k < |s| && modified == s[k]
    modifies removed`next, removed`info, modified`next, modified`info
    ensures Chain(h, s[..k + 1] + [removed] + s[k + 1..])
    ensures removed.info == old(modified.info) && modified.info == old(removed.info)
  {
    assert forall x :: 0 <= x < |s| ==> s[x] == (s + [removed])[x] != (s + [removed])[|s|];
    var tmp := removed.info;
    removed.info := modified.info;
    modified.info := tmp;
    removed.next := modified.next;
    modified.next := removed;
  }

  // ---- The find phase --------------------------------------------------------------

  /** Data word and index of each node. */
  type View = map<ListHead, (Data16, Index)>

  ghost function ViewOf(s: seq<ListHead>): (v: View)
    reads s`info, MergeSort.Infos(s)`data16, MergeSort.Infos(s)`idx
    ensures forall n :: n in s ==> n in v && v[n] == (n.info.data16, n.info.idx)
  {
    map n | n in s :: (n.info.data16, n.info.idx)
  }

  /** The data and index of every node are as in `v`. */
  ghost predicate Shows(v: View, nodes: set<ListHead>)
    reads nodes`info, (set n | n in nodes :: n.info)`data16, (set n | n in nodes :: n.info)`idx
  {
    forall n :: n in nodes ==> n in v && v[n] == (n.info.data16, n.info.idx)
  }

  predicate MatchesIn(v: View, n: ListHead, idx: Index, data: Data16) {
    n in v && Matches(v[n].0, v[n].1, idx, data)
  }

  function FirstMatch(s: seq<ListHead>, v: View, idx: Index, data: Data16): (k: nat)
    ensures k <= |s|
  {
    if s == [] || MatchesIn(v, s[0], idx, data) then 0 else 1 + FirstMatch(s[1..], v, idx, data)
  }

  lemma {:induction false} FirstMatchIs(s: seq<ListHead>, v: View, idx: Index, data: Data16, k: nat)
    requires k <= |s| && forall i :: 0 <= i < k ==> !MatchesIn(v, s[i], idx, data)
    requires k < |s| ==> MatchesIn(v, s[k], idx, data)
    ensures FirstMatch(s, v, idx, data) == k
    decreases |s|
  {
    if k > 0 {
      assert forall i :: 0 <= i < k - 1 ==> s[1..][i] == s[i + 1];
      FirstMatchIs(s[1..], v, idx, data, k - 1);
    }
  }

  /** The list after one find: reversed, and the node after a found one moved to the second place. */
  function FindStep(s: seq<ListHead>, v: View, idx: Index, data: Data16): seq<ListHead> {
    var k := FirstMatch(s, v, idx, data);
    if k == |s| then Reversed(s) else Moved(Reversed(s), |s| - 1 - k)
  }

  /**
    The index the k-th find looks for: a negative one stays, and the others count up
    until 0x7fff wraps to -0x8000, which then stays.
  */
  function KeyAt(finderIdx: Index, k: nat): Index {
    if finderIdx < 0 then finderIdx else if finderIdx + k <= 0x7fff then finderIdx + k else -0x8000
  }

  /** The order of the list after the first `n` finds; the k-th looks for the low byte `k % 256`. */
  function FindOrder(s: seq<ListHead>, v: View, n: int, finderIdx: Index): seq<ListHead>
    decreases n
  {
    if n <= 0 then s else FindStep(FindOrder(s, v, n - 1, finderIdx), v, KeyAt(finderIdx, n - 1), (n - 1) % 256)
  }

  predicate FindHits(s: seq<ListHead>, v: View, idx: Index, data: Data16) {
    FirstMatch(s, v, idx, data) < |s|
  }

  /** Bit 8 of the last but one node after a miss; after a hit bit 9 of the found node, if its word is odd. */
  function FindBit(s: seq<ListHead>, v: View, idx: Index, data: Data16): int {
    var k := FirstMatch(s, v, idx, data);
    if k == |s| then (if |s| >= 2 then WordBit(v, s[|s| - 2], 8) else 0)
    else if WordBit(v, s[k], 0) == 1 then WordBit(v, s[k], 9) else 0
  }

  /** Bit 0, 8 or 9 of a node's data word. */
  function WordBit(v: View, n: ListHead, bit: nat): int {
    if n !in v then 0
    else if bit == 0 then v[n].0 % 2
    else if bit == 8 then High(v[n].0) % 2
    else (High(v[n].0) / 2) % 2
  }

  /** How many of the first `n` finds hit. */
  function HitsIn(s: seq<ListHead>, v: View, n: int, finderIdx: Index): (h: nat)
    ensures h <= if n <= 0 then 0 else n
    decreases n
  {
    if n <= 0 then 0
    else
      HitsIn(s, v, n - 1, finderIdx) +
      if FindHits(FindOrder(s, v, n - 1, finderIdx), v, KeyAt(finderIdx, n - 1), (n - 1) % 256) then 1 else 0
  }

  /** The bits the first `n` finds add. */
  function BitsIn(s: seq<ListHead>, v: View, n: int, finderIdx: Index): int
    decreases n
  {
    if n <= 0 then 0
    else
      BitsIn(s, v, n - 1, finderIdx) +
      FindBit(FindOrder(s, v, n - 1, finderIdx), v, KeyAt(finderIdx, n - 1), (n - 1) % 256)
  }

  /** Four for every hit, minus one for every miss, and the bits. */
  function FindSum(s: seq<ListHead>, v: View, n: int, finderIdx: Index): int {
    var hits := HitsIn(s, v, n, finderIdx);
    BitsIn(s, v, n, finderIdx) + 4 * hits - ((if n <= 0 then 0 else n) - hits)
  }

  function LastData(n: int): Data16 {
    if n > 0 then (n - 1) % 256 else 0
  }

  function Finds(n: Index): nat {
    if n <= 0 then 0 else n
  }

  lemma ReversedPermutes(s: seq<ListHead>)
    requires NoDup(s)
    ensures NoDup(Reversed(s)) && Permutation(s, Reversed(s))
  {
    ReversedMultiset(s);
  }

  lemma {:induction false} ReversedMultiset(s: seq<ListHead>)
    ensures multiset(Reversed(s)) == multiset(s)
    decreases |s|
  {
    if s == [] {
      assert Reversed(s) == [];
    } else {
      ReversedMultiset(s[1..]);
      assert Reversed(s) == Reversed(s[1..]) + [s[0]];
      assert s == [s[0]] + s[1..];
    }
  }

  lemma MovedPermutes(s: seq<ListHead>, k: nat)
    requires NoDup(s) && k < |s|
    ensures NoDup(Moved(s, k)) && Permutation(s, Moved(s, k))
  {
    if k + 1 < |s| {
      hide NoDup;
      var a, b, c := [s[0]], s[1..k + 1], s[k + 1..];
      assert s == a + b + c;
      NoDupRotate(a, b, c);
      assert Moved(s, k) == a + [c[0]] + b + c[1..];
      RotateMultiset(a, b, c);
    }
  }

  lemma RotateMultiset(a: seq<ListHead>, b: seq<ListHead>, c: seq<ListHead>)
    requires c != []
    ensures multiset(a + [c[0]] + b + c[1..]) == multiset(a + b + c)
  {
    assert c == [c[0]] + c[1..];
  }

  lemma ReversedAt(s: seq<ListHead>, k: nat)
    requires k < |s|
    ensures Reversed(s)[|s| - 1 - k] == s[k]
  {
  }

  lemma FindStepPermutes(s: seq<ListHead>, v: View, idx: Index, data: Data16)
    requires NoDup(s)
    ensures NoDup(FindStep(s, v, idx, data)) && Permutation(s, FindStep(s, v, idx, data))
  {
    hide NoDup, Permutation, Reversed, Moved;
    ReversedPermutes(s);
    var k := FirstMatch(s, v, idx, data);
    if k < |s| {
      MovedPermutes(Reversed(s), |s| - 1 - k);
      PermutationTrans(s, Reversed(s), Moved(Reversed(s), |s| - 1 - k));
    }
  }

  method FindPhase(list0: ListHead, findNum: Index, finderIdx: Index, ghost s: seq<ListHead>,
                   ghost nodes: set<ListHead>)
    returns (list: ListHead, idx: Index, data: Data16, retval: int, ghost t: seq<ListHead>)
    requires |s| >= 2 && Chain(list0, s) && NoDup(s) && nodes == set n | n in s
    modifies nodes`next
    ensures |t| == |s| && t == FindOrder(s, old(ViewOf(s)), findNum, finderIdx)
    ensures Chain(list, t) && NoDup(t) && Permutation(s, t)
    ensures retval == FindSum(s, old(ViewOf(s)), findNum, finderIdx)
    ensures idx == KeyAt(finderIdx, Finds(findNum)) && data == LastData(findNum)
  {
    hide Chain, NoDup, Permutation, FindStep, FindHits, FindBit, Matches;
    list, idx, data, retval, t := list0, finderIdx, 0, 0, s;
    ghost var v := ViewOf(s);
    var i, found, missed := 0, 0, 0;
    PermutationRefl(s);
    while i < findNum
      invariant Chain(list, t) && NoDup(t) && Permutation(s, t) && |t| == |s| && Inside(t, nodes) && Shows(v, nodes)
      invariant 0 <= i <= Finds(findNum) && t == FindOrder(s, v, i, finderIdx)
      invariant idx == KeyAt(finderIdx, i) && data == LastData(i)
      invariant found == HitsIn(s, v, i, finderIdx) && missed == i - found && retval == BitsIn(s, v, i, finderIdx)
    {
      var bit, hit;
      ghost var t0 := t;
      data := i % 256;
      list, bit, hit, t := FindOnce(list, idx, data, t, v, nodes);
      retval := retval + bit;
      if hit { found := found + 1; } else { missed := missed + 1; }
      PermutationTrans(s, t0, t);
      if idx >= 0 {
        idx := if idx == 0x7fff then -0x8000 else idx + 1;
      }
      i := i + 1;
    }
    retval := retval + found * 4 - missed;
  }

  lemma PermutationRefl(s: seq<ListHead>)
    ensures Permutation(s, s)
  {
  }

  lemma PermutationTrans(s: seq<ListHead>, t: seq<ListHead>, u: seq<ListHead>)
    requires Permutation(s, t) && Permutation(t, u)
    ensures Permutation(s, u) && |u| == |s|
  {
  }

  /** One find: search, reverse, and move a node when the search succeeded. */
  method FindOnce(list0: ListHead, idx: Index, data: Data16, ghost t0: seq<ListHead>, ghost v: View,
                  ghost nodes: set<ListHead>)
    returns (list: ListHead, bit: int, hit: bool, ghost t: seq<ListHead>)
    requires |t0| >= 2 && Chain(list0, t0) && NoDup(t0) && Inside(t0, nodes) && Shows(v, nodes)
    modifies nodes`next
    ensures t == FindStep(t0, v, idx, data) && hit == FindHits(t0, v, idx, data) && bit == FindBit(t0, v, idx, data)
    ensures Chain(list, t) && NoDup(t) && Permutation(t0, t) && Inside(t, nodes) && Shows(v, nodes)
  {
    hide *;
    ghost var k;
    var thisFind;
    thisFind, k := Find(list0, idx, data, t0);
    FoundAt(t0, v, idx, data, thisFind, k, nodes);
    ScoreAt(t0, v, idx, data, k, nodes);
    FindStepPermutes(t0, v, idx, data);
    PermutationInside(t0, FindStep(t0, v, idx, data), nodes);
    t := FindStep(t0, v, idx, data);
    ghost var r := Reversed(t0);
    ReversedPermutes(t0);
    PermutationInside(t0, r, nodes);
    var head := Reverse(list0, t0, nodes);
    ChainTwo(head, r);
    list := head;
    bit := 0;
    if thisFind == null {
      hit := false;
      ReversedAt(t0, |t0| - 2);
      bit := High(list.next.info.data16) % 2;
    } else {
      hit := true;
      if thisFind.info.data16 % 2 == 1 {
        bit := (High(thisFind.info.data16) / 2) % 2;
      }
      ReversedAt(t0, k);
      MoveNext(list, thisFind, r, |r| - 1 - k, nodes);
    }
  }

  lemma FoundAt(t: seq<ListHead>, v: View, idx: Index, data: Data16, found: ListHead?, k: nat, nodes: set<ListHead>)
    requires Inside(t, nodes) && Shows(v, nodes) && k <= |t| && found == At(t, k)
    requires forall i :: 0 <= i < k ==> !Matches(t[i].info.data16, t[i].info.idx, idx, data)
    requires k < |t| ==> Matches(t[k].info.data16, t[k].info.idx, idx, data)
    ensures FirstMatch(t, v, idx, data) == k
    ensures found == null ==> FindStep(t, v, idx, data) == Reversed(t)
    ensures found != null ==> k < |t| && found == t[k] && FindStep(t, v, idx, data) == Moved(Reversed(t), |t| - 1 - k)
  {
    hide Matches, FirstMatch, Shows, Inside, Reversed, Moved;
    MatchAt(t, v, idx, data, k, nodes);
  }

  lemma MatchAt(t: seq<ListHead>, v: View, idx: Index, data: Data16, k: nat, nodes: set<ListHead>)
    requires Inside(t, nodes) && Shows(v, nodes) && k <= |t|
    requires forall i :: 0 <= i < k ==> !Matches(t[i].info.data16, t[i].info.idx, idx, data)
    requires k < |t| ==> Matches(t[k].info.data16, t[k].info.idx, idx, data)
    ensures FirstMatch(t, v, idx, data) == k
  {
    hide Matches;
    forall i | 0 <= i < k ensures !MatchesIn(v, t[i], idx, data) {
      assert t[i] in nodes;
    }
    if k < |t| {
      assert t[k] in nodes;
    }
    FirstMatchIs(t, v, idx, data, k);
  }

  /** The score of a find, from the nodes in the heap. */
  lemma ScoreAt(t: seq<ListHead>, v: View, idx: Index, data: Data16, k: nat, nodes: set<ListHead>)
    requires |t| >= 2 && Inside(t, nodes) && Shows(v, nodes) && FirstMatch(t, v, idx, data) == k
    ensures FindHits(t, v, idx, data) == (k < |t|)
    ensures k == |t| ==> FindBit(t, v, idx, data) == High(t[|t| - 2].info.data16) % 2
    ensures k < |t| ==>
      var d := t[k].info.data16;
      FindBit(t, v, idx, data) == if d % 2 == 1 then (High(d) / 2) % 2 else 0
  {
    hide FirstMatch, High;
    assert t[|t| - 2] in nodes && (k < |t| ==> t[k] in nodes);
  }

  lemma ChainTwo(h: ListHead?, s: seq<ListHead>)
    requires Chain(h, s) && |s| >= 2
    ensures h == s[0] && h.next == s[1]
  {
  }

  lemma PermutationInside(s: seq<ListHead>, t: seq<ListHead>, nodes: set<ListHead>)
    requires Permutation(s, t) && Inside(s, nodes)
    ensures Inside(t, nodes) && |t| == |s|
  {
    SameNodes(s, t);
    forall i | 0 <= i < |t| ensures t[i] in nodes {
      assert t[i] in s;
    }
  }

  lemma SameNodes(s: seq<ListHead>, t: seq<ListHead>)
    requires Permutation(s, t)
    ensures forall n :: n in s <==> n in t
  {
    forall n ensures n in s <==> n in t {
      assert n in s <==> n in multiset(s);
      assert n in t <==> n in multiset(t);
    }
  }

  // ---- The order by index ------------------------------------------------------------

  ghost function IndexKeys(v: View): Keys {
    map n | n in v :: v[n].1
  }

  ghost predicate IndexSorted(s: seq<ListHead>, v: View) {
    && (forall i :: 0 <= i < |s| ==> s[i] in v)
    && forall i, j :: 0 <= i < j < |s| ==> v[s[i]].1 <= v[s[j]].1
  }

  ghost predicate DistinctIndices(s: seq<ListHead>, v: View) {
    && (forall i :: 0 <= i < |s| ==> s[i] in v)
    && forall i, j :: 0 <= i < j < |s| ==> v[s[i]].1 != v[s[j]].1
  }

  /** Sorted by index, equal indices by `vals`, and equal values by their place in `f`. */
  ghost predicate FinalOrder(r: seq<ListHead>, v: View, vals: Keys, f: seq<ListHead>)
    requires NoDup(f)
  {
    && (forall i :: 0 <= i < |r| ==> r[i] in v)
    && forall i, j :: 0 <= i < j < |r| ==>
         v[r[i]].1 < v[r[j]].1 || (v[r[i]].1 == v[r[j]].1 && Before(vals, PositionsOf(f), r[i], r[j]))
  }

  lemma SameHeads(s: seq<ListHead>, t: seq<ListHead>, val: Keys, pos: Positions)
    requires s != [] && t != [] && Ordered(s, val, pos) && Ordered(t, val, pos) && multiset(s) == multiset(t)
    ensures s[0] == t[0]
  {
    assert s[0] in multiset(t) && t[0] in multiset(s);
    var i :| 0 <= i < |t| && t[i] == s[0];
    var j :| 0 <= j < |s| && s[j] == t[0];
    assert i > 0 ==> Before(val, pos, t[0], t[i]);
    assert j > 0 ==> Before(val, pos, s[0], s[j]);
  }

  lemma TailMultiset(s: seq<ListHead>)
    requires s != []
    ensures multiset(s[1..]) == multiset(s) - multiset{s[0]}
  {
    assert s == [s[0]] + s[1..];
  }

  /** A strict order has only one sorted arrangement of the same nodes. */
  lemma {:induction false} OrderedUnique(s: seq<ListHead>, t: seq<ListHead>, val: Keys, pos: Positions)
    requires Ordered(s, val, pos) && Ordered(t, val, pos) && Permutation(s, t)
    ensures s == t
    decreases |s|
  {
    if s != [] {
      hide Before;
      SameHeads(s, t, val, pos);
      TailMultiset(s);
      TailMultiset(t);
      OrderedUnique(s[1..], t[1..], val, pos);
      assert s == [s[0]] + s[1..] && t == [t[0]] + t[1..];
    }
  }

  /** A node's place in a list is one that holds it. */
  lemma PlaceOf(u: seq<ListHead>, n: ListHead) returns (i: nat)
    requires NoDup(u) && n in u
    ensures i < |u| && u[i] == n && n in PositionsOf(u) && PositionsOf(u)[n] == i
  {
    i := IndexOf(u, n);
  }

  /** Two nodes stand in `u` in the order that `u` is sorted by. */
  lemma PlacesFollowOrder(u: seq<ListHead>, vals: Keys, pos: Positions, a: ListHead, b: ListHead)
    requires NoDup(u) && Ordered(u, vals, pos) && a in u && b in u && a != b
    ensures a in PositionsOf(u) && b in PositionsOf(u)
    ensures PositionsOf(u)[a] < PositionsOf(u)[b] <==> Before(vals, pos, a, b)
  {
    var x := PlaceOf(u, a);
    var y := PlaceOf(u, b);
    if x < y {
      assert Before(vals, pos, u[x], u[y]);
    } else {
      assert Before(vals, pos, u[y], u[x]);
    }
  }

  /** Sorting stably by value and then stably by index is sorting by index, then value, then place. */
  lemma FinalOrderIff(r: seq<ListHead>, f: seq<ListHead>, u: seq<ListHead>, v: View, vals: Keys)
    requires NoDup(f) && NoDup(u) && NoDup(r) && Ordered(u, vals, PositionsOf(f))
    requires forall i :: 0 <= i < |r| ==> r[i] in u && r[i] in v
    ensures FinalOrder(r, v, vals, f) <==> Ordered(r, IndexKeys(v), PositionsOf(u))
  {
    var pos := PositionsOf(u);
    forall i, j | 0 <= i < j < |r|
      ensures Before(IndexKeys(v), pos, r[i], r[j]) <==>
        v[r[i]].1 < v[r[j]].1 || (v[r[i]].1 == v[r[j]].1 && Before(vals, PositionsOf(f), r[i], r[j]))
    {
      PlacesFollowOrder(u, vals, PositionsOf(f), r[i], r[j]);
    }
  }

  /** The last sort gives back `s` exactly when `s` was already in the order it ends in. */
  lemma RestoredIff(s: seq<ListHead>, f: seq<ListHead>, u: seq<ListHead>, t: seq<ListHead>, v: View, vals: Keys)
    requires NoDup(s) && NoDup(f) && NoDup(u) && NoDup(t) && Permutation(s, u) && Permutation(u, t)
    requires forall n :: n in s ==> n in v
    requires Ordered(u, vals, PositionsOf(f)) && Ordered(t, IndexKeys(v), PositionsOf(u))
    ensures FinalOrder(t, v, vals, f)
    ensures t == s <==> FinalOrder(s, v, vals, f)
  {
    hide FinalOrder, NoDup, Ordered, Permutation, IndexKeys;
    SameNodes(s, u);
    PermutationTrans(s, u, t);
    SameNodes(s, t);
    assert forall i :: 0 <= i < |s| ==> s[i] in s;
    assert forall i :: 0 <= i < |t| ==> t[i] in t;
    FinalOrderIff(s, f, u, v, vals);
    FinalOrderIff(t, f, u, v, vals);
    if FinalOrder(s, v, vals, f) {
      OrderedUnique(s, t, IndexKeys(v), PositionsOf(u));
    }
  }

  /** Distinct indices in order need no other key. */
  lemma DistinctInOrder(s: seq<ListHead>, v: View, vals: Keys, f: seq<ListHead>)
    requires NoDup(f) && IndexSorted(s, v) && DistinctIndices(s, v)
    ensures FinalOrder(s, v, vals, f)
  {
  }

  /** The value `cmp_complex` sorts by stands in the word already. */
  predicate Plain(d: Data16) {
    Cached(d) || Flag(d) >= 2
  }

  /**
    What the list is sorted by between the finds and the last sort: nothing for a
    finder index up to 0; otherwise the seven-bit values of `calc_func`, which for
    plain words stand in the words.
  */
  ghost predicate ValuesAre(vals: Keys, s: seq<ListHead>, v: View, finderIdx: Index) {
    forall n :: n in s ==>
      && n in vals && n in v
      && (finderIdx <= 0 ==> vals[n] == 0)
      && (finderIdx > 0 ==> 0 <= vals[n] < 128 && (Plain(v[n].0) ==> vals[n] == Value(v[n].0)))
  }

  /** The values as far as the words of `v` tell them. */
  ghost function WordValues(v: View, finderIdx: Index): Keys {
    map n | n in v :: if finderIdx > 0 then Value(v[n].0) else 0
  }

  /** Every node that shares its index with another has a plain word. */
  ghost predicate TiesPlain(s: seq<ListHead>, v: View) {
    forall i, j :: 0 <= i < |s| && 0 <= j < |s| && i != j && s[i] in v && s[j] in v && v[s[i]].1 == v[s[j]].1 ==>
      Plain(v[s[i]].0)
  }

  /** Where ties are plain, or no value is used, the condition is one on the list before the call. */
  lemma PlainTies(s: seq<ListHead>, v: View, vals: Keys, f: seq<ListHead>, finderIdx: Index)
    requires NoDup(f) && ValuesAre(vals, s, v, finderIdx) && (finderIdx > 0 ==> TiesPlain(s, v))
    ensures FinalOrder(s, v, vals, f) <==> FinalOrder(s, v, WordValues(v, finderIdx), f)
  {
    hide Plain, Value, NoDup;
    var words := WordValues(v, finderIdx);
    forall i, j | 0 <= i < j < |s| && v[s[i]].1 == v[s[j]].1
      ensures Before(vals, PositionsOf(f), s[i], s[j]) <==> Before(words, PositionsOf(f), s[i], s[j])
    {
      assert s[i] in s && s[j] in s;
      assert vals[s[i]] == words[s[i]] && vals[s[j]] == words[s[j]];
    }
  }

  /** The words after the sort by value. */
  ghost function AfterValues(v: View, vals: Keys, finderIdx: Index): View {
    if finderIdx <= 0 then v
    else map n | n in v :: if n in vals then (256 * High(v[n].0) + 128 + vals[n] % 128, v[n].1) else v[n]
  }

  // ---- The benchmark -----------------------------------------------------------------


  /** `crc16` of the same word, `n` times over. */
  function CrcRepeat(n: nat, d: Data16, c: bv16): bv16 {
    if n == 0 then c else CrcRepeat(n - 1, d, CrcWord(d, c))
  }

  /** The loops of `core_bench_list` that walk from `finder`, each turn adding the head's data. */
  method CrcWalk(list: ListHead, finder0: ListHead?, crc0: bv16, ghost s: seq<ListHead>, ghost k: nat)
    returns (crc: bv16)
    requires Chain(list, s) && k <= |s| && finder0 == At(s, k)
    ensures crc == CrcRepeat(|s| - k, list.info.data16, crc0)
  {
    hide CrcWord;
    var finder := finder0;
    crc := crc0;
    ghost var i := k;
    while finder != null
      invariant k <= i <= |s| && finder == At(s, i)
      invariant CrcRepeat(|s| - i, list.info.data16, crc) == CrcRepeat(|s| - k, list.info.data16, crc0)
      decreases |s| - i
    {
      crc := Crc16Word(list.info.data16, crc);
      finder := finder.next;
      i := i + 1;
    }
  }

  method Crc16Word(d: Data16, c: bv16) returns (crc: bv16)
    ensures crc == CrcWord(d, c)
  {
    crc := Crc.Crc16(d as bv16, c);
  }

  type Infos = map<ListHead, ListData>

  ghost function InfosOf(s: seq<ListHead>): Infos
    reads s`info
  {
    map n | n in s :: n.info
  }

  /** The info pointers of the nodes are those in `infos`. */
  ghost predicate InfosAre(nodes: set<ListHead>, infos: Infos)
    reads nodes`info
  {
    forall n :: n in nodes ==> n in infos && n.info == infos[n]
  }

  ghost function ItemsOf(nodes: set<ListHead>, infos: Infos): set<ListData> {
    set n | n in nodes && n in infos :: infos[n]
  }

  lemma ItemsAre(s: seq<ListHead>, nodes: set<ListHead>, infos: Infos)
    requires nodes == (set n | n in s) && InfosAre(nodes, infos)
    ensures MergeSort.Infos(s) == ItemsOf(nodes, infos)
  {
    forall d | d in ItemsOf(nodes, infos) ensures d in MergeSort.Infos(s) {
      var n :| n in nodes && n in infos && infos[n] == d;
      var i :| 0 <= i < |s| && s[i] == n;
    }
    forall d | d in MergeSort.Infos(s) ensures d in ItemsOf(nodes, infos) {
      var i :| 0 <= i < |s| && s[i].info == d;
      assert s[i] in nodes;
    }
  }

  /** The words of the nodes are those of `v`. */
  ghost predicate WordsAre(nodes: set<ListHead>, infos: Infos, v: View)
    reads ItemsOf(nodes, infos)`data16
  {
    forall n :: n in nodes && n in infos ==> infos[n] in ItemsOf(nodes, infos) && n in v && v[n].0 == infos[n].data16
  }

  /**
    The checksum between removing the third node and putting it back.  The second
    node then holds the third one's item, and the walk starts at the first match,
    or at the second node when there is none.
  */
  function RemovedCrc(u: seq<ListHead>, v: View, idx: Index, data: Data16, crc: bv16): bv16
    requires |u| >= 3 && forall i :: 0 <= i < |u| ==> u[i] in v
  {
    WalkCrc(u[..2] + u[3..], v[u[1] := v[u[2]]], idx, data, v[u[0]].0, crc)
  }

  /** The word `d` once per node of `w` from the first match on. */
  function WalkCrc(w: seq<ListHead>, v: View, idx: Index, data: Data16, d: Data16, crc: bv16): bv16 {
    var k := FirstMatch(w, v, idx, data);
    CrcRepeat(if k < |w| then |w| - k else if w == [] then 0 else |w| - 1, d, crc)
  }

  method WalkFrom(list: ListHead, idx: Index, data: Data16, crc0: bv16, ghost w: seq<ListHead>, ghost v: View,
                  ghost nodes: set<ListHead>)
    returns (crc: bv16)
    requires |w| >= 2 && Chain(list, w) && Inside(w, nodes) && Shows(v, nodes)
    ensures crc == WalkCrc(w, v, idx, data, list.info.data16, crc0)
  {
    hide Chain, Matches, CrcRepeat, FirstMatch, Inside, Shows;
    ghost var k;
    var finder;
    finder, k := Find(list, idx, data, w);
    MatchAt(w, v, idx, data, k, nodes);
    ChainTwo(list, w);
    if finder == null {
      finder, k := list.next, 1;
    }
    crc := CrcWalk(list, finder, crc0, w, k);
  }

  /** Remove an item, add data to the checksum, and undo: the list and its items are as before. */
  method RemovePhase(list: ListHead, idx: Index, data: Data16, crc0: bv16, ghost s: seq<ListHead>,
                     ghost u: seq<ListHead>, ghost v: View, ghost nodes: set<ListHead>, ghost infos: Infos)
    returns (crc: bv16)
    requires |s| >= 3 && Chain(list, u) && NoDup(u) && Permutation(s, u) && nodes == (set n | n in s)
    requires InfosAre(nodes, infos) && IdxAre(nodes, infos, v) && WordsAre(nodes, infos, v)
    modifies nodes`next, nodes`info
    ensures Chain(list, u) && InfosAre(nodes, infos)
    ensures |u| >= 3 && (forall i :: 0 <= i < |u| ==> u[i] in v) && crc == RemovedCrc(u, v, idx, data, crc0)
  {
    hide NoDup, Chain, Permutation, WalkCrc, ItemsOf, Shows;
    InPlace(s, u);
    assert forall i :: 0 <= i < |u| ==> u[i] in nodes;
    DistinctAt(u, 0, 1);
    DistinctAt(u, 0, 2);
    DistinctAt(u, 1, 2);
    ghost var w := u[..2] + u[3..];
    NoDupWithout(u, 2);
    assert w[..2] + [u[2]] + w[2..] == u;
    ChainTwo(list, u);
    var remover := Remove(list.next, list, u, 1);
    ChainTwo(list, w);
    RemovedShows(u, w, v, nodes, infos);
    crc := WalkFrom(list, idx, data, crc0, w, v[u[1] := v[u[2]]], nodes - {u[2]});
    UndoRemove(remover, list.next, list, w, 1);
  }

  /** After the removal the second node shows the third one's item. */
  lemma RemovedShows(u: seq<ListHead>, w: seq<ListHead>, v: View, nodes: set<ListHead>, infos: Infos)
    requires |u| >= 3 && NoDup(u) && w == u[..2] + u[3..] && nodes == set n | n in u
    requires forall n :: n in nodes ==> n in infos
    requires IdxAre(nodes, infos, v) && WordsAre(nodes, infos, v)
    requires forall n :: n in nodes && n != u[1] && n != u[2] ==> n.info == infos[n]
    requires u[1].info == infos[u[2]]
    ensures Shows(v[u[1] := v[u[2]]], nodes - {u[2]}) && Inside(w, nodes - {u[2]})
  {
    hide ItemsOf;
    assert u[1] in nodes && u[2] in nodes;
    assert forall i :: 0 <= i < |w| ==> w[i] == u[if i < 2 then i else i + 1];
  }

  lemma DistinctAt(u: seq<ListHead>, i: nat, j: nat)
    requires NoDup(u) && i < j < |u|
    ensures u[i] != u[j]
  {
  }

  lemma NoDupWithout(u: seq<ListHead>, k: nat)
    requires NoDup(u) && k < |u|
    ensures NoDup(u[..k] + u[k + 1..] + [u[k]])
  {
    var t := u[..k] + u[k + 1..] + [u[k]];
    assert forall x :: 0 <= x < k ==> t[x] == u[x];
    assert forall x :: k <= x < |u| - 1 ==> t[x] == u[x + 1];
    assert t[|u| - 1] == u[k];
  }

  ghost predicate Backed(was: Data) {
    forall d :: d in was ==> Low(was[d]) == High(was[d])
  }

  ghost predicate HighKept(was: Data)
    reads was.Keys`data16
  {
    forall d :: d in was ==> High(d.data16) == High(was[d])
  }

  ghost predicate SameHigh(was0: Data, was: Data) {
    was0.Keys == was.Keys && forall d :: d in was0 ==> High(was[d]) == High(was0[d])
  }

  lemma HighNow(u: seq<ListHead>, was0: Data, was: Data)
    requires HighKept(was0) && was == DataOf(u) && was0.Keys == was.Keys
    ensures SameHigh(was0, was)
  {
    hide High;
  }

  lemma EvolvedHigh(cmp: Cmp, regen: bool, was0: Data, was: Data)
    requires DataEvolved(cmp, regen, was) && SameHigh(was0, was)
    ensures HighKept(was0)
  {
    hide Evolved, High;
    forall d | d in was0 ensures High(d.data16) == High(was0[d]) {
      EvolvedKeepsHigh(cmp, regen, was[d], d.data16);
    }
  }

  /**
    `core_bench_list`.  `vals` are the values of the sort by data, `u` is the order
    of the list before the last sort and `t` the order it ends in.
  */
  method Bench(res: CoreResults, finderIdx: Index, ghost s: seq<ListHead>)
    returns (retval: bv16, ghost vals: Keys, ghost u: seq<ListHead>, ghost t: seq<ListHead>)
    requires |s| >= 3 && Chain(res.list, s) && NoDup(s)
    modifies (set n | n in s)`next, (set n | n in s)`info, MergeSort.Infos(s)`data16, res`crc, res`crcstate,
      res`crcmatrix
    ensures Permutation(s, t) && |t| == |s| && Chain(t[0], t)
    ensures InfosAre((set n | n in s), old(InfosOf(s)))
    ensures HighKept(old(DataOf(s))) && forall d :: d in old(DataOf(s)) ==> Low(d.data16) == High(d.data16)
    ensures Backed(old(DataOf(s))) ==> forall d :: d in old(DataOf(s)) ==> d.data16 == old(DataOf(s))[d]
    ensures ValuesAre(vals, s, old(ViewOf(s)), finderIdx)
    ensures Outcome(s, old(ViewOf(s)), res.seed3, finderIdx, vals, u, t)
    ensures finderIdx <= 0 || TiesPlain(s, old(ViewOf(s))) ==>
      var f := FindOrder(s, old(ViewOf(s)), res.seed3, finderIdx);
      NoDup(f) && (t == s <==> FinalOrder(s, old(ViewOf(s)), WordValues(old(ViewOf(s)), finderIdx), f))
    ensures IndexSorted(s, old(ViewOf(s))) && DistinctIndices(s, old(ViewOf(s))) ==> t == s && Chain(res.list, s)
    ensures (forall n :: n in s ==> n in old(ViewOf(s)))
      && retval == BenchCrc(s, old(ViewOf(s)), res.seed3, finderIdx, vals, u, t)
  {
    hide Chain, NoDup, Permutation, FindOrder, IndexSorted, DistinctIndices, Low, High, InfosAre, WordsAre,
      IdxAre, ItemsOf, FinalOrder, ValuesAre, TiesPlain, BenchCrc, WordValues;
    ghost var v, was, nodes, infos := ViewOf(s), DataOf(s), (set n | n in s), InfosOf(s);
    BenchStart(s, v, was, nodes, infos);
    ChainTwo(res.list, s);
    retval, vals, u, t := BenchPhases(res, finderIdx, s, v, was, nodes, infos);
    ghost var f := FindOrder(s, v, res.seed3, finderIdx);
    if finderIdx <= 0 || TiesPlain(s, v) {
      PlainTies(s, v, vals, f, finderIdx);
    }
    if IndexSorted(s, v) && DistinctIndices(s, v) {
      DistinctInOrder(s, v, vals, f);
    }
    forall d | d in was && Low(was[d]) == High(was[d]) ensures d.data16 == was[d] {
      SameBytes(d.data16, was[d]);
    }
  }

  /**
    `u` is the order of the finds sorted stably by value and `t` sorts `u` stably
    by index.  The list is back exactly when it was in that order.
  */
  ghost predicate Outcome(
    s: seq<ListHead>, v: View, seed3: Index, finderIdx: Index, vals: Keys, u: seq<ListHead>, t: seq<ListHead>)
  {
    var f := FindOrder(s, v, seed3, finderIdx);
    && NoDup(f) && Permutation(s, f) && Permutation(s, u) && Permutation(s, t)
    && Ordered(u, vals, PositionsOf(f))
    && FinalOrder(t, v, vals, f)
    && (t == s <==> FinalOrder(s, v, vals, f))
  }

  /** The checksum: the finds, the list without its third node, and the sorted list. */
  ghost function BenchCrc(
    s: seq<ListHead>, v: View, seed3: Index, finderIdx: Index, vals: Keys, u: seq<ListHead>, t: seq<ListHead>): bv16
    requires |s| >= 3 && Permutation(s, u) && Permutation(s, t) && forall n :: n in s ==> n in v
  {
    SameNodes(s, u);
    SameNodes(s, t);
    AfterNodes(s, v, vals, finderIdx);
    assert t[0] in s && forall i :: 0 <= i < |u| ==> u[i] in s;
    var found := Crc.HalfOf(FindSum(s, v, seed3, finderIdx));
    var removed := RemovedCrc(u, AfterValues(v, vals, finderIdx), KeyAt(finderIdx, Finds(seed3)),
      LastData(seed3), found);
    CrcRepeat(|s| - 1, Regenerated(v[t[0]].0), removed)
  }

  lemma AfterNodes(s: seq<ListHead>, v: View, vals: Keys, finderIdx: Index)
    requires forall n :: n in s ==> n in v
    ensures forall n :: n in s ==> n in AfterValues(v, vals, finderIdx)
  {
  }

  lemma SameBytes(d: Data16, e: Data16)
    requires High(d) == High(e) && Low(d) == Low(e)
    ensures d == e
  {
  }

  /**
    Equal indices are not always restored.  Both finder indices the program uses
    miss in a list with indices 0, 5, 5 whose low bytes are not 0: one find leaves
    it reversed, and equal words keep the last two nodes exchanged.
  */
  lemma TiedIndicesExchanged(a: ListHead, b: ListHead, c: ListHead, x: Data16, y: Data16, finderIdx: Index, vals: Keys)
    requires a != b && b != c && a != c && (finderIdx == 1 || finderIdx == -1)
    requires Low(x) != 0 && Low(y) != 0 && Plain(y)
    requires ValuesAre(vals, [a, b, c], TiedView(a, b, c, x, y), finderIdx)
    ensures var s, v := [a, b, c], TiedView(a, b, c, x, y);
            var f := FindOrder(s, v, 1, finderIdx);
            IndexSorted(s, v) && NoDup(f) && !FinalOrder(s, v, vals, f) && FinalOrder([a, c, b], v, vals, f)
  {
    hide Plain, Value, Low, FinalOrder, NoDup, TiedView;
    var s: seq<ListHead>, v: View := [a, b, c], TiedView(a, b, c, x, y);
    OneMiss(a, b, c, v, finderIdx);
    assert a in s && b in s && c in s;
    ReversedTies(a, b, c, v, vals);
  }

  /** Indices 0, 5, 5 with words x, y, y. */
  function TiedView(a: ListHead, b: ListHead, c: ListHead, x: Data16, y: Data16): (v: View)
    ensures a != b && b != c && a != c ==>
      a in v && b in v && c in v && v[a] == (x, 0) && v[b] == (y, 5) && v[c] == (y, 5)
  {
    map[a := (x, 0), b := (y, 5), c := (y, 5)]
  }

  /** A find that misses reverses the list. */
  lemma OneMiss(a: ListHead, b: ListHead, c: ListHead, v: View, finderIdx: Index)
    requires !MatchesIn(v, a, finderIdx, 0) && !MatchesIn(v, b, finderIdx, 0) && !MatchesIn(v, c, finderIdx, 0)
    ensures FindOrder([a, b, c], v, 1, finderIdx) == [c, b, a]
  {
    hide MatchesIn, FindStep;
    var s: seq<ListHead> := [a, b, c];
    NoneMatches(s, v, finderIdx);
    assert Reversed(s) == [c, b, a];
    assert FindOrder(s, v, 0, finderIdx) == s && KeyAt(finderIdx, 0) == finderIdx;
  }

  lemma ReversedTies(a: ListHead, b: ListHead, c: ListHead, v: View, vals: Keys)
    requires a != b && b != c && a != c && a in v && b in v && c in v && v[a].1 < v[b].1 == v[c].1
    requires b in vals && c in vals && vals[b] == vals[c]
    ensures NoDup([c, b, a]) && !FinalOrder([a, b, c], v, vals, [c, b, a]) && FinalOrder([a, c, b], v, vals, [c, b, a])
  {
    var f: seq<ListHead>, s: seq<ListHead>, r: seq<ListHead> := [c, b, a], [a, b, c], [a, c, b];
    var pos := PositionsOf(f);
    assert pos[f[0]] == 0 && pos[f[1]] == 1;
    assert !Before(vals, pos, s[1], s[2]) && Before(vals, pos, r[1], r[2]);
  }

  lemma NoneMatches(s: seq<ListHead>, v: View, finderIdx: Index)
    requires forall i :: 0 <= i < |s| ==> !MatchesIn(v, s[i], finderIdx, 0)
    ensures FindStep(s, v, finderIdx, 0) == Reversed(s)
  {
    FirstMatchIs(s, v, finderIdx, 0, |s|);
  }

  method BenchPhases(res: CoreResults, finderIdx: Index, ghost s: seq<ListHead>, ghost v: View, ghost was: Data,
                     ghost nodes: set<ListHead>, ghost infos: Infos)
    returns (retval: bv16, ghost vals: Keys, ghost u: seq<ListHead>, ghost t: seq<ListHead>)
    requires |s| >= 3 && Chain(res.list, s) && NoDup(s) && v == ViewOf(s) && nodes == set n | n in s
    requires InfosAre(nodes, infos) && IdxAre(nodes, infos, v) && WordsAre(nodes, infos, v)
    requires was.Keys == ItemsOf(nodes, infos) && HighKept(was) && WordsWere(nodes, infos, v, was)
    requires forall n :: n in s ==> n in v
    modifies nodes`next, nodes`info, was.Keys`data16, res`crc, res`crcstate, res`crcmatrix
    ensures Permutation(s, t) && |t| == |s| && Chain(t[0], t) && InfosAre(nodes, infos)
    ensures HighKept(was) && forall d :: d in was ==> Low(d.data16) == High(d.data16)
    ensures ValuesAre(vals, s, v, finderIdx) && Outcome(s, v, res.seed3, finderIdx, vals, u, t)
    ensures retval == BenchCrc(s, v, res.seed3, finderIdx, vals, u, t)
  {
    hide Chain, NoDup, Permutation, FindOrder, DataEvolved, CrcRepeat, HighKept, Evolved, Settled, ValuesAre,
      FinalOrder, Low, High, StablySorted, Ordered, IndexKeys, InfosAre, IdxAre, ItemsOf, WordsAre, ViewOf, Crc.HalfOf,
      RemovedCrc, AfterValues, KeyAt, LastData, FindSum, Regenerated;
    var list, idx, data, sum;
    ghost var f;
    list, idx, data, sum, f := FindPhase(res.list, res.seed3, finderIdx, s, nodes);
    list, u, vals := ComplexPhase(list, finderIdx, res, s, f, v, nodes, infos, was);
    var crc := RemovePhase(list, idx, data, Crc.HalfOf(sum), s, u, AfterValues(v, vals, finderIdx), nodes, infos);
    retval, t := LastPhase(list, crc, s, u, v, nodes, infos, was);
    PermutationTrans(s, u, t);
    RestoredIff(s, f, u, t, v, vals);
  }

  /** The sort by index and the last checksum. */
  method LastPhase(list0: ListHead, crc: bv16, ghost s: seq<ListHead>, ghost u: seq<ListHead>, ghost v: View,
                   ghost nodes: set<ListHead>, ghost infos: Infos, ghost was: Data)
    returns (retval: bv16, ghost t: seq<ListHead>)
    requires |s| >= 2 && Chain(list0, u) && NoDup(u) && Permutation(s, u) && nodes == set n | n in s
    requires InfosAre(nodes, infos) && IdxAre(nodes, infos, v) && was.Keys == ItemsOf(nodes, infos) && HighKept(was)
    requires WordsWere(nodes, infos, v, was)
    modifies nodes`next, was.Keys`data16
    ensures NoDup(t) && Permutation(u, t) && |t| == |s| && Chain(t[0], t)
    ensures HighKept(was) && forall d :: d in was ==> Low(d.data16) == High(d.data16)
    ensures Ordered(t, IndexKeys(v), PositionsOf(u))
    ensures t[0] in v && retval == CrcRepeat(|s| - 1, Regenerated(v[t[0]].0), crc)
  {
    hide Chain, NoDup, Permutation, CrcRepeat, HighKept, Low, High, StablySorted, Ordered, IndexKeys, Regenerated,
      InfosAre, IdxAre, ItemsOf, WordsWere;
    PermutationRefl(u);
    PermutationTrans(s, u, u);
    var list;
    list, t := IndexPhase(list0, s, u, nodes, infos, was);
    PermutationTrans(s, u, t);
    BenchEnd(s, u, t, v, nodes, infos);
    ChainTwo(list, t);
    LastWord(s, t, v, nodes, infos, was);
    retval := CrcWalk(list, list.next, crc, t, 1);
  }

  /** The first words were those of `v`. */
  ghost predicate WordsWere(nodes: set<ListHead>, infos: Infos, v: View, was: Data) {
    forall n :: n in nodes && n in infos ==> n in v && infos[n] in was && was[infos[n]] == v[n].0
  }

  lemma LastWord(s: seq<ListHead>, t: seq<ListHead>, v: View, nodes: set<ListHead>, infos: Infos, was: Data)
    requires t != [] && Permutation(s, t) && nodes == (set n | n in s) && InfosAre(nodes, infos)
    requires WordsWere(nodes, infos, v, was) && HighKept(was)
    requires forall d :: d in was ==> Low(d.data16) == High(d.data16)
    ensures t[0] in v && t[0].info.data16 == Regenerated(v[t[0]].0)
  {
    SameNodes(s, t);
    assert t[0] in t;
    assert t[0] in nodes;
  }

  /** The indices in the items are those of `v`. */
  ghost predicate IdxAre(nodes: set<ListHead>, infos: Infos, v: View)
    reads ItemsOf(nodes, infos)`idx
  {
    forall n :: n in nodes && n in infos ==> infos[n] in ItemsOf(nodes, infos) && n in v && v[n].1 == infos[n].idx
  }

  lemma BenchStart(s: seq<ListHead>, v: View, was: Data, nodes: set<ListHead>, infos: Infos)
    requires v == ViewOf(s) && was == DataOf(s) && nodes == (set n | n in s) && infos == InfosOf(s)
    ensures InfosAre(nodes, infos) && IdxAre(nodes, infos, v) && WordsAre(nodes, infos, v) && HighKept(was)
    ensures was.Keys == ItemsOf(nodes, infos) == MergeSort.Infos(s) && WordsWere(nodes, infos, v, was)
  {
    assert InfosAre(nodes, infos);
    ItemsAre(s, nodes, infos);
  }

  lemma BenchEnd(s: seq<ListHead>, u: seq<ListHead>, t: seq<ListHead>, v: View, nodes: set<ListHead>, infos: Infos)
    requires NoDup(u) && Permutation(s, t) && nodes == (set n | n in s)
    requires InfosAre(nodes, infos) && IdxAre(nodes, infos, v) && StablySorted(CmpIdx, u, t)
    ensures Ordered(t, IndexKeys(v), PositionsOf(u))
  {
    hide NoDup, StablySorted, Ordered, IndexKeys;
    SameNodes(s, t);
    assert forall i :: 0 <= i < |t| ==> t[i] in s && t[i] in nodes;
    SortedByIndex(u, t, v);
  }

  /** A permutation has the same nodes and items. */
  lemma InPlace(s: seq<ListHead>, t: seq<ListHead>)
    requires Permutation(s, t)
    ensures (set n | n in s) == (set n | n in t) && MergeSort.Infos(s) == MergeSort.Infos(t) && |s| == |t|
  {
    SameNodes(s, t);
    InfosWithin(s, t);
    InfosWithin(t, s);
  }

  lemma InfosWithin(s: seq<ListHead>, t: seq<ListHead>)
    requires forall n :: n in s ==> n in t
    ensures MergeSort.Infos(s) <= MergeSort.Infos(t)
  {
    forall d | d in MergeSort.Infos(s) ensures d in MergeSort.Infos(t) {
      var i :| 0 <= i < |s| && s[i].info == d;
      assert s[i] in t;
      var j :| 0 <= j < |t| && t[j] == s[i];
    }
  }

  /** Sorts by data content when a positive index is searched for. */
  method ComplexPhase(list0: ListHead, finderIdx: Index, res: CoreResults, ghost s: seq<ListHead>,
                      ghost f: seq<ListHead>, ghost v: View, ghost nodes: set<ListHead>, ghost infos: Infos,
                        ghost was: Data)
    returns (list: ListHead, ghost u: seq<ListHead>, ghost vals: Keys)
    requires |f| > 1 && Chain(list0, f) && NoDup(f) && Permutation(s, f) && nodes == set n | n in s
    requires InfosAre(nodes, infos) && IdxAre(nodes, infos, v) && WordsAre(nodes, infos, v)
    requires was.Keys == ItemsOf(nodes, infos) && HighKept(was)
    modifies nodes`next, was.Keys`data16, res`crc, res`crcstate, res`crcmatrix
    ensures Chain(list, u) && NoDup(u) && Permutation(s, u) && HighKept(was)
    ensures ValuesAre(vals, s, v, finderIdx) && Ordered(u, vals, PositionsOf(f))
    ensures var w := AfterValues(v, vals, finderIdx); IdxAre(nodes, infos, w) && WordsAre(nodes, infos, w)
  {
    hide Chain, NoDup, Permutation, StablySorted, DataEvolved, Evolved, Settled, High, InfosAre, ItemsOf, IdxAre,
      WordsAre, ValuesAre, Ordered, AfterValues, ValuesNow, NoValues, WordsWere, HighKept, SameHigh;
    list, u := list0, f;
    if finderIdx > 0 {
      InPlace(s, f);
      ItemsAre(f, nodes, infos);
      ghost var log, was1 := [], DataOf(f);
      WordsNow(f, v, nodes, infos, was1);
      HighNow(f, was, was1);
      list, u, log := Sort(list0, CmpComplex, res, f, nodes);
      PermutationTrans(s, f, u);
      EvolvedHigh(CmpComplex, false, was, was1);
      vals := ValuesNow(nodes, infos);
      SortedByValue(f, u, vals, nodes, infos);
      SettledWords(s, v, vals, nodes, infos, was1, finderIdx);
    } else {
      vals := NoValues(nodes);
      NotSorted(s, f, v, vals, nodes, infos, finderIdx);
    }
  }

  /** Sorts by index and rebuilds every low byte from the upper one. */
  method IndexPhase(list0: ListHead, ghost s: seq<ListHead>, ghost u: seq<ListHead>, ghost nodes: set<ListHead>,
                    ghost infos: Infos, ghost was: Data)
    returns (list: ListHead, ghost t: seq<ListHead>)
    requires |u| >= 2 && Chain(list0, u) && NoDup(u) && Permutation(s, u) && nodes == set n | n in s
    requires InfosAre(nodes, infos) && was.Keys == ItemsOf(nodes, infos) && HighKept(was)
    modifies nodes`next, was.Keys`data16
    ensures Chain(list, t) && NoDup(t) && Permutation(u, t) && StablySorted(CmpIdx, u, t)
    ensures HighKept(was) && forall d :: d in was ==> Low(d.data16) == High(d.data16)
  {
    hide Chain, NoDup, Permutation, StablySorted, DataEvolved, Evolved, High, Low, InfosAre, ItemsOf;
    InPlace(s, u);
    ItemsAre(u, nodes, infos);
    ghost var log, was1 := [], DataOf(u);
    HighNow(u, was, was1);
    list, t, log := Sort(list0, CmpIdx, null, u, nodes);
    EvolvedHigh(CmpIdx, true, was, was1);
    forall d | d in was ensures Low(d.data16) == High(d.data16) {
      var i :| 0 <= i < |u| && u[i].info == d;
      assert u[i] in u;
    }
  }

  lemma SortedByIndex(u: seq<ListHead>, t: seq<ListHead>, v: View)
    requires NoDup(u) && StablySorted(CmpIdx, u, t)
    requires forall i :: 0 <= i < |t| ==> t[i] in v && v[t[i]].1 == t[i].info.idx
    ensures Ordered(t, IndexKeys(v), PositionsOf(u))
  {
  }

  /** The seven-bit values now in the words. */
  ghost function ValuesNow(nodes: set<ListHead>, infos: Infos): Keys
    reads ItemsOf(nodes, infos)`data16
  {
    map n | n in nodes && n in infos :: Value(infos[n].data16)
  }

  ghost function NoValues(nodes: set<ListHead>): Keys {
    map n | n in nodes :: 0
  }

  lemma SortedByValue(f: seq<ListHead>, u: seq<ListHead>, vals: Keys, nodes: set<ListHead>, infos: Infos)
    requires NoDup(f) && Permutation(f, u) && nodes == (set n | n in f) && InfosAre(nodes, infos)
    requires StablySorted(CmpComplex, f, u)
    requires vals == ValuesNow(nodes, infos)
    ensures Ordered(u, vals, PositionsOf(f))
  {
    hide Value, NoDup;
    SameNodes(f, u);
    assert forall i :: 0 <= i < |u| ==> u[i] in u && u[i] in nodes;
  }

  lemma WordsNow(f: seq<ListHead>, v: View, nodes: set<ListHead>, infos: Infos, was: Data)
    requires nodes == (set n | n in f) && InfosAre(nodes, infos) && WordsAre(nodes, infos, v) && was == DataOf(f)
    ensures WordsWere(nodes, infos, v, was)
  {
    ItemsAre(f, nodes, infos);
  }

  lemma SettledWords(s: seq<ListHead>, v: View, vals: Keys, nodes: set<ListHead>, infos: Infos, was: Data,
      finderIdx: Index)
    requires nodes == (set n | n in s) && InfosAre(nodes, infos) && IdxAre(nodes, infos, v) && finderIdx > 0
    requires WordsWere(nodes, infos, v, was) && was.Keys == ItemsOf(nodes, infos) && DataEvolved(CmpComplex, false, was)
    requires forall n :: n in s ==> Settled(CmpComplex, false, n.info.data16)
    requires vals == ValuesNow(nodes, infos)
    ensures ValuesAre(vals, s, v, finderIdx)
    ensures var w := AfterValues(v, vals, finderIdx); IdxAre(nodes, infos, w) && WordsAre(nodes, infos, w)
  {
    hide Value, High, Cached, Computed, Plain, ItemsOf;
    forall n | n in nodes
      ensures var d := infos[n].data16;
        && n in v && infos[n] in was && vals[n] == Value(d)
        && d == 256 * High(v[n].0) + 128 + Value(d) && Value(d) % 128 == Value(d)
        && (Plain(v[n].0) ==> Value(d) == Value(v[n].0))
    {
      assert infos[n] in was;
      assert Evolved(CmpComplex, false, was[infos[n]], infos[n].data16);
      CachedWord(v[n].0, infos[n].data16);
      ValueSmall(infos[n].data16);
    }
    forall n | n in s ensures n in nodes && 0 <= vals[n] < 128 {
      assert n in nodes;
      ValueSmall(infos[n].data16);
    }
  }

  lemma ValueSmall(d: Data16)
    ensures 0 <= Value(d) < 128 && Value(d) % 128 == Value(d)
  {
  }

  /** Without the sort by value every node counts the same. */
  lemma NotSorted(s: seq<ListHead>, f: seq<ListHead>, v: View, vals: Keys, nodes: set<ListHead>, infos: Infos,
      finderIdx: Index)
    requires NoDup(f) && Permutation(s, f) && nodes == (set n | n in s) && InfosAre(nodes, infos) && finderIdx <= 0
    requires IdxAre(nodes, infos, v) && vals == NoValues(nodes)
    ensures ValuesAre(vals, s, v, finderIdx) && Ordered(f, vals, PositionsOf(f)) && AfterValues(v, vals, finderIdx) == v
  {
    hide NoDup, ItemsOf;
    SameNodes(s, f);
    assert forall i :: 0 <= i < |f| ==> f[i] in f && f[i] in nodes;
  }

  /** A word that was computed and is cached now is made of its upper byte and its value. */
  lemma CachedWord(d0: Data16, d1: Data16)
    requires Computed(d0, d1) && Cached(d1)
    ensures d1 == 256 * High(d0) + 128 + Value(d1) && (Plain(d0) ==> Value(d1) == Value(d0))
  {
    assert d1 == 256 * (d1 / 256) + 128 * ((d1 / 128) % 2) + d1 % 128;
  }

  // ---- Iterations ------------------------------------------------------------------

  /** Words, items and links are those of the start. */
  ghost predicate Unchanged(list: ListHead, s: seq<ListHead>, nodes: set<ListHead>, infos: Infos, was: Data)
    reads s`next, nodes`info, was.Keys`data16
  {
    Chain(list, s) && InfosAre(nodes, infos) && forall d :: d in was ==> d.data16 == was[d]
  }

  lemma SameView(s: seq<ListHead>, nodes: set<ListHead>, infos: Infos, v: View, was: Data)
    requires nodes == (set n | n in s) && InfosAre(nodes, infos) && was.Keys == ItemsOf(nodes, infos)
    requires WordsWere(nodes, infos, v, was) && IdxAre(nodes, infos, v) && v.Keys == nodes
    requires infos.Keys == nodes && forall d :: d in was ==> d.data16 == was[d]
    ensures ViewOf(s) == v && DataOf(s) == was && InfosOf(s) == infos && MergeSort.Infos(s) == was.Keys
  {
    ItemsAre(s, nodes, infos);
    assert DataOf(s).Keys == was.Keys;
  }

  /** The list benchmark any number of times, with any finder indices: the list is as it was. */
  method Iterate(res: CoreResults, finders: seq<Index>, ghost s: seq<ListHead>)
    requires |s| >= 3 && Chain(res.list, s) && NoDup(s) && Backed(DataOf(s))
    requires IndexSorted(s, ViewOf(s)) && DistinctIndices(s, ViewOf(s))
    modifies (set n | n in s)`next, (set n | n in s)`info, MergeSort.Infos(s)`data16, res`crc, res`crcstate,
      res`crcmatrix
    ensures Unchanged(res.list, s, (set n | n in s), old(InfosOf(s)), old(DataOf(s)))
  {
    hide Chain, NoDup, IndexSorted, DistinctIndices, InfosAre, ItemsOf, Backed, IdxAre, WordsWere, Outcome, HighKept,
      ValuesAre, FinalOrder, BenchCrc, TiesPlain, FindOrder, Permutation, WordsAre;
    ghost var v, was, nodes, infos := ViewOf(s), DataOf(s), (set n | n in s), InfosOf(s);
    BenchStart(s, v, was, nodes, infos);
    for i := 0 to |finders|
      invariant Unchanged(res.list, s, nodes, infos, was)
    {
      BenchAgain(res, finders[i], s, nodes, infos, v, was);
    }
  }

  /** One turn: the benchmark and its checksum. */
  method BenchAgain(res: CoreResults, finderIdx: Index, ghost s: seq<ListHead>, ghost nodes: set<ListHead>,
                    ghost infos: Infos, ghost v: View, ghost was: Data)
    requires |s| >= 3 && NoDup(s) && Backed(was) && IndexSorted(s, v) && DistinctIndices(s, v)
    requires nodes == (set n | n in s) && was.Keys == ItemsOf(nodes, infos) && infos.Keys == nodes == v.Keys
    requires WordsWere(nodes, infos, v, was) && IdxAre(nodes, infos, v) && Unchanged(res.list, s, nodes, infos, was)
    modifies nodes`next, nodes`info, was.Keys`data16, res`crc, res`crcstate, res`crcmatrix
    ensures Unchanged(res.list, s, nodes, infos, was)
  {
    hide Chain, NoDup, IndexSorted, DistinctIndices, InfosAre, ItemsOf, Backed, IdxAre, WordsWere, Outcome, HighKept,
      ValuesAre, FinalOrder, BenchCrc, TiesPlain, FindOrder, Permutation, WordsAre, ViewOf, DataOf, InfosOf,
        MergeSort.Infos;
    SameView(s, nodes, infos, v, was);
    var crc;
    ghost var vals, u, t;
    crc, vals, u, t := Bench(res, finderIdx, s);
    crc := Crc.Crcu16(crc, res.crc);
    res.crc := crc;
  }
}
