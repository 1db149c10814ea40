/**
  `core_list_mergesort` (coremark/core_list_join.c): a bottom-up, in-place merge
  sort of a singly linked list whose comparator may write to the items it
  compares.

  A key exists only once an item has been compared.  Ghost map `val` records the
  keys of the nodes compared so far and `pos` the original positions; a run is
  ordered by (key, position), which is sortedness and stability in one relation.
*/
module MergeSort {
  import opened Arithmetic
  import opened ListItems

  // ---- Lists in the heap -----------------------------------------------------

  function At(s: seq<ListHead>, i: nat): ListHead? {
    if i < |s| then s[i] else null
  }

  /** Each node of `s` points to the one after it; the last may point anywhere. */
  ghost predicate Linked(s: seq<ListHead>)
    reads s`next
  {
    forall i :: 0 <= i < |s| - 1 ==> s[i].next == s[i + 1]
  }

  /** `h` is the head of the NULL-terminated list `s`. */
  ghost predicate Chain(h: ListHead?, s: seq<ListHead>)
    reads s`next
  {
    && h == At(s, 0)
    && forall i :: 0 <= i < |s| ==> s[i].next == At(s, i + 1)
  }

  ghost predicate NoDup(s: seq<ListHead>) {
    forall i, j :: 0 <= i < j < |s| ==> s[i] != s[j]
  }

  ghost function Infos(s: seq<ListHead>): set<ListData>
    reads s`info
  {
    set i | 0 <= i < |s| :: s[i].info
  }

  // ---- Ordered runs ----------------------------------------------------------

  type Keys = map<ListHead, int>
  type Positions = map<ListHead, nat>
  type Data = map<ListData, Data16>

  /** The comparator calls made, in order, with the two nodes of each. */
  type Log = seq<(ListHead, ListHead)>

  /** Strictly before in the stable order of the keys. */
  ghost predicate Before(val: Keys, pos: Positions, a: ListHead, b: ListHead) {
    && a in val && b in val && a in pos && b in pos
    && (val[a] < val[b] || (val[a] == val[b] && pos[a] < pos[b]))
  }

  ghost predicate Ordered(r: seq<ListHead>, val: Keys, pos: Positions) {
    forall i, j :: 0 <= i < j < |r| ==> Before(val, pos, r[i], r[j])
  }

  /** `r` is ordered and holds nodes of the original positions lo .. lo + |r|. */
  ghost predicate Run(r: seq<ListHead>, lo: nat, val: Keys, pos: Positions) {
    && Ordered(r, val, pos)
    && forall i :: 0 <= i < |r| ==> r[i] in pos && lo <= pos[r[i]] < lo + |r|
  }

  /** `s` splits into runs of width `w`, the last one possibly shorter. */
  ghost predicate Runs(s: seq<ListHead>, w: nat, lo: nat, val: Keys, pos: Positions)
    requires w > 0
    decreases |s|
  {
    if |s| <= w then Run(s, lo, val, pos)
    else Run(s[..w], lo, val, pos) && Runs(s[w..], w, lo + w, val, pos)
  }

  ghost predicate Extends(val: Keys, val': Keys) {
    forall n :: n in val ==> n in val' && val'[n] == val[n]
  }

  /**
    What is known during a sort of `nodes`, whose data words were `was` at the start:
    the recorded keys are the keys in the heap and they are final, and every data
    word is what comparisons may have made of its first value.
  */
  ghost predicate Known(cmp: Cmp, regen: bool, val: Keys, nodes: set<ListHead>, was: Data)
    reads nodes`info, was.Keys`data16, was.Keys`idx
  {
    && (forall n :: n in nodes ==> n.info in was)
    && (forall n :: n in val ==>
          && n in nodes
          && Settled(cmp, regen, n.info.data16)
          && Key(cmp, n.info.data16, n.info.idx) == val[n])
    && (forall d :: d in was ==> Evolved(cmp, regen, was[d], d.data16))
  }

  ghost predicate Compared(log: Log, n: ListHead) {
    exists k :: 0 <= k < |log| && (log[k].0 == n || log[k].1 == n)
  }

  /** Only the comparator calls in `log` have added keys. */
  ghost predicate Logged(val: Keys, val': Keys, log: Log) {
    forall n :: n in val' ==> n in val || Compared(log, n)
  }

  lemma LoggedTransitive(a: Keys, b: Keys, c: Keys, first: Log, second: Log)
    requires Logged(a, b, first) && Logged(b, c, second)
    ensures Logged(a, c, first + second)
  {
    forall n | n in c && n !in a ensures Compared(first + second, n) {
      if n in b {
        var k :| 0 <= k < |first| && (first[k].0 == n || first[k].1 == n);
        assert (first + second)[k] == first[k];
      } else {
        var k :| 0 <= k < |second| && (second[k].0 == n || second[k].1 == n);
        assert (first + second)[|first| + k] == second[k];
      }
    }
  }

  lemma ExtendsTransitive(a: Keys, b: Keys, c: Keys)
    requires Extends(a, b) && Extends(b, c)
    ensures Extends(a, c)
  {
  }

  lemma OrderedMono(r: seq<ListHead>, val: Keys, val': Keys, pos: Positions)
    requires Ordered(r, val, pos) && Extends(val, val')
    ensures Ordered(r, val', pos)
  {
  }

  lemma {:induction false} RunsMono(s: seq<ListHead>, w: nat, lo: nat, val: Keys, val': Keys, pos: Positions)
    requires w > 0 && Runs(s, w, lo, val, pos) && Extends(val, val')
    ensures Runs(s, w, lo, val', pos)
    decreases |s|
  {
    if |s| <= w {
      OrderedMono(s, val, val', pos);
    } else {
      OrderedMono(s[..w], val, val', pos);
      RunsMono(s[w..], w, lo + w, val, val', pos);
    }
  }

  ghost predicate Multiple(n: nat, w: nat)
    requires w > 0
  {
    if n < w then n == 0 else Multiple(n - w, w)
  }

  lemma {:induction false} RunsAppend(s: seq<ListHead>, r: seq<ListHead>, w: nat, lo: nat, val: Keys, pos: Positions)
    requires w > 0 && Runs(s, w, lo, val, pos) && Multiple(|s|, w)
    requires |r| <= w && Run(r, lo + |s|, val, pos)
    ensures Runs(s + r, w, lo, val, pos)
    ensures |r| == w ==> Multiple(|s + r|, w)
    decreases |s|
  {
    if s == [] {
      assert s + r == r;
    } else {
      assert |s| == w ==> s[..w] == s && s[w..] == [];
      RunsAppend(s[w..], r, w, lo + w, val, pos);
      assert (s + r)[..w] == s[..w] && (s + r)[w..] == s[w..] + r;
      if |s + r| <= w {
        assert r == [] && s + r == s[..w];
      }
    }
  }

  // ---- One merge -------------------------------------------------------------

  ghost predicate Inside(s: seq<ListHead>, nodes: set<ListHead>) {
    forall i :: 0 <= i < |s| ==> s[i] in nodes
  }

  function Last(s: seq<ListHead>): ListHead? {
    if s == [] then null else s[|s| - 1]
  }

  /** Progress of one merge: nodes taken from `ps`, nodes taken from `rest`, and the result. */
  datatype Cursor = Cursor(i: nat, j: nat, merged: seq<ListHead>)

  ghost predicate HasNext(c: Cursor, ps: seq<ListHead>, rest: seq<ListHead>, fromP: bool) {
    c.i <= |ps| && c.j <= |rest| && if fromP then c.i < |ps| else c.j < |rest|
  }

  ghost function Next(c: Cursor, ps: seq<ListHead>, rest: seq<ListHead>, fromP: bool): Cursor
    requires HasNext(c, ps, rest, fromP)
  {
    if fromP then Cursor(c.i + 1, c.j, c.merged + [ps[c.i]]) else Cursor(c.i, c.j + 1, c.merged + [rest[c.j]])
  }

  /** `merged` is a permutation of the nodes taken so far. */
  ghost predicate Taken(c: Cursor, ps: seq<ListHead>, rest: seq<ListHead>) {
    && c.i <= |ps| && c.j <= |rest| && |c.merged| == c.i + c.j
    && multiset(c.merged) == multiset(ps[..c.i]) + multiset(rest[..c.j])
  }

  lemma TakenStep(c: Cursor, ps: seq<ListHead>, rest: seq<ListHead>, fromP: bool)
    requires Taken(c, ps, rest) && HasNext(c, ps, rest, fromP)
    ensures Taken(Next(c, ps, rest, fromP), ps, rest)
  {
    if fromP {
      assert ps[..c.i + 1] == ps[..c.i] + [ps[c.i]];
    } else {
      assert rest[..c.j + 1] == rest[..c.j] + [rest[c.j]];
    }
  }

  /** Everything merged comes before everything left. */
  ghost predicate Merging(c: Cursor, ps: seq<ListHead>, qs: seq<ListHead>, val: Keys, pos: Positions) {
    && c.i <= |ps| && c.j <= |qs|
    && Ordered(ps, val, pos) && Ordered(qs, val, pos) && Ordered(c.merged, val, pos)
    && (forall x, y :: 0 <= x < |c.merged| && c.i <= y < |ps| ==> Before(val, pos, c.merged[x], ps[y]))
    && (forall x, y :: 0 <= x < |c.merged| && c.j <= y < |qs| ==> Before(val, pos, c.merged[x], qs[y]))
  }

  /** All of `ps` stood before all of `qs` in the original list. */
  ghost predicate Precedes(ps: seq<ListHead>, qs: seq<ListHead>, pos: Positions) {
    forall x, y :: 0 <= x < |ps| && 0 <= y < |qs| ==> ps[x] in pos && qs[y] in pos && pos[ps[x]] < pos[qs[y]]
  }

  lemma MergingMono(c: Cursor, ps: seq<ListHead>, qs: seq<ListHead>, val: Keys, val': Keys, pos: Positions)
    requires Merging(c, ps, qs, val, pos) && Extends(val, val')
    ensures Merging(c, ps, qs, val', pos)
  {
  }

  lemma MergingStep(c: Cursor, ps: seq<ListHead>, qs: seq<ListHead>, val: Keys, pos: Positions, fromP: bool)
    requires Merging(c, ps, qs, val, pos) && HasNext(c, ps, qs, fromP)
    requires Precedes(ps, qs, pos)
    requires c.i < |ps| && c.j < |qs| ==> ps[c.i] in val && qs[c.j] in val && (fromP <==> val[ps[c.i]] <= val[qs[c.j]])
    ensures Merging(Next(c, ps, qs, fromP), ps, qs, val, pos)
  {
  }

  /** The list built so far: `out` of earlier merges, then the merged nodes. */
  ghost predicate Built(list: ListHead?, tail: ListHead?, s: seq<ListHead>)
    reads s`next
  {
    Linked(s) && list == At(s, 0) && tail == Last(s)
  }

  /** Adds the next element to the merged list. */
  method Append(list0: ListHead?, tail0: ListHead?, e: ListHead, ghost s: seq<ListHead>)
    returns (list: ListHead?, tail: ListHead?)
    requires Built(list0, tail0, s) && NoDup(s + [e])
    modifies (if tail0 == null then {} else {tail0})`next
    ensures Built(list, tail, s + [e]) && tail == e
  {
    NoDupPrefix(s, [e]);
    assert e == (s + [e])[|s|];
    list := list0;
    if tail0 != null {
      tail0.next := e;
    } else {
      list := e;
    }
    tail := e;
  }

  /** The unmerged parts are still linked, and no node occurs twice. */
  ghost predicate Left(c: Cursor, p: ListHead?, q: ListHead?, out: seq<ListHead>, ps: seq<ListHead>,
    rest: seq<ListHead>)
    reads ps`next, rest`next
  {
    && c.i <= |ps| && c.j <= |rest|
    && (c.i < |ps| ==> p == ps[c.i]) && q == At(rest, c.j)
    && (forall x :: c.i <= x < |ps| - 1 ==> ps[x].next == ps[x + 1])
    && (forall x :: c.j <= x < |rest| ==> rest[x].next == At(rest, x + 1))
    && NoDup(out + c.merged + ps[c.i..] + rest[c.j..])
  }

  lemma NoDupParts(a: seq<ListHead>, b: seq<ListHead>, c: seq<ListHead>)
    requires NoDup(a + b + c)
    ensures NoDup(a)
    ensures forall x, y :: 0 <= x < |a| && 0 <= y < |b| ==> a[x] != b[y]
    ensures forall x, y :: 0 <= x < |a| && 0 <= y < |c| ==> a[x] != c[y]
  {
    var s := a + b + c;
    assert forall x :: 0 <= x < |a| ==> s[x] == a[x];
    assert forall y :: 0 <= y < |b| ==> s[|a| + y] == b[y];
    assert forall y :: 0 <= y < |c| ==> s[|a + b| + y] == c[y];
  }

  lemma NoDupRotate(a: seq<ListHead>, b: seq<ListHead>, c: seq<ListHead>)
    requires c != [] && NoDup(a + b + c)
    ensures NoDup(a + [c[0]] + b + c[1..])
  {
    var s, t := a + b + c, a + [c[0]] + b + c[1..];
    var m, n := |a|, |b|;
    assert t[m] == s[m + n];
    assert forall x :: 0 <= x < m ==> t[x] == s[x];
    assert forall x :: m < x <= m + n ==> t[x] == s[x - 1];
    assert forall x :: m + n < x < |t| ==> t[x] == s[x];
  }

  /** Taking a node keeps all nodes distinct; in particular the tail is none of those left. */
  lemma NoDupStep(c: Cursor, out: seq<ListHead>, ps: seq<ListHead>, rest: seq<ListHead>, fromP: bool)
    requires HasNext(c, ps, rest, fromP) && NoDup(out + c.merged + ps[c.i..] + rest[c.j..])
    ensures var d := Next(c, ps, rest, fromP); NoDup(out + d.merged + ps[d.i..] + rest[d.j..])
    ensures NoDup(out + c.merged + [if fromP then ps[c.i] else rest[c.j]])
  {
    hide NoDup;
    var a, b, r := out + c.merged, ps[c.i..], rest[c.j..];
    var d := Next(c, ps, rest, fromP);
    if fromP {
      assert out + d.merged == a + [b[0]] && ps[d.i..] == b[1..];
      TakeFirst(a, b, r);
    } else {
      NoDupRotate(a, b, r);
      assert out + d.merged == a + [r[0]] && rest[d.j..] == r[1..];
      assert a + [r[0]] + b + r[1..] == a + [r[0]] + (b + r[1..]);
      NoDupPrefix(a + [r[0]], b + r[1..]);
    }
  }

  lemma TakeFirst(a: seq<ListHead>, b: seq<ListHead>, r: seq<ListHead>)
    requires b != [] && NoDup(a + b + r)
    ensures NoDup(a + [b[0]] + b[1..] + r) && NoDup(a + [b[0]])
  {
    hide NoDup;
    assert a + b + r == a + [b[0]] + b[1..] + r == a + [b[0]] + (b[1..] + r);
    NoDupPrefix(a + [b[0]], b[1..] + r);
  }

  /** The nodes still to be merged are not the last of the built list. */
  lemma LeftNotLast(c: Cursor, out: seq<ListHead>, ps: seq<ListHead>, rest: seq<ListHead>)
    requires c.i <= |ps| && c.j <= |rest| && NoDup(out + c.merged + ps[c.i..] + rest[c.j..])
    ensures forall x :: c.i <= x < |ps| ==> ps[x] != Last(out + c.merged)
    ensures forall x :: c.j <= x < |rest| ==> rest[x] != Last(out + c.merged)
  {
    var a, b, r := out + c.merged, ps[c.i..], rest[c.j..];
    NoDupParts(a, b, r);
    hide NoDup;
    assert forall x :: c.i <= x < |ps| ==> ps[x] == b[x - c.i];
    assert forall x :: c.j <= x < |rest| ==> rest[x] == r[x - c.j];
  }

  lemma NoDupPrefix(a: seq<ListHead>, b: seq<ListHead>)
    requires NoDup(a + b)
    ensures NoDup(a)
  {
    assert forall x :: 0 <= x < |a| ==> (a + b)[x] == a[x];
  }

  /** Moves one node from p or q to the end of the merged list. */
  method Advance(list0: ListHead?, tail0: ListHead?, p0: ListHead?, q0: ListHead?, fromP: bool,
                 ghost c: Cursor, ghost out: seq<ListHead>, ghost ps: seq<ListHead>, ghost rest: seq<ListHead>)
    returns (list: ListHead?, tail: ListHead?, p: ListHead?, q: ListHead?)
    requires HasNext(c, ps, rest, fromP)
    requires Built(list0, tail0, out + c.merged) && Left(c, p0, q0, out, ps, rest)
    modifies (if tail0 == null then {} else {tail0})`next
    ensures var d := Next(c, ps, rest, fromP);
            Built(list, tail, out + d.merged) && Left(d, p, q, out, ps, rest)
    ensures tail == if fromP then p0 else q0
  {
    hide NoDup;
    NoDupStep(c, out, ps, rest, fromP);
    LeftNotLast(c, out, ps, rest);
    p, q := p0, q0;
    var e: ListHead;
    if fromP {
      e := p;
      p := p.next;
    } else {
      e := q;
      q := q.next;
    }
    list, tail := Append(list0, tail0, e, out + c.merged);
    assert out + c.merged + [e] == out + Next(c, ps, rest, fromP).merged;
  }

  /**
    The inner loop: merges `psize` nodes from `p` with up to `insize` nodes from
    `q` and appends them to the list that ends in `tail`.
  */
  method MergeRuns(cmp: Cmp, res: CoreResults?, list0: ListHead?, tail0: ListHead?,
                   p0: ListHead, psize0: nat, q0: ListHead?, insize: nat,
                   ghost out: seq<ListHead>, ghost ps: seq<ListHead>, ghost rest: seq<ListHead>,
                   ghost val0: Keys, ghost pos: Positions,
                   ghost nodes: set<ListHead>, ghost was: Data)
    returns (list: ListHead?, tail: ListHead?, q: ListHead?,
             ghost merged: seq<ListHead>, ghost val: Keys, ghost log: Log)
    requires cmp.CmpComplex? ==> res != null
    requires Inside(ps, nodes) && Inside(rest, nodes) && (tail0 != null ==> tail0 in nodes)
    requires 0 < psize0 == |ps| && insize > 0
    requires Built(list0, tail0, out) && Left(Cursor(0, 0, []), p0, q0, out, ps, rest)
    requires Ordered(ps, val0, pos) && Ordered(rest[..Min(insize, |rest|)], val0, pos)
    requires Precedes(ps, rest[..Min(insize, |rest|)], pos)
    requires Known(cmp, res == null, val0, nodes, was)
    modifies nodes`next, was.Keys`data16, Block(res)`crc, Block(res)`crcstate, Block(res)`crcmatrix
    ensures var c := Cursor(|ps|, Min(insize, |rest|), merged);
            Taken(c, ps, rest) && Built(list, tail, out + merged) && Left(c, null, q, out, ps, rest)
    ensures Ordered(merged, val, pos) && Extends(val0, val)
    ensures Known(cmp, res == null, val, nodes, was)
    ensures Logged(val0, val, log) && |log| < |merged|
  {
    hide Evolved, Settled, Key, Ordered, Before, Merging, Precedes, Built, Taken, Left, Known, Extends, Logged;
    ghost var qs := rest[..Min(insize, |rest|)];
    ghost var c := Cursor(0, 0, []);
    MergeStart(ps, qs, rest, val0, pos);
    var p: ListHead? := p0;
    var psize, qsize := psize0, insize;
    q := q0;
    list, tail := list0, tail0;
    val, log := val0, [];
    NothingLogged(val0);
    assert out + [] == out && qs <= rest;
    LeftHeads(c, p, q, out, ps, rest);
    while psize > 0 || (qsize > 0 && q != null)
      invariant c.i <= |ps| && c.j <= |qs| && psize == |ps| - c.i && qsize == insize - c.j && q == At(rest, c.j)
      invariant tail != null ==> tail in nodes
      invariant Left(c, p, q, out, ps, rest) && Built(list, tail, out + c.merged)
      invariant Taken(c, ps, rest) && Merging(c, ps, qs, val, pos)
      invariant Extends(val0, val) && Known(cmp, res == null, val, nodes, was)
      invariant Logged(val0, val, log)
      invariant |log| <= c.i + c.j && (c.i == |ps| && c.j == |qs| ==> |log| < |ps| + |qs|)
      decreases psize + qsize
    {
      ghost var val1, more := val, [];
      list, tail, p, psize, q, qsize, c, val, more :=
        MergeOne(cmp, res, list, tail, p, psize, q, qsize, c, out, ps, qs, rest, val, pos, nodes, was);
      ExtendsTransitive(val0, val1, val);
      LoggedTransitive(val0, val1, val, log, more);
      log := log + more;
    }
    merged := c.merged;
    MergeEnd(c, p, q, out, ps, qs, rest, val, pos);
  }

  /** One turn of the inner loop. */
  method MergeOne(cmp: Cmp, res: CoreResults?, list0: ListHead?, tail0: ListHead?, p0: ListHead?, psize0: nat,
                  q0: ListHead?, qsize0: nat, ghost c: Cursor, ghost out: seq<ListHead>, ghost ps: seq<ListHead>,
                  ghost qs: seq<ListHead>, ghost rest: seq<ListHead>, ghost val0: Keys, ghost pos: Positions,
                  ghost nodes: set<ListHead>, ghost was: Data)
    returns (list: ListHead?, tail: ListHead?, p: ListHead?, psize: nat, q: ListHead?, qsize: nat,
             ghost d: Cursor, ghost val: Keys, ghost log: Log)
    requires cmp.CmpComplex? ==> res != null
    requires Inside(ps, nodes) && Inside(rest, nodes) && (tail0 != null ==> tail0 in nodes)
    requires qs <= rest && (|qs| < |rest| ==> qsize0 == |qs| - c.j) && qsize0 >= |qs| - c.j >= 0
    requires c.i <= |ps| && psize0 == |ps| - c.i && q0 == At(rest, c.j)
    requires psize0 > 0 || (qsize0 > 0 && q0 != null)
    requires Left(c, p0, q0, out, ps, rest) && Built(list0, tail0, out + c.merged)
    requires Taken(c, ps, rest) && Merging(c, ps, qs, val0, pos)
    requires Precedes(ps, qs, pos)
    requires Known(cmp, res == null, val0, nodes, was)
    modifies nodes`next, was.Keys`data16, Block(res)`crc, Block(res)`crcstate, Block(res)`crcmatrix
    ensures d.i <= |ps| && d.j <= |qs| && psize == |ps| - d.i && q == At(rest, d.j)
    ensures d.i + d.j == c.i + c.j + 1 && qsize + d.j == qsize0 + c.j
    ensures tail != null ==> tail in nodes
    ensures Left(d, p, q, out, ps, rest) && Built(list, tail, out + d.merged)
    ensures Taken(d, ps, rest) && Merging(d, ps, qs, val, pos)
    ensures Extends(val0, val) && Known(cmp, res == null, val, nodes, was)
    ensures Logged(val0, val, log) && |log| == if c.i < |ps| && c.j < |qs| then 1 else 0
  {
    hide Evolved, Settled, Key, Ordered, Before, Merging, Precedes, Built, Taken, Left, Known, Extends, Logged;
    LeftHeads(c, p0, q0, out, ps, rest);
    p, psize, q, qsize := p0, psize0, q0, qsize0;
    var fromP: bool;
    fromP, val, log := TakesP(cmp, res, p, psize, q, qsize, val0, nodes, was);
    MergeStepFacts(c, ps, qs, rest, val0, val, pos, fromP);
    list, tail, p, q := Advance(list0, tail0, p, q, fromP, c, out, ps, rest);
    if fromP { psize := psize - 1; } else { qsize := qsize - 1; }
    d := Next(c, ps, rest, fromP);
    LeftHeads(d, p, q, out, ps, rest);
  }

  lemma LeftHeads(c: Cursor, p: ListHead?, q: ListHead?, out: seq<ListHead>, ps: seq<ListHead>, rest: seq<ListHead>)
    requires Left(c, p, q, out, ps, rest)
    ensures (c.i < |ps| ==> p == ps[c.i]) && q == At(rest, c.j)
  {
  }

  lemma NothingLogged(val: Keys)
    ensures Logged(val, val, [])
  {
  }

  lemma MergeStart(ps: seq<ListHead>, qs: seq<ListHead>, rest: seq<ListHead>, val: Keys, pos: Positions)
    requires Ordered(ps, val, pos) && Ordered(qs, val, pos)
    ensures Merging(Cursor(0, 0, []), ps, qs, val, pos) && Taken(Cursor(0, 0, []), ps, rest) && Extends(val, val)
  {
  }

  lemma MergeStepFacts(c: Cursor, ps: seq<ListHead>, qs: seq<ListHead>, rest: seq<ListHead>,
                       val0: Keys, val: Keys, pos: Positions, fromP: bool)
    requires Extends(val0, val)
    requires qs <= rest && HasNext(c, ps, qs, fromP) && Taken(c, ps, rest) && Merging(c, ps, qs, val0, pos)
    requires Precedes(ps, qs, pos)
    requires c.i < |ps| && c.j < |qs| ==> ps[c.i] in val && qs[c.j] in val && (fromP <==> val[ps[c.i]] <= val[qs[c.j]])
    ensures var d := Next(c, ps, rest, fromP); Taken(d, ps, rest) && Merging(d, ps, qs, val, pos)
  {
    hide Taken, Merging, Before;
    TakenStep(c, ps, rest, fromP);
    MergingMono(c, ps, qs, val0, val, pos);
    MergingStep(c, ps, qs, val, pos, fromP);
    assert Next(c, ps, rest, fromP) == Next(c, ps, qs, fromP);
  }

  lemma MergeEnd(c: Cursor, p: ListHead?, q: ListHead?, out: seq<ListHead>, ps: seq<ListHead>, qs: seq<ListHead>,
                 rest: seq<ListHead>, val: Keys, pos: Positions)
    requires Left(c, p, q, out, ps, rest) && Merging(c, ps, qs, val, pos) && Taken(c, ps, rest)
    requires c.i == |ps| && c.j == |qs|
    ensures Left(c, null, q, out, ps, rest) && Ordered(c.merged, val, pos) && |c.merged| == |ps| + |qs|
  {
  }

  /** Decides whether the next element of the merge comes from p or from q. */
  method TakesP(cmp: Cmp, res: CoreResults?, p: ListHead?, psize: nat, q: ListHead?, qsize: nat,
                ghost val0: Keys, ghost nodes: set<ListHead>, ghost was: Data)
    returns (fromP: bool, ghost val: Keys, ghost log: Log)
    requires cmp.CmpComplex? ==> res != null
    requires psize > 0 ==> p != null && p in nodes
    requires q != null ==> q in nodes
    requires psize > 0 || (qsize > 0 && q != null)
    requires Known(cmp, res == null, val0, nodes, was)
    modifies was.Keys`data16, Block(res)`crc, Block(res)`crcstate, Block(res)`crcmatrix
    ensures log == if psize > 0 && qsize > 0 && q != null then [(p, q)] else []
    ensures log != [] ==> p in val && q in val && (fromP <==> val[p] <= val[q])
    ensures log == [] ==> fromP == (psize > 0)
    ensures Extends(val0, val) && Known(cmp, res == null, val, nodes, was) && Logged(val0, val, log)
  {
    hide Evolved, Settled, Key;
    val, log := val0, [];
    if psize == 0 {
      fromP := false;
    } else if qsize == 0 || q == null {
      fromP := true;
    } else {
      var r: int;
      r, val, log := CompareHeads(cmp, p, q, res, val0, nodes, was);
      fromP := r <= 0;
    }
  }

  /** `cmp` on the two heads, with the keys it has just fixed added to `val`. */
  method CompareHeads(cmp: Cmp, p: ListHead, q: ListHead, res: CoreResults?, ghost val0: Keys,
                      ghost nodes: set<ListHead>, ghost was: Data)
    returns (r: int, ghost val: Keys, ghost log: Log)
    requires cmp.CmpComplex? ==> res != null
    requires p in nodes && q in nodes
    requires Known(cmp, res == null, val0, nodes, was)
    modifies was.Keys`data16, Block(res)`crc, Block(res)`crcstate, Block(res)`crcmatrix
    ensures p in val && q in val && r == val[p] - val[q]
    ensures Extends(val0, val) && Known(cmp, res == null, val, nodes, was)
    ensures log == [(p, q)] && Logged(val0, val, log)
  {
    hide Evolved, Settled, Key;
    r := Compare(cmp, p.info, q.info, res);
    log := [(p, q)];
    assert Compared(log, log[0].0) && Compared(log, log[0].1);
    ghost var kp, kq := Key(cmp, p.info.data16, p.info.idx), Key(cmp, q.info.data16, q.info.idx);
    forall d | d in was ensures Evolved(cmp, res == null, was[d], d.data16) {
      if d == p.info || d == q.info {
        EvolvedTransitive(cmp, res == null, was[d], old(d.data16), d.data16);
      }
    }
    forall n | n in val0
      ensures Settled(cmp, res == null, n.info.data16) && Key(cmp, n.info.data16, n.info.idx) == val0[n]
    {
      if n.info == p.info || n.info == q.info {
        SettledIsFinal(cmp, res == null, old(n.info.data16), n.info.data16);
      }
    }
    val := val0[p := kp][q := kq];
    forall n | n in val
      ensures Settled(cmp, res == null, n.info.data16) && Key(cmp, n.info.data16, n.info.idx) == val[n]
    {
      assert n == p || n == q || n in val0;
    }
  }

  // ---- One pass --------------------------------------------------------------

  /** Steps `insize` places along from `p`. */
  method StepAlong(p: ListHead, insize: nat, ghost s: seq<ListHead>) returns (q: ListHead?, psize: nat)
    requires insize > 0 && Chain(p, s)
    ensures psize == Min(insize, |s|) && q == At(s, psize)
  {
    q, psize := p, 0;
    var i := 0;
    while i < insize
      invariant i == psize <= insize && psize < |s| && q == s[psize]
    {
      psize := psize + 1;
      q := q.next;
      if q == null {
        break;
      }
      i := i + 1;
    }
  }

  lemma RunsSplit(s: seq<ListHead>, w: nat, lo: nat, val: Keys, pos: Positions)
    requires w > 0 && Runs(s, w, lo, val, pos)
    ensures var ps := s[..Min(w, |s|)]; var r := s[|ps|..]; var k := Min(w, |r|);
            && Run(ps, lo, val, pos) && Run(r[..k], lo + |ps|, val, pos)
            && Ordered(ps, val, pos) && Ordered(r[..k], val, pos)
            && Precedes(ps, r[..k], pos) && Runs(r[k..], w, lo + |ps| + k, val, pos)
  {
    hide Ordered, Before, Run;
    var ps := s[..Min(w, |s|)];
    var r := s[|ps|..];
    var k := Min(w, |r|);
    assert Run(ps, lo, val, pos) && Runs(r, w, lo + |ps|, val, pos) by {
      FirstRun(s, w, lo, val, pos);
    }
    FirstRun(r, w, lo + |ps|, val, pos);
    RunsPrecede(ps, r[..k], lo, val, pos);
  }

  lemma FirstRun(s: seq<ListHead>, w: nat, lo: nat, val: Keys, pos: Positions)
    requires w > 0 && Runs(s, w, lo, val, pos)
    ensures Run(s[..Min(w, |s|)], lo, val, pos) && Runs(s[Min(w, |s|)..], w, lo + Min(w, |s|), val, pos)
  {
    if |s| <= w {
      assert s[..|s|] == s && s[|s|..] == [];
      EmptyRun(lo + |s|, val, pos);
    }
  }

  lemma RunsPrecede(a: seq<ListHead>, b: seq<ListHead>, lo: nat, val: Keys, pos: Positions)
    requires Run(a, lo, val, pos) && Run(b, lo + |a|, val, pos)
    ensures Precedes(a, b, pos) && Ordered(a, val, pos) && Ordered(b, val, pos)
  {
    hide Ordered;
  }

  lemma EmptyRun(lo: nat, val: Keys, pos: Positions)
    ensures Run([], lo, val, pos)
  {
  }

  /** A merge of two neighbouring runs that is ordered is one run. */
  lemma MergedRun(c: Cursor, ps: seq<ListHead>, rest: seq<ListHead>, lo: nat, val0: Keys, val: Keys, pos: Positions)
    requires Taken(c, ps, rest) && c.i == |ps| && Ordered(c.merged, val, pos)
    requires Run(ps, lo, val0, pos) && Run(rest[..c.j], lo + |ps|, val0, pos)
    ensures Run(c.merged, lo, val, pos)
  {
    hide Ordered;
    forall i | 0 <= i < |c.merged| ensures c.merged[i] in pos && lo <= pos[c.merged[i]] < lo + |c.merged| {
      var n := c.merged[i];
      assert n in multiset(c.merged);
      assert n in multiset(ps[..c.i]) || n in multiset(rest[..c.j]);
      assert n in ps[..c.i] || n in rest[..c.j];
    }
  }

  lemma LeftStart(p: ListHead?, q: ListHead?, out: seq<ListHead>, s: seq<ListHead>, m: nat)
    requires m <= |s| && Chain(p, s) && q == At(s, m) && NoDup(out + s)
    ensures Left(Cursor(0, 0, []), p, q, out, s[..m], s[m..])
  {
    assert out + [] + s[..m][0..] + s[m..][0..] == out + s;
  }

  lemma LeftEnd(c: Cursor, q: ListHead?, out: seq<ListHead>, ps: seq<ListHead>, rest: seq<ListHead>)
    requires Left(c, null, q, out, ps, rest) && c.i == |ps|
    ensures Chain(q, rest[c.j..]) && NoDup(out + c.merged + rest[c.j..])
  {
    assert out + c.merged + ps[c.i..] + rest[c.j..] == out + c.merged + rest[c.j..];
  }

  /** The nodes of `s`, some of them already in `out`. */
  ghost predicate Progress(s: seq<ListHead>, out: seq<ListHead>, rest: seq<ListHead>) {
    && |s| == |out| + |rest| && multiset(s) == multiset(out) + multiset(rest) && NoDup(out + rest)
  }

  lemma ProgressStep(s: seq<ListHead>, out: seq<ListHead>, rest: seq<ListHead>, m: nat, c: Cursor)
    requires m <= |rest| && Progress(s, out, rest)
    requires Taken(c, rest[..m], rest[m..]) && c.i == m && NoDup(out + c.merged + rest[m..][c.j..])
    ensures Progress(s, out + c.merged, rest[m..][c.j..])
  {
    hide NoDup;
    var r := rest[m..];
    assert rest[..m][..c.i] == rest[..m];
    assert rest == rest[..m] + (r[..c.j] + r[c.j..]);
    assert multiset(rest) == multiset(rest[..m]) + (multiset(r[..c.j]) + multiset(r[c.j..]));
  }

  lemma ProgressInside(s: seq<ListHead>, out: seq<ListHead>, rest: seq<ListHead>, nodes: set<ListHead>)
    requires Progress(s, out, rest) && Inside(s, nodes)
    ensures Inside(out, nodes) && Inside(rest, nodes)
  {
    forall i | 0 <= i < |out| ensures out[i] in nodes {
      assert out[i] in multiset(out);
      assert out[i] in multiset(s);
    }
    forall i | 0 <= i < |rest| ensures rest[i] in nodes {
      assert rest[i] in multiset(rest);
      assert rest[i] in multiset(s);
    }
  }

  lemma PassStart(s: seq<ListHead>, w: nat, val: Keys, pos: Positions)
    requires w > 0 && NoDup(s)
    ensures Built(null, null, [])
    ensures Runs([], w, 0, val, pos) && Multiple(0, w) && Progress(s, [], s) && Extends(val, val)
  {
    assert [] + s == s;
  }

  lemma PassEnd(s: seq<ListHead>, out: seq<ListHead>)
    requires Progress(s, out, [])
    ensures NoDup(out) && |out| == |s| && multiset(out) == multiset(s)
  {
    assert out + [] == out;
  }

  /** One turn of the loop over the list: finds two neighbouring runs and merges them. */
  method MergePair(cmp: Cmp, res: CoreResults?, head0: ListHead?, tail0: ListHead?, p0: ListHead, insize: nat,
                   ghost s: seq<ListHead>, ghost out0: seq<ListHead>, ghost rest0: seq<ListHead>,
                   ghost val0: Keys, ghost pos: Positions, ghost nodes: set<ListHead>, ghost was: Data)
    returns (head: ListHead?, tail: ListHead?, p: ListHead?,
             ghost out: seq<ListHead>, ghost rest: seq<ListHead>, ghost val: Keys, ghost log: Log)
    requires cmp.CmpComplex? ==> res != null
    requires insize > 0 && Chain(p0, rest0) && Built(head0, tail0, out0) && Progress(s, out0, rest0) && Inside(s, nodes)
    requires Runs(rest0, insize, |out0|, val0, pos) && Runs(out0, 2 * insize, 0, val0, pos)
    requires Multiple(|out0|, 2 * insize) && Known(cmp, res == null, val0, nodes, was)
    modifies nodes`next, was.Keys`data16, Block(res)`crc, Block(res)`crcstate, Block(res)`crcmatrix
    ensures Chain(p, rest) && Built(head, tail, out) && Progress(s, out, rest)
    ensures Runs(rest, insize, |out|, val, pos) && Runs(out, 2 * insize, 0, val, pos)
    ensures |out| == |out0| + Min(2 * insize, |rest0|) && (rest != [] ==> Multiple(|out|, 2 * insize))
    ensures Extends(val0, val) && Known(cmp, res == null, val, nodes, was)
    ensures Logged(val0, val, log) && |out0| + |log| < |out|
  {
    hide Evolved, Settled, Key, Ordered, Before, Left, Known, Extends, NoDup, Taken, Runs, Run, Multiple, Precedes,
      Progress, Built, Chain, Linked, Logged;
    ProgressInside(s, out0, rest0, nodes);
    ChainHead(p0, rest0);
    var q, psize := StepAlong(p0, insize, rest0);
    ghost var ps, r := rest0[..psize], rest0[psize..];
    ghost var k := Min(insize, |r|);
    ProgressNoDup(s, out0, rest0);
    LeftStart(p0, q, out0, rest0, psize);
    RunsSplit(rest0, insize, |out0|, val0, pos);
    BuiltTail(head0, tail0, out0);
    ghost var merged;
    head, tail, p, merged, val, log :=
      MergeRuns(cmp, res, head0, tail0, p0, psize, q, insize, out0, ps, r, val0, pos, nodes, was);
    ghost var c := Cursor(|ps|, k, merged);
    out, rest := out0 + merged, r[k..];
    LeftEnd(c, p, out0, ps, r);
    ProgressStep(s, out0, rest0, psize, c);
    TakenLength(c, ps, r);
    PairRuns(c, out0, ps, r, insize, val0, val, pos);
  }

  lemma ChainHead(p: ListHead?, s: seq<ListHead>)
    requires Chain(p, s)
    ensures p == At(s, 0)
  {
  }

  lemma BuiltTail(list: ListHead?, tail: ListHead?, s: seq<ListHead>)
    requires Built(list, tail, s)
    ensures tail == Last(s)
  {
  }

  lemma ProgressNoDup(s: seq<ListHead>, out: seq<ListHead>, rest: seq<ListHead>)
    requires Progress(s, out, rest)
    ensures NoDup(out + rest) && |s| == |out| + |rest|
  {
  }

  lemma TakenLength(c: Cursor, ps: seq<ListHead>, rest: seq<ListHead>)
    requires Taken(c, ps, rest)
    ensures |c.merged| == c.i + c.j
  {
  }

  /** After a merge the built list has runs of twice the width, and the rest keeps its runs. */
  lemma PairRuns(c: Cursor, out: seq<ListHead>, ps: seq<ListHead>, r: seq<ListHead>, w: nat,
                 val0: Keys, val: Keys, pos: Positions)
    requires w > 0 && c.i == |ps| <= w && c.j == Min(w, |r|) && (r != [] ==> |ps| == w)
    requires Taken(c, ps, r) && Ordered(c.merged, val, pos) && Extends(val0, val)
    requires Run(ps, |out|, val0, pos) && Run(r[..c.j], |out| + |ps|, val0, pos)
    requires Runs(r[c.j..], w, |out| + |ps| + c.j, val0, pos)
    requires Runs(out, 2 * w, 0, val0, pos) && Multiple(|out|, 2 * w)
    ensures Runs(out + c.merged, 2 * w, 0, val, pos) && Runs(r[c.j..], w, |out + c.merged|, val, pos)
    ensures r[c.j..] != [] ==> Multiple(|out + c.merged|, 2 * w)
  {
    hide Ordered, Before, Runs, Run, Extends, Taken, Multiple;
    TakenLength(c, ps, r);
    MergedRun(c, ps, r, |out|, val0, val, pos);
    RunsMono(out, 2 * w, 0, val0, val, pos);
    RunsMono(r[c.j..], w, |out| + |ps| + c.j, val0, val, pos);
    RunsAppend(out, c.merged, 2 * w, 0, val, pos);
  }

  method Terminate(ghost head: ListHead?, tail: ListHead, ghost s: seq<ListHead>)
    requires Built(head, tail, s) && NoDup(s)
    modifies tail`next
    ensures Chain(head, s) && head == At(s, 0)
  {
    tail.next := null;
  }

  /** One pass over the list: runs of width `insize` are merged pairwise. */
  method MergePass(cmp: Cmp, res: CoreResults?, list0: ListHead, insize: nat, ghost s: seq<ListHead>,
                   ghost val0: Keys, ghost pos: Positions, ghost nodes: set<ListHead>, ghost was: Data)
    returns (list: ListHead, nmerges: nat, ghost t: seq<ListHead>, ghost val: Keys, ghost log: Log)
    requires cmp.CmpComplex? ==> res != null
    requires insize > 0 && Chain(list0, s) && NoDup(s) && Inside(s, nodes)
    requires Runs(s, insize, 0, val0, pos) && Known(cmp, res == null, val0, nodes, was)
    modifies nodes`next, was.Keys`data16, Block(res)`crc, Block(res)`crcstate, Block(res)`crcmatrix
    ensures Chain(list, t) && NoDup(t) && |t| == |s| && multiset(t) == multiset(s)
    ensures Runs(t, 2 * insize, 0, val, pos) && Extends(val0, val) && Known(cmp, res == null, val, nodes, was)
    ensures Logged(val0, val, log) && |log| < |s|
    ensures nmerges <= 1 <==> |s| <= 2 * insize
  {
    hide Evolved, Settled, Key, Ordered, Before, Left, Known, Extends, NoDup, Taken, Runs, Run, Precedes, Progress,
      Built, Chain, Linked, Multiple, Logged;
    var p: ListHead? := list0;
    var head: ListHead?, tail: ListHead? := null, null;
    nmerges, val, log := 0, val0, [];
    NothingLogged(val0);
    ghost var out, rest := [], s;
    PassStart(s, 2 * insize, val0, pos);
    ChainHead(list0, s);
    while p != null
      invariant Chain(p, rest) && Built(head, tail, out) && Progress(s, out, rest)
      invariant Runs(rest, insize, |out|, val, pos) && Runs(out, 2 * insize, 0, val, pos)
      invariant rest != [] ==> Multiple(|out|, 2 * insize)
      invariant Extends(val0, val) && Known(cmp, res == null, val, nodes, was)
      invariant Logged(val0, val, log) && if out == [] then log == [] else |log| < |out|
      invariant nmerges == 0 <==> out == []
      invariant nmerges == 1 ==> |out| == Min(2 * insize, |s|)
      invariant nmerges > 1 ==> |out| > 2 * insize
      decreases |rest|
    {
      nmerges := nmerges + 1;
      ProgressNoDup(s, out, rest);
      ChainHead(p, rest);
      ghost var val1, more := val, [];
      head, tail, p, out, rest, val, more :=
        MergePair(cmp, res, head, tail, p, insize, s, out, rest, val, pos, nodes, was);
      ExtendsTransitive(val0, val1, val);
      LoggedTransitive(val0, val1, val, log, more);
      ProgressNoDup(s, out, rest);
      ChainHead(p, rest);
      log := log + more;
    }
    ChainHead(p, rest);
    PassEnd(s, out);
    ProgressInside(s, out, rest, nodes);
    BuiltTail(head, tail, out);
    Terminate(head, tail, out);
    list, t := head, out;
  }

  // ---- The sort --------------------------------------------------------------

  /** The least k with 2^k >= n. */
  function CeilLog2(n: nat): nat {
    if n <= 1 then 0 else 1 + CeilLog2((n + 1) / 2)
  }

  function Product(a: nat, b: nat): nat {
    a * b
  }

  /** The least exponent whose power reaches `n`. */
  lemma {:induction false} CeilLog2Least(n: nat)
    requires n > 0
    ensures n <= Pow2(CeilLog2(n)) && (CeilLog2(n) > 0 ==> Pow2(CeilLog2(n) - 1) < n)
    decreases n
  {
    if n > 1 {
      CeilLog2Least((n + 1) / 2);
    }
  }

  lemma {:induction false} CeilLog2Between(n: nat, k: nat)
    requires Pow2(k) < n <= Pow2(k + 1)
    ensures CeilLog2(n) == k + 1
    decreases k
  {
    if k != 0 {
      CeilLog2Between((n + 1) / 2, k - 1);
    } else {
      assert n == 2;
    }
  }

  /** Every node of the original list with its position. */
  ghost function PositionsOf(s: seq<ListHead>): (pos: Positions)
    requires NoDup(s)
    ensures forall i :: 0 <= i < |s| ==> s[i] in pos && pos[s[i]] == i
  {
    map n | n in s :: IndexOf(s, n)
  }

  ghost function IndexOf(s: seq<ListHead>, n: ListHead): (i: nat)
    requires n in s
    ensures i < |s| && s[i] == n
  {
    if s[0] == n then 0 else 1 + IndexOf(s[1..], n)
  }

  lemma {:induction false} SingleRuns(s: seq<ListHead>, lo: nat, val: Keys, pos: Positions)
    requires forall i :: 0 <= i < |s| ==> s[i] in pos && pos[s[i]] == lo + i
    ensures Runs(s, 1, lo, val, pos)
    decreases |s|
  {
    if |s| > 1 {
      SingleRuns(s[1..], lo + 1, val, pos);
    }
  }

  /** Data words of the items of `s`. */
  ghost function DataOf(s: seq<ListHead>): (was: Data)
    reads s`info, Infos(s)`data16
    ensures was.Keys == Infos(s) && forall d :: d in was ==> was[d] == d.data16
  {
    map d | d in Infos(s) :: d.data16
  }

  /** Every data word is what comparisons may have made of its value in `was`. */
  ghost predicate DataEvolved(cmp: Cmp, regen: bool, was: Data)
    reads was.Keys`data16
  {
    forall d :: d in was ==> Evolved(cmp, regen, was[d], d.data16)
  }

  ghost predicate Permutation(s: seq<ListHead>, t: seq<ListHead>) {
    |s| == |t| && multiset(s) == multiset(t)
  }

  /**
    `t` is sorted by the keys now in the heap, and nodes with equal keys stand in
    the order they have in `s`.
  */
  ghost predicate StablySorted(cmp: Cmp, s: seq<ListHead>, t: seq<ListHead>)
    requires NoDup(s)
    reads t`info, Infos(t)`data16, Infos(t)`idx
  {
    var pos := PositionsOf(s);
    forall i, j :: 0 <= i < j < |t| ==>
      && t[i] in pos && t[j] in pos
      && var ki, kj := Key(cmp, t[i].info.data16, t[i].info.idx), Key(cmp, t[j].info.data16, t[j].info.idx);
         ki < kj || (ki == kj && pos[t[i]] < pos[t[j]])
  }

  method Sort(list0: ListHead, cmp: Cmp, res: CoreResults?, ghost s: seq<ListHead>, ghost nodes: set<ListHead>)
    returns (list: ListHead, ghost t: seq<ListHead>, ghost log: Log)
    requires s != [] && Chain(list0, s) && NoDup(s) && Inside(s, nodes)
    requires cmp.CmpComplex? ==> res != null
    modifies nodes`next, Infos(s)`data16, Block(res)`crc, Block(res)`crcstate, Block(res)`crcmatrix
    ensures Chain(list, t) && NoDup(t) && Permutation(s, t)
    ensures StablySorted(cmp, s, t)
    ensures |s| >= 2 ==> forall n :: n in s ==> Settled(cmp, res == null, n.info.data16)
    ensures DataEvolved(cmp, res == null, old(DataOf(s)))
    ensures |s| >= 2 ==> forall n :: n in s ==> Compared(log, n)
    ensures |log| <= Product(|s| - 1, CeilLog2(|s|))
  {
    hide Evolved, Settled, Known, NoDup, Chain, Product, CeilLog2, Pow2, Permutation, StablySorted, DataEvolved,
      Sorting, Logged, Compared;
    ghost var n: nat := |s| - 1;
    var insize := 1;
    list := list0;
    ghost var was, val, k := DataOf(s), map[], 0;
    t, log := s, [];
    NothingLogged(map[]);
    SortStart(cmp, res == null, s);
    NoPass(n);
    while true
      invariant insize == Pow2(k) && (insize < |s| || k == 0)
      invariant Chain(list, t) && Sorting(cmp, res == null, s, t, insize, val, was)
      invariant Logged(map[], val, log) && |log| <= Product(n, k)
      decreases |s| - insize
    {
      var nmerges;
      ghost var val1, more := val, [];
      list, nmerges, t, val, more := SortPass(list, cmp, res, insize, s, t, val, nodes, was);
      OneMorePass(n, k, |log|, |more|);
      LoggedTransitive(map[], val1, val, log, more);
      log := log + more;
      if nmerges <= 1 {
        SortEnd(cmp, res == null, s, t, 2 * insize, val, was, log);
        CallBound(n, k);
        return;
      }
      insize := insize * 2;
      k := k + 1;
    }
  }

  /** The state of the sort of `s` before a pass with runs of width `w`. */
  ghost predicate Sorting(cmp: Cmp, regen: bool, s: seq<ListHead>, t: seq<ListHead>, w: nat, val: Keys, was: Data)
    reads s`info, was.Keys`data16, was.Keys`idx
  {
    var nodes := set n | n in s;
    && s != [] && w > 0 && NoDup(s) && NoDup(t) && Permutation(s, t) && Inside(t, nodes)
    && Runs(t, w, 0, val, PositionsOf(s)) && Known(cmp, regen, val, nodes, was)
  }

  method SortPass(list0: ListHead, cmp: Cmp, res: CoreResults?, insize: nat, ghost s: seq<ListHead>,
                  ghost t0: seq<ListHead>, ghost val0: Keys, ghost all: set<ListHead>, ghost was: Data)
    returns (list: ListHead, nmerges: nat, ghost t: seq<ListHead>, ghost val: Keys, ghost log: Log)
    requires cmp.CmpComplex? ==> res != null
    requires Chain(list0, t0) && Sorting(cmp, res == null, s, t0, insize, val0, was) && Inside(s, all)
    modifies all`next, was.Keys`data16, Block(res)`crc, Block(res)`crcstate, Block(res)`crcmatrix
    ensures Chain(list, t) && Sorting(cmp, res == null, s, t, 2 * insize, val, was)
    ensures Logged(val0, val, log) && |log| < |s|
    ensures nmerges <= 1 <==> |s| <= 2 * insize
  {
    hide Evolved, Settled, Key, Ordered, Before, Known, Extends, NoDup, Runs, Run, Linked, Chain, Permutation, Logged;
    ghost var nodes := set n | n in s;
    assert nodes <= all;
    PermutationLength(s, t0);
    list, nmerges, t, val, log := MergePass(cmp, res, list0, insize, t0, val0, PositionsOf(s), nodes, was);
    PermutationStep(s, t0, t, nodes);
  }

  lemma PermutationLength(s: seq<ListHead>, t: seq<ListHead>)
    requires Permutation(s, t)
    ensures |s| == |t|
  {
  }

  lemma NoPass(n: nat)
    ensures Product(n, 0) == 0 && Pow2(0) == 1
  {
  }

  lemma OneMorePass(n: nat, k: nat, calls: nat, more: nat)
    requires calls <= Product(n, k) && more <= n
    ensures calls + more <= Product(n, k + 1)
    ensures Pow2(k + 1) == 2 * Pow2(k)
  {
  }

  lemma CallBound(n: nat, k: nat)
    requires (Pow2(k) < n + 1 || k == 0) && n + 1 <= Pow2(k + 1)
    ensures Product(n, k + 1) == Product(n, CeilLog2(n + 1))
  {
    if n > 0 {
      assert Pow2(0) == 1;
      CeilLog2Between(n + 1, k);
    }
  }

  lemma PermutationStep(s: seq<ListHead>, t0: seq<ListHead>, t: seq<ListHead>, nodes: set<ListHead>)
    requires Permutation(s, t0) && |t| == |t0| && multiset(t) == multiset(t0) && Inside(t0, nodes)
    ensures Permutation(s, t) && |t| == |s| && Inside(t, nodes)
  {
    forall i | 0 <= i < |t| ensures t[i] in nodes {
      assert t[i] in multiset(t);
      assert t[i] in t0;
    }
  }

  lemma SortStart(cmp: Cmp, regen: bool, s: seq<ListHead>)
    requires s != [] && NoDup(s)
    ensures Sorting(cmp, regen, s, s, 1, map[], DataOf(s))
  {
    hide Evolved, Runs;
    var was := DataOf(s);
    SingleRuns(s, 0, map[], PositionsOf(s));
    forall n | n in s ensures n.info in was {
      var i :| 0 <= i < |s| && s[i] == n;
    }
    forall d | d in was ensures Evolved(cmp, regen, was[d], d.data16) {
      EvolvedReflexive(cmp, regen, d.data16);
    }
  }

  /** A list that is one run is sorted and stable, and all its nodes were compared. */
  lemma SortEnd(cmp: Cmp, regen: bool, s: seq<ListHead>, t: seq<ListHead>, w: nat, val: Keys, was: Data, log: Log)
    requires Sorting(cmp, regen, s, t, w, val, was) && |s| <= w && Logged(map[], val, log)
    ensures NoDup(t) && Permutation(s, t) && StablySorted(cmp, s, t)
    ensures |s| >= 2 ==> forall n :: n in s ==> Settled(cmp, regen, n.info.data16) && Compared(log, n)
    ensures DataEvolved(cmp, regen, was)
  {
    hide Evolved, Settled, Key, NoDup, Compared;
    var pos := PositionsOf(s);
    forall i, j | 0 <= i < j < |t| ensures Before(val, pos, t[i], t[j]) {
    }
    if |s| >= 2 {
      forall n | n in s ensures Settled(cmp, regen, n.info.data16) && Compared(log, n) {
        assert n in multiset(t);
        var i :| 0 <= i < |t| && t[i] == n;
        assert Before(val, pos, t[0], t[1]);
        if i > 0 { assert Before(val, pos, t[0], t[i]); }
      }
    }
  }
}
