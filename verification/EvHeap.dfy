/**
  The 4-ary timer heap of the event loop: an array of entries that cache their watcher's time, with each
  watcher holding its own slot number.
 */
module EvHeap {
  const DHEAP: int := 4
  const HEAP0: int := DHEAP - 1  // slot of the first element

  /** A timer or periodic watcher. */
  class Watcher {
    const priority: nat
    var active: int
    var pending: int
    var at: real
    var repeat: real    // of a timer: the time between two invocations, or 0
    var offset: real    // of a periodic
    var interval: real  // of a periodic: as repeat, counted from the offset

    constructor (priority: nat, at: real, repeat: real, offset: real, interval: real)
      ensures this.priority == priority && this.at == at && active == 0 && pending == 0
      ensures this.repeat == repeat && this.offset == offset && this.interval == interval
    {
      this.priority, this.at, this.repeat, this.offset, this.interval := priority, at, repeat, offset, interval;
      active, pending := 0, 0;
    }
  }

  datatype ANHE = ANHE(w: Watcher, at: real)

  /** C division truncates towards zero. */
  function CDiv(a: int, b: int): int
    requires b > 0
  {
    if a >= 0 then a / b else -((-a) / b)
  }

  function HParent(k: int): int {
    CDiv(k - HEAP0 - 1, DHEAP) + HEAP0
  }

  // ----- heaps as sequences; position i stands for slot i + HEAP0

  function Par(i: int): int
    requires i > 0
  {
    (i - 1) / 4
  }

  lemma ParentSlot(k: int)
    requires k >= HEAP0
    ensures HParent(k) == if k == HEAP0 then HEAP0 else Par(k - HEAP0) + HEAP0
    ensures k > HEAP0 ==> HEAP0 <= HParent(k) < k
  {
  }

  predicate EdgeOk(h: seq<ANHE>, i: int)
    requires 0 < i < |h|
  {
    h[Par(i)].at <= h[i].at
  }

  predicate HeapOk(h: seq<ANHE>) {
    forall i {:trigger EdgeOk(h, i)} :: 0 < i < |h| ==> EdgeOk(h, i)
  }

  predicate Child(h: seq<ANHE>, k: int, i: int) {
    0 < i < |h| && Par(i) == k
  }

  /** Every child of k is at least the parent of k. */
  ghost predicate Bridged(h: seq<ANHE>, k: int) {
    0 < k < |h| ==> forall i {:trigger Child(h, k, i)} :: Child(h, k, i) ==> h[Par(k)].at <= h[i].at
  }

  /** A heap but for the edge from k up to its parent. */
  ghost predicate UpOk(h: seq<ANHE>, k: int) {
    && 0 <= k < |h| && Bridged(h, k)
    && (forall i {:trigger EdgeOk(h, i)} :: 0 < i < |h| && i != k ==> EdgeOk(h, i))
  }

  /** A heap but for the edges from k down to its children. */
  ghost predicate DownOk(h: seq<ANHE>, k: int) {
    && 0 <= k < |h| && Bridged(h, k)
    && (forall i {:trigger EdgeOk(h, i)} :: 0 < i < |h| && Par(i) != k ==> EdgeOk(h, i))
  }

  function Swap<T>(h: seq<T>, i: int, j: int): seq<T>
    requires 0 <= i < |h| && 0 <= j < |h|
  {
    h[i := h[j]][j := h[i]]
  }

  lemma SwapMultiset<T>(h: seq<T>, i: int, j: int)
    requires 0 <= i < |h| && 0 <= j < |h|
    ensures multiset(Swap(h, i, j)) == multiset(h)
  {
    assert Swap(h, i, j)[..] == Swap(h, i, j) && h[..] == h;
  }

  lemma UpSwap(h: seq<ANHE>, k: int)
    requires UpOk(h, k) && k > 0 && h[k].at < h[Par(k)].at
    ensures UpOk(Swap(h, Par(k), k), Par(k))
  {
    var p := Par(k);
    var h' := Swap(h, p, k);
    forall i | 0 < i < |h| && i != p ensures EdgeOk(h', i) {
      assert i != k ==> EdgeOk(h, i);
      assert Child(h, k, i) ==> h[p].at <= h[i].at;
    }
    if p > 0 {
      assert EdgeOk(h, p);
      forall i | Child(h', p, i) ensures h'[Par(p)].at <= h'[i].at {
        assert i != k ==> EdgeOk(h, i);
      }
    }
  }

  lemma UpDone(h: seq<ANHE>, k: int)
    requires UpOk(h, k) && (k == 0 || h[Par(k)].at <= h[k].at)
    ensures HeapOk(h)
  {
  }

  /** m is a least child of k. */
  ghost predicate LeastChild(h: seq<ANHE>, k: int, m: int) {
    && 0 <= k < m < |h| && Par(m) == k
    && (forall i {:trigger Child(h, k, i)} :: Child(h, k, i) ==> h[m].at <= h[i].at)
  }

  lemma DownSwap(h: seq<ANHE>, k: int, m: int)
    requires DownOk(h, k) && LeastChild(h, k, m) && h[m].at < h[k].at
    ensures DownOk(Swap(h, k, m), m)
  {
    var h' := Swap(h, k, m);
    forall i | 0 < i < |h| && Par(i) != m ensures EdgeOk(h', i) {
      if Par(i) != k {
        assert EdgeOk(h, i);
      } else {
        assert Child(h, k, i);
      }
      if i == k {
        assert Child(h, k, m);
      }
    }
    forall i | Child(h', m, i) ensures h'[Par(m)].at <= h'[i].at {
      assert EdgeOk(h, i);
    }
  }

  lemma DownDone(h: seq<ANHE>, k: int)
    requires DownOk(h, k) && (forall i {:trigger Child(h, k, i)} :: Child(h, k, i) ==> h[k].at <= h[i].at)
    ensures HeapOk(h)
  {
    forall i | 0 < i < |h| ensures EdgeOk(h, i) {
      if Par(i) == k {
        assert Child(h, k, i);
      }
    }
  }

  /** Giving one position of a heap another entry breaks it towards the root or away from it, never both. */
  lemma Disturb(h: seq<ANHE>, k: int, e: ANHE)
    requires HeapOk(h) && 0 <= k < |h|
    ensures if k > 0 && e.at <= h[Par(k)].at then UpOk(h[k := e], k) else DownOk(h[k := e], k)
  {
    var h' := h[k := e];
    forall i | 0 < i < |h| && i != k && Par(i) != k ensures EdgeOk(h', i) {
      assert EdgeOk(h, i);
    }
    forall i | Child(h', k, i) ensures k > 0 ==> h'[Par(k)].at <= h'[i].at {
      assert EdgeOk(h, i);
      assert k > 0 ==> EdgeOk(h, k);
    }
    if k > 0 && e.at <= h[Par(k)].at {
      forall i | 0 < i < |h| && i != k ensures EdgeOk(h', i) {
        assert EdgeOk(h, i) && EdgeOk(h, k);
      }
    }
  }

  /** The root of a heap holds a least time. */
  lemma {:induction false} RootIsLeast(h: seq<ANHE>, i: nat)
    requires HeapOk(h) && i < |h|
    ensures h[0].at <= h[i].at
  {
    if i > 0 {
      RootIsLeast(h, Par(i));
      assert EdgeOk(h, i);
    }
  }

  // ----- the array in place

  function Watchers(h: seq<ANHE>): set<Watcher> {
    set e | e in h :: e.w
  }

  /** No watcher sits in two slots. */
  predicate NoDup(h: seq<ANHE>) {
    forall i, j {:trigger h[i].w, h[j].w} :: 0 <= i < j < |h| ==> h[i].w != h[j].w
  }

  /** Every watcher but the one at position k knows its slot. */
  ghost predicate IndexedBut(h: seq<ANHE>, k: int)
    reads Watchers(h)`active
  {
    forall i {:trigger h[i].w} :: 0 <= i < |h| && i != k ==> h[i].w.active == i + HEAP0
  }

  /** The same entries in another order, no watcher twice. */
  ghost predicate Shuffled(h: seq<ANHE>, h0: seq<ANHE>) {
    |h| == |h0| && multiset(h) == multiset(h0) && Watchers(h) == Watchers(h0) && NoDup(h)
  }

  /** The least child does not depend on what fills the hole above. */
  lemma ChildStays(h: seq<ANHE>, k: int, m: int, he: ANHE)
    requires 0 <= k < |h| && LeastChild(h, k, m)
    ensures LeastChild(h[k := he], k, m)
  {
    var h' := h[k := he];
    forall i | Child(h', k, i) ensures h'[m].at <= h'[i].at {
      assert Child(h, k, i);
    }
  }

  lemma SwapBack(h: seq<ANHE>, i: int, j: int)
    requires 0 <= i < |h| && 0 <= j < |h|
    ensures Swap(h, i, j) == Swap(h, j, i)
  {
  }

  lemma SwapWatchers(h: seq<ANHE>, i: int, j: int)
    requires 0 <= i < |h| && 0 <= j < |h|
    ensures Watchers(Swap(h, i, j)) == Watchers(h)
  {
    var h' := Swap(h, i, j);
    assert h'[i] == h[j] && h'[j] == h[i];
    forall e | e in h ensures e in h' {
      var n :| 0 <= n < |h| && h[n] == e;
      assert h'[if n == i then j else if n == j then i else n] == e;
    }
  }

  lemma ShuffleSwap(h: seq<ANHE>, h0: seq<ANHE>, i: int, j: int)
    requires Shuffled(h, h0) && 0 <= i < |h| && 0 <= j < |h|
    ensures Shuffled(Swap(h, i, j), h0)
  {
    SwapMultiset(h, i, j);
    SwapWatchers(h, i, j);
    var h' := Swap(h, i, j);
    assert h'[i] == h[j] && h'[j] == h[i];
  }

  lemma DownShuffle(h: seq<ANHE>, h0: seq<ANHE>, k: int, m: int)
    requires 0 <= k < m < |h| && DownOk(h, k) && LeastChild(h, k, m) && h[m].at < h[k].at && Shuffled(h, h0)
    ensures DownOk(Swap(h, m, k), m) && Shuffled(Swap(h, m, k), h0)
  {
    DownSwap(h, k, m);
    ShuffleSwap(h, h0, m, k);
    SwapBack(h, k, m);
  }

  /** One more entry behind a heap breaks only its own edge. */
  lemma PrefixUp(h: seq<ANHE>, n: int)
    requires 0 <= n < |h| && HeapOk(h[..n])
    ensures UpOk(h[..n + 1], n)
  {
    var h' := h[..n + 1];
    forall j {:trigger EdgeOk(h', j)} | 0 < j < n ensures EdgeOk(h', j) {
      assert EdgeOk(h[..n], j);
    }
  }

  lemma AppendFacts(h: seq<ANHE>, e: ANHE)
    requires HeapOk(h) && NoDup(h) && e.w !in Watchers(h)
    ensures NoDup(h + [e]) && Watchers(h + [e]) == Watchers(h) + {e.w} && UpOk((h + [e])[..|h| + 1], |h|)
    ensures multiset(h + [e]) == multiset(h) + multiset{e}
  {
    var h' := h + [e];
    assert h'[..|h|] == h && h'[..|h| + 1] == h' && h'[|h|] == e;
    PrefixUp(h', |h|);
    forall w | w in Watchers(h) + {e.w} ensures w in Watchers(h') {
      if w in Watchers(h) {
        var f :| f in h && f.w == w;
        assert f in h';
      }
    }
    forall i | 0 <= i < |h| ensures h[i].w != e.w {
      assert h[i] in h;
    }
  }

  lemma UpdateFacts(h: seq<ANHE>, i: nat, e: ANHE)
    requires NoDup(h) && i < |h| && e.w == h[i].w
    ensures NoDup(h[i := e]) && Watchers(h[i := e]) == Watchers(h)
    ensures multiset(h[i := e]) == multiset(h) - multiset{h[i]} + multiset{e}
  {
    var h' := h[i := e];
    forall w ensures w in Watchers(h) <==> w in Watchers(h') {
      if w in Watchers(h) {
        var f :| f in h && f.w == w;
        var j :| 0 <= j < |h| && h[j] == f;
        assert h'[j].w == w && h'[j] in h';
      }
      if w in Watchers(h') {
        var f :| f in h' && f.w == w;
        var j :| 0 <= j < |h'| && h'[j] == f;
        assert h[j].w == w && h[j] in h;
      }
    }
  }

  /** The array without the entry at i, its place taken by the last. */
  function Cut(h: seq<ANHE>, i: nat): seq<ANHE>
    requires i < |h|
  {
    h[i := h[|h| - 1]][..|h| - 1]
  }

  lemma Cancel<T>(x: multiset<T>, y: multiset<T>, z: multiset<T>)
    requires x + z == y + z
    ensures x == y
  {
    forall e ensures x[e] == y[e] {
      assert (x + z)[e] == (y + z)[e];
    }
  }

  lemma CutMultiset(h: seq<ANHE>, i: nat)
    requires i < |h|
    ensures multiset(Cut(h, i)) == multiset(h) - multiset{h[i]}
  {
    var n := |h| - 1;
    var g := h[i := h[n]];
    assert g == g[..n] + [g[n]];
    assert multiset(g) == multiset(h) - multiset{h[i]} + multiset{h[n]};
    assert multiset(g) == multiset(g[..n]) + multiset{h[n]};
    Cancel(multiset(g[..n]), multiset(h) - multiset{h[i]}, multiset{h[n]});
  }

  lemma RemoveFacts(h: seq<ANHE>, i: nat)
    requires HeapOk(h) && NoDup(h) && i < |h|
    ensures var g := Cut(h, i);
      && NoDup(g) && Watchers(g) == Watchers(h) - {h[i].w} && multiset(g) == multiset(h) - multiset{h[i]}
      && HeapOk(h[..|h| - 1])
  {
    var g, n := Cut(h, i), |h| - 1;
    CutMultiset(h, i);
    assert forall j {:trigger g[j]} :: 0 <= j < n ==> g[j] == if j == i then h[n] else h[j];
    forall w ensures w in Watchers(g) <==> w in Watchers(h) && w != h[i].w {
      if w in Watchers(g) {
        var f :| f in g && f.w == w;
        var j :| 0 <= j < n && g[j] == f;
        assert h[if j == i then n else j] == f && f in h;
      }
      if w in Watchers(h) && w != h[i].w {
        var f :| f in h && f.w == w;
        var j :| 0 <= j < |h| && h[j] == f;
        assert g[if j == n then i else j] == f && f in g;
      }
    }
    forall j | 0 < j < n ensures EdgeOk(h[..n], j) {
      assert EdgeOk(h, j);
    }
  }

  lemma CutIndexed(h: seq<ANHE>, i: nat)
    requires i < |h| && IndexedBut(h, -1)
    ensures IndexedBut(Cut(h, i), i)
  {
    var g := Cut(h, i);
    forall j | 0 <= j < |g| && j != i ensures g[j].w.active == j + HEAP0 {
      assert g[j] == h[j];
    }
  }

  // ----- heaps as maps

  lemma Unique(h: seq<ANHE>)
    requires NoDup(h)
    ensures forall e, f {:trigger e in h, f in h} :: e in h && f in h && e.w == f.w ==> e == f
  {
    forall e, f | e in h && f in h && e.w == f.w ensures e == f {
      var i :| 0 <= i < |h| && h[i] == e;
      var j :| 0 <= j < |h| && h[j] == f;
      assert i < j || j < i || i == j;
    }
  }

  /** The map says of exactly these watchers when they are due. */
  ghost predicate TimesOf(h: seq<ANHE>, t: map<Watcher, real>) {
    t.Keys == Watchers(h) && forall e {:trigger e in h} :: e in h ==> t[e.w] == e.at
  }

  lemma LastTime(h: seq<ANHE>, t: map<Watcher, real>)
    requires NoDup(h) && h != [] && TimesOf(h[..|h| - 1], t)
    ensures TimesOf(h, t[h[|h| - 1].w := h[|h| - 1].at])
  {
    var n := |h| - 1;
    var t' := t[h[n].w := h[n].at];
    assert h == h[..n] + [h[n]];
    forall e | e in h ensures e.w in t' && t'[e.w] == e.at {
      var i :| 0 <= i < |h| && h[i] == e;
      assert i < n ==> h[..n][i] == e;
    }
    forall w | w in Watchers(h) ensures w in t' {
      var e :| e in h && e.w == w;
    }
  }

  /** What a heap array stands for: when each watcher in it is due. */
  ghost function Times(h: seq<ANHE>): (t: map<Watcher, real>)
    requires NoDup(h)
    ensures TimesOf(h, t)
  {
    if h == [] then map[]
    else
      var n := |h| - 1;
      LastTime(h, Times(h[..n]));
      Times(h[..n])[h[n].w := h[n].at]
  }

  /** Two arrays stand for the same map as soon as each entry of the one is as the other map says. */
  lemma TimesAre(h: seq<ANHE>, t: map<Watcher, real>)
    requires NoDup(h) && t.Keys == Watchers(h)
    requires forall e {:trigger e in h} :: e in h ==> t[e.w] == e.at
    ensures Times(h) == t
  {
    var t' := Times(h);
    assert t'.Keys == t.Keys;
    forall w | w in t ensures w in t' && t'[w] == t[w] {
      var e :| e in h && e.w == w;
    }
  }

  lemma SameTimes(h: seq<ANHE>, h0: seq<ANHE>)
    requires Shuffled(h, h0) && NoDup(h0)
    ensures Times(h) == Times(h0)
  {
    forall e | e in h ensures e in h0 {
      assert e in multiset(h);
    }
    TimesAre(h, Times(h0));
  }

  lemma TimesPlus(h: seq<ANHE>, h0: seq<ANHE>, e: ANHE)
    requires NoDup(h) && NoDup(h0) && e.w !in Watchers(h0)
    requires multiset(h) == multiset(h0) + multiset{e} && Watchers(h) == Watchers(h0) + {e.w}
    ensures Times(h) == Times(h0)[e.w := e.at]
  {
    forall f | f in h ensures f in h0 || f == e {
      assert f in multiset(h);
    }
    TimesAre(h, Times(h0)[e.w := e.at]);
  }

  lemma TimesMinus(h: seq<ANHE>, h0: seq<ANHE>, e: ANHE)
    requires NoDup(h) && NoDup(h0) && e in h0
    requires multiset(h) == multiset(h0) - multiset{e} && Watchers(h) == Watchers(h0) - {e.w}
    ensures Times(h) == Times(h0) - {e.w}
  {
    forall f | f in h ensures f in h0 {
      assert f in multiset(h);
    }
    TimesAre(h, Times(h0) - {e.w});
  }

  lemma TimesMoved(h: seq<ANHE>, h0: seq<ANHE>, e: ANHE, at: real)
    requires NoDup(h) && NoDup(h0) && e in h0
    requires multiset(h) == multiset(h0) - multiset{e} + multiset{ANHE(e.w, at)} && Watchers(h) == Watchers(h0)
    ensures Times(h) == Times(h0)[e.w := at]
  {
    var e' := ANHE(e.w, at);
    assert e' in multiset(h) && e' in h;
    Unique(h);
    Unique(h0);
    forall f | f in h ensures Times(h0)[e.w := at][f.w] == f.at {
      assert f in multiset(h);
      assert f == e' || f in h0;
    }
    TimesAre(h, Times(h0)[e.w := at]);
  }

  class Heap {
    var a: seq<ANHE>

    constructor ()
      ensures a == []
    {
      a := [];
    }

    /** The array with he put into the hole at position k. */
    ghost function Filled(k: int, he: ANHE): seq<ANHE>
      requires 0 <= k < |a|
      reads this`a
    {
      a[k := he]
    }

    /** Moves the hole from slot k to slot p: the entry at p moves to k and its watcher learns so. */
    method MoveHole(k: int, p: int, ghost he: ANHE)
      requires HEAP0 <= k < |a| + HEAP0 && HEAP0 <= p < |a| + HEAP0 && k != p
      requires NoDup(Filled(k - HEAP0, he)) && IndexedBut(Filled(k - HEAP0, he), k - HEAP0)
      modifies this`a, Watchers(Filled(k - HEAP0, he))`active
      ensures |a| == |old(a)| && Filled(p - HEAP0, he) == Swap(old(Filled(k - HEAP0, he)), p - HEAP0, k - HEAP0)
      ensures IndexedBut(Filled(p - HEAP0, he), p - HEAP0)
    {
      ghost var h := Filled(k - HEAP0, he);
      assert h[p - HEAP0] == a[p - HEAP0] && h[p - HEAP0] in h;
      a := a[k - HEAP0 := a[p - HEAP0]];
      a[k - HEAP0].w.active := k;
      ghost var h' := Filled(p - HEAP0, he);
      assert h' == Swap(h, p - HEAP0, k - HEAP0);
      forall i | 0 <= i < |h'| && i != p - HEAP0 ensures h'[i].w.active == i + HEAP0 {
        assert h'[i] == h[if i == k - HEAP0 then p - HEAP0 else i];
        assert h[p - HEAP0].w == h[i].w <==> i == p - HEAP0;
      }
    }

    /** Puts he into the hole. */
    method FillHole(k: int, he: ANHE)
      requires HEAP0 <= k < |a| + HEAP0
      requires NoDup(Filled(k - HEAP0, he)) && IndexedBut(Filled(k - HEAP0, he), k - HEAP0)
      modifies this`a, he.w`active
      ensures a == old(Filled(k - HEAP0, he)) && IndexedBut(a, -1)
    {
      a := a[k - HEAP0 := he];
      he.w.active := k;
      forall i | 0 <= i < |a| ensures a[i].w.active == i + HEAP0 {
        assert a[i].w == a[k - HEAP0].w <==> i == k - HEAP0;
      }
    }

    /** The hole at slot k may be filled with he but for the edge to its parent. */
    ghost predicate Rising(k: int, he: ANHE, n: nat, h0: seq<ANHE>)
      reads this`a, Watchers(h0)`active
    {
      && HEAP0 <= k < n + HEAP0 && n <= |a| && Shuffled(Filled(k - HEAP0, he), h0)
      && UpOk(Filled(k - HEAP0, he)[..n], k - HEAP0) && IndexedBut(Filled(k - HEAP0, he), k - HEAP0)
    }

    method RaiseHole(k: int, p: int, ghost he: ANHE, ghost n: nat, ghost h0: seq<ANHE>)
      requires Rising(k, he, n, h0) && k > HEAP0 && p == HParent(k) && HEAP0 <= p < k && he.at < a[p - HEAP0].at
      modifies this`a, Watchers(h0)`active
      ensures Rising(p, he, n, h0)
    {
      ghost var h := Filled(k - HEAP0, he);
      ParentSlot(k);
      UpSwap(h[..n], k - HEAP0);
      ShuffleSwap(h, h0, p - HEAP0, k - HEAP0);
      ghost var h' := Swap(h, p - HEAP0, k - HEAP0);
      assert h'[..n] == Swap(h[..n], p - HEAP0, k - HEAP0);
      assert UpOk(h'[..n], p - HEAP0) && Shuffled(h', h0);
      MoveHole(k, p, he);
      assert Filled(p - HEAP0, he) == h';
    }

    /** The hole has come to where it may be filled. */
    method SettleUp(k: int, he: ANHE, ghost n: nat, ghost h0: seq<ANHE>)
      requires Rising(k, he, n, h0) && (k > HEAP0 ==> a[HParent(k) - HEAP0].at <= he.at) && he.w in Watchers(h0)
      modifies this`a, Watchers(h0)`active
      ensures Shuffled(a, h0) && HeapOk(a[..n]) && IndexedBut(a, -1)
    {
      ParentSlot(k);
      UpDone(Filled(k - HEAP0, he)[..n], k - HEAP0);
      FillHole(k, he);
    }

    /** Moves the entry at slot k towards the root of the heap formed by the first n entries. */
    method Upheap(k0: int, ghost n: nat)
      requires HEAP0 <= k0 < n + HEAP0 && n <= |a|
      requires NoDup(a) && UpOk(a[..n], k0 - HEAP0) && IndexedBut(a, k0 - HEAP0)
      modifies this`a, Watchers(a)`active
      ensures Shuffled(a, old(a)) && HeapOk(a[..n]) && IndexedBut(a, -1)
    {
      var k := k0;
      var he := a[k - HEAP0];
      ghost var h0 := a;
      assert Filled(k - HEAP0, he) == a && he in a;
      while true
        invariant Rising(k, he, n, h0)
        decreases k
      {
        var p := HParent(k);
        ParentSlot(k);
        if p == k || a[p - HEAP0].at <= he.at {
          break;
        }
        RaiseHole(k, p, he, n, h0);
        k := p;
      }
      SettleUp(k, he, n, h0);
    }

    /** The search for the least child of slot k: all four children exist, or some, or none. */
    method MinChild(k: int) returns (found: bool, minpos: int)
      requires HEAP0 <= k < |a| + HEAP0
      ensures !found ==> forall i {:trigger Child(a, k - HEAP0, i)} :: !Child(a, k - HEAP0, i)
      ensures found ==> LeastChild(a, k - HEAP0, minpos - HEAP0)
    {
      var pos := DHEAP * (k - HEAP0) + HEAP0 + 1;
      var end := |a| + HEAP0;
      var q := pos - HEAP0;  // position of the first child
      minpos := pos;
      if pos + DHEAP - 1 < end {
        if a[q + 1].at < a[minpos - HEAP0].at { minpos := pos + 1; }
        if a[q + 2].at < a[minpos - HEAP0].at { minpos := pos + 2; }
        if a[q + 3].at < a[minpos - HEAP0].at { minpos := pos + 3; }
      } else if pos < end {
        if pos + 1 < end && a[q + 1].at < a[minpos - HEAP0].at { minpos := pos + 1; }
        if pos + 2 < end && a[q + 2].at < a[minpos - HEAP0].at { minpos := pos + 2; }
        // the slow path's test of a fourth child can never succeed here: the fast path would have been taken
      } else {
        return false, pos;
      }
      found := true;
      forall i | Child(a, k - HEAP0, i) ensures a[minpos - HEAP0].at <= a[i].at {
        assert i == q || i == q + 1 || i == q + 2 || i == q + 3;
      }
    }

    /** The hole at slot k may be filled with he but for the edges to its children. */
    ghost predicate Falling(k: int, he: ANHE, h0: seq<ANHE>)
      reads this`a, Watchers(h0)`active
    {
      && HEAP0 <= k < |a| + HEAP0 && Shuffled(Filled(k - HEAP0, he), h0)
      && DownOk(Filled(k - HEAP0, he), k - HEAP0) && IndexedBut(Filled(k - HEAP0, he), k - HEAP0)
    }

    method LowerHole(k: int, m: int, ghost he: ANHE, ghost h0: seq<ANHE>)
      requires Falling(k, he, h0) && HEAP0 <= k < m < |a| + HEAP0
      requires LeastChild(a, k - HEAP0, m - HEAP0) && a[m - HEAP0].at < he.at
      modifies this`a, Watchers(h0)`active
      ensures Falling(m, he, h0) && |a| == |old(a)|
    {
      ghost var h := Filled(k - HEAP0, he);
      ChildStays(a, k - HEAP0, m - HEAP0, he);
      DownShuffle(h, h0, k - HEAP0, m - HEAP0);
      MoveHole(k, m, he);
    }

    lemma HoleSettled(k: int, he: ANHE, found: bool, minpos: int)
      requires HEAP0 <= k < |a| + HEAP0 && DownOk(Filled(k - HEAP0, he), k - HEAP0)
      requires !found ==> forall i {:trigger Child(a, k - HEAP0, i)} :: !Child(a, k - HEAP0, i)
      requires found ==> LeastChild(a, k - HEAP0, minpos - HEAP0) && he.at <= a[minpos - HEAP0].at
      ensures HeapOk(Filled(k - HEAP0, he))
    {
      var h := Filled(k - HEAP0, he);
      forall i | Child(h, k - HEAP0, i) ensures h[k - HEAP0].at <= h[i].at {
        assert Child(a, k - HEAP0, i);
      }
      DownDone(h, k - HEAP0);
    }

    /** Moves the entry at slot k away from the root. */
    method Downheap(k0: int)
      requires HEAP0 <= k0 < |a| + HEAP0
      requires NoDup(a) && DownOk(a, k0 - HEAP0) && IndexedBut(a, k0 - HEAP0)
      modifies this`a, Watchers(a)`active
      ensures Shuffled(a, old(a)) && HeapOk(a) && IndexedBut(a, -1)
    {
      var k := k0;
      var he := a[k - HEAP0];
      ghost var h0 := a;
      assert Filled(k - HEAP0, he) == a && he in a;
      while true
        invariant Falling(k, he, h0)
        decreases |a| + HEAP0 - k
      {
        var found, minpos := MinChild(k);
        if !found || he.at <= a[minpos - HEAP0].at {
          HoleSettled(k, he, found, minpos);
          break;
        }
        LowerHole(k, minpos, he, h0);
        k := minpos;
      }
      FillHole(k, he);
    }

    /** Moves an entry suitably after its time has changed: the rest of the array is a heap around it. */
    method Adjustheap(k: int, ghost e: ANHE)
      requires HEAP0 <= k < |a| + HEAP0 && NoDup(a) && IndexedBut(a, k - HEAP0)
      requires HeapOk(a[k - HEAP0 := e])
      modifies this`a, Watchers(a)`active
      ensures Shuffled(a, old(a)) && HeapOk(a) && IndexedBut(a, -1)
    {
      ghost var i := k - HEAP0;
      assert a[i := e][i := a[i]] == a && a[..|a|] == a;
      Disturb(a[i := e], i, a[i]);
      ParentSlot(k);
      if k > HEAP0 && a[k - HEAP0].at <= a[HParent(k) - HEAP0].at {
        Upheap(k, |a|);
        assert a[..|a|] == a;
      } else {
        Downheap(k);
      }
    }

    /** Rebuilds the heap from any order. */
    method Reheap()
      requires NoDup(a) && IndexedBut(a, -1)
      modifies this`a, Watchers(a)`active
      ensures Shuffled(a, old(a)) && HeapOk(a) && IndexedBut(a, -1)
    {
      for i := 0 to |a|
        invariant Shuffled(a, old(a)) && HeapOk(a[..i]) && IndexedBut(a, -1)
      {
        PrefixUp(a, i);
        Upheap(i + HEAP0, i + 1);
        assert Shuffled(a, old(a));
      }
      assert a[..|a|] == a;
    }

    /** What verify_heap asserts of order and slots. */
    ghost predicate Sound()
      reads this`a, Watchers(a)`active
    {
      HeapOk(a) && NoDup(a) && IndexedBut(a, -1)
    }

    /** Appends an entry and moves it into place. */
    method Add(e: ANHE)
      requires Sound() && e.w !in Watchers(a)
      modifies this`a, Watchers(a)`active, e.w`active
      ensures Sound() && multiset(a) == multiset(old(a)) + multiset{e} && Watchers(a) == Watchers(old(a)) + {e.w}
    {
      ghost var h := a;
      e.w.active := |a| + HEAP0;
      a := a + [e];
      AppendFacts(h, e);
      Upheap(e.w.active, |a|);
      assert a[..|a|] == a;
    }

    /** Takes the entry at slot k out: the last entry takes its place and is moved from there. */
    method Remove(k: int)
      requires Sound() && HEAP0 <= k < |a| + HEAP0
      modifies this`a, Watchers(a)`active
      ensures Sound() && multiset(a) == multiset(old(a)) - multiset{old(a)[k - HEAP0]}
      ensures Watchers(a) == Watchers(old(a)) - {old(a)[k - HEAP0].w}
    {
      ghost var h, i := a, k - HEAP0;
      var n := |a| - 1;
      RemoveFacts(h, i);
      if k < n + HEAP0 {
        a := a[k - HEAP0 := a[n]][..n];
        assert a == Cut(h, i) && a[i := h[i]] == h[..n];
        CutIndexed(h, i);
        Adjustheap(k, h[i]);
      } else {
        a := a[..n];
        assert a == Cut(h, i);
        CutIndexed(h, i);
      }
    }

    /** Gives the watcher at the root a time another time and moves its entry down. */
    method Postpone(at: real)
      requires Sound() && a != []
      modifies this`a, Watchers(a)`active
      ensures Sound() && Watchers(a) == Watchers(old(a))
      ensures multiset(a) == multiset(old(a)) - multiset{old(a)[0]} + multiset{ANHE(old(a)[0].w, at)}
    {
      ghost var h := a;
      a := a[0 := ANHE(a[0].w, at)];
      UpdateFacts(h, 0, ANHE(h[0].w, at));
      Disturb(h, 0, ANHE(h[0].w, at));
      Downheap(HEAP0);
    }

    /** Gives the watcher at slot k another time and moves its entry. */
    method Retime(k: int, at: real)
      requires Sound() && HEAP0 <= k < |a| + HEAP0
      modifies this`a, Watchers(a)`active
      ensures Sound() && Watchers(a) == Watchers(old(a))
      ensures multiset(a) == multiset(old(a)) - multiset{old(a)[k - HEAP0]} + multiset{ANHE(old(a)[k - HEAP0].w, at)}
    {
      ghost var h, i := a, k - HEAP0;
      a := a[k - HEAP0 := ANHE(a[k - HEAP0].w, at)];
      UpdateFacts(h, i, ANHE(h[i].w, at));
      assert a[i := h[i]] == h;
      Adjustheap(k, h[i]);
    }

    /** The array is a heap that stands for the map t, and its watchers know their slots. */
    ghost predicate Is(t: map<Watcher, real>)
      reads this`a, t.Keys`active
    {
      Watchers(a) == t.Keys && Sound() && Times(a) == t
    }

    /** A watcher in the heap sits in the slot it knows. */
    lemma ActiveSlot(w: Watcher, t: map<Watcher, real>)
      requires Is(t) && w in t
      ensures HEAP0 <= w.active < |a| + HEAP0 && a[w.active - HEAP0] == ANHE(w, t[w])
    {
      var e :| e in a && e.w == w;
      var i :| 0 <= i < |a| && a[i] == e;
      assert a[i].w.active == i + HEAP0;
    }

    lemma AllActive(t: map<Watcher, real>)
      requires Is(t)
      ensures forall w {:trigger w.active} :: w in t ==> w.active != 0
    {
      forall w | w in t ensures w.active != 0 {
        ActiveSlot(w, t);
      }
    }

    lemma NowIs(t: map<Watcher, real>)
      requires Sound() && Watchers(a) == t.Keys && Times(a) == t
      ensures Is(t) && forall w {:trigger w.active} :: w in t ==> w.active != 0
    {
      AllActive(t);
    }

    lemma RootIn(t: map<Watcher, real>)
      requires Is(t) && a != []
      ensures a[0].w in t && t[a[0].w] == a[0].at
    {
      assert a[0] in a;
    }

    /** A watcher that has its time enters the heap. */
    method Enter(w: Watcher, ghost t: map<Watcher, real>)
      requires Is(t) && w !in t
      modifies this`a, t.Keys`active, w`active
      ensures Is(t[w := w.at])
      ensures w.active != 0 && forall v {:trigger v.active} :: v in t ==> v.active != 0
    {
      Add(ANHE(w, w.at));
      TimesPlus(a, old(a), ANHE(w, w.at));
      NowIs(t[w := w.at]);
    }

    /** Remove, by what the array stands for. */
    method RemoveIn(ghost w: Watcher, k: int, ghost t: map<Watcher, real>)
      requires Is(t) && w in t && HEAP0 <= k < |a| + HEAP0 && a[k - HEAP0] == ANHE(w, t[w])
      modifies this`a, t.Keys`active
      ensures Is(t - {w})
    {
      ghost var h, e := a, ANHE(w, t[w]);
      assert e in h;
      Remove(k);
      TimesMinus(a, h, e);
    }

    /** A watcher leaves the heap and is no longer active. */
    method Leave(w: Watcher, ghost t: map<Watcher, real>)
      requires Is(t) && w in t
      modifies this`a, t.Keys`active
      ensures Is(t - {w})
      ensures w.active == 0 && forall v {:trigger v.active} :: v in t && v != w ==> v.active != 0
    {
      ActiveSlot(w, t);
      RemoveIn(w, w.active, t);
      AllActive(t - {w});
      w.active := 0;
    }

    /** Retime, by what the array stands for. */
    method RetimeIn(ghost w: Watcher, k: int, at: real, ghost t: map<Watcher, real>)
      requires Is(t) && w in t && HEAP0 <= k < |a| + HEAP0 && a[k - HEAP0] == ANHE(w, t[w])
      modifies this`a, t.Keys`active
      ensures Is(t[w := at])
    {
      ghost var h, e := a, ANHE(w, t[w]);
      assert e in h;
      Retime(k, at);
      TimesMoved(a, h, e, at);
    }

    /** A watcher's time has changed. */
    method Recache(w: Watcher, ghost t: map<Watcher, real>)
      requires Is(t) && w in t
      modifies this`a, t.Keys`active
      ensures Is(t[w := w.at])
      ensures forall v {:trigger v.active} :: v in t ==> v.active != 0
    {
      ActiveSlot(w, t);
      RetimeIn(w, w.active, w.at, t);
      AllActive(t[w := w.at]);
    }

    /** The time of the watcher at the root has changed. */
    method RecacheRoot(ghost t: map<Watcher, real>)
      requires Is(t) && a != []
      modifies this`a, t.Keys`active
      ensures Is(t[old(a)[0].w := old(a[0].w.at)])
      ensures forall v {:trigger v.active} :: v in t ==> v.active != 0
    {
      ghost var e := a[0];
      RootIn(t);
      Postpone(a[0].w.at);
      TimesMoved(a, old(a), e, e.w.at);
      NowIs(t[e.w := e.w.at]);
    }
  }
}
