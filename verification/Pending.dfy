/**
  What the pending queues of the event loop mean: the slots still live, oldest first, per priority, and
  the abstract machine that invoking the pending callbacks is.
 */
module PendingSpec {
  import opened EvHeap

  const NUMPRI: nat := 5

  /** An event mask, as the set of its bits: the or of two masks is their union. */
  type Events = set<nat>

  /** A slot of a pending queue; a slot whose watcher has been cleared holds the dummy watcher (null). */
  datatype Slot = Slot(w: Watcher?, events: Events)

  // ----- what the queues mean: the live slots, oldest first

  datatype Item = Item(w: Watcher, events: Events)

  function Live(q: seq<Slot>): seq<Item> {
    if q == [] then []
    else
      var n := |q| - 1;
      if q[n].w == null then Live(q[..n]) else Live(q[..n]) + [Item(q[n].w, q[n].events)]
  }

  predicate Has(l: seq<Item>, w: Watcher) {
    exists i :: 0 <= i < |l| && l[i].w == w
  }

  /** Adding events to an item that is there. */
  function Merged(l: seq<Item>, w: Watcher, events: Events): (l': seq<Item>)
    ensures |l'| == |l|
  {
    if l == [] then []
    else
      var n := |l| - 1;
      if l[n].w == w then l[..n] + [Item(w, l[n].events + events)] else Merged(l[..n], w, events) + [l[n]]
  }

  function Dropped(l: seq<Item>, w: Watcher): seq<Item> {
    if l == [] then []
    else
      var n := |l| - 1;
      if l[n].w == w then l[..n] else Dropped(l[..n], w) + [l[n]]
  }

  /** The effect of ev_feed_event on the live slots of the watcher's priority. */
  function Fed(l: seq<Item>, w: Watcher, events: Events): seq<Item> {
    if Has(l, w) then Merged(l, w, events) else l + [Item(w, events)]
  }

  /** Every watcher with a slot in this queue is a known one and holds the number of that slot. */
  ghost predicate Numbered(q: seq<Slot>, pri: nat, all: set<Watcher>)
    reads all`pending
  {
    forall i {:trigger q[i]} :: 0 <= i < |q| && q[i].w != null ==>
      q[i].w in all && q[i].w.pending == i + 1 && q[i].w.priority == pri
  }

  predicate OnceIn(q: seq<Slot>, w: Watcher, k: int) {
    0 <= k < |q| && q[k].w == w && forall i {:trigger q[i]} :: 0 <= i < |q| && q[i].w == w ==> i == k
  }

  lemma {:induction false} LiveHas(q: seq<Slot>, w: Watcher)
    ensures Has(Live(q), w) <==> exists i :: 0 <= i < |q| && q[i].w == w
  {
    if q != [] {
      var n := |q| - 1;
      LiveHas(q[..n], w);
      var l, l' := Live(q[..n]), Live(q);
      if Has(l, w) {
        var i :| 0 <= i < |l| && l[i].w == w;
        assert l'[i].w == w;
        var j :| 0 <= j < n && q[..n][j].w == w;
        assert q[j].w == w;
      }
      if q[n].w == w {
        assert l'[|l|].w == w;
      }
      if j :| 0 <= j < n && q[j].w == w {
        assert q[..n][j].w == w;
      }
    }
  }

  lemma {:induction false} LiveMerge(q: seq<Slot>, w: Watcher, k: nat, events: Events)
    requires OnceIn(q, w, k)
    ensures Live(q[k := Slot(w, q[k].events + events)]) == Merged(Live(q), w, events)
  {
    var n, q' := |q| - 1, q[k := Slot(w, q[k].events + events)];
    if k == n {
      assert q'[..n] == q[..n];
    } else {
      assert q'[..n] == q[..n][k := Slot(w, q[k].events + events)] && q'[n] == q[n];
      LiveMerge(q[..n], w, k, events);
    }
  }

  lemma {:induction false} LiveDrop(q: seq<Slot>, w: Watcher, k: nat)
    requires OnceIn(q, w, k)
    ensures Live(q[k := q[k].(w := null)]) == Dropped(Live(q), w)
  {
    var n, q' := |q| - 1, q[k := q[k].(w := null)];
    if k == n {
      assert q'[..n] == q[..n];
    } else {
      assert q'[..n] == q[..n][k := q[k].(w := null)] && q'[n] == q[n];
      LiveDrop(q[..n], w, k);
    }
  }

  /** The events an item holds for a watcher, or none. */
  function Owed(l: seq<Item>, w: Watcher): Events {
    if l == [] then {}
    else
      var n := |l| - 1;
      if l[n].w == w then l[n].events else Owed(l[..n], w)
  }

  lemma {:induction false} LiveOwed(q: seq<Slot>, w: Watcher, k: nat)
    requires OnceIn(q, w, k)
    ensures Owed(Live(q), w) == q[k].events
  {
    var n := |q| - 1;
    if k < n {
      LiveOwed(q[..n], w, k);
      if q[n].w != null {
        assert Live(q)[..|Live(q)| - 1] == Live(q[..n]);
      }
    }
  }

  lemma {:induction false} NotThere(l: seq<Item>, w: Watcher)
    requires !Has(l, w)
    ensures Dropped(l, w) == l && Owed(l, w) == {}
  {
    if l != [] {
      var n := |l| - 1;
      assert l[n].w != w;
      forall i | 0 <= i < n ensures l[..n][i].w != w {
        assert l[..n][i] == l[i];
      }
      NotThere(l[..n], w);
    }
  }

  function Views(ps: seq<seq<Slot>>): (v: seq<seq<Item>>)
    ensures |v| == |ps|
    ensures forall p {:trigger v[p]} :: 0 <= p < |ps| ==> v[p] == Live(ps[p])
  {
    seq(|ps|, p requires 0 <= p < |ps| => Live(ps[p]))
  }

  /** The number of slots, live or not. */
  function Slots(ps: seq<seq<Slot>>): nat {
    if ps == [] then 0 else |ps[0]| + Slots(ps[1..])
  }

  lemma {:induction false} SlotsShrink(ps: seq<seq<Slot>>, pri: nat, q: seq<Slot>)
    requires pri < |ps| && |q| < |ps[pri]|
    ensures Slots(ps[pri := q]) < Slots(ps)
  {
    if pri > 0 {
      assert ps[pri := q][1..] == ps[1..][pri - 1 := q];
      SlotsShrink(ps[1..], pri - 1, q);
    } else {
      assert ps[0 := q][1..] == ps[1..];
    }
  }

  // ----- invoking callbacks, as a run of an abstract machine

  /** What a callback may do to the queues. */
  datatype Op = FeedOp(w: Watcher, events: Events) | ClearOp(w: Watcher)

  type View = v: seq<seq<Item>> | |v| == NUMPRI witness [[], [], [], [], []]

  predicate Sane(op: Op) {
    op.w.priority < NUMPRI
  }

  function Applied(v: View, op: Op): View
    requires Sane(op)
  {
    var l := v[op.w.priority];
    v[op.w.priority := if op.FeedOp? then Fed(l, op.w, op.events) else Dropped(l, op.w)]
  }

  function AppliedAll(v: View, ops: seq<Op>): View
    requires forall op :: op in ops ==> Sane(op)
  {
    if ops == [] then v
    else
      var n := |ops| - 1;
      assert ops[n] in ops;
      Applied(AppliedAll(v, ops[..n]), ops[n])
  }

  predicate Idle(v: View) {
    forall p {:trigger v[p]} :: 0 <= p < NUMPRI ==> v[p] == []
  }

  /** The highest priority below p with a pending watcher, or -1. */
  function Top(v: View, p: nat): (r: int)
    requires p <= NUMPRI
    ensures -1 <= r < p && (r >= 0 ==> v[r] != []) && forall q {:trigger v[q]} :: r < q < p ==> v[q] == []
  {
    if p == 0 then -1 else if v[p - 1] != [] then p - 1 else Top(v, p - 1)
  }

  /** The watcher that must be invoked next: of the highest priority, the one that became pending last. */
  function NextItem(v: View): Item
    requires !Idle(v)
  {
    var l := v[Top(v, NUMPRI)];
    l[|l| - 1]
  }

  function Taken(v: View): View
    requires !Idle(v)
  {
    var p := Top(v, NUMPRI);
    v[p := v[p][..|v[p]| - 1]]
  }

  predicate SaneScript(script: seq<seq<Op>>) {
    forall i, op {:trigger op in script[i]} :: 0 <= i < |script| && op in script[i] ==> Sane(op)
  }

  /** What the i-th callback does; callbacks beyond the script do nothing. */
  function Nth(script: seq<seq<Op>>, i: nat): (ops: seq<Op>)
    requires SaneScript(script)
    ensures forall op :: op in ops ==> Sane(op)
  {
    if i < |script| then script[i] else []
  }

  /** The pending watchers after one invocation, whose callback does ops. */
  function AfterCall(v: View, ops: seq<Op>): View
    requires forall op :: op in ops ==> Sane(op)
  {
    if Idle(v) then v else AppliedAll(Taken(v), ops)
  }

  /** The pending watchers after n invocations. */
  function AfterCalls(v: View, script: seq<seq<Op>>, n: nat): View
    requires SaneScript(script)
  {
    if n == 0 then v else AfterCall(AfterCalls(v, script, n - 1), Nth(script, n - 1))
  }

  predicate DueAt(v: View, script: seq<seq<Op>>, i: nat, item: Item)
    requires SaneScript(script)
  {
    !Idle(AfterCalls(v, script, i)) && item == NextItem(AfterCalls(v, script, i))
  }

  /** The i-th invocation is of the watcher due then, with the events it holds then. */
  predicate IsTrace(v: View, script: seq<seq<Op>>, trace: seq<Item>)
    requires SaneScript(script)
  {
    forall i {:trigger DueAt(v, script, i, trace[i])} :: 0 <= i < |trace| ==> DueAt(v, script, i, trace[i])
  }

  function Unused(script: seq<seq<Op>>, trace: seq<Item>): nat {
    if |trace| < |script| then |script| - |trace| else 0
  }

  lemma TopIs(v: View, p: nat)
    requires p < NUMPRI && v[p] != [] && forall q {:trigger v[q]} :: p < q < NUMPRI ==> v[q] == []
    ensures !Idle(v) && Top(v, NUMPRI) == p
  {
  }

  lemma {:induction false} TraceExtends(v: View, script: seq<seq<Op>>, trace: seq<Item>, item: Item)
    requires SaneScript(script) && IsTrace(v, script, trace) && DueAt(v, script, |trace|, item)
    ensures IsTrace(v, script, trace + [item])
  {
    var trace' := trace + [item];
    forall i | 0 <= i < |trace'| ensures DueAt(v, script, i, trace'[i]) {
      if i < |trace| {
        assert trace'[i] == trace[i] && DueAt(v, script, i, trace[i]);
      }
    }
  }

  /** Taking the newest item of priority p, when nothing above p is pending, is the next step of the machine. */
  lemma {:induction false} TraceGrows(v0: View, script: seq<seq<Op>>, trace: seq<Item>, v: View, p: nat)
    requires SaneScript(script) && IsTrace(v0, script, trace) && v == AfterCalls(v0, script, |trace|)
    requires p < NUMPRI && v[p] != [] && forall q {:trigger v[q]} :: p < q < NUMPRI ==> v[q] == []
    ensures IsTrace(v0, script, trace + [v[p][|v[p]| - 1]])
    ensures AfterCalls(v0, script, |trace| + 1) == AppliedAll(v[p := v[p][..|v[p]| - 1]], Nth(script, |trace|))
  {
    TopIs(v, p);
    TraceExtends(v0, script, trace, NextItem(v));
  }

  /** v' is what is pending after popping slot off queue p of v and running its callback, if it has one. */
  predicate Popped(v: View, v': View, p: nat, slot: Slot, ops: seq<Op>)
    requires p < NUMPRI && forall op :: op in ops ==> Sane(op)
  {
    if slot.w == null then v' == v
    else
      && v[p] != [] && v[p][|v[p]| - 1] == Item(slot.w, slot.events)
      && v' == AppliedAll(v[p := v[p][..|v[p]| - 1]], ops)
  }

  function Noted(trace: seq<Item>, slot: Slot): seq<Item> {
    if slot.w == null then trace else trace + [Item(slot.w, slot.events)]
  }

  lemma PopGrows(v0: View, script: seq<seq<Op>>, trace: seq<Item>, v: View, v': View, p: nat, slot: Slot)
    requires SaneScript(script) && IsTrace(v0, script, trace) && v == AfterCalls(v0, script, |trace|)
    requires p < NUMPRI && forall q {:trigger v[q]} :: p < q < NUMPRI ==> v[q] == []
    requires Popped(v, v', p, slot, Nth(script, |trace|))
    ensures var trace' := Noted(trace, slot); IsTrace(v0, script, trace') && v' == AfterCalls(v0, script, |trace'|)
    ensures slot.w == null || |trace| >= |script| ==> Unused(script, Noted(trace, slot)) == Unused(script, trace)
    ensures slot.w != null && |trace| < |script| ==> Unused(script, Noted(trace, slot)) < Unused(script, trace)
  {
    var trace' := Noted(trace, slot);
    if slot.w != null {
      TraceGrows(v0, script, trace, v, p);
      assert trace' == trace + [v[p][|v[p]| - 1]] && |trace'| == |trace| + 1;
    } else {
      assert trace' == trace && v' == v;
    }
  }

  lemma LivePop(q: seq<Slot>)
    requires q != []
    ensures var n, l := |q| - 1, Live(q);
      && (q[n].w == null ==> Live(q[..n]) == l)
      && (q[n].w != null ==> l != [] && l[|l| - 1] == Item(q[n].w, q[n].events) && Live(q[..n]) == l[..|l| - 1])
  {
  }
}

/**
  The pending queues: one stack of (watcher, events) slots per priority, with each watcher holding the
  number of its slot, and the loop that invokes callbacks which may themselves feed and clear events.
 */
module Pending {
  import opened EvHeap
  import opened PendingSpec

  class Queues {
    var pendings: seq<seq<Slot>>
    var pendingpri: nat
    ghost const all: set<Watcher>  // the watchers in use

    /** The watcher's own slot number is 0 or leads to its slot. */
    ghost predicate KnowsSlot(w: Watcher)
      reads this`pendings, w`pending
    {
      && |pendings| == NUMPRI && w.priority < NUMPRI
      && 0 <= w.pending <= |pendings[w.priority]|
      && (w.pending != 0 ==> pendings[w.priority][w.pending - 1].w == w)
    }

    ghost predicate Valid()
      reads this`pendings, all`pending
    {
      && |pendings| == NUMPRI
      && (forall p {:trigger pendings[p]} :: 0 <= p < NUMPRI ==> Numbered(pendings[p], p, all))
      && (forall w {:trigger KnowsSlot(w)} :: w in all ==> KnowsSlot(w))
    }

    constructor (all: set<Watcher>)
      requires forall w {:trigger w in all} :: w in all ==> w.priority < NUMPRI && w.pending == 0
      ensures Valid() && this.all == all && Views(pendings) == seq(NUMPRI, _ => [])
    {
      this.all := all;
      pendings, pendingpri := [[], [], [], [], []], 0;
    }

    lemma SlotOnce(w: Watcher)
      requires Valid() && w in all
      ensures KnowsSlot(w)
      ensures var q := pendings[w.priority];
        if w.pending != 0 then OnceIn(q, w, w.pending - 1) && Has(Live(q), w) else !Has(Live(q), w)
    {
      assert KnowsSlot(w);
      var q := pendings[w.priority];
      LiveHas(q, w);
      assert Numbered(q, w.priority, all);
    }

    /** Putting another queue in place of one keeps the numbering, if it numbers the same watchers the same way. */
    lemma ValidQueue(pri: nat, q: seq<Slot>, ps: seq<seq<Slot>>)
      requires pri < NUMPRI && |ps| == NUMPRI && pendings == ps[pri := q]
      requires forall p {:trigger ps[p]} :: 0 <= p < NUMPRI && p != pri ==> Numbered(ps[p], p, all)
      requires Numbered(q, pri, all)
      requires forall w {:trigger KnowsSlot(w)} :: w in all ==> KnowsSlot(w)
      ensures Valid() && Views(pendings) == Views(ps)[pri := Live(q)]
    {
    }

    method FeedAgain(w: Watcher, revents: Events)
      requires Valid() && w in all && KnowsSlot(w) && w.pending != 0
      modifies this`pendings
      ensures Valid()
      ensures Views(pendings) == Views(old(pendings))[w.priority := Fed(Views(old(pendings))[w.priority], w, revents)]
    {
      var pri, k := w.priority, w.pending - 1;
      ghost var q := pendings[pri];
      SlotOnce(w);
      LiveMerge(q, w, k, revents);
      var slot := pendings[pri][k];
      var slot' := slot.(events := slot.events + revents);
      assert slot' == Slot(w, q[k].events + revents);
      pendings := pendings[pri := pendings[pri][k := slot']];
      ghost var q' := pendings[pri];
      assert q' == q[k := slot'];
      forall v | v in all ensures KnowsSlot(v) {
        assert old(KnowsSlot(v));
      }
      assert Numbered(q', pri, all);
      ValidQueue(pri, q', old(pendings));
    }

    method FeedFirst(w: Watcher, revents: Events)
      requires Valid() && w in all && KnowsSlot(w) && w.pending == 0
      modifies this`pendings, w`pending
      ensures Valid() && w.pending != 0
      ensures Views(pendings) == Views(old(pendings))[w.priority := Fed(Views(old(pendings))[w.priority], w, revents)]
    {
      var pri := w.priority;
      ghost var q := pendings[pri];
      SlotOnce(w);
      w.pending := |pendings[pri]| + 1;
      pendings := pendings[pri := pendings[pri] + [Slot(w, revents)]];
      assert pendings[pri][..|q|] == q;
      forall v | v in all ensures KnowsSlot(v) {
        assert old(KnowsSlot(v));
      }
      ValidQueue(pri, pendings[pri], old(pendings));
    }

    /** ev_feed_event. */
    method FeedEvent(w: Watcher, revents: Events)
      requires Valid() && w in all
      modifies this, w`pending
      ensures Valid() && w.pending != 0 && w.priority < NUMPRI && pendingpri == NUMPRI - 1
      ensures Views(pendings) == Views(old(pendings))[w.priority := Fed(Views(old(pendings))[w.priority], w, revents)]
    {
      SlotOnce(w);
      if w.pending != 0 {
        FeedAgain(w, revents);
      } else {
        FeedFirst(w, revents);
      }
      pendingpri := NUMPRI - 1;
    }

    /** ev_clear_pending, and clear_pending when the result is not wanted. */
    method ClearPending(w: Watcher) returns (events: Events)
      requires Valid() && w in all
      modifies this`pendings, w`pending
      ensures Valid() && w.pending == 0 && w.priority < NUMPRI
      ensures Views(pendings) == Views(old(pendings))[w.priority := Dropped(Views(old(pendings))[w.priority], w)]
      ensures events == Owed(Views(old(pendings))[w.priority], w) && (old(w.pending) == 0 ==> pendings == old(pendings))
      ensures forall p {:trigger pendings[p]} :: 0 <= p < NUMPRI ==> |pendings[p]| == |old(pendings)[p]|
    {
      SlotOnce(w);
      var pri := w.priority;
      ghost var q := pendings[pri];
      if w.pending == 0 {
        NotThere(Live(q), w);
        return {};
      }
      var k := w.pending - 1;
      LiveDrop(q, w, k);
      LiveOwed(q, w, k);
      events := pendings[pri][k].events;
      pendings := pendings[pri := pendings[pri][k := pendings[pri][k].(w := null)]];
      w.pending := 0;
      forall v | v in all ensures KnowsSlot(v) {
        assert old(KnowsSlot(v));
      }
      ValidQueue(pri, pendings[pri], old(pendings));
    }

    /** Takes the last slot of a queue off it; its watcher, if any, is no longer pending. */
    method Pop(pri: nat) returns (slot: Slot)
      requires Valid() && pri < NUMPRI && pendings[pri] != []
      modifies this`pendings, all`pending
      ensures Valid() && Slots(pendings) < Slots(old(pendings))
      ensures forall p {:trigger pendings[p]} :: 0 <= p < NUMPRI && p != pri ==> pendings[p] == old(pendings)[p]
      ensures var l := Views(old(pendings))[pri];
        && (slot.w == null ==> Views(pendings) == Views(old(pendings)))
        && (slot.w != null ==>
              && slot.w in all && l != [] && l[|l| - 1] == Item(slot.w, slot.events)
              && Views(pendings) == Views(old(pendings))[pri := l[..|l| - 1]])
    {
      ghost var q := pendings[pri];
      var n := |pendings[pri]| - 1;
      slot := pendings[pri][n];
      assert q[n] == slot && Numbered(q, pri, all);
      pendings := pendings[pri := pendings[pri][..n]];
      if slot.w != null {
        slot.w.pending := 0;
      }
      forall v | v in all ensures KnowsSlot(v) {
        assert old(KnowsSlot(v));
      }
      assert Numbered(pendings[pri], pri, all);
      ValidQueue(pri, pendings[pri], old(pendings));
      LivePop(q);
      SlotsShrink(old(pendings), pri, q[..n]);
    }

    /** Every queue above the current priority is empty. */
    ghost predicate ClearAbove()
      reads this
    {
      |pendings| == NUMPRI && forall p {:trigger pendings[p]} :: pendingpri < p < NUMPRI ==> pendings[p] == []
    }

    method Do(op: Op)
      requires Valid() && ClearAbove() && pendingpri < NUMPRI && op.w in all && Sane(op)
      modifies this, all`pending
      ensures Valid() && ClearAbove() && pendingpri < NUMPRI && Views(pendings) == Applied(Views(old(pendings)), op)
    {
      match op {
        case FeedOp(w, events) => FeedEvent(w, events);
        case ClearOp(w) => var _ := ClearPending(w);
      }
    }

    /** A callback, as the list of queue operations it does. */
    method RunCallback(ops: seq<Op>)
      requires Valid() && ClearAbove() && pendingpri < NUMPRI && forall op :: op in ops ==> op.w in all && Sane(op)
      modifies this, all`pending
      ensures Valid() && ClearAbove() && pendingpri < NUMPRI
      ensures Views(pendings) == AppliedAll(Views(old(pendings)), ops) && (ops == [] ==> pendings == old(pendings))
    {
      for i := 0 to |ops|
        invariant Valid() && ClearAbove() && pendingpri < NUMPRI
        invariant Views(pendings) == AppliedAll(Views(old(pendings)), ops[..i])
        invariant i == 0 ==> pendings == old(pendings)
      {
        assert ops[..i + 1][..i] == ops[..i] && ops[i] in ops;
        Do(ops[i]);
      }
      assert ops[..|ops|] == ops;
    }

    /** In the middle of ev_invoke_pending: trace has been invoked, nothing above the current priority is pending. */
    ghost predicate Invoking(v0: View, script: seq<seq<Op>>, trace: seq<Item>)
      reads this, all`pending
      requires SaneScript(script)
    {
      && Valid() && ClearAbove() && pendingpri < NUMPRI
      && IsTrace(v0, script, trace) && Views(pendings) == AfterCalls(v0, script, |trace|)
    }

    /** The k-th invocation of a callback. */
    method Call(script: seq<seq<Op>>, k: nat)
      requires Valid() && ClearAbove() && pendingpri < NUMPRI && SaneScript(script)
      requires forall i, op {:trigger op in script[i]} :: 0 <= i < |script| && op in script[i] ==> op.w in all
      modifies this, all`pending
      ensures Valid() && ClearAbove() && pendingpri < NUMPRI
      ensures Views(pendings) == AppliedAll(Views(old(pendings)), Nth(script, k))
      ensures k >= |script| ==> pendings == old(pendings)
    {
      RunCallback(if k < |script| then script[k] else []);
    }

    method InvokeTop(script: seq<seq<Op>>, k: nat) returns (slot: Slot)
      requires Valid() && ClearAbove() && pendingpri < NUMPRI && pendings[pendingpri] != [] && SaneScript(script)
      requires forall i, op {:trigger op in script[i]} :: 0 <= i < |script| && op in script[i] ==> op.w in all
      modifies this, all`pending
      ensures Valid() && ClearAbove() && pendingpri < NUMPRI
      ensures slot.w == null || k >= |script| ==> Slots(pendings) < Slots(old(pendings))
      ensures Popped(Views(old(pendings)), Views(pendings), old(pendingpri), slot, Nth(script, k))
    {
      slot := Pop(pendingpri);
      if slot.w != null {
        Call(script, k);
      }
    }

    /** The inner loop body of ev_invoke_pending: pop, and invoke unless the slot was cleared. */
    method InvokeOne(ghost v0: View, script: seq<seq<Op>>, trace0: seq<Item>) returns (trace: seq<Item>)
      requires SaneScript(script) && Invoking(v0, script, trace0) && pendings[pendingpri] != []
      requires forall i, op {:trigger op in script[i]} :: 0 <= i < |script| && op in script[i] ==> op.w in all
      modifies this, all`pending
      ensures Invoking(v0, script, trace)
      ensures Unused(script, trace) < Unused(script, trace0)
           || (Unused(script, trace) == Unused(script, trace0) && Slots(pendings) < Slots(old(pendings)))
    {
      ghost var v, p := Views(pendings), pendingpri;
      assert forall q {:trigger v[q]} :: p < q < NUMPRI ==> v[q] == [];
      var slot := InvokeTop(script, |trace0|);
      PopGrows(v0, script, trace0, v, Views(pendings), p, slot);
      trace := if slot.w == null then trace0 else trace0 + [Item(slot.w, slot.events)];
      assert trace == Noted(trace0, slot);
    }

    /** ev_invoke_pending: runs until nothing is pending, whatever the callbacks feed and clear. */
    method InvokePending(script: seq<seq<Op>>) returns (trace: seq<Item>)
      requires Valid() && SaneScript(script)
      requires forall i, op {:trigger op in script[i]} :: 0 <= i < |script| && op in script[i] ==> op.w in all
      modifies this, all`pending
      ensures Valid() && forall p {:trigger pendings[p]} :: 0 <= p < NUMPRI ==> pendings[p] == []
      ensures IsTrace(Views(old(pendings)), script, trace) && Idle(AfterCalls(Views(old(pendings)), script, |trace|))
    {
      ghost var v0 := Views(pendings);
      trace := [];
      pendingpri := NUMPRI;
      while pendingpri > 0
        invariant Valid() && pendingpri <= NUMPRI
        invariant forall p {:trigger pendings[p]} :: pendingpri <= p < NUMPRI ==> pendings[p] == []
        invariant IsTrace(v0, script, trace) && Views(pendings) == AfterCalls(v0, script, |trace|)
        decreases Unused(script, trace), Slots(pendings), pendingpri
      {
        pendingpri := pendingpri - 1;
        ghost var u0, s0, p0 := Unused(script, trace), Slots(pendings), pendingpri;
        while pendings[pendingpri] != []
          invariant Invoking(v0, script, trace)
          invariant (Unused(script, trace), Slots(pendings), pendingpri) == (u0, s0, p0)
                 || Unused(script, trace) < u0 || (Unused(script, trace) == u0 && Slots(pendings) < s0)
          decreases Unused(script, trace), Slots(pendings)
        {
          trace := InvokeOne(v0, script, trace);
        }
      }
      assert Idle(Views(pendings));
    }
  }
}

/** Whole runs of the machine: what each callback receives. */
module PendingRuns {
  import opened EvHeap
  import opened PendingSpec

  // ----- each callback receives what was fed since its watcher became pending

  predicate Singles(l: seq<Item>) {
    forall i, j {:trigger l[i].w, l[j].w} :: 0 <= i < j < |l| ==> l[i].w != l[j].w
  }

  lemma {:induction false} MergedIs(l: seq<Item>, w: Watcher, events: Events)
    requires Singles(l)
    ensures forall i {:trigger Merged(l, w, events)[i]} :: 0 <= i < |l| ==>
      Merged(l, w, events)[i] == Item(l[i].w, if l[i].w == w then l[i].events + events else l[i].events)
  {
    if l != [] && l[|l| - 1].w != w {
      MergedIs(l[..|l| - 1], w, events);
    }
  }

  lemma {:induction false} OwedAt(l: seq<Item>, i: nat)
    requires Singles(l) && i < |l|
    ensures Owed(l, l[i].w) == l[i].events
  {
    if i < |l| - 1 {
      assert l[i].w != l[|l| - 1].w;
      OwedAt(l[..|l| - 1], i);
    }
  }

  lemma OwedAppend(l: seq<Item>, item: Item, u: Watcher)
    ensures Owed(l + [item], u) == if u == item.w then item.events else Owed(l, u)
  {
    assert (l + [item])[..|l|] == l;
  }

  lemma {:induction false} MergedOwed(l: seq<Item>, w: Watcher, events: Events, u: Watcher)
    ensures Has(l, w) ==> Owed(Merged(l, w, events), w) == Owed(l, w) + events
    ensures u != w ==> Owed(Merged(l, w, events), u) == Owed(l, u)
  {
    if l != [] {
      var n := |l| - 1;
      var l' := Merged(l, w, events);
      if l[n].w == w {
        assert l'[..n] == l[..n];
      } else {
        assert l'[..n] == Merged(l[..n], w, events);
        if Has(l, w) {
          var i :| 0 <= i < |l| && l[i].w == w;
          assert l[..n][i].w == w;
        }
        MergedOwed(l[..n], w, events, u);
      }
    }
  }

  lemma {:induction false} DroppedOwed(l: seq<Item>, w: Watcher, u: Watcher)
    requires Singles(l)
    ensures Owed(Dropped(l, w), u) == if u == w then {} else Owed(l, u)
  {
    if l != [] {
      var n := |l| - 1;
      if l[n].w == w {
        assert !Has(l[..n], w);
        NotThere(l[..n], w);
      } else {
        DroppedOwed(l[..n], w, u);
        OwedAppend(Dropped(l[..n], w), l[n], u);
      }
    }
  }

  lemma FedOwed(l: seq<Item>, w: Watcher, events: Events, u: Watcher)
    ensures Owed(Fed(l, w, events), u) == if u == w then Owed(l, w) + events else Owed(l, u)
  {
    if Has(l, w) {
      MergedOwed(l, w, events, u);
    } else {
      NotThere(l, w);
      OwedAppend(l, Item(w, events), u);
    }
  }

  predicate OfPriority(l: seq<Item>, p: nat) {
    forall i {:trigger l[i].w} :: 0 <= i < |l| ==> l[i].w.priority == p
  }

  /** One watcher at most once, and at its own priority. */
  predicate Orderly(v: View) {
    forall p {:trigger v[p]} :: 0 <= p < NUMPRI ==> Singles(v[p]) && OfPriority(v[p], p)
  }

  lemma FedOrderly(l: seq<Item>, w: Watcher, events: Events)
    requires Singles(l) && OfPriority(l, w.priority)
    ensures Singles(Fed(l, w, events)) && OfPriority(Fed(l, w, events), w.priority)
  {
    MergedIs(l, w, events);
  }

  lemma {:induction false} DroppedOrderly(l: seq<Item>, w: Watcher, p: nat)
    requires Singles(l) && OfPriority(l, p)
    ensures Singles(Dropped(l, w)) && OfPriority(Dropped(l, w), p)
    ensures forall u {:trigger Has(Dropped(l, w), u)} :: Has(Dropped(l, w), u) ==> Has(l, u)
  {
    if l != [] && l[|l| - 1].w != w {
      var n := |l| - 1;
      DroppedOrderly(l[..n], w, p);
      var d := Dropped(l[..n], w);
      forall i | 0 <= i < |d| ensures d[i].w != l[n].w && Has(l, d[i].w) {
        assert Has(d, d[i].w);
        var j :| 0 <= j < n && l[..n][j].w == d[i].w;
        assert l[j].w == d[i].w;
      }
      assert l[n].w == l[n].w && Has(l, l[n].w);
    } else if l != [] {
      forall i | 0 <= i < |l| - 1 ensures Has(l, l[i].w) {
        assert l[i].w == l[i].w;
      }
    }
  }

  lemma OpOrderly(v: View, op: Op)
    requires Sane(op) && Orderly(v)
    ensures Orderly(Applied(v, op))
  {
    var l := v[op.w.priority];
    match op
    case FeedOp(u, events) => FedOrderly(l, u, events);
    case ClearOp(u) => DroppedOrderly(l, u, u.priority);
  }

  lemma {:induction false} OpsOrderly(v: View, ops: seq<Op>)
    requires (forall op :: op in ops ==> Sane(op)) && Orderly(v)
    ensures Orderly(AppliedAll(v, ops))
  {
    if ops != [] {
      var n := |ops| - 1;
      assert ops[n] in ops;
      OpsOrderly(v, ops[..n]);
      OpOrderly(AppliedAll(v, ops[..n]), ops[n]);
    }
  }

  lemma TakenOrderly(v: View)
    requires Orderly(v) && !Idle(v)
    ensures Orderly(Taken(v))
  {
    var p := Top(v, NUMPRI);
    assert Singles(v[p]) && OfPriority(v[p], p);
  }

  lemma CallOrderly(v: View, ops: seq<Op>)
    requires (forall op :: op in ops ==> Sane(op)) && Orderly(v)
    ensures Orderly(AfterCall(v, ops))
  {
    if !Idle(v) {
      TakenOrderly(v);
      OpsOrderly(Taken(v), ops);
    }
  }

  lemma {:induction false} CallsOrderly(v: View, script: seq<seq<Op>>, n: nat)
    requires SaneScript(script) && Orderly(v)
    ensures Orderly(AfterCalls(v, script, n))
  {
    if n > 0 {
      CallsOrderly(v, script, n - 1);
      CallOrderly(AfterCalls(v, script, n - 1), Nth(script, n - 1));
    }
  }

  /** What the world did: operations of callbacks and others, and invocations. */
  datatype Happening = Did(op: Op) | Called(w: Watcher)

  /** Everything fed to a watcher since it was last invoked or cleared. */
  function Credit(h: seq<Happening>, w: Watcher): Events {
    if h == [] then {}
    else
      var rest, e := h[..|h| - 1], h[|h| - 1];
      match e
      case Did(FeedOp(u, events)) => Credit(rest, w) + (if u == w then events else {})
      case Did(ClearOp(u)) => if u == w then {} else Credit(rest, w)
      case Called(u) => if u == w then {} else Credit(rest, w)
  }

  lemma CreditOne(h: seq<Happening>, e: Happening, w: Watcher)
    ensures Credit(h + [e], w) ==
      match e
      case Did(FeedOp(u, events)) => Credit(h, w) + (if u == w then events else {})
      case Did(ClearOp(u)) => if u == w then {} else Credit(h, w)
      case Called(u) => if u == w then {} else Credit(h, w)
  {
    assert (h + [e])[..|h|] == h;
  }

  function Dids(ops: seq<Op>): seq<Happening> {
    if ops == [] then [] else Dids(ops[..|ops| - 1]) + [Did(ops[|ops| - 1])]
  }

  function Extended(past: seq<Happening>, v: View, ops: seq<Op>): seq<Happening> {
    if Idle(v) then past else past + [Called(NextItem(v).w)] + Dids(ops)
  }

  /** What has happened after n invocations, given what happened before them. */
  function History(past: seq<Happening>, v: View, script: seq<seq<Op>>, n: nat): seq<Happening>
    requires SaneScript(script)
  {
    if n == 0 then past
    else
      Extended(History(past, v, script, n - 1), AfterCalls(v, script, n - 1), Nth(script, n - 1))
  }

  /** The items of an orderly view hold the credit of a watcher. */
  predicate Balanced(v: View, h: seq<Happening>, w: Watcher)
    requires w.priority < NUMPRI
  {
    Owed(v[w.priority], w) == Credit(h, w)
  }

  lemma OpBalanced(v: View, h: seq<Happening>, op: Op, w: Watcher)
    requires Sane(op) && w.priority < NUMPRI && Orderly(v) && Balanced(v, h, w)
    ensures Balanced(Applied(v, op), h + [Did(op)], w)
  {
    CreditOne(h, Did(op), w);
    var l := v[op.w.priority];
    match op
    case FeedOp(u, events) => FedOwed(l, u, events, w);
    case ClearOp(u) => DroppedOwed(l, u, w);
  }

  lemma {:induction false} OpsBalanced(v: View, h: seq<Happening>, ops: seq<Op>, w: Watcher)
    requires (forall op :: op in ops ==> Sane(op)) && w.priority < NUMPRI && Orderly(v) && Balanced(v, h, w)
    ensures Balanced(AppliedAll(v, ops), h + Dids(ops), w)
  {
    if ops == [] {
      assert h + Dids(ops) == h;
    } else {
      var n := |ops| - 1;
      assert ops[n] in ops;
      OpsBalanced(v, h, ops[..n], w);
      OpsOrderly(v, ops[..n]);
      OpBalanced(AppliedAll(v, ops[..n]), h + Dids(ops[..n]), ops[n], w);
      assert h + Dids(ops) == h + Dids(ops[..n]) + [Did(ops[n])];
    }
  }

  lemma TakenBalanced(v: View, h: seq<Happening>, w: Watcher)
    requires w.priority < NUMPRI && Orderly(v) && Balanced(v, h, w) && !Idle(v)
    ensures Balanced(Taken(v), h + [Called(NextItem(v).w)], w)
  {
    var p := Top(v, NUMPRI);
    var l := v[p];
    var n := |l| - 1;
    CreditOne(h, Called(l[n].w), w);
    assert Singles(l) && OfPriority(l, p);
    assert l[n].w.priority == p;
    assert l == l[..n] + [l[n]];
    OwedAppend(l[..n], l[n], w);
    assert !Has(l[..n], l[n].w);
    NotThere(l[..n], l[n].w);
  }

  lemma CallBalanced(v: View, past: seq<Happening>, ops: seq<Op>, w: Watcher)
    requires (forall op :: op in ops ==> Sane(op)) && w.priority < NUMPRI && Orderly(v) && Balanced(v, past, w)
    ensures Balanced(AfterCall(v, ops), Extended(past, v, ops), w)
  {
    if !Idle(v) {
      TakenOrderly(v);
      TakenBalanced(v, past, w);
      OpsBalanced(Taken(v), past + [Called(NextItem(v).w)], ops, w);
    }
  }

  lemma {:induction false} CallsBalanced(v: View, past: seq<Happening>, script: seq<seq<Op>>, n: nat, w: Watcher)
    requires SaneScript(script) && w.priority < NUMPRI && Orderly(v) && Balanced(v, past, w)
    ensures Balanced(AfterCalls(v, script, n), History(past, v, script, n), w)
  {
    if n > 0 {
      CallsBalanced(v, past, script, n - 1, w);
      CallsOrderly(v, script, n - 1);
      CallBalanced(AfterCalls(v, script, n - 1), History(past, v, script, n - 1), Nth(script, n - 1), w);
    }
  }

  const NOTHING: View := [[], [], [], [], []]

  lemma NewestIsOwed(v: View)
    requires Orderly(v) && !Idle(v)
    ensures var item := NextItem(v); item.w.priority < NUMPRI && item.events == Owed(v[item.w.priority], item.w)
  {
    var p := Top(v, NUMPRI);
    assert Singles(v[p]) && OfPriority(v[p], p);
    OwedAt(v[p], |v[p]| - 1);
    assert v[p][|v[p]| - 1].w.priority == p;
  }

  /** In every run, from empty queues, through any operations before ev_invoke_pending and in its callbacks: each
      callback receives exactly the events fed to its watcher since it was last invoked or cleared. */
  lemma CallbackGetsCredit(before: seq<Op>, script: seq<seq<Op>>, trace: seq<Item>, i: nat)
    requires (forall op :: op in before ==> Sane(op)) && SaneScript(script)
    requires IsTrace(AppliedAll(NOTHING, before), script, trace) && i < |trace|
    ensures trace[i].events == Credit(History(Dids(before), AppliedAll(NOTHING, before), script, i), trace[i].w)
  {
    var v0 := AppliedAll(NOTHING, before);
    assert DueAt(v0, script, i, trace[i]);
    OpsOrderly(NOTHING, before);
    CallsOrderly(v0, script, i);
    NewestIsOwed(AfterCalls(v0, script, i));
    var w := trace[i].w;
    OpsBalanced(NOTHING, [], before, w);
    assert [] + Dids(before) == Dids(before);
    CallsBalanced(v0, Dids(before), script, i, w);
  }
}
