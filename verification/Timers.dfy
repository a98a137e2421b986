/** What making expired watchers pending means: who is due, in what order, and what becomes of them. */
module TimerSpec {
  import opened EvHeap
  import opened PendingSpec

  const EV_TIMER: Events := {8}     // the mask 0x00000100
  const EV_PERIODIC: Events := {9}  // the mask 0x00000200

  /** The time a repeating timer gets when it expires: one repeat after it was due, or now, whichever is later. */
  function NextTime(at: real, repeat: real, now: real): (next: real)
    ensures next >= now && next >= at + repeat && (next == now || next == at + repeat)
  {
    if at + repeat < now then now else at + repeat
  }

  /** What becomes of the watchers when they expire: those in the map are rearmed for the time there, the others
      stop. */
  type Plan = map<Watcher, real>

  /** No watcher is rearmed for a time that is past. */
  ghost predicate Ahead(plan: Plan, now: real) {
    forall w {:trigger w in plan} :: w in plan ==> plan[w] >= now
  }

  /** The map when the watchers in done have been handled. */
  function Advanced(plan: Plan, t: map<Watcher, real>, done: set<Watcher>): map<Watcher, real> {
    map w | w in t && (w in done ==> w in plan) :: if w in done then plan[w] else t[w]
  }

  function Members(done: seq<Watcher>): set<Watcher> {
    set w | w in done
  }

  ghost predicate Over(t: map<Watcher, real>, now: real, w: Watcher) {
    w in t && t[w] < now
  }

  ghost predicate Precedes(t: map<Watcher, real>, u: Watcher, w: Watcher) {
    u in t && w in t && u != w && t[u] <= t[w]
  }

  /** done lists watchers that have expired, each once, by time, and none left out is earlier. */
  ghost predicate InOrder(t: map<Watcher, real>, now: real, done: seq<Watcher>) {
    && (forall i {:trigger Over(t, now, done[i])} :: 0 <= i < |done| ==> Over(t, now, done[i]))
    && (forall i, j {:trigger Precedes(t, done[i], done[j])} :: 0 <= i < j < |done| ==> Precedes(t, done[i], done[j]))
    && (forall i, w {:trigger Precedes(t, done[i], w)} ::
          0 <= i < |done| && w in t && w !in done ==> Precedes(t, done[i], w))
  }

  /** done lists exactly the expired watchers, each once, in order of time. */
  ghost predicate Expired(t: map<Watcher, real>, now: real, done: seq<Watcher>) {
    InOrder(t, now, done) && Members(done) == (set w | w in t && t[w] < now)
  }

  lemma MembersGrow(done: seq<Watcher>, w: Watcher)
    ensures Members(done + [w]) == Members(done) + {w}
  {
  }

  /** Handling a least watcher that has expired. */
  lemma OneMore(plan: Plan, t: map<Watcher, real>, now: real, done: seq<Watcher>, w: Watcher)
    requires InOrder(t, now, done) && Ahead(plan, now)
    requires var t' := Advanced(plan, t, Members(done));
      w in t' && t'[w] < now && forall v {:trigger v in t'} :: v in t' ==> t'[w] <= t'[v]
    ensures InOrder(t, now, done + [w]) && w in t && w !in done && t[w] == Advanced(plan, t, Members(done))[w]
  {
    var t', done' := Advanced(plan, t, Members(done)), done + [w];
    assert w !in done;
    forall v | v in t && v !in done ensures t[w] <= t[v] {
      assert v in t';
    }
    forall i | 0 <= i < |done'| ensures Over(t, now, done'[i]) {
      assert i < |done| ==> Over(t, now, done[i]);
    }
    forall i, j | 0 <= i < j < |done'| ensures Precedes(t, done'[i], done'[j]) {
      assert Precedes(t, done[i], if j < |done| then done[j] else w);
    }
    forall i, v | 0 <= i < |done'| && v in t && v !in done' ensures Precedes(t, done'[i], v) {
      assert i < |done| ==> Precedes(t, done[i], v);
    }
  }

  lemma AdvancedMore(plan: Plan, t: map<Watcher, real>, done: set<Watcher>, w: Watcher)
    requires w in t && w !in done
    ensures var t' := Advanced(plan, t, done);
      Advanced(plan, t, done + {w}) == if w in plan then t'[w := plan[w]] else t' - {w}
  {
  }

  /** When nothing is expired any more, done lists all that were. */
  lemma AllDone(plan: Plan, t: map<Watcher, real>, now: real, done: seq<Watcher>)
    requires InOrder(t, now, done)
    requires var t' := Advanced(plan, t, Members(done)); forall v {:trigger v in t'} :: v in t' ==> t'[v] >= now
    ensures Expired(t, now, done)
  {
    var t' := Advanced(plan, t, Members(done));
    forall w | w in t && w !in done ensures t[w] >= now {
      assert w in t';
    }
    forall w | w in done ensures w in t && t[w] < now {
      var i :| 0 <= i < |done| && done[i] == w;
      assert Over(t, now, done[i]);
    }
  }

  /** Distinct members of a finite set are no more than it has. */
  lemma {:induction false} NoMoreThan(done: seq<Watcher>, all: set<Watcher>)
    requires forall i {:trigger done[i]} :: 0 <= i < |done| ==> done[i] in all
    requires forall i, j {:trigger done[i], done[j]} :: 0 <= i < j < |done| ==> done[i] != done[j]
    ensures |done| <= |all|
  {
    if done != [] {
      var n := |done| - 1;
      NoMoreThan(done[..n], all - {done[n]});
    }
  }

  lemma FewEnough(t: map<Watcher, real>, now: real, done: seq<Watcher>)
    requires InOrder(t, now, done)
    ensures |done| <= |t|
  {
    forall i | 0 <= i < |done| ensures done[i] in t.Keys {
      assert Over(t, now, done[i]);
    }
    forall i, j | 0 <= i < j < |done| ensures done[i] != done[j] {
      assert Precedes(t, done[i], done[j]);
    }
    NoMoreThan(done, t.Keys);
    assert |t| == |t.Keys|;
  }

  // ----- what the queues get

  /** Handling clears the pending events of the watchers that stop. */
  function Clears(plan: Plan, done: seq<Watcher>): (ops: seq<Op>)
  {
    if done == [] then []
    else
      var n := |done| - 1;
      Clears(plan, done[..n]) + if done[n] in plan then [] else [ClearOp(done[n])]
  }

  /** feed_reverse_done: the watchers in reverse order. */
  function Feeds(done: seq<Watcher>, events: Events): seq<Op> {
    if done == [] then [] else Feeds(done[1..], events) + [FeedOp(done[0], events)]
  }

  predicate AllSane(done: seq<Watcher>) {
    forall i {:trigger done[i]} :: 0 <= i < |done| ==> done[i].priority < NUMPRI
  }

  lemma {:induction false} ClearsSane(plan: Plan, done: seq<Watcher>)
    requires AllSane(done)
    ensures forall op :: op in Clears(plan, done) ==> Sane(op)
  {
    if done != [] {
      assert done[|done| - 1].priority < NUMPRI;
      ClearsSane(plan, done[..|done| - 1]);
    }
  }

  lemma {:induction false} FeedsSane(done: seq<Watcher>, events: Events)
    requires AllSane(done)
    ensures forall op :: op in Feeds(done, events) ==> Sane(op)
  {
    if done != [] {
      assert done[0].priority < NUMPRI;
      FeedsSane(done[1..], events);
    }
  }

  /** What is pending after handling the watchers, before feeding them. */
  function Cleared(plan: Plan, v: View, done: seq<Watcher>): View
    requires AllSane(done)
  {
    ClearsSane(plan, done);
    AppliedAll(v, Clears(plan, done))
  }

  function FedAll(v: View, done: seq<Watcher>, events: Events): View
    requires AllSane(done)
  {
    FeedsSane(done, events);
    AppliedAll(v, Feeds(done, events))
  }

  lemma ClearedMore(plan: Plan, v: View, done: seq<Watcher>, w: Watcher)
    requires AllSane(done) && w.priority < NUMPRI
    ensures AllSane(done + [w])
    ensures Cleared(plan, v, done + [w]) ==
      if w in plan then Cleared(plan, v, done) else Applied(Cleared(plan, v, done), ClearOp(w))
  {
    var done' := done + [w];
    assert done'[..|done|] == done && done'[|done|] == w;
    ClearsSane(plan, done);
    ClearsSane(plan, done');
    var ops := Clears(plan, done);
    if w in plan {
      assert Clears(plan, done') == ops;
    } else {
      assert Clears(plan, done') == ops + [ClearOp(w)];
      assert (ops + [ClearOp(w)])[..|ops|] == ops;
    }
  }

  lemma FedMore(v: View, done: seq<Watcher>, w: Watcher, events: Events)
    requires AllSane(done) && w.priority < NUMPRI
    ensures AllSane([w] + done)
    ensures FedAll(v, [w] + done, events) == Applied(FedAll(v, done, events), FeedOp(w, events))
  {
    var done' := [w] + done;
    assert done'[1..] == done;
    FeedsSane(done, events);
    FeedsSane(done', events);
    var ops := Feeds(done, events);
    assert Feeds(done', events) == ops + [FeedOp(w, events)];
    assert (ops + [FeedOp(w, events)])[..|ops|] == ops;
  }

  /** In the middle: the watchers in done have been handled, t and v are what is due and pending. */
  ghost predicate Progress(plan: Plan, t0: map<Watcher, real>, v0: View, now: real, done: seq<Watcher>,
                           t: map<Watcher, real>, v: View)
  {
    && InOrder(t0, now, done) && Ahead(plan, now) && t == Advanced(plan, t0, Members(done))
    && AllSane(done) && v == Cleared(plan, v0, done) && |done| <= |t0|
  }

  /** The effect on t and v of handling w, which is rearmed as the plan has it or stopped. */
  ghost predicate Handled(plan: Plan, w: Watcher, t: map<Watcher, real>, v: View, t': map<Watcher, real>, v': View)
    requires w in t && w.priority < NUMPRI
  {
    if w in plan then t' == t[w := plan[w]] && v' == v else t' == t - {w} && v' == Applied(v, ClearOp(w))
  }

  /** A timer that repeats is handled as the plan has it when it gets its next time, and one that does not when it
      goes. */
  lemma PlanHandles(plan: Plan, w: Watcher, repeat: real, now: real, t: map<Watcher, real>, v: View,
                    t': map<Watcher, real>, v': View)
    requires w in t && w.priority < NUMPRI && (w in plan <==> repeat != 0.0)
    requires w in plan ==> plan[w] == NextTime(t[w], repeat, now)
    requires repeat != 0.0 ==> t' == t[w := NextTime(t[w], repeat, now)] && v' == v
    requires repeat == 0.0 ==> t' == t - {w} && v' == Applied(v, ClearOp(w))
    ensures Handled(plan, w, t, v, t', v')
  {
  }

  lemma Progresses(plan: Plan, t0: map<Watcher, real>, v0: View, now: real, done: seq<Watcher>, w: Watcher,
                   t: map<Watcher, real>, v: View, t': map<Watcher, real>, v': View)
    requires Progress(plan, t0, v0, now, done, t, v)
    requires w in t && w.priority < NUMPRI && t[w] < now && forall u {:trigger u in t} :: u in t ==> t[w] <= t[u]
    requires Handled(plan, w, t, v, t', v')
    ensures Progress(plan, t0, v0, now, done + [w], t', v')
  {
    OneMore(plan, t0, now, done, w);
    AdvancedMore(plan, t0, Members(done), w);
    MembersGrow(done, w);
    ClearedMore(plan, v0, done, w);
    FewEnough(t0, now, done + [w]);
  }

  lemma Starts(plan: Plan, t0: map<Watcher, real>, v0: View, now: real)
    requires Ahead(plan, now)
    ensures Progress(plan, t0, v0, now, [], t0, v0)
  {
    assert Advanced(plan, t0, Members([])) == t0;
  }

  // ----- many rounds

  /** The repeat value of each timer. */
  type Repeats = map<Watcher, real>

  /** One round of timers_reify at this time, timer by timer: those not expired stay; of the others, those that do not
      repeat are gone, and the rest are due one repeat later than they were, or now if that is past. */
  ghost predicate Rounded(t: map<Watcher, real>, t': map<Watcher, real>, rep: Repeats, now: real) {
    && t'.Keys <= t.Keys <= rep.Keys
    && (forall w {:trigger w in t} :: w in t ==> (w in t' <==> t[w] >= now || rep[w] != 0.0))
    && (forall w {:trigger t'[w]} :: w in t' ==>
          t'[w] == if t[w] >= now then t[w] else if t[w] + rep[w] >= now then t[w] + rep[w] else now)
  }

  /** Rounds at these times, one after the other. */
  ghost predicate Rounds(ts: seq<map<Watcher, real>>, rep: Repeats, nows: seq<real>) {
    && |ts| == |nows| + 1
    && forall i {:trigger nows[i]} :: 0 <= i < |nows| ==> Rounded(ts[i], ts[i + 1], rep, nows[i])
  }

  /** In how many of the first k rounds the timer has expired. */
  ghost function Expiries(ts: seq<map<Watcher, real>>, nows: seq<real>, w: Watcher, k: nat): nat
    requires k <= |nows| < |ts|
  {
    if k == 0 then 0 else Expiries(ts, nows, w, k - 1) + if Over(ts[k - 1], nows[k - 1], w) then 1 else 0
  }

  /** The timer is handled a whole repeat too late. */
  ghost predicate Late(t: map<Watcher, real>, rep: Repeats, now: real, w: Watcher) {
    w in t && w in rep && t[w] + rep[w] < now
  }

  /** The time n repeats after t. */
  function After(t: real, repeat: real, n: nat): real {
    t + n as real * repeat
  }

  lemma OneRepeat(t: real, repeat: real, n: nat)
    ensures After(t, repeat, n + 1) == After(t, repeat, n) + repeat && After(t, repeat, 0) == t
  {
    assert (n + 1) as real == n as real + 1.0;
  }

  lemma RoundKeeps(t: map<Watcher, real>, t': map<Watcher, real>, rep: Repeats, now: real, w: Watcher)
    requires Rounded(t, t', rep, now) && w in t && rep[w] > 0.0 && !Late(t, rep, now, w)
    ensures w in t' && t'[w] == if Over(t, now, w) then t[w] + rep[w] else t[w]
  {
  }

  /** Repeating timers do not drift: as long as no round is a whole repeat late, a timer stays due at its first time and
      whole multiples of its repeat value after that, however late within the repeat each round comes. */
  lemma {:induction false} NoDrift(ts: seq<map<Watcher, real>>, rep: Repeats, nows: seq<real>, w: Watcher, k: nat)
    requires Rounds(ts, rep, nows) && k <= |nows| && w in ts[0] && w in rep && rep[w] > 0.0
    requires forall i {:trigger nows[i]} :: 0 <= i < k ==> !Late(ts[i], rep, nows[i], w)
    ensures w in ts[k] && ts[k][w] == After(ts[0][w], rep[w], Expiries(ts, nows, w, k))
  {
    if k == 0 {
      OneRepeat(ts[0][w], rep[w], 0);
    } else {
      NoDrift(ts, rep, nows, w, k - 1);
      assert !Late(ts[k - 1], rep, nows[k - 1], w);
      RoundKeeps(ts[k - 1], ts[k], rep, nows[k - 1], w);
      OneRepeat(ts[0][w], rep[w], Expiries(ts, nows, w, k - 1));
    }
  }

  /** A round that comes a whole repeat late leaves the timer due at once, from where it goes on counting. */
  lemma LateStartsOver(ts: seq<map<Watcher, real>>, rep: Repeats, nows: seq<real>, w: Watcher, k: nat)
    requires Rounds(ts, rep, nows) && k < |nows| && w in rep && rep[w] > 0.0 && Late(ts[k], rep, nows[k], w)
    ensures w in ts[k + 1] && ts[k + 1][w] == nows[k]
  {
    assert Rounded(ts[k], ts[k + 1], rep, nows[k]);
  }

  /** Handling exactly the expired timers by that plan is such a round. */
  lemma PlannedRound(plan: Plan, rep: Repeats, t: map<Watcher, real>, now: real, done: seq<Watcher>)
    requires Expired(t, now, done) && t.Keys == rep.Keys
    requires forall w {:trigger w in plan} :: w in plan <==> w in t && rep[w] != 0.0
    requires forall w {:trigger plan[w]} :: w in plan ==> plan[w] == NextTime(t[w], rep[w], now)
    ensures Rounded(t, Advanced(plan, t, Members(done)), rep, now)
  {
    forall w | w in t ensures w in Members(done) <==> t[w] < now {
    }
  }

  /** The other way round: an expired watcher that would be rearmed for a time that is past keeps a loop going that
      handles a first expired watcher at a time, for after each round some watcher is expired still. */
  lemma NeverDone(plan: Plan, now: real, bad: Watcher, w: Watcher,
                  t: map<Watcher, real>, v: View, t': map<Watcher, real>, v': View)
    requires w in t && w.priority < NUMPRI && Handled(plan, w, t, v, t', v')
    requires Over(t, now, bad) && bad in plan && plan[bad] < now
    ensures Over(t', now, bad)
  {
  }
}

/**
  Timers and periodics: starting, stopping, rearming and shifting them, and making the expired ones pending.
  The heap stands for a map from active watchers to the times they are due.
 */
module Timers {
  import opened EvHeap
  import opened PendingSpec
  import opened TimerSpec
  import opened Pending

  const MIN_INTERVAL: real := 1.0 / 8192.0

  /** All times later by the same amount. */
  function Shifted(t: map<Watcher, real>, adjust: real): map<Watcher, real> {
    map w | w in t :: t[w] + adjust
  }

  lemma Absent(t: map<Watcher, real>, w: Watcher)
    ensures w !in t ==> t - {w} == t
  {
  }

  /** A uniform shift keeps a heap a heap. */
  lemma ShiftedHeap(h0: seq<ANHE>, h: seq<ANHE>, adjust: real)
    requires HeapOk(h0) && |h| == |h0|
    requires forall j {:trigger h[j]} :: 0 <= j < |h| ==> h[j].at == h0[j].at + adjust
    ensures HeapOk(h)
  {
    forall i | 0 < i < |h| ensures EdgeOk(h, i) {
      assert EdgeOk(h0, i);
    }
  }

  function Tick(base: real, interval: real, n: int): real {
    base + n as real * interval
  }

  function Base(offset: real, interval: real, now: real): real {
    var step := if interval > MIN_INTERVAL then interval else MIN_INTERVAL;
    offset + step * ((now - offset) / step).Floor as real
  }

  function Steps(base: real, interval: real, now: real): int
    requires interval > 0.0
  {
    ((now - base) / interval).Floor + 1
  }

  /** The time periodic_recalc finds. */
  function RecalcAt(offset: real, interval: real, now: real): real
    requires interval > 0.0
  {
    var base := Base(offset, interval, now);
    Tick(base, interval, Steps(base, interval, now))
  }

  /** n steps from the base pass now exactly when n reaches Steps. */
  lemma TickPasses(base: real, interval: real, now: real, n: int)
    requires interval > 0.0
    ensures Tick(base, interval, n) > now <==> n >= Steps(base, interval, now)
  {
    var q := (now - base) / interval;
    assert q * interval == now - base;
    if n as real <= q {
      assert n as real * interval <= q * interval;
    } else {
      assert n as real * interval > q * interval;
    }
  }

  lemma BaseIsPast(offset: real, interval: real, now: real)
    requires interval > 0.0
    ensures Base(offset, interval, now) <= now && Steps(Base(offset, interval, now), interval, now) >= 1
  {
    var step := if interval > MIN_INTERVAL then interval else MIN_INTERVAL;
    var q := (now - offset) / step;
    assert q * step == now - offset;
    assert q.Floor as real * step <= q * step;
    TickPasses(Base(offset, interval, now), interval, now, 0);
  }

  /** periodic_recalc, in exact arithmetic. */
  method PeriodicRecalc(offset: real, interval: real, now: real) returns (at: real)
    requires interval > 0.0
    ensures at == RecalcAt(offset, interval, now)
  {
    var step := if interval > MIN_INTERVAL then interval else MIN_INTERVAL;
    at := offset + step * ((now - offset) / step).Floor as real;
    ghost var base, n := at, 0;
    BaseIsPast(offset, interval, now);
    TickPasses(base, interval, now, 0);
    while at <= now
      invariant at == Tick(base, interval, n) && 0 <= n <= Steps(base, interval, now)
      invariant at > now <==> n >= Steps(base, interval, now)
      decreases Steps(base, interval, now) - n
    {
      var later := at + interval;
      if later == at {
        at := now;
        break;
      }
      at := later;
      n := n + 1;
      TickPasses(base, interval, now, n);
    }
  }

  lemma TickTick(base: real, interval: real, k: int, n: int)
    ensures Tick(Tick(base, interval, k), interval, n) == Tick(base, interval, k + n)
  {
    var x, y := k as real, n as real;
    assert (k + n) as real == x + y;
    assert x * interval + y * interval == (x + y) * interval;
  }

  lemma OneTick(base: real, interval: real, n: int)
    ensures Tick(base, interval, n) == Tick(base, interval, n - 1) + interval
  {
    TickTick(base, interval, n - 1, 1);
  }

  /** For every interval the time found is still to come and at most one interval ahead. */
  lemma RecalcSoon(offset: real, interval: real, now: real)
    requires interval > 0.0
    ensures now < RecalcAt(offset, interval, now) <= now + interval
  {
    var base := Base(offset, interval, now);
    var n := Steps(base, interval, now);
    TickPasses(base, interval, now, n);
    TickPasses(base, interval, now, n - 1);
    OneTick(base, interval, n);
  }

  /** The time is one of offset + n * interval. */
  ghost predicate OnGrid(at: real, offset: real, interval: real) {
    exists k: int {:trigger Tick(offset, interval, k)} :: at == Tick(offset, interval, k)
  }

  lemma TicksRise(base: real, interval: real, i: int, j: int)
    requires interval > 0.0 && i <= j
    ensures Tick(base, interval, i) <= Tick(base, interval, j)
  {
    var x, y := i as real, j as real;
    assert x * interval <= y * interval;
  }

  lemma GridShifts(at: real, offset: real, interval: real, n: int)
    ensures OnGrid(Tick(at, interval, n), offset, interval) <==> OnGrid(at, offset, interval)
  {
    if OnGrid(at, offset, interval) {
      var k: int :| at == Tick(offset, interval, k);
      TickTick(offset, interval, k, n);
    }
    if OnGrid(Tick(at, interval, n), offset, interval) {
      var k: int :| Tick(at, interval, n) == Tick(offset, interval, k);
      TickTick(offset, interval, k - n, n);
    }
  }

  /** The time found is one of offset + n * interval exactly when the loop starts at one, and then it is the first of
      them still to come. */
  lemma RecalcIsNext(offset: real, interval: real, now: real, m: int)
    requires interval > 0.0
    ensures var at := RecalcAt(offset, interval, now);
      && (OnGrid(at, offset, interval) <==> OnGrid(Base(offset, interval, now), offset, interval))
      && (OnGrid(at, offset, interval) && now < Tick(offset, interval, m) ==> at <= Tick(offset, interval, m))
  {
    var base := Base(offset, interval, now);
    var n := Steps(base, interval, now);
    GridShifts(base, offset, interval, n);
    if OnGrid(base, offset, interval) && now < Tick(offset, interval, m) {
      var k: int :| base == Tick(offset, interval, k);
      TickTick(offset, interval, k, n);
      TickTick(offset, interval, k, m - k);
      TickPasses(base, interval, now, m - k);
      TicksRise(base, interval, n, m - k);
    }
  }

  /** From the minimum on the loop always does. */
  lemma BaseOnGrid(offset: real, interval: real, now: real)
    requires interval >= MIN_INTERVAL
    ensures OnGrid(Base(offset, interval, now), offset, interval)
  {
    assert Base(offset, interval, now) == Tick(offset, interval, ((now - offset) / interval).Floor);
  }

  class TimerSet {
    const heap: Heap
    const queues: Queues
    var now: real
    ghost const mine: set<Watcher>      // the watchers of this kind
    ghost var due: map<Watcher, real>   // when each active watcher is due

    /** The watcher is active exactly when it is in the map, and then its time is the one there. */
    ghost predicate TimerOk(w: Watcher, t: map<Watcher, real>)
      reads w`active, w`at
    {
      (w.active != 0 <==> w in t) && (w in t ==> w.at == t[w])
    }

    ghost predicate Agree(t: map<Watcher, real>)
      reads mine`active, mine`at
    {
      t.Keys <= mine && forall w {:trigger TimerOk(w, t)} :: w in mine ==> TimerOk(w, t)
    }

    /** What ev_verify asserts of the heap, and that exactly the watchers in it are active. */
    ghost predicate Timed()
      reads this`due, heap, mine`active, mine`at
    {
      Agree(due) && heap.Is(due)
    }

    ghost predicate Valid()
      reads this, heap, queues, queues.all
    {
      mine <= queues.all && Timed() && queues.Valid()
    }

    constructor (queues: Queues, mine: set<Watcher>, now: real)
      requires queues.Valid() && mine <= queues.all
      requires forall w {:trigger w.active} :: w in mine ==> w.active == 0
      ensures Valid() && due == map[] && this.queues == queues && this.mine == mine && fresh(heap) && this.now == now
    {
      heap := new Heap();
      this.queues, this.mine, this.now := queues, mine, now;
      due := map[];
    }

    /** The watchers are due as t says from now on. */
    ghost method Account(t: map<Watcher, real>)
      requires Agree(t) && heap.Is(t)
      modifies this`due
      ensures Timed() && due == t
    {
      due := t;
    }

    /** Starting a watcher: it goes into the heap. */
    method Admit(w: Watcher)
      requires Timed() && w in mine && w.active == 0
      modifies heap, this`due, mine`active
      ensures Timed() && due == old(due)[w := w.at]
    {
      assert TimerOk(w, due);
      heap.Enter(w, due);
      ghost var t := due[w := w.at];
      forall v | v in mine ensures TimerOk(v, t) {
        assert old(TimerOk(v, due));
      }
      Account(t);
    }

    /** Stopping an active watcher: it leaves the heap. */
    method Expel(w: Watcher)
      requires Timed() && w in mine && w.active != 0
      modifies heap, this`due, mine`active
      ensures Timed() && w.active == 0 && due == old(due) - {w}
    {
      assert TimerOk(w, due);
      heap.Leave(w, due);
      ghost var t := due - {w};
      forall v | v in mine ensures TimerOk(v, t) {
        assert old(TimerOk(v, due));
      }
      Account(t);
    }

    /** Gives an active watcher another time. */
    method Rearm(w: Watcher, at: real)
      requires Timed() && w in mine && w.active != 0
      modifies heap, this`due, mine`active, w`at
      ensures Timed() && due == old(due)[w := at]
    {
      assert TimerOk(w, due);
      w.at := at;
      heap.Recache(w, due);
      ghost var t := due[w := at];
      forall v | v in mine ensures TimerOk(v, t) {
        assert old(TimerOk(v, due));
      }
      Account(t);
    }

    /** Gives the watcher at the root another time. */
    method RearmRoot(at: real) returns (w: Watcher)
      requires Timed() && heap.a != []
      modifies heap, this`due, mine`active, mine`at
      ensures Timed() && w in old(due) && w == old(heap.a[0].w) && due == old(due)[w := at]
    {
      heap.RootIn(due);
      w := heap.a[0].w;
      w.at := at;
      heap.RecacheRoot(due);
      ghost var t := due[w := at];
      forall v | v in mine ensures TimerOk(v, t) {
        assert old(TimerOk(v, due));
      }
      Account(t);
    }

    // ----- timers

    /** Gives an inactive watcher another time. */
    method SetIdle(w: Watcher, at: real)
      requires Timed() && w in mine && w.active == 0
      modifies w`at
      ensures Timed() && w.at == at
    {
      assert TimerOk(w, due);
      w.at := at;
      forall v | v in mine ensures TimerOk(v, due) {
        assert old(TimerOk(v, due));
      }
    }

    /** Starting an inactive watcher that is due then. */
    method StartAt(w: Watcher, at: real)
      requires Valid() && w in mine && w.active == 0
      modifies heap, this`due, mine`active, w`at
      ensures Valid() && due == old(due)[w := at]
    {
      SetIdle(w, at);
      Admit(w);
    }

    method TimerStart(w: Watcher)
      requires Valid() && w in mine && w.repeat >= 0.0
      modifies heap, this`due, mine`active, w`at
      ensures Valid()
      ensures due == if w in old(due) then old(due) else old(due)[w := old(w.at) + now]
    {
      assert TimerOk(w, due);
      if w.active != 0 {
        return;
      }
      StartAt(w, w.at + now);
    }

    method TimerStop(w: Watcher)
      requires Valid() && w in mine
      modifies heap, this`due, queues, mine`active, w`at, w`pending
      ensures Valid() && w.active == 0 && w.pending == 0 && w.priority < NUMPRI
      ensures due == old(due) - {w}
      ensures Views(queues.pendings) == Applied(old(Views(queues.pendings)), ClearOp(w))
      ensures w.at == if w in old(due) then old(w.at) - now else old(w.at)
      ensures old(w.pending) == 0 ==> queues.pendings == old(queues.pendings)
    {
      assert TimerOk(w, due);
      var _ := queues.ClearPending(w);
      if w.active == 0 {
        return;
      }
      Expel(w);
      SetIdle(w, w.at - now);
    }

    /** An active timer gets another time, which leaves what is pending as it is. */
    method Reset(w: Watcher, at: real)
      requires Valid() && w in mine && w.active != 0
      modifies heap, this`due, mine`active, w`at
      ensures Valid() && due == old(due)[w := at]
    {
      Rearm(w, at);
    }

    /** An inactive timer starts, due after its repeat value. */
    method StartRepeating(w: Watcher)
      requires Valid() && w in mine && w.active == 0 && w.repeat >= 0.0
      modifies heap, this`due, mine`active, w`at
      ensures Valid() && due == old(due)[w := now + w.repeat]
    {
      assert TimerOk(w, due);
      SetIdle(w, w.repeat);
      TimerStart(w);
    }

    method RestartActive(w: Watcher)
      requires Valid() && w in mine && w.active != 0 && w.pending == 0
      modifies heap, this`due, queues, mine`active, w`at, w`pending
      ensures Valid() && w.pending == 0 && queues.pendings == old(queues.pendings)
      ensures due == if w.repeat == 0.0 then old(due) - {w} else old(due)[w := now + w.repeat]
    {
      if w.repeat != 0.0 {
        Reset(w, now + w.repeat);
      } else {
        TimerStop(w);
      }
    }

    method Restart(w: Watcher)
      requires Valid() && w in mine && w.repeat >= 0.0 && w.pending == 0
      modifies heap, this`due, queues, mine`active, w`at, w`pending
      ensures Valid() && w.pending == 0 && queues.pendings == old(queues.pendings)
      ensures w.repeat == 0.0 ==> due == old(due) - {w}
      ensures w.repeat != 0.0 ==> due == old(due)[w := now + w.repeat]
    {
      ghost var t := due;
      Absent(t, w);
      assert TimerOk(w, due);
      if w.active != 0 {
        RestartActive(w);
      } else if w.repeat != 0.0 {
        StartRepeating(w);
      } else {
        assert due == t == t - {w};
      }
    }

    method TimerAgain(w: Watcher)
      requires Valid() && w in mine && w.repeat >= 0.0
      modifies heap, this`due, queues, mine`active, w`at, w`pending
      ensures Valid() && w.pending == 0 && w.priority < NUMPRI
      ensures due == if w.repeat == 0.0 then old(due) - {w} else old(due)[w := now + w.repeat]
      ensures Views(queues.pendings) == Applied(old(Views(queues.pendings)), ClearOp(w))
    {
      var _ := queues.ClearPending(w);
      Restart(w);
    }

    // ----- expiry

    /** What becomes of timers when they expire: the repeating ones are rearmed. */
    ghost function TimerPlan(): Plan
      reads this`due, this`now, due.Keys`repeat
    {
      map w | w in due && w.repeat != 0.0 :: NextTime(due[w], w.repeat, now)
    }

    ghost function RepeatsNow(): Repeats
      reads this`due, due.Keys`repeat
    {
      map w | w in due :: w.repeat
    }

    /** Some watcher has expired. */
    predicate Ripe()
      reads this`now, heap
    {
      heap.a != [] && heap.a[0].at < now
    }

    /** The watcher at the root is the first due. */
    lemma RootIsFirst()
      requires Timed()
      ensures heap.a != [] ==> heap.a[0].w in due && due[heap.a[0].w] == heap.a[0].at
      ensures heap.a != [] ==> forall v {:trigger v in due} :: v in due ==> due[heap.a[0].w] <= due[v]
      ensures heap.a == [] ==> due == map[]
    {
      if heap.a != [] {
        heap.RootIn(due);
        forall v | v in due ensures due[heap.a[0].w] <= due[v] {
          heap.ActiveSlot(v, due);
          RootIsLeast(heap.a, v.active - HEAP0);
        }
      } else {
        assert Watchers(heap.a) == {};
      }
    }

    /** In the middle of timers_reify or periodics_reify. */
    ghost predicate Expiring(plan: Plan, t0: map<Watcher, real>, v0: View, done: seq<Watcher>)
      reads this, heap, queues, queues.all
    {
      Valid() && Progress(plan, t0, v0, now, done, due, Views(queues.pendings)) && t0.Keys <= mine
    }

    lemma NoneLeft(plan: Plan, t0: map<Watcher, real>, v0: View, rfeeds: seq<Watcher>)
      requires Expiring(plan, t0, v0, rfeeds) && !Ripe()
      ensures Expired(t0, now, rfeeds)
      ensures forall v {:trigger v in due} :: v in due ==> due[v] >= now
      ensures forall w {:trigger w in rfeeds} :: w in rfeeds ==> w in mine
    {
      RootIsFirst();
      AllDone(plan, t0, now, rfeeds);
      forall w | w in rfeeds ensures w in mine {
        assert w in Members(rfeeds);
      }
    }

    /** Gives the watcher at the root another time, which leaves what is pending as it is. */
    method Postpone(at: real) returns (w: Watcher)
      requires Valid() && Ripe()
      modifies heap, this`due, mine`active, mine`at
      ensures Valid() && w in old(due) && w == old(heap.a[0].w) && w.priority < NUMPRI && due == old(due)[w := at]
    {
      w := RearmRoot(at);
      assert queues.KnowsSlot(w);
    }

    /** The loop body of timers_reify. */
    method ExpireRoot() returns (w: Watcher)
      requires Valid() && Ripe() && forall v {:trigger v.repeat} :: v in due ==> v.repeat >= 0.0
      modifies heap, this`due, queues, mine`active, mine`at, mine`pending
      ensures Valid() && w in old(due) && w.priority < NUMPRI && old(due)[w] < now
      ensures forall v {:trigger v in old(due)} :: v in old(due) ==> old(due)[w] <= old(due)[v]
      ensures w.repeat != 0.0 ==>
        due == old(due)[w := NextTime(old(due)[w], w.repeat, now)]
        && Views(queues.pendings) == old(Views(queues.pendings))
      ensures w.repeat == 0.0 ==>
        due == old(due) - {w} && Views(queues.pendings) == Applied(old(Views(queues.pendings)), ClearOp(w))
    {
      RootIsFirst();
      w := heap.a[0].w;
      assert TimerOk(w, due) && queues.KnowsSlot(w);
      if w.repeat != 0.0 {
        var at := w.at + w.repeat;
        if at < now {
          at := now;
        }
        assert at == NextTime(due[w], w.repeat, now);
        w := Postpone(at);
      } else {
        TimerStop(w);
      }
    }

    /** The plan is that of the timers due as t says. */
    ghost predicate Repeating(plan: Plan, t: map<Watcher, real>)
      reads this`now, t.Keys`repeat
    {
      forall w {:trigger w in t} :: w in t ==>
        && w.repeat >= 0.0 && (w in plan <==> w.repeat != 0.0)
        && (w in plan ==> plan[w] == NextTime(t[w], w.repeat, now))
    }

    method ExpireNext(ghost plan: Plan, ghost t0: map<Watcher, real>, ghost v0: View, rfeeds: seq<Watcher>)
        returns (rfeeds': seq<Watcher>)
      requires Expiring(plan, t0, v0, rfeeds) && Repeating(plan, t0) && Ripe()
      modifies heap, this`due, queues, mine`active, mine`at, mine`pending
      ensures Expiring(plan, t0, v0, rfeeds') && |rfeeds'| == |rfeeds| + 1
    {
      ghost var t, v := due, Views(queues.pendings);
      var w := ExpireRoot();
      ghost var t', v' := due, Views(queues.pendings);
      OneMore(plan, t0, now, rfeeds, w);
      PlanHandles(plan, w, w.repeat, now, t, v, t', v');
      Progresses(plan, t0, v0, now, rfeeds, w, t, v, t', v');
      rfeeds' := rfeeds + [w];
    }

    /** The loop of timers_reify. */
    method ExpireWhileRipe(ghost plan: Plan, ghost t0: map<Watcher, real>, ghost v0: View)
        returns (rfeeds: seq<Watcher>)
      requires Expiring(plan, t0, v0, []) && Repeating(plan, t0)
      modifies heap, this`due, queues, mine`active, mine`at, mine`pending
      ensures Expiring(plan, t0, v0, rfeeds) && !Ripe()
    {
      rfeeds := [];
      while Ripe()
        invariant Expiring(plan, t0, v0, rfeeds)
        decreases |t0| - |rfeeds|
      {
        rfeeds := ExpireNext(plan, t0, v0, rfeeds);
      }
    }

    method ExpireAll() returns (rfeeds: seq<Watcher>)
      requires Valid() && forall v {:trigger v.repeat} :: v in due ==> v.repeat >= 0.0
      modifies heap, this`due, queues, mine`active, mine`at, mine`pending
      ensures Valid() && Expired(old(due), now, rfeeds) && due == Advanced(old(TimerPlan()), old(due), Members(rfeeds))
      ensures forall v {:trigger v in due} :: v in due ==> due[v] >= now
      ensures AllSane(rfeeds)
      ensures Views(queues.pendings) == Cleared(old(TimerPlan()), old(Views(queues.pendings)), rfeeds)
      ensures forall w {:trigger w in rfeeds} :: w in rfeeds ==> w in mine
    {
      ghost var plan, t0, v0 := TimerPlan(), due, Views(queues.pendings);
      Starts(plan, t0, v0, now);
      rfeeds := ExpireWhileRipe(plan, t0, v0);
      NoneLeft(plan, t0, v0, rfeeds);
    }

    /** One round of feed_reverse_done. */
    method FeedBefore(rfeeds: seq<Watcher>, k: int, events: Events, ghost v0: View)
      requires queues.Valid() && AllSane(rfeeds) && mine <= queues.all && 0 <= k < |rfeeds| && rfeeds[k] in mine
      requires Views(queues.pendings) == FedAll(v0, rfeeds[k + 1..], events)
      modifies queues, mine`pending
      ensures queues.Valid() && Views(queues.pendings) == FedAll(v0, rfeeds[k..], events)
    {
      assert rfeeds[k..] == [rfeeds[k]] + rfeeds[k + 1..];
      FedMore(v0, rfeeds[k + 1..], rfeeds[k], events);
      queues.FeedEvent(rfeeds[k], events);
    }

    /** feed_reverse_done. */
    method FeedReverseDone(rfeeds: seq<Watcher>, events: Events)
      requires queues.Valid() && AllSane(rfeeds) && mine <= queues.all
      requires forall w {:trigger w in rfeeds} :: w in rfeeds ==> w in mine
      modifies queues, mine`pending
      ensures queues.Valid() && Views(queues.pendings) == FedAll(old(Views(queues.pendings)), rfeeds, events)
    {
      ghost var v0 := Views(queues.pendings);
      var k := |rfeeds|;
      while k > 0
        invariant 0 <= k <= |rfeeds| && queues.Valid()
        invariant Views(queues.pendings) == FedAll(v0, rfeeds[k..], events)
      {
        k := k - 1;
        assert rfeeds[k] in rfeeds;
        FeedBefore(rfeeds, k, events, v0);
      }
      assert rfeeds[0..] == rfeeds;
    }

    /** timers_reify. */
    method TimersReify() returns (rfeeds: seq<Watcher>)
      requires Valid() && forall v {:trigger v.repeat} :: v in due ==> v.repeat >= 0.0
      modifies heap, this`due, queues, mine`active, mine`at, mine`pending
      ensures Valid() && Expired(old(due), now, rfeeds) && Rounded(old(due), due, old(RepeatsNow()), now)
      ensures forall v {:trigger v in due} :: v in due ==> due[v] >= now
      ensures AllSane(rfeeds) && Views(queues.pendings)
        == FedAll(Cleared(old(TimerPlan()), old(Views(queues.pendings)), rfeeds), rfeeds, EV_TIMER)
    {
      ghost var plan, rep, t0 := TimerPlan(), RepeatsNow(), due;
      rfeeds := ExpireAll();
      PlannedRound(plan, rep, t0, now, rfeeds);
      FeedReverseDone(rfeeds, EV_TIMER);
    }

    // ----- changing all times

    /** The entry and its watcher hold this time. */
    ghost predicate RetimedTo(e: ANHE, w: Watcher, at: real)
      reads w`at
    {
      e == ANHE(w, at) && w.at == at
    }

    /** In the middle of giving every watcher of the array h0 its next time: the first i have it. */
    ghost predicate Retiming(h0: seq<ANHE>, next: map<Watcher, real>, i: int)
      reads heap, mine`at
    {
      && |heap.a| == |h0| && NoDup(h0) && Watchers(h0) <= mine && next.Keys == Watchers(h0)
      && forall j {:trigger h0[j].w} :: 0 <= j < |h0| ==>
           h0[j].w in mine
           && RetimedTo(heap.a[j], h0[j].w, if j < i && h0[j].w in next then next[h0[j].w] else h0[j].at)
    }

    method SetTime(i: int, at: real, ghost h0: seq<ANHE>, ghost next: map<Watcher, real>)
      requires 0 <= i < |h0| && Retiming(h0, next, i) && h0[i].w in next && at == next[h0[i].w]
      modifies heap, mine`at
      ensures Retiming(h0, next, i + 1)
    {
      assert h0[i] in h0;
      assert RetimedTo(heap.a[i], h0[i].w, h0[i].at);
      heap.a[i].w.at := at;
      heap.a := heap.a[i := ANHE(heap.a[i].w, heap.a[i].w.at)];
    }

    lemma RetimingStarts(next: map<Watcher, real>)
      requires Timed() && next.Keys == due.Keys
      ensures Retiming(heap.a, next, 0)
      ensures forall j {:trigger heap.a[j].w} :: 0 <= j < |heap.a| ==>
        heap.a[j].w in due && heap.a[j].at == due[heap.a[j].w]
    {
      forall j | 0 <= j < |heap.a|
        ensures heap.a[j].w in due && heap.a[j].at == due[heap.a[j].w] && heap.a[j].at == heap.a[j].w.at
      {
        assert heap.a[j] in heap.a && TimerOk(heap.a[j].w, due);
      }
    }

    /** When every watcher has its next time, the array stands for the next map, if not yet as a heap. */
    lemma RetimingEnds(h0: seq<ANHE>, next: map<Watcher, real>)
      requires Retiming(h0, next, |h0|)
      ensures NoDup(heap.a) && Watchers(heap.a) == next.Keys && Times(heap.a) == next
      ensures forall w {:trigger w in next} :: w in next ==> w.at == next[w]
      ensures forall j {:trigger heap.a[j]} :: 0 <= j < |h0| ==> heap.a[j].w == h0[j].w
    {
      var a := heap.a;
      forall j | 0 <= j < |h0|
        ensures h0[j].w in next && a[j] == ANHE(h0[j].w, next[h0[j].w]) && h0[j].w.at == next[h0[j].w]
      {
        assert h0[j] in h0 && h0[j].w in Watchers(h0);
      }
      forall w | w in next ensures w in Watchers(a) && w.at == next[w] {
        var e :| e in h0 && e.w == w;
        var j :| 0 <= j < |h0| && h0[j] == e;
        assert a[j].w == w && a[j] in a;
      }
      TimesAre(a, next);
    }

    lemma ShiftedIs(h0: seq<ANHE>, next: map<Watcher, real>, adjust: real)
      requires Retiming(h0, next, |h0|) && HeapOk(h0) && IndexedBut(h0, -1)
      requires forall j {:trigger heap.a[j]} :: 0 <= j < |h0| ==> heap.a[j].at == h0[j].at + adjust
      ensures heap.Is(next) && forall w {:trigger w in next} :: w in next ==> w.at == next[w]
    {
      RetimingEnds(h0, next);
      ShiftedHeap(h0, heap.a, adjust);
    }

    method ShiftAll(adjust: real, ghost h0: seq<ANHE>, ghost next: map<Watcher, real>)
      requires Retiming(h0, next, 0)
      requires forall j {:trigger h0[j].w} :: 0 <= j < |h0| ==> h0[j].w in next && next[h0[j].w] == h0[j].at + adjust
      modifies heap, mine`at
      ensures Retiming(h0, next, |h0|)
      ensures forall j {:trigger heap.a[j]} :: 0 <= j < |h0| ==> heap.a[j].at == h0[j].at + adjust
    {
      for i := 0 to |heap.a|
        invariant |heap.a| == |h0| && Retiming(h0, next, i)
      {
        assert RetimedTo(heap.a[i], h0[i].w, h0[i].at);
        SetTime(i, heap.a[i].w.at + adjust, h0, next);
      }
      forall j | 0 <= j < |h0| ensures heap.a[j].at == h0[j].at + adjust {
        assert RetimedTo(heap.a[j], h0[j].w, next[h0[j].w]);
      }
    }

    method ShiftTimes(adjust: real, ghost next: map<Watcher, real>)
      requires Timed() && Retiming(heap.a, next, 0) && next.Keys == due.Keys
      requires forall j {:trigger heap.a[j].w} :: 0 <= j < |heap.a| ==>
        heap.a[j].w in next && next[heap.a[j].w] == heap.a[j].at + adjust
      modifies heap, mine`at
      ensures Agree(next) && heap.Is(next)
    {
      ghost var h0 := heap.a;
      ShiftAll(adjust, h0, next);
      ShiftedIs(h0, next, adjust);
      forall v | v in mine ensures TimerOk(v, next) {
        assert old(TimerOk(v, due));
      }
    }

    /** timers_reschedule: all times move by the same amount. */
    method TimersReschedule(adjust: real)
      requires Valid()
      modifies heap, this`due, mine`at
      ensures Valid() && due == Shifted(old(due), adjust)
      ensures due.Keys == old(due).Keys && forall w {:trigger due[w]} :: w in due ==> due[w] == old(due)[w] + adjust
    {
      ghost var next := Shifted(due, adjust);
      RetimingStarts(next);
      ShiftTimes(adjust, next);
      Account(next);
    }

    /** The next time of a periodic watcher that goes on; cb has the answers of reschedule callbacks. */
    function Again(w: Watcher, cb: map<Watcher, real>): real
      requires w in cb || w.interval > 0.0
      reads this`now, w`offset, w`interval
    {
      if w in cb then cb[w] else RecalcAt(w.offset, w.interval, now)
    }

    /** The time an active periodic watcher gets when all are recalculated. */
    function NextPeriodic(w: Watcher, cb: map<Watcher, real>): real
      requires w.interval >= 0.0
      reads this`now, w`at, w`offset, w`interval
    {
      if w in cb || w.interval != 0.0 then Again(w, cb) else w.at
    }

    /** Recalculated, a watcher is due when its callback says, if it has one; else within one interval after now, if it
        has an interval; else when it was. */
    lemma NextTells(w: Watcher, cb: map<Watcher, real>)
      requires w.interval >= 0.0
      ensures if w in cb then NextPeriodic(w, cb) == cb[w]
        else if w.interval > 0.0 then now < NextPeriodic(w, cb) <= now + w.interval
        else NextPeriodic(w, cb) == w.at
    {
      if w.interval > 0.0 {
        RecalcSoon(w.offset, w.interval, now);
      }
    }

    method RecalcAll(cb: map<Watcher, real>, ghost h0: seq<ANHE>, ghost next: map<Watcher, real>)
      requires Retiming(h0, next, 0)
      requires forall j {:trigger h0[j].w} :: 0 <= j < |h0| ==>
        h0[j].w.interval >= 0.0 && h0[j].w in next && next[h0[j].w] == NextPeriodic(h0[j].w, cb)
      modifies heap, mine`at
      ensures Retiming(h0, next, |h0|)
    {
      for i := 0 to |heap.a|
        invariant |heap.a| == |h0| && Retiming(h0, next, i)
      {
        assert RetimedTo(heap.a[i], h0[i].w, h0[i].at) && old(RetimedTo(heap.a[i], h0[i].w, h0[i].at));
        var w := heap.a[i].w;
        var at := w.at;
        if w in cb {
          at := cb[w];
        } else if w.interval != 0.0 {
          at := PeriodicRecalc(w.offset, w.interval, now);
        }
        SetTime(i, at, h0, next);
      }
    }

    /** The loop of periodics_reschedule: every watcher gets its new time, and so does its entry in the array. */
    method RecalcTimes(cb: map<Watcher, real>, ghost next: map<Watcher, real>)
      requires Timed() && Retiming(heap.a, next, 0) && next.Keys == due.Keys
      requires forall j {:trigger heap.a[j].w} :: 0 <= j < |heap.a| ==>
        heap.a[j].w.interval >= 0.0 && heap.a[j].w in next && next[heap.a[j].w] == NextPeriodic(heap.a[j].w, cb)
      modifies heap, mine`at
      ensures Agree(next) && NoDup(heap.a) && IndexedBut(heap.a, -1)
      ensures Watchers(heap.a) == next.Keys && Times(heap.a) == next
    {
      ghost var h0 := heap.a;
      RecalcAll(cb, h0, next);
      RetimingEnds(h0, next);
      forall v | v in mine ensures TimerOk(v, next) {
        assert old(TimerOk(v, due));
      }
    }

    /** Then the array becomes a heap again. */
    method Rebuild(ghost next: map<Watcher, real>)
      requires NoDup(heap.a) && IndexedBut(heap.a, -1)
      requires Watchers(heap.a) == next.Keys && Times(heap.a) == next && Agree(next)
      modifies heap, Watchers(heap.a)`active
      ensures heap.Is(next) && Agree(next)
    {
      heap.Reheap();
      SameTimes(heap.a, old(heap.a));
      heap.AllActive(next);
      forall v | v in mine ensures TimerOk(v, next) {
        assert old(TimerOk(v, next));
      }
    }

    /** periodics_reschedule. */
    method PeriodicsReschedule(cb: map<Watcher, real>)
      requires Valid() && forall w {:trigger w.interval} :: w in due ==> w.interval >= 0.0
      modifies heap, this`due, mine`at, mine`active
      ensures Valid() && due == map w | w in old(due) :: old(NextPeriodic(w, cb))
    {
      ghost var next := map w | w in due :: NextPeriodic(w, cb);
      RetimingStarts(next);
      RecalcTimes(cb, next);
      Rebuild(next);
      Account(next);
    }

    method PeriodicStart(w: Watcher, cb: map<Watcher, real>)
      requires Valid() && w in mine && w.interval >= 0.0
      modifies heap, this`due, mine`active, w`at
      ensures Valid()
      ensures due == if w in old(due) then old(due)
        else old(due)[w := if w in cb then cb[w]
                           else if w.interval != 0.0 then RecalcAt(w.offset, w.interval, now) else w.offset]
    {
      assert TimerOk(w, due);
      if w.active != 0 {
        return;
      }
      var at := w.offset;
      if w in cb {
        at := cb[w];
      } else if w.interval != 0.0 {
        at := PeriodicRecalc(w.offset, w.interval, now);
      }
      StartAt(w, at);
    }

    method PeriodicStop(w: Watcher)
      requires Valid() && w in mine
      modifies heap, this`due, queues, mine`active, w`pending
      ensures Valid() && w.active == 0 && w.pending == 0 && w.priority < NUMPRI
      ensures due == old(due) - {w}
      ensures Views(queues.pendings) == Applied(old(Views(queues.pendings)), ClearOp(w))
    {
      assert TimerOk(w, due);
      var _ := queues.ClearPending(w);
      if w.active == 0 {
        return;
      }
      Expel(w);
    }

    /** What becomes of periodic watchers when they expire: those without callback and interval stop. */
    ghost function PeriodicPlan(cb: map<Watcher, real>): Plan
      requires forall w {:trigger w.interval} :: w in due ==> w.interval >= 0.0
      reads this`due, this`now, due.Keys`interval, due.Keys`offset
    {
      map w | w in due && (w in cb || w.interval != 0.0) :: Again(w, cb)
    }

    /** The plan is that of the watchers due as t says. */
    ghost predicate Returning(plan: Plan, cb: map<Watcher, real>, t: map<Watcher, real>)
      reads this`now, t.Keys`interval, t.Keys`offset
    {
      forall w {:trigger w in t} :: w in t ==>
        && w.interval >= 0.0 && (w in plan <==> w in cb || w.interval != 0.0)
        && (w in plan ==> plan[w] == Again(w, cb))
    }

    /** A watcher with a callback or an interval goes on. */
    method Renew(w: Watcher, cb: map<Watcher, real>)
      requires Valid() && Ripe() && w == heap.a[0].w && w in due && (w in cb || w.interval > 0.0)
      modifies heap, this`due, mine`active, mine`at
      ensures Valid() && w.priority < NUMPRI && due == old(due)[w := Again(w, cb)]
    {
      var at := w.at;
      if w in cb {
        at := cb[w];
      } else {
        at := PeriodicRecalc(w.offset, w.interval, now);
      }
      var _ := Postpone(at);
    }

    /** The loop body of periodics_reify. */
    method ExpireRootPeriodic(cb: map<Watcher, real>, ghost plan: Plan, ghost t0: map<Watcher, real>)
        returns (w: Watcher)
      requires Valid() && Ripe() && due.Keys <= t0.Keys && Returning(plan, cb, t0)
      modifies heap, this`due, queues, mine`active, mine`at, mine`pending
      ensures Valid() && w in old(due) && w.priority < NUMPRI && old(due)[w] < now
      ensures forall v {:trigger v in old(due)} :: v in old(due) ==> old(due)[w] <= old(due)[v]
      ensures Handled(plan, w, old(due), old(Views(queues.pendings)), due, Views(queues.pendings))
    {
      RootIsFirst();
      w := heap.a[0].w;
      assert w in t0;
      if w in cb || w.interval != 0.0 {
        Renew(w, cb);
      } else {
        PeriodicStop(w);
      }
    }

    method ExpireNextPeriodic(cb: map<Watcher, real>, ghost plan: Plan, ghost t0: map<Watcher, real>, ghost v0: View,
                              rfeeds: seq<Watcher>) returns (rfeeds': seq<Watcher>)
      requires Expiring(plan, t0, v0, rfeeds) && Returning(plan, cb, t0) && Ripe()
      modifies heap, this`due, queues, mine`active, mine`at, mine`pending
      ensures Expiring(plan, t0, v0, rfeeds') && |rfeeds'| == |rfeeds| + 1
    {
      ghost var t, v := due, Views(queues.pendings);
      var w := ExpireRootPeriodic(cb, plan, t0);
      ghost var t', v' := due, Views(queues.pendings);
      Progresses(plan, t0, v0, now, rfeeds, w, t, v, t', v');
      rfeeds' := rfeeds + [w];
    }

    /** A plan is ahead of now when every callback answers a time that is not past. */
    lemma PlanAhead(cb: map<Watcher, real>)
      requires forall w {:trigger w.interval} :: w in due ==> w.interval >= 0.0
      requires forall w {:trigger w in cb} :: w in cb ==> cb[w] >= now
      ensures Ahead(PeriodicPlan(cb), now) && Returning(PeriodicPlan(cb), cb, due)
    {
      var plan := PeriodicPlan(cb);
      forall w | w in plan ensures plan[w] >= now {
        if w !in cb {
          RecalcSoon(w.offset, w.interval, now);
        }
      }
    }

    /** The inner loop of periodics_reify. */
    method ExpirePeriodicsWhileRipe(cb: map<Watcher, real>, ghost plan: Plan, ghost t0: map<Watcher, real>,
                                    ghost v0: View) returns (rfeeds: seq<Watcher>)
      requires Expiring(plan, t0, v0, []) && Returning(plan, cb, t0)
      modifies heap, this`due, queues, mine`active, mine`at, mine`pending
      ensures Expiring(plan, t0, v0, rfeeds) && !Ripe()
    {
      rfeeds := [];
      while Ripe()
        invariant Expiring(plan, t0, v0, rfeeds)
        decreases |t0| - |rfeeds|
      {
        rfeeds := ExpireNextPeriodic(cb, plan, t0, v0, rfeeds);
      }
    }

    /** It ends because no reschedule callback answers a time that is past; see NeverDone. */
    method ExpireAllPeriodics(cb: map<Watcher, real>) returns (rfeeds: seq<Watcher>)
      requires Valid() && forall w {:trigger w.interval} :: w in due ==> w.interval >= 0.0
      requires forall w {:trigger w in cb} :: w in cb ==> cb[w] >= now
      modifies heap, this`due, queues, mine`active, mine`at, mine`pending
      ensures Valid() && Expired(old(due), now, rfeeds)
      ensures due == Advanced(old(PeriodicPlan(cb)), old(due), Members(rfeeds))
      ensures forall v {:trigger v in due} :: v in due ==> due[v] >= now
      ensures AllSane(rfeeds)
      ensures Views(queues.pendings) == Cleared(old(PeriodicPlan(cb)), old(Views(queues.pendings)), rfeeds)
      ensures forall w {:trigger w in rfeeds} :: w in rfeeds ==> w in mine
    {
      ghost var plan, t0, v0 := PeriodicPlan(cb), due, Views(queues.pendings);
      PlanAhead(cb);
      Starts(plan, t0, v0, now);
      rfeeds := ExpirePeriodicsWhileRipe(cb, plan, t0, v0);
      NoneLeft(plan, t0, v0, rfeeds);
    }

    /** What a round of periodics_reify makes of one watcher: nothing, if it has not expired. Otherwise its callback, if
        it has one, says when it is due next; else an interval puts it within one interval after now, on its grid if the
        interval is not tiny; else it stops. */
    ghost predicate Renewed(w: Watcher, t: map<Watcher, real>, t': map<Watcher, real>, cb: map<Watcher, real>)
      requires w in t
      reads this`now, w`interval, w`offset
    {
      if t[w] >= now then w in t' && t'[w] == t[w]
      else if w in cb then w in t' && t'[w] == cb[w]
      else if w.interval > 0.0 then
        w in t' && now < t'[w] <= now + w.interval
        && (w.interval >= MIN_INTERVAL ==> OnGrid(t'[w], w.offset, w.interval))
      else w !in t'
    }

    /** Handling exactly the expired watchers, as PeriodicsReify does, makes that of each. */
    lemma PlanRenews(cb: map<Watcher, real>, done: seq<Watcher>)
      requires forall w {:trigger w.interval} :: w in due ==> w.interval >= 0.0
      requires Expired(due, now, done)
      ensures var t' := Advanced(PeriodicPlan(cb), due, Members(done));
        t'.Keys <= due.Keys && forall w {:trigger w in due} :: w in due ==> Renewed(w, due, t', cb)
    {
      var t, t' := due, Advanced(PeriodicPlan(cb), due, Members(done));
      forall w | w in t ensures Renewed(w, t, t', cb) {
        assert w in Members(done) <==> t[w] < now;
        if w !in cb && w.interval > 0.0 {
          RecalcSoon(w.offset, w.interval, now);
          if w.interval >= MIN_INTERVAL {
            BaseOnGrid(w.offset, w.interval, now);
            RecalcIsNext(w.offset, w.interval, now, 0);
          }
        }
      }
    }

    /** periodics_reify. After one round of its outer loop nothing is expired. */
    method PeriodicsReify(cb: map<Watcher, real>) returns (rfeeds: seq<Watcher>)
      requires Valid() && forall w {:trigger w.interval} :: w in due ==> w.interval >= 0.0
      requires forall w {:trigger w in cb} :: w in cb ==> cb[w] >= now
      modifies heap, this`due, queues, mine`active, mine`at, mine`pending
      ensures Valid() && Expired(old(due), now, rfeeds)
      ensures due == Advanced(old(PeriodicPlan(cb)), old(due), Members(rfeeds))
      ensures forall v {:trigger v in due} :: v in due ==> due[v] >= now
      ensures AllSane(rfeeds) && Views(queues.pendings)
        == FedAll(Cleared(old(PeriodicPlan(cb)), old(Views(queues.pendings)), rfeeds), rfeeds, EV_PERIODIC)
    {
      rfeeds := ExpireAllPeriodics(cb);
      FeedReverseDone(rfeeds, EV_PERIODIC);
    }
  }

  // ----- the next time of a periodic watcher

  /** Below it need not: at two thirds of the minimum, a watcher asked for at the minimum goes off at five thirds of
      it. */
  lemma TinyOffGrid()
    ensures var interval := MIN_INTERVAL * 2.0 / 3.0;
      RecalcAt(0.0, interval, MIN_INTERVAL) == MIN_INTERVAL * 5.0 / 3.0
        && !OnGrid(MIN_INTERVAL * 5.0 / 3.0, 0.0, interval)
  {
    var interval, at := MIN_INTERVAL * 2.0 / 3.0, MIN_INTERVAL * 5.0 / 3.0;
    assert Base(0.0, interval, MIN_INTERVAL) == MIN_INTERVAL;
    assert Steps(MIN_INTERVAL, interval, MIN_INTERVAL) == 1;
    forall k: int ensures Tick(0.0, interval, k) != at {
      assert (2 * k) as real != 5.0;
    }
  }
}

/** The order in which expired timers are invoked. */
module TimerOrder {
  import opened EvHeap
  import opened PendingSpec
  import opened PendingRuns
  import opened TimerSpec

  function Names(l: seq<Item>): (n: seq<Watcher>)
    ensures |n| == |l| && forall i {:trigger n[i]} :: 0 <= i < |l| ==> n[i] == l[i].w
  {
    seq(|l|, i requires 0 <= i < |l| => l[i].w)
  }

  /** The watchers of one priority that were not pending before, in the order they become so. */
  function New(l: seq<Item>, done: seq<Watcher>, p: nat): (n: seq<Watcher>)
    ensures forall w :: w in n ==> w in done && w.priority == p && !Has(l, w)
  {
    if done == [] then []
    else
      var n := New(l, done[1..], p);
      if done[0].priority == p && !Has(l, done[0]) then n + [done[0]] else n
  }

  predicate Distinct(done: seq<Watcher>) {
    forall i, j {:trigger done[i], done[j]} :: 0 <= i < j < |done| ==> done[i] != done[j]
  }

  lemma {:induction false} MergedNames(l: seq<Item>, w: Watcher, events: Events)
    ensures Names(Merged(l, w, events)) == Names(l)
  {
    if l != [] && l[|l| - 1].w != w {
      var n := |l| - 1;
      MergedNames(l[..n], w, events);
      var m := Merged(l[..n], w, events);
      forall i | 0 <= i < n ensures m[i].w == l[i].w {
        assert Names(m)[i] == Names(l[..n])[i];
      }
    }
  }

  lemma HasNames(l: seq<Item>, w: Watcher)
    ensures Has(l, w) <==> w in Names(l)
  {
    if w in Names(l) {
      var i :| 0 <= i < |l| && Names(l)[i] == w;
    }
    if Has(l, w) {
      var i :| 0 <= i < |l| && l[i].w == w;
      assert Names(l)[i] == w;
    }
  }

  /** Feeding distinct watchers leaves those already pending where they are and puts the others behind them. */
  lemma {:induction false} FedNames(v: View, done: seq<Watcher>, events: Events, p: nat)
    requires AllSane(done) && Distinct(done) && p < NUMPRI
    ensures Names(FedAll(v, done, events)[p]) == Names(v[p]) + New(v[p], done, p)
  {
    if done == [] {
      assert Feeds(done, events) == [];
    } else {
      var rest, w := done[1..], done[0];
      assert done == [w] + rest;
      FedNames(v, rest, events, p);
      FedMore(v, rest, w, events);
      var l := FedAll(v, rest, events)[p];
      if w.priority == p {
        HasNames(l, w);
        HasNames(v[p], w);
        assert w !in rest;
        if Has(l, w) {
          MergedNames(l, w, events);
        } else {
          assert Names(l + [Item(w, events)]) == Names(l) + [w];
        }
      }
    }
  }

  // ----- what each watcher is pending for

  lemma {:induction false} ClearedOwes(plan: Plan, v: View, done: seq<Watcher>, u: Watcher)
    requires AllSane(done) && Orderly(v) && u.priority < NUMPRI
    ensures Orderly(Cleared(plan, v, done))
    ensures Owed(Cleared(plan, v, done)[u.priority], u)
      == if u in done && u !in plan then {} else Owed(v[u.priority], u)
  {
    if done == [] {
      assert Clears(plan, done) == [];
    } else {
      var n := |done| - 1;
      var w := done[n];
      assert done == done[..n] + [w] && w.priority < NUMPRI;
      ClearedOwes(plan, v, done[..n], u);
      ClearedMore(plan, v, done[..n], w);
      if w !in plan {
        var v' := Cleared(plan, v, done[..n]);
        OpOrderly(v', ClearOp(w));
        DroppedOwed(v'[w.priority], w, u);
      }
    }
  }

  lemma {:induction false} FedAllOwes(v: View, done: seq<Watcher>, events: Events, u: Watcher)
    requires AllSane(done) && u.priority < NUMPRI
    ensures Owed(FedAll(v, done, events)[u.priority], u) == Owed(v[u.priority], u) + if u in done then events else {}
  {
    if done == [] {
      assert Feeds(done, events) == [];
    } else {
      var w, rest := done[0], done[1..];
      assert done == [w] + rest;
      FedAllOwes(v, rest, events, u);
      FedMore(v, rest, w, events);
      FedOwed(FedAll(v, rest, events)[w.priority], w, events, u);
    }
  }

  /** After timers_reify or periodics_reify each expired watcher is pending for its event, one that goes on also for
      what it was pending for before, and one that stops for nothing else; all others are pending for what they were. */
  lemma ReifyOwes(plan: Plan, v: View, done: seq<Watcher>, events: Events, u: Watcher)
    requires AllSane(done) && Orderly(v) && u.priority < NUMPRI
    ensures Owed(FedAll(Cleared(plan, v, done), done, events)[u.priority], u)
      == (if u in done && u !in plan then {} else Owed(v[u.priority], u)) + if u in done then events else {}
  {
    ClearedOwes(plan, v, done, u);
    FedAllOwes(Cleared(plan, v, done), done, events, u);
  }

  // ----- who stands behind whom

  /** In the queue, u stands behind w, so that it is invoked first. */
  predicate Behind(l: seq<Item>, w: Watcher, u: Watcher) {
    exists x, y {:trigger l[x].w, l[y].w} :: 0 <= x < y < |l| && l[x].w == w && l[y].w == u
  }

  lemma BehindByNames(l: seq<Item>, l': seq<Item>, w: Watcher, u: Watcher)
    requires Behind(l, w, u) && Names(l) <= Names(l')
    ensures Behind(l', w, u)
  {
    var x, y :| 0 <= x < y < |l| && l[x].w == w && l[y].w == u;
    assert Names(l')[x] == Names(l)[x] && Names(l')[y] == Names(l)[y];
    assert l'[x].w == w && l'[y].w == u;
  }

  lemma FedKeepsBehind(l: seq<Item>, o: Watcher, events: Events, w: Watcher, u: Watcher)
    requires Behind(l, w, u)
    ensures Behind(Fed(l, o, events), w, u)
  {
    MergedNames(l, o, events);
    BehindByNames(l, Fed(l, o, events), w, u);
  }

  lemma {:induction false} DroppedKeeps(l: seq<Item>, o: Watcher, w: Watcher)
    requires Has(l, w) && o != w
    ensures Has(Dropped(l, o), w)
  {
    var n := |l| - 1;
    var k :| 0 <= k < |l| && l[k].w == w;
    if l[n].w == o {
      assert l[..n][k].w == w;
    } else if k < n {
      assert l[..n][k].w == w;
      DroppedKeeps(l[..n], o, w);
      var d := Dropped(l[..n], o);
      var i :| 0 <= i < |d| && d[i].w == w;
      assert Dropped(l, o)[i].w == w;
    } else {
      assert Dropped(l, o)[|Dropped(l, o)| - 1].w == w;
    }
  }

  lemma {:induction false} DroppedKeepsBehind(l: seq<Item>, o: Watcher, w: Watcher, u: Watcher)
    requires Behind(l, w, u) && o != w && o != u
    ensures Behind(Dropped(l, o), w, u)
  {
    var n := |l| - 1;
    var x, y :| 0 <= x < y < |l| && l[x].w == w && l[y].w == u;
    var d, l' := Dropped(l[..n], o), Dropped(l, o);
    assert l[..n][x].w == w;
    if y < n {
      assert l[..n][y].w == u;
      if l[n].w != o {
        DroppedKeepsBehind(l[..n], o, w, u);
        BehindByNames(d, l', w, u);
      }
    } else {
      DroppedKeeps(l[..n], o, w);
      var i :| 0 <= i < |d| && d[i].w == w;
      assert l'[i].w == w && l'[|d|].w == u;
    }
  }

  /** The operation does not clear the watcher. */
  predicate Spares(op: Op, w: Watcher) {
    op.ClearOp? ==> op.w != w
  }

  predicate SparesBoth(ops: seq<Op>, w: Watcher, u: Watcher) {
    forall i {:trigger ops[i]} :: 0 <= i < |ops| ==> Spares(ops[i], w) && Spares(ops[i], u)
  }

  lemma {:induction false} OpsKeepBehind(v: View, ops: seq<Op>, p: nat, w: Watcher, u: Watcher)
    requires (forall op :: op in ops ==> Sane(op)) && p < NUMPRI && Behind(v[p], w, u) && SparesBoth(ops, w, u)
    ensures Behind(AppliedAll(v, ops)[p], w, u)
  {
    if ops != [] {
      var n := |ops| - 1;
      assert ops[n] in ops;
      OpsKeepBehind(v, ops[..n], p, w, u);
      var l := AppliedAll(v, ops[..n])[p];
      match ops[n]
      case FeedOp(o, events) => FedKeepsBehind(l, o, events, w, u);
      case ClearOp(o) =>
        assert Spares(ops[n], w) && Spares(ops[n], u);
        DroppedKeepsBehind(l, o, w, u);
    }
  }

  /** As long as u stands behind w, w is not invoked, and only the invocation of u ends that. */
  lemma TakenKeepsBehind(v: View, p: nat, w: Watcher, u: Watcher)
    requires Orderly(v) && !Idle(v) && p < NUMPRI && Behind(v[p], w, u)
    ensures NextItem(v).w != w && (NextItem(v).w != u ==> Behind(Taken(v)[p], w, u))
  {
    var x, y :| 0 <= x < y < |v[p]| && v[p][x].w == w && v[p][y].w == u;
    var q := Top(v, NUMPRI);
    var n := |v[q]| - 1;
    assert Singles(v[p]) && OfPriority(v[p], p) && OfPriority(v[q], q);
    if q == p {
      assert v[p][x].w != v[p][y].w;
      assert y < n ==> v[p][x].w != v[p][n].w && v[p][..n][x].w == w && v[p][..n][y].w == u;
    }
  }

  /** What callbacks do spares both watchers. */
  predicate ScriptSpares(script: seq<seq<Op>>, w: Watcher, u: Watcher) {
    forall i {:trigger script[i]} :: 0 <= i < |script| ==> SparesBoth(script[i], w, u)
  }

  /** One invocation, whose callback spares both. */
  lemma CallKeepsBehind(v: View, ops: seq<Op>, p: nat, w: Watcher, u: Watcher)
    requires Orderly(v) && !Idle(v) && (forall op :: op in ops ==> Sane(op)) && SparesBoth(ops, w, u)
    requires p < NUMPRI && Behind(v[p], w, u)
    ensures NextItem(v).w != w && (NextItem(v).w != u ==> Behind(AfterCall(v, ops)[p], w, u))
  {
    TakenKeepsBehind(v, p, w, u);
    if NextItem(v).w != u {
      OpsKeepBehind(Taken(v), ops, p, w, u);
    }
  }

  /** The watcher is among the first n invoked. */
  predicate Called(trace: seq<Item>, n: nat, w: Watcher)
    requires n <= |trace|
  {
    exists i {:trigger trace[i]} :: 0 <= i < n && trace[i].w == w
  }

  lemma CalledNext(trace: seq<Item>, n: nat, w: Watcher)
    requires n < |trace|
    ensures Called(trace, n + 1, w) <==> Called(trace, n, w) || trace[n].w == w
  {
  }

  lemma NextCallKeeps(v: View, script: seq<seq<Op>>, trace: seq<Item>, i: nat, p: nat, w: Watcher, u: Watcher)
    requires Orderly(v) && SaneScript(script) && IsTrace(v, script, trace) && i < |trace|
    requires p < NUMPRI && Behind(AfterCalls(v, script, i)[p], w, u) && ScriptSpares(script, w, u)
    ensures trace[i].w != w && (trace[i].w != u ==> Behind(AfterCalls(v, script, i + 1)[p], w, u))
  {
    assert DueAt(v, script, i, trace[i]);
    CallsOrderly(v, script, i);
    assert SparesBoth(Nth(script, i), w, u);
    CallKeepsBehind(AfterCalls(v, script, i), Nth(script, i), p, w, u);
  }

  /** Through n invocations, whatever their callbacks feed and whomever else they clear: u has been invoked, or it still
      stands behind w and w has not. */
  lemma {:induction false} StillBehind(v: View, script: seq<seq<Op>>, trace: seq<Item>, n: nat, p: nat, w: Watcher,
                                       u: Watcher)
    requires Orderly(v) && SaneScript(script) && IsTrace(v, script, trace) && n <= |trace|
    requires p < NUMPRI && Behind(v[p], w, u) && ScriptSpares(script, w, u)
    ensures Called(trace, n, u) || (Behind(AfterCalls(v, script, n)[p], w, u) && !Called(trace, n, w))
  {
    if n > 0 {
      StillBehind(v, script, trace, n - 1, p, w, u);
      CalledNext(trace, n - 1, w);
      CalledNext(trace, n - 1, u);
      if !Called(trace, n - 1, u) {
        NextCallKeeps(v, script, trace, n - 1, p, w, u);
      }
    }
  }

  /** None is left out: each expired timer was pending or becomes so. */
  lemma {:induction false} NewIsAll(l: seq<Item>, done: seq<Watcher>, w: Watcher)
    requires w in done
    ensures Has(l, w) || w in New(l, done, w.priority)
  {
    if done[0] != w {
      NewIsAll(l, done[1..], w);
    }
  }

  /** Of two timers that become pending, the one handled later stands before the other. */
  lemma {:induction false} NewBehind(l: seq<Item>, done: seq<Watcher>, a: nat, b: nat) returns (x: nat, y: nat)
    requires a < b < |done| && done[a].priority == done[b].priority && !Has(l, done[a]) && !Has(l, done[b])
    ensures var n := New(l, done, done[a].priority); x < y < |n| && n[x] == done[b] && n[y] == done[a]
  {
    var p, rest := done[a].priority, done[1..];
    var m := New(l, rest, p);
    if a == 0 {
      assert done[b] == rest[b - 1];
      NewIsAll(l, rest, done[b]);
      x :| 0 <= x < |m| && m[x] == done[b];
      y := |m|;
    } else {
      x, y := NewBehind(l, rest, a - 1, b - 1);
    }
  }

  lemma FedOrderlyAll(v: View, done: seq<Watcher>, events: Events)
    requires AllSane(done) && Orderly(v)
    ensures Orderly(FedAll(v, done, events))
  {
    FeedsSane(done, events);
    OpsOrderly(v, Feeds(done, events));
  }

  lemma ExpiredBehind(t: map<Watcher, real>, now: real, done: seq<Watcher>, v: View, events: Events, a: nat, b: nat)
    requires Expired(t, now, done) && AllSane(done) && a < b < |done| && done[a].priority == done[b].priority < NUMPRI
    requires !Has(v[done[a].priority], done[a]) && !Has(v[done[a].priority], done[b])
    ensures Behind(FedAll(v, done, events)[done[a].priority], done[b], done[a]) && Precedes(t, done[a], done[b])
  {
    var p := done[a].priority;
    var l, l' := v[p], FedAll(v, done, events)[p];
    forall i, j | 0 <= i < j < |done| ensures done[i] != done[j] {
      assert Precedes(t, done[i], done[j]);
    }
    FedNames(v, done, events, p);
    var x, y := NewBehind(l, done, a, b);
    assert Names(l')[|l| + x] == done[b] && Names(l')[|l| + y] == done[a];
    assert l'[|l| + x].w == done[b] && l'[|l| + y].w == done[a];
  }

  /** The expired timers of one priority that were not pending are invoked in the order they expired: whatever is fed
      and cleared after timers_reify and in every callback, as long as the two are not cleared, a timer is invoked only
      after each that expired before it. */
  lemma ExpiredRunInOrder(t: map<Watcher, real>, now: real, done: seq<Watcher>, v: View, events: Events,
                          between: seq<Op>, script: seq<seq<Op>>, trace: seq<Item>, a: nat, b: nat, j: nat)
    requires Expired(t, now, done) && AllSane(done) && Orderly(v)
    requires a < b < |done| && done[a].priority == done[b].priority < NUMPRI
    requires !Has(v[done[a].priority], done[a]) && !Has(v[done[a].priority], done[b])
    requires (forall op :: op in between ==> Sane(op)) && SparesBoth(between, done[b], done[a])
    requires SaneScript(script) && ScriptSpares(script, done[b], done[a])
    requires IsTrace(AppliedAll(FedAll(v, done, events), between), script, trace)
    requires j < |trace| && trace[j].w == done[b]
    ensures done[a] in t && done[b] in t && t[done[a]] <= t[done[b]]
    ensures Called(trace, j, done[a])
  {
    var p := done[a].priority;
    ExpiredBehind(t, now, done, v, events, a, b);
    FedOrderlyAll(v, done, events);
    OpsOrderly(FedAll(v, done, events), between);
    OpsKeepBehind(FedAll(v, done, events), between, p, done[b], done[a]);
    var v' := AppliedAll(FedAll(v, done, events), between);
    StillBehind(v', script, trace, j, p, done[b], done[a]);
    if !Called(trace, j, done[a]) {
      assert DueAt(v', script, j, trace[j]);
      CallsOrderly(v', script, j);
      TakenKeepsBehind(AfterCalls(v', script, j), p, done[b], done[a]);
    }
  }
}
