/**
  Watching descriptors: the list of watchers per descriptor, the queue of descriptors that have changed, and
  bringing the backend up to date with the watchers, even when the backend kills a descriptor meanwhile.
 */
module Fds {
  import opened EvHeap
  import opened Pending
  import opened PendingSpec
  import opened Polls
  import R = PendingRuns

  const EV_ANFD_REIFY: nat := 0  // bit numbers of the masks 0x01, 0x80 and 0x80000000
  const EV__IOFDSET: nat := 7
  const EV_ERROR: nat := 31
  const IO: Events := {EV_READ, EV_WRITE}
  const KILLED: Events := {EV_ERROR, EV_READ, EV_WRITE}

  class IoWatcher {
    const base: Watcher  // the part every watcher has, by which it is known to the pending queues
    const fd: nat
    var events: Events
    var active: bool

    constructor (base: Watcher, fd: nat, events: Events)
      ensures this.base == base && this.fd == fd && this.events == events + {EV__IOFDSET} && !active
    {
      this.base, this.fd, this.events, active := base, fd, events + {EV__IOFDSET}, false;
    }
  }

  datatype Anfd = Anfd(list: seq<IoWatcher>, events: Events, reify: Events)

  /** The events that some watcher of the list wants. */
  function Wanted(list: seq<IoWatcher>): Events
    reads list`events
  {
    if list == [] then {} else list[0].events + Wanted(list[1..])
  }

  /** An event is wanted exactly when some watcher of the list asks for it. */
  lemma {:induction false} WantedByOne(list: seq<IoWatcher>, bit: nat)
    ensures bit in Wanted(list) <==> exists k {:trigger list[k]} :: 0 <= k < |list| && bit in list[k].events
  {
    if list != [] {
      WantedByOne(list[1..], bit);
      if k :| 0 <= k < |list| && bit in list[k].events {
        assert k > 0 ==> list[1..][k - 1] == list[k];
      }
      if k :| 0 <= k < |list[1..]| && bit in list[1..][k].events {
        assert list[k + 1] == list[1..][k];
      }
      assert list[0] == list[0];
    }
  }

  // ----- the queue of changed descriptors

  /** A descriptor is marked and waits once, or is not marked and does not wait. */
  predicate CountOk(anfds: seq<Anfd>, un: seq<nat>, fd: nat)
    requires fd < |anfds|
  {
    multiset(un)[fd] == if anfds[fd].reify != {} then 1 else 0
  }

  ghost predicate ChangesOk(anfds: seq<Anfd>, un: seq<nat>) {
    && (forall fd {:trigger CountOk(anfds, un, fd)} :: 0 <= fd < |anfds| ==> CountOk(anfds, un, fd))
    && (forall k {:trigger un[k]} :: 0 <= k < |un| ==> un[k] < |anfds|)
  }

  /** Marking a descriptor, and queueing it unless it was marked already. */
  lemma MarkOk(anfds: seq<Anfd>, un: seq<nat>, fd: nat, a: Anfd)
    requires ChangesOk(anfds, un) && fd < |anfds| && a.reify != {}
    ensures ChangesOk(anfds[fd := a], if anfds[fd].reify == {} then un + [fd] else un)
  {
    var un', anfds' := if anfds[fd].reify == {} then un + [fd] else un, anfds[fd := a];
    forall f | 0 <= f < |anfds| ensures CountOk(anfds', un', f) {
      assert CountOk(anfds, un, f);
    }
  }

  /** Taking the first descriptor off the queue unmarks it. */
  lemma UnmarkOk(anfds: seq<Anfd>, un: seq<nat>, a: Anfd)
    requires ChangesOk(anfds, un) && un != [] && a.reify == {}
    ensures un[0] < |anfds| && anfds[un[0]].reify != {} && ChangesOk(anfds[un[0] := a], un[1..])
  {
    var fd, un' := un[0], un[1..];
    assert un == [fd] + un';
    assert CountOk(anfds, un, fd);
    var anfds' := anfds[fd := a];
    forall f | 0 <= f < |anfds| ensures CountOk(anfds', un', f) {
      assert CountOk(anfds, un, f);
    }
  }

  lemma KeepOk(anfds: seq<Anfd>, un: seq<nat>, fd: nat, a: Anfd)
    requires ChangesOk(anfds, un) && fd < |anfds| && a.reify == anfds[fd].reify
    ensures ChangesOk(anfds[fd := a], un)
  {
    var anfds' := anfds[fd := a];
    forall f | 0 <= f < |anfds| ensures CountOk(anfds', un, f) {
      assert CountOk(anfds, un, f);
    }
  }

  lemma GrowOk(anfds: seq<Anfd>, un: seq<nat>, more: seq<Anfd>)
    requires ChangesOk(anfds, un) && forall k {:trigger more[k]} :: 0 <= k < |more| ==> more[k].reify == {}
    ensures ChangesOk(anfds + more, un)
  {
    forall f | 0 <= f < |anfds + more| ensures CountOk(anfds + more, un, f) {
      assert f < |anfds| ==> CountOk(anfds, un, f);
      assert f >= |anfds| ==> f !in un;
    }
  }

  predicate DistinctIo(list: seq<IoWatcher>) {
    forall i, j {:trigger list[i], list[j]} :: 0 <= i < j < |list| ==> list[i] != list[j]
  }

  /** The list without its first w. */
  function Delisted(list: seq<IoWatcher>, w: IoWatcher): (list': seq<IoWatcher>)
    ensures w in list ==> |list'| == |list| - 1
    ensures forall v :: v in list' ==> v in list
    ensures forall v :: v in list && v != w ==> v in list'
  {
    if list == [] then [] else if list[0] == w then list[1..] else [list[0]] + Delisted(list[1..], w)
  }

  lemma {:induction false} DelistedAt(list: seq<IoWatcher>, k: nat)
    requires k < |list| && forall j {:trigger list[j]} :: 0 <= j < k ==> list[j] != list[k]
    ensures Delisted(list, list[k]) == list[..k] + list[k + 1..]
  {
    if k > 0 {
      assert list[0] != list[k];
      DelistedAt(list[1..], k - 1);
      assert list[1..][..k - 1] == list[1..k] && list[1..][k..] == list[k + 1..];
    }
  }

  lemma {:induction false} DelistedDistinct(list: seq<IoWatcher>, w: IoWatcher)
    requires DistinctIo(list)
    ensures DistinctIo(Delisted(list, w)) && w !in Delisted(list, w)
  {
    if list != [] && list[0] != w {
      DelistedDistinct(list[1..], w);
      assert list[0] !in list[1..];
    }
  }

  lemma {:induction false} NotListed(list: seq<IoWatcher>, w: IoWatcher)
    requires w !in list
    ensures Delisted(list, w) == list
  {
    if list != [] {
      assert list[0] in list;
      NotListed(list[1..], w);
    }
  }

  /** wlist_del: walks the list until it meets w, and unlinks that one. */
  method WlistDel(list: seq<IoWatcher>, w: IoWatcher) returns (list': seq<IoWatcher>)
    ensures list' == Delisted(list, w)
  {
    var k := 0;
    while k < |list|
      invariant 0 <= k <= |list| && forall j {:trigger list[j]} :: 0 <= j < k ==> list[j] != w
    {
      if list[k] == w {
        DelistedAt(list, k);
        return list[..k] + list[k + 1..];
      }
      k := k + 1;
    }
    NotListed(list, w);
    return list;
  }

  predicate SaneBases(list: seq<IoWatcher>) {
    forall k {:trigger list[k]} :: 0 <= k < |list| ==> list[k].base.priority < NUMPRI
  }

  /** What the pending queues get when these watchers are stopped one after the other because their descriptor fails. */
  function KillOps(list: seq<IoWatcher>): (ops: seq<Op>)
    requires SaneBases(list)
    ensures forall op {:trigger op in ops} :: op in ops ==> Sane(op)
  {
    if list == [] then []
    else
      var n := |list| - 1;
      KillOps(list[..n]) + [ClearOp(list[n].base), FeedOp(list[n].base, KILLED)]
  }

  lemma OneMoreOp(v: View, ops: seq<Op>, op: Op)
    requires (forall o {:trigger o in ops} :: o in ops ==> Sane(o)) && Sane(op)
    ensures AppliedAll(v, ops + [op]) == Applied(AppliedAll(v, ops), op)
  {
    var more := ops + [op];
    assert more[..|ops|] == ops && more[|ops|] == op;
  }

  /** The live slots of the pending queues after that. */
  function AfterKill(v: View, list: seq<IoWatcher>): View
    requires SaneBases(list)
  {
    AppliedAll(v, KillOps(list))
  }

  lemma KillOne(v: View, list: seq<IoWatcher>, w: IoWatcher)
    requires SaneBases(list) && w.base.priority < NUMPRI
    ensures SaneBases(list + [w])
    ensures AfterKill(v, list + [w]) == Applied(Applied(AfterKill(v, list), ClearOp(w.base)), FeedOp(w.base, KILLED))
  {
    var more, stop := list + [w], [ClearOp(w.base), FeedOp(w.base, KILLED)];
    assert more[..|list|] == list && more[|list|] == w;
    var ops := KillOps(list);
    assert KillOps(more) == ops + stop == ops + [stop[0]] + [stop[1]];
    OneMoreOp(v, ops, stop[0]);
    OneMoreOp(v, ops + [stop[0]], stop[1]);
  }

  lemma HeadOver<T>(a: seq<T>, b: seq<T>)
    requires b != []
    ensures a + b == a + [b[0]] + b[1..]
  {
  }

  lemma LastOver<T>(a: seq<T>, b: seq<T>)
    requires b != []
    ensures var n := |b| - 1; a + b == a + b[..n] + [b[n]] && b == b[..n] + [b[n]]
  {
  }

  lemma {:induction false} KillAppend(v: View, a: seq<IoWatcher>, b: seq<IoWatcher>)
    requires SaneBases(a) && SaneBases(b)
    ensures SaneBases(a + b) && AfterKill(v, a + b) == AfterKill(AfterKill(v, a), b)
    decreases |b|
  {
    if b == [] {
      assert a + b == a;
    } else {
      var some, w := b[..|b| - 1], b[|b| - 1];
      LastOver(a, b);
      KillAppend(v, a, some);
      KillOne(v, a + some, w);
      KillOne(AfterKill(v, a), some, w);
    }
  }

  predicate Kills(list: seq<IoWatcher>, u: Watcher) {
    exists k {:trigger list[k]} :: 0 <= k < |list| && list[k].base == u
  }

  lemma KillsMore(list: seq<IoWatcher>, w: IoWatcher, u: Watcher)
    ensures Kills(list + [w], u) <==> Kills(list, u) || w.base == u
  {
    var more := list + [w];
    assert more[|list|] == w && forall k {:trigger more[k]} :: 0 <= k < |list| ==> more[k] == list[k];
    if k :| 0 <= k < |list| && list[k].base == u {
      assert more[k] == list[k];
    }
  }

  lemma StopOwes(v: View, w: Watcher, u: Watcher)
    requires R.Orderly(v) && w.priority < NUMPRI && u.priority < NUMPRI
    ensures var v' := Applied(Applied(v, ClearOp(w)), FeedOp(w, KILLED));
      R.Orderly(v') && Owed(v'[u.priority], u) == if u == w then KILLED else Owed(v[u.priority], u)
  {
    R.OpOrderly(v, ClearOp(w));
    R.OpOrderly(Applied(v, ClearOp(w)), FeedOp(w, KILLED));
    R.DroppedOwed(v[w.priority], w, u);
    R.FedOwed(Dropped(v[w.priority], w), w, KILLED, u);
  }

  /** Whatever they were pending for, the killed watchers are pending for the error event afterwards, and no others are
      affected. */
  lemma {:induction false} KilledOwe(v: View, list: seq<IoWatcher>, u: Watcher)
    requires R.Orderly(v) && SaneBases(list) && u.priority < NUMPRI
    ensures R.Orderly(AfterKill(v, list))
    ensures Owed(AfterKill(v, list)[u.priority], u) == if Kills(list, u) then KILLED else Owed(v[u.priority], u)
  {
    if list != [] {
      var n := |list| - 1;
      var some, w := list[..n], list[n];
      assert list == some + [w];
      KilledOwe(v, some, u);
      KillOne(v, some, w);
      StopOwes(AfterKill(v, some), w.base, u);
      KillsMore(some, w, u);
    }
  }

  /** Changes of no other descriptor have been queued. */
  ghost predicate Onward(changes: seq<nat>, changes': seq<nat>, fd: nat) {
    changes <= changes' && forall n {:trigger changes'[n]} :: |changes| <= n < |changes'| ==> changes'[n] == fd
  }

  /** One of the first n changes was of this descriptor, and the backend killed it then. */
  ghost predicate KilledIn(changes: seq<nat>, kills: nat -> bool, n: nat, fd: nat)
    requires n <= |changes|
  {
    exists m: nat {:trigger kills(m)} :: m < n && kills(m) && changes[m] == fd
  }

  /** What waits behind the first n changes is there because one of those was killed. */
  ghost predicate Requeued(changes: seq<nat>, kills: nat -> bool, n: nat) {
    forall m: nat {:trigger changes[m]} :: n <= m < |changes| ==> KilledIn(changes, kills, m, changes[m])
  }

  ghost predicate OthersSame(a: seq<Anfd>, a': seq<Anfd>, fd: nat) {
    |a'| == |a| && forall f {:trigger a'[f]} :: 0 <= f < |a| && f != fd ==> a'[f] == a[f]
  }

  /** A call of backend_modify. */
  datatype Call = Call(fd: nat, oev: Events, nev: Events)

  /** What is called for a descriptor whose watchers want these events: they have changed, or it was marked for a new
      registration. */
  function CallFor(a: Anfd, fd: nat, want: Events): seq<Call> {
    if EV__IOFDSET in a.reify || a.events != want then [Call(fd, a.events, want)] else []
  }

  /** What is called for the first n of these changes. */
  function CallsFor(anfds: seq<Anfd>, wants: seq<Events>, changes: seq<nat>, n: nat): seq<Call>
    requires n <= |changes| && |wants| == |anfds|
  {
    if n == 0 then []
    else
      var fd := changes[n - 1];
      CallsFor(anfds, wants, changes, n - 1) + if fd < |anfds| then CallFor(anfds[fd], fd, wants[fd]) else []
  }

  /** The calls are made for exactly those of these changes whose descriptor was marked for a new registration or whose
      events are no longer what is wanted, and from the old events to the wanted ones. */
  lemma {:induction false} CallsTell(anfds: seq<Anfd>, wants: seq<Events>, changes: seq<nat>, n: nat, call: Call)
    requires n <= |changes| && |wants| == |anfds|
    ensures call in CallsFor(anfds, wants, changes, n) <==>
      exists m {:trigger changes[m]} :: 0 <= m < n && changes[m] == call.fd < |anfds|
        && (EV__IOFDSET in anfds[call.fd].reify || anfds[call.fd].events != wants[call.fd])
        && call.oev == anfds[call.fd].events && call.nev == wants[call.fd]
  {
    if n > 0 {
      CallsTell(anfds, wants, changes, n - 1, call);
      var fd := changes[n - 1];
      assert fd < |anfds| ==> (call in CallFor(anfds[fd], fd, wants[fd])
        <==> call == Call(fd, anfds[fd].events, wants[fd])
             && (EV__IOFDSET in anfds[fd].reify || anfds[fd].events != wants[fd]));
    }
  }

  function ListOf(anfds: seq<Anfd>, fd: nat): seq<IoWatcher> {
    if fd < |anfds| then anfds[fd].list else []
  }

  /** The watchers stopped by the first n changes, in that order. */
  ghost function GoneOf(anfds: seq<Anfd>, changes: seq<nat>, kills: nat -> bool, n: nat): seq<IoWatcher>
    requires n <= |changes|
  {
    if n == 0 then []
    else
      GoneOf(anfds, changes, kills, n - 1)
      + if kills(n - 1) && !KilledIn(changes, kills, n - 1, changes[n - 1]) then ListOf(anfds, changes[n - 1]) else []
  }

  /** Queueing more changes does not alter what the first ones did. */
  lemma {:induction false} GoneLonger(anfds: seq<Anfd>, a: seq<nat>, b: seq<nat>, kills: nat -> bool, n: nat)
    requires n <= |a| && a <= b
    ensures GoneOf(anfds, b, kills, n) == GoneOf(anfds, a, kills, n)
    ensures forall fd: nat {:trigger KilledIn(b, kills, n, fd)} ::
      KilledIn(b, kills, n, fd) <==> KilledIn(a, kills, n, fd)
  {
    if n > 0 {
      GoneLonger(anfds, a, b, kills, n - 1);
      assert a[n - 1] == b[n - 1];
    }
  }

  /** Half-way through fd_reify: the first i changes have been processed. */
  ghost predicate Reifying(anfds: seq<Anfd>, first: nat, changes: seq<nat>, kills: nat -> bool, i: nat,
                           killed: set<nat>,
                           gone: seq<IoWatcher>)
  {
    && i <= |changes| && first <= |changes| && Requeued(changes, kills, first)
    && (forall fd: nat {:trigger fd in killed} :: fd in killed <==> KilledIn(changes, kills, i, fd))
    && gone == GoneOf(anfds, changes, kills, i)
  }

  lemma ReifiedOne(anfds: seq<Anfd>, first: nat, changes: seq<nat>, kills: nat -> bool, i: nat, killed: set<nat>,
                   gone: seq<IoWatcher>, changes': seq<nat>, killed': set<nat>, gone': seq<IoWatcher>)
    requires i < |changes| && Reifying(anfds, first, changes, kills, i, killed, gone)
    requires Onward(changes, changes', changes[i]) && (changes' == changes || kills(i))
    requires killed' == if kills(i) then killed + {changes[i]} else killed
    requires gone' == if kills(i) && changes[i] !in killed then gone + ListOf(anfds, changes[i]) else gone
    ensures Reifying(anfds, first, changes', kills, i + 1, killed', gone')
  {
    GoneLonger(anfds, changes, changes', kills, i);
    forall fd: nat ensures KilledIn(changes', kills, i + 1, fd)
                      <==> KilledIn(changes, kills, i, fd) || (kills(i) && changes[i] == fd)
    {
      assert kills(i) || !kills(i);
    }
    forall m: nat | first <= m < |changes'| ensures KilledIn(changes', kills, m, changes'[m]) {
      if m < |changes| {
        assert KilledIn(changes, kills, m, changes[m]);
        GoneLonger(anfds, changes, changes', kills, m);
      } else {
        assert kills(i) && changes'[m] == changes'[i];
      }
    }
  }

  /** Half-way, of the calls of the backend: those for the changes queued at the start, made for descriptors that are as
      they were then, and afterwards only such as ask for nothing more. */
  ghost predicate CalledWith(anfds: seq<Anfd>, calls: seq<Call>, a: seq<Anfd>, wants: seq<Events>, c: seq<nat>,
                             calls0: seq<Call>, i: nat, killed: set<nat>, rest: seq<Call>)
  {
    && |wants| == |a| == |anfds|
    && (forall n {:trigger c[n]} :: i <= n < |c| ==> c[n] < |a| && anfds[c[n]] == a[c[n]])
    && calls == calls0 + CallsFor(a, wants, c, if i < |c| then i else |c|) + rest
    && (i <= |c| ==> rest == [])
    && forall call {:trigger call in rest} :: call in rest ==> call.fd in killed && call.nev == {}
  }

  /** The descriptors' watchers want these events. */
  ghost predicate WantedBy(a: seq<Anfd>, wants: seq<Events>)
    reads set fd, k | 0 <= fd < |a| && 0 <= k < |a[fd].list| :: a[fd].list[k]
  {
    |wants| == |a| && forall fd {:trigger a[fd]} :: 0 <= fd < |a| ==> wants[fd] == Wanted(a[fd].list)
  }

  predicate DistinctFds(c: seq<nat>) {
    forall i, j {:trigger c[i], c[j]} :: 0 <= i < j < |c| ==> c[i] != c[j]
  }

  /** One more of the changes queued at the start. */
  lemma CallsFirst(a: seq<Anfd>, wants: seq<Events>, c: seq<nat>, calls0: seq<Call>, i: nat, killed: set<nat>,
                   anfds: seq<Anfd>, calls: seq<Call>, anfds': seq<Anfd>, killed': set<nat>)
    requires CalledWith(anfds, calls, a, wants, c, calls0, i, killed, []) && DistinctFds(c) && i < |c|
    requires OthersSame(anfds, anfds', c[i])
    ensures c[i] < |anfds| && CalledWith(anfds', calls + CallFor(anfds[c[i]], c[i], wants[c[i]]), a, wants, c, calls0,
                                         i + 1, killed', [])
  {
    var fd := c[i];
    assert anfds[fd] == a[fd];
    var more := CallFor(a[fd], fd, wants[fd]);
    assert CallsFor(a, wants, c, i + 1) == CallsFor(a, wants, c, i) + more;
    assert calls0 + CallsFor(a, wants, c, i) + [] + more == calls0 + (CallsFor(a, wants, c, i) + more) + [];
    forall n | i + 1 <= n < |c| ensures c[n] < |a| && anfds'[c[n]] == a[c[n]] {
      assert c[i] != c[n] && anfds[c[n]] == a[c[n]];
    }
  }

  /** One more of those that kills have queued. */
  lemma CallsLater(a: seq<Anfd>, wants: seq<Events>, c: seq<nat>, calls0: seq<Call>, i: nat, killed: set<nat>,
                   rest: seq<Call>, anfds: seq<Anfd>, calls: seq<Call>, fd: nat, anfds': seq<Anfd>, killed': set<nat>)
    requires CalledWith(anfds, calls, a, wants, c, calls0, i, killed, rest) && i >= |c| && killed <= killed'
    requires fd < |anfds| == |anfds'| && fd in killed'
    ensures CalledWith(anfds', calls + CallFor(anfds[fd], fd, {}), a, wants, c, calls0, i + 1, killed',
                       rest + CallFor(anfds[fd], fd, {}))
  {
    var more, first := CallFor(anfds[fd], fd, {}), CallsFor(a, wants, c, |c|);
    assert calls0 + first + rest + more == calls0 + first + (rest + more);
  }

  lemma CallsOn(a: seq<Anfd>, wants: seq<Events>, c: seq<nat>, calls0: seq<Call>, i: nat, killed: set<nat>,
                rest: seq<Call>, anfds: seq<Anfd>, calls: seq<Call>, fd: nat, want: Events, anfds': seq<Anfd>,
                calls': seq<Call>, killed': set<nat>)
      returns (rest': seq<Call>)
    requires CalledWith(anfds, calls, a, wants, c, calls0, i, killed, rest) && DistinctFds(c) && killed <= killed'
    requires fd < |anfds| && OthersSame(anfds, anfds', fd) && calls' == calls + CallFor(anfds[fd], fd, want)
    requires if i < |c| then fd == c[i] && want == wants[fd] else fd in killed' && want == {}
    ensures CalledWith(anfds', calls', a, wants, c, calls0, i + 1, killed', rest')
  {
    if i < |c| {
      rest' := [];
      CallsFirst(a, wants, c, calls0, i, killed, anfds, calls, anfds', killed');
    } else {
      rest' := rest + CallFor(anfds[fd], fd, {});
      CallsLater(a, wants, c, calls0, i, killed, rest, anfds, calls, fd, anfds', killed');
    }
  }

  lemma TwiceCounts(c: seq<nat>, i: nat, j: nat)
    requires i < j < |c| && c[i] == c[j]
    ensures multiset(c)[c[i]] >= 2
  {
    assert c == c[..j] + [c[j]] + c[j + 1..];
    assert c[..j] == c[..i] + [c[i]] + c[i + 1..j];
  }

  class Loop {
    var anfds: seq<Anfd>
    var fdchanges: seq<nat>
    const backend: PollBackend
    const queues: Queues
    ghost const all: set<IoWatcher>  // the watchers in use
    ghost var calls: seq<Call>       // what backend_modify has been called with

    /** The watchers of a descriptor are its own, active, and ask for reading and writing only. */
    ghost predicate ListOk(list: seq<IoWatcher>, fd: nat)
      reads all
    {
      && DistinctIo(list)
      && forall k {:trigger list[k]} :: 0 <= k < |list| ==>
           list[k] in all && list[k].fd == fd && list[k].active && list[k].events <= IO
    }

    /** The events of a descriptor that is not marked are those its watchers want. */
    ghost predicate EventsOk(a: Anfd)
      reads a.list`events
    {
      a.events <= IO && (a.reify == {} ==> a.events == Wanted(a.list))
    }

    ghost predicate AnfdOk(fd: nat)
      requires fd < |anfds|
      reads this`anfds, all
    {
      ListOk(anfds[fd].list, fd) && EventsOk(anfds[fd])
    }

    /** An active watcher is in the list of its descriptor. */
    ghost predicate WatcherOk(w: IoWatcher)
      reads this`anfds, w`active
    {
      w.active ==> w.fd < |anfds| && w in anfds[w.fd].list
    }

    ghost predicate Lists()
      reads this`anfds, all
    {
      && (forall fd {:trigger AnfdOk(fd)} :: 0 <= fd < |anfds| ==> AnfdOk(fd))
      && (forall w {:trigger WatcherOk(w)} :: w in all ==> WatcherOk(w))
    }

    /** The backend asks for a descriptor's events. */
    ghost predicate Asking(fd: nat)
      reads this`anfds, backend
    {
      backend.Asks(fd) == if fd < |anfds| && anfds[fd].events != {} then Mask(PollMask(anfds[fd].events)) else Nothing
    }

    ghost predicate Mirrored()
      reads this`anfds, backend
    {
      backend.Valid() && forall fd: nat {:trigger Asking(fd)} :: Asking(fd)
    }

    /** The state when the first i changes have been processed. */
    ghost predicate ValidFrom(i: nat)
      reads this, all, backend
    {
      i <= |fdchanges| && Lists() && Mirrored() && ChangesOk(anfds, fdchanges[i..])
    }

    /** The watchers of a descriptor. */
    function ListAt(fd: nat): seq<IoWatcher>
      reads this`anfds
    {
      if fd < |anfds| then anfds[fd].list else []
    }

    /** The pending queues are sound and know these watchers. */
    ghost predicate Wired()
      reads queues`pendings, queues.all`pending
    {
      queues.Valid() && forall w {:trigger w.base} :: w in all ==> w.base in queues.all
    }

    constructor (all: set<IoWatcher>, queues: Queues)
      requires forall w {:trigger w.active} :: w in all ==> !w.active
      ensures ValidFrom(0) && this.all == all && this.queues == queues && fresh(backend)
      ensures forall fd: nat {:trigger ListAt(fd)} :: ListAt(fd) == []
    {
      anfds, fdchanges, this.all, this.queues := [], [], all, queues;
      backend := new PollBackend();
    }

    /** fd_change. */
    method FdChange(fd: nat, flags: Events, ghost i: nat)
      requires fd < |anfds| && flags != {} && i <= |fdchanges| && ChangesOk(anfds, fdchanges[i..])
      modifies this`anfds, this`fdchanges
      ensures i <= |fdchanges| && ChangesOk(anfds, fdchanges[i..])
      ensures anfds == old(anfds)[fd := old(anfds)[fd].(reify := old(anfds)[fd].reify + flags)]
      ensures fdchanges == if old(anfds)[fd].reify == {} then old(fdchanges) + [fd] else old(fdchanges)
    {
      var reify := anfds[fd].reify;
      var a := anfds[fd].(reify := reify + flags);
      MarkOk(anfds, fdchanges[i..], fd, a);
      anfds := anfds[fd := a];
      if reify == {} {
        assert (fdchanges + [fd])[i..] == fdchanges[i..] + [fd];
        fdchanges := fdchanges + [fd];
      }
    }

    /** The array reaches the descriptor; new elements are zero. */
    method NeedSize(fd: nat, ghost i: nat)
      requires ValidFrom(i)
      modifies this`anfds
      ensures ValidFrom(i) && fd < |anfds|
      ensures forall f: nat {:trigger ListAt(f)} :: ListAt(f) == old(ListAt(f))
    {
      if |anfds| < fd + 1 {
        var more := seq(fd + 1 - |anfds|, _ => Anfd([], {}, {}));
        GrowOk(anfds, fdchanges[i..], more);
        anfds := anfds + more;
        forall f | 0 <= f < |anfds| ensures AnfdOk(f) {
          assert f < |old(anfds)| ==> old(AnfdOk(f));
        }
        forall w | w in all ensures WatcherOk(w) {
          assert old(WatcherOk(w));
        }
        forall f: nat ensures Asking(f) {
          assert old(Asking(f));
        }
      }
    }

    /** Another list for a descriptor that is marked from now on. */
    method Relist(fd: nat, list: seq<IoWatcher>, flags: Events, ghost i: nat)
      requires i <= |fdchanges| && ChangesOk(anfds, fdchanges[i..]) && fd < |anfds| && flags != {} && Mirrored()
      modifies this`anfds, this`fdchanges
      ensures i <= |fdchanges| && ChangesOk(anfds, fdchanges[i..]) && Mirrored()
      ensures anfds == old(anfds)[fd := Anfd(list, old(anfds)[fd].events, old(anfds)[fd].reify + flags)]
      ensures fdchanges == if old(anfds)[fd].reify == {} then old(fdchanges) + [fd] else old(fdchanges)
    {
      KeepOk(anfds, fdchanges[i..], fd, anfds[fd].(list := list));
      anfds := anfds[fd := anfds[fd].(list := list)];
      FdChange(fd, flags, i);
      forall f: nat ensures Asking(f) {
        assert old(Asking(f));
      }
    }

    method Enlist(w: IoWatcher, ghost i: nat)
      requires ValidFrom(i) && w in all && w.events <= IO + {EV__IOFDSET} && !w.active && w.fd < |anfds|
      modifies this`anfds, this`fdchanges, w
      ensures ValidFrom(i) && w.active && w.events == old(w.events) - {EV__IOFDSET}
      ensures ListAt(w.fd) == [w] + old(ListAt(w.fd))
      ensures forall f: nat {:trigger ListAt(f)} :: f != w.fd ==> ListAt(f) == old(ListAt(f))
    {
      var fd := w.fd;
      w.active := true;
      Relist(fd, [w] + anfds[fd].list, w.events * {EV__IOFDSET} + {EV_ANFD_REIFY}, i);
      w.events := w.events - {EV__IOFDSET};
      forall f | 0 <= f < |anfds| ensures AnfdOk(f) {
        assert old(AnfdOk(f));
        assert w !in old(anfds)[f].list;
      }
      forall v | v in all ensures WatcherOk(v) {
        assert old(WatcherOk(v));
      }
    }

    /** ev_io_start. */
    method IoStart(w: IoWatcher, ghost i: nat)
      requires ValidFrom(i) && w in all && w.events <= IO + {EV__IOFDSET}
      modifies this`anfds, this`fdchanges, w
      ensures ValidFrom(i) && w.active
      ensures old(w.active) ==> anfds == old(anfds) && fdchanges == old(fdchanges) && w.events == old(w.events)
      ensures !old(w.active) ==> ListAt(w.fd) == [w] + old(ListAt(w.fd)) && w.events == old(w.events) - {EV__IOFDSET}
      ensures forall f: nat {:trigger ListAt(f)} :: f != w.fd ==> ListAt(f) == old(ListAt(f))
    {
      if w.active {
        return;
      }
      NeedSize(w.fd, i);
      Enlist(w, i);
    }

    /** How many watchers are active. */
    ghost function Active(): set<IoWatcher>
      reads all`active
    {
      set w | w in all && w.active
    }

    lemma FewerOk(list0: seq<IoWatcher>, list: seq<IoWatcher>, fd: nat)
      requires ListOk(list0, fd) && DistinctIo(list) && forall v {:trigger v in list} :: v in list ==> v in list0
      ensures ListOk(list, fd)
    {
      forall k | 0 <= k < |list| ensures list[k] in all && list[k].fd == fd && list[k].active && list[k].events <= IO {
        assert list[k] in list;
        var j :| 0 <= j < |list0| && list0[j] == list[k];
      }
    }

    /** The watcher leaves the list of its descriptor. */
    method Unlist(w: IoWatcher, ghost i: nat)
      requires ValidFrom(i) && w in all
      modifies this`anfds, this`fdchanges, w`active
      ensures ValidFrom(i) && !w.active
      ensures !old(w.active) ==> anfds == old(anfds) && fdchanges == old(fdchanges)
      ensures ListAt(w.fd) == Delisted(old(ListAt(w.fd)), w) && w !in ListAt(w.fd)
      ensures OthersSame(old(anfds), anfds, w.fd)
      ensures Active() == old(Active()) - {w} && |anfds| == |old(anfds)|
      ensures Onward(old(fdchanges), fdchanges, w.fd)
    {
      assert WatcherOk(w);
      assert w.fd < |anfds| ==> AnfdOk(w.fd);
      if !w.active {
        NotListed(ListAt(w.fd), w);
        return;
      }
      var list := WlistDel(anfds[w.fd].list, w);
      DelistedDistinct(anfds[w.fd].list, w);
      FewerOk(anfds[w.fd].list, list, w.fd);
      w.active := false;
      Relist(w.fd, list, {EV_ANFD_REIFY}, i);
      forall f | 0 <= f < |anfds| ensures AnfdOk(f) {
        assert old(AnfdOk(f));
        assert f == w.fd ==> old(ListOk(list, f));
      }
      forall v | v in all ensures WatcherOk(v) {
        assert old(WatcherOk(v));
      }
    }

    /** ev_io_stop. */
    method IoStop(w: IoWatcher, ghost i: nat)
      requires ValidFrom(i) && w in all && Wired()
      modifies this`anfds, this`fdchanges, w`active, queues`pendings, w.base`pending
      ensures ValidFrom(i) && !w.active && Wired() && w.base.pending == 0 && w.base.priority < NUMPRI
      ensures Views(queues.pendings) == Applied(old(Views(queues.pendings)), ClearOp(w.base))
      ensures !old(w.active) ==> anfds == old(anfds) && fdchanges == old(fdchanges)
      ensures ListAt(w.fd) == Delisted(old(ListAt(w.fd)), w) && w !in ListAt(w.fd)
      ensures OthersSame(old(anfds), anfds, w.fd)
      ensures Active() == old(Active()) - {w} && |anfds| == |old(anfds)|
      ensures Onward(old(fdchanges), fdchanges, w.fd)
    {
      var _ := queues.ClearPending(w.base);
      Unlist(w, i);
    }

    /** One round of fd_kill. */
    method KillHead(fd: nat, ghost i: nat) returns (w: IoWatcher)
      requires ValidFrom(i) && Wired() && fd < |anfds| && anfds[fd].list != []
      modifies this`anfds, this`fdchanges, all`active, queues, queues.all`pending
      ensures ValidFrom(i) && Wired() && |anfds| == |old(anfds)|
      ensures w == old(anfds)[fd].list[0] && w.base.priority < NUMPRI
      ensures Views(queues.pendings)
        == Applied(Applied(old(Views(queues.pendings)), ClearOp(w.base)), FeedOp(w.base, KILLED))
      ensures ListAt(fd) == old(ListAt(fd))[1..]
      ensures OthersSame(old(anfds), anfds, fd)
      ensures Active() < old(Active()) && Onward(old(fdchanges), fdchanges, fd)
    {
      assert AnfdOk(fd);
      w := anfds[fd].list[0];
      assert WatcherOk(w) && w in old(Active());
      IoStop(w, i);
      queues.FeedEvent(w.base, KILLED);
    }

    /** Half-way through fd_kill: the watchers in gone have been killed. */
    ghost predicate Killing(i: nat, fd: nat, a: seq<Anfd>, c: seq<nat>, act: set<IoWatcher>, v: View,
                            gone: seq<IoWatcher>)
      reads this, all, backend, queues, queues.all
    {
      && ValidFrom(i) && Wired() && fd < |anfds|
      && OthersSame(a, anfds, fd)
      && ListOf(a, fd) == gone + ListAt(fd) && SaneBases(gone) && Views(queues.pendings) == AfterKill(v, gone)
      && (if gone == [] then Active() == act && fdchanges == c else Active() < act) && Onward(c, fdchanges, fd)
    }

    method KillNext(fd: nat, ghost i: nat, ghost a: seq<Anfd>, ghost c: seq<nat>, ghost act: set<IoWatcher>,
                    ghost v: View, ghost gone: seq<IoWatcher>) returns (ghost gone': seq<IoWatcher>)
      requires Killing(i, fd, a, c, act, v, gone) && anfds[fd].list != []
      modifies this`anfds, this`fdchanges, all`active, queues, queues.all`pending
      ensures Killing(i, fd, a, c, act, v, gone') && |ListAt(fd)| < |old(ListAt(fd))|
    {
      ghost var rest, changes := ListAt(fd), fdchanges;
      var w := KillHead(fd, i);
      KillOne(v, gone, w);
      HeadOver(gone, rest);
      gone' := gone + [w];
    }

    /** fd_kill: every watcher of the descriptor is stopped, first to last, and gets the error event. */
    method FdKill(fd: nat, ghost i: nat)
      requires ValidFrom(i) && fd < |anfds| && Wired()
      modifies this`anfds, this`fdchanges, all`active, queues, queues.all`pending
      ensures ValidFrom(i) && ListAt(fd) == [] && |anfds| == |old(anfds)| && Wired()
      ensures OthersSame(old(anfds), anfds, fd)
      ensures old(ListAt(fd)) != [] ==> Active() < old(Active())
      ensures old(ListAt(fd)) == [] ==> fdchanges == old(fdchanges) && Active() == old(Active())
      ensures Onward(old(fdchanges), fdchanges, fd)
      ensures SaneBases(old(ListAt(fd)))
      ensures Views(queues.pendings) == AfterKill(old(Views(queues.pendings)), old(ListAt(fd)))
    {
      ghost var v, a, c, act, gone := Views(queues.pendings), anfds, fdchanges, Active(), [];
      while anfds[fd].list != []
        invariant Killing(i, fd, a, c, act, v, gone)
        decreases |ListAt(fd)|
      {
        gone := KillNext(fd, i, a, c, act, v, gone);
      }
      assert gone + [] == gone;
    }

    lemma {:induction false} WantedIsIo(list: seq<IoWatcher>)
      requires forall k {:trigger list[k]} :: 0 <= k < |list| ==> list[k].events <= IO
      ensures Wanted(list) <= IO
    {
      if list != [] {
        assert list[0].events <= IO;
        WantedIsIo(list[1..]);
      }
    }

    /** The loop over the watchers of a descriptor. */
    method Want(list: seq<IoWatcher>) returns (events: Events)
      ensures events == Wanted(list)
    {
      events := {};
      var k := 0;
      while k < |list|
        invariant 0 <= k <= |list| && Wanted(list) == events + Wanted(list[k..])
      {
        assert list[k..][1..] == list[k + 1..];
        events := events + list[k].events;
        k := k + 1;
      }
    }

    /** The head of the queue is done: its descriptor asks for these events. */
    method Store(i: nat, events: Events)
      requires i < |fdchanges| && Lists() && ChangesOk(anfds, fdchanges[i..])
      requires fdchanges[i] < |anfds| && events <= IO && events == Wanted(anfds[fdchanges[i]].list)
      modifies this`anfds
      ensures Lists() && ChangesOk(anfds, fdchanges[i + 1..])
      ensures var fd := fdchanges[i]; anfds == old(anfds)[fd := Anfd(old(anfds)[fd].list, events, {})]
    {
      var fd := fdchanges[i];
      assert fdchanges[i..][0] == fd && fdchanges[i..][1..] == fdchanges[i + 1..];
      UnmarkOk(anfds, fdchanges[i..], Anfd(anfds[fd].list, events, {}));
      anfds := anfds[fd := Anfd(anfds[fd].list, events, {})];
      forall f | 0 <= f < |anfds| ensures AnfdOk(f) {
        assert old(AnfdOk(f));
      }
      forall v | v in all ensures WatcherOk(v) {
        assert old(WatcherOk(v));
      }
    }

    /** The loop body of fd_reify but for the backend's answer. */
    method Refresh(i: nat) returns (fd: nat)
      requires ValidFrom(i) && i < |fdchanges|
      modifies this`anfds, this`calls, backend
      ensures ValidFrom(i + 1) && fd == fdchanges[i] && fd < |old(anfds)|
      ensures var a := old(anfds)[fd];
        && anfds == old(anfds)[fd := Anfd(a.list, Wanted(a.list), {})]
        && calls == old(calls) + CallFor(a, fd, Wanted(a.list))
    {
      fd := fdchanges[i];
      assert fdchanges[i..][0] == fd;
      assert fd < |anfds| && AnfdOk(fd);
      var o_events, o_reify := anfds[fd].events, anfds[fd].reify;
      var events := Want(anfds[fd].list);
      WantedIsIo(anfds[fd].list);
      if o_events != events {
        o_reify := {EV__IOFDSET};
      }
      Store(i, events);
      if EV__IOFDSET in o_reify {
        backend.Modify(fd, o_events, events);
        calls := calls + [Call(fd, o_events, events)];
      }
      forall f: nat ensures Asking(f) {
        assert old(Asking(f));
      }
    }

    /** The loop body of fd_reify; the backend may find the descriptor unusable and kill it. */
    method ReifyOne(i: nat, kill: bool) returns (fd: nat)
      requires ValidFrom(i) && i < |fdchanges| && Wired()
      modifies this`anfds, this`fdchanges, this`calls, backend, all`active, queues, queues.all`pending
      ensures ValidFrom(i + 1) && Wired() && fd == old(fdchanges)[i] && OthersSame(old(anfds), anfds, fd)
      ensures fd < |anfds| && ListAt(fd) == if kill then [] else old(ListAt(fd))
      ensures calls == old(calls) + CallFor(old(anfds)[fd], fd, Wanted(old(anfds)[fd].list))
      ensures Active() < old(Active()) || (Active() == old(Active()) && fdchanges == old(fdchanges))
      ensures Onward(old(fdchanges), fdchanges, fd) && (!kill ==> fdchanges == old(fdchanges))
      ensures var gone := if kill then old(ListAt(fd)) else [];
        SaneBases(gone) && Views(queues.pendings) == AfterKill(old(Views(queues.pendings)), gone)
    {
      fd := Refresh(i);
      if kill {
        FdKill(fd, i + 1);
      }
    }

    /** When the whole queue has been processed, every descriptor asks for what its watchers want. */
    lemma NothingWaits()
      requires ValidFrom(|fdchanges|)
      ensures ChangesOk(anfds, [])
      ensures forall fd {:trigger anfds[fd]} :: 0 <= fd < |anfds| ==>
        anfds[fd].reify == {} && anfds[fd].events == Wanted(anfds[fd].list) && Asking(fd)
    {
      assert fdchanges[|fdchanges|..] == [];
      forall fd | 0 <= fd < |anfds|
        ensures anfds[fd].reify == {} && anfds[fd].events == Wanted(anfds[fd].list) && Asking(fd)
      {
        assert CountOk(anfds, [], fd) && AnfdOk(fd);
      }
    }

    /** Half-way: the lists are as at the start but for killed descriptors, and the pending queues have what that
        took. */
    ghost predicate Reified(a: seq<Anfd>, v: View, c: seq<nat>, kills: nat -> bool, i: nat, killed: set<nat>,
                            gone: seq<IoWatcher>)
      reads this, all, backend, queues, queues.all
    {
      && ValidFrom(i) && |anfds| == |a| && Wired() && c <= fdchanges
      && Reifying(a, |c|, fdchanges, kills, i, killed, gone)
      && (forall f: nat {:trigger ListAt(f)} :: ListAt(f) == if f in killed then [] else ListOf(a, f))
      && SaneBases(gone) && Views(queues.pendings) == AfterKill(v, gone)
    }

    /** One change more. */
    method ReifyNext(i: nat, kills: nat -> bool, ghost a: seq<Anfd>, ghost v: View, ghost c: seq<nat>,
                     ghost killed: set<nat>, ghost gone: seq<IoWatcher>)
        returns (ghost killed': set<nat>, ghost gone': seq<IoWatcher>)
      requires Reified(a, v, c, kills, i, killed, gone) && i < |fdchanges|
      modifies this`anfds, this`fdchanges, this`calls, backend, all`active, queues, queues.all`pending
      ensures Reified(a, v, c, kills, i + 1, killed', gone') && killed <= killed' && fdchanges[i] == old(fdchanges)[i]
      ensures Active() < old(Active()) || (Active() == old(Active()) && fdchanges == old(fdchanges))
      ensures var fd := old(fdchanges)[i];
        && OthersSame(old(anfds), anfds, fd) && fd < |anfds|
        && calls == old(calls) + CallFor(old(anfds)[fd], fd, Wanted(old(anfds)[fd].list))
    {
      ghost var changes := fdchanges;
      var fd := ReifyOne(i, kills(i));
      ghost var more := if kills(i) then old(ListAt(fd)) else [];
      KillAppend(v, gone, more);
      killed', gone' := if kills(i) then killed + {fd} else killed, gone + more;
      assert gone + [] == gone;
      forall f: nat ensures ListAt(f) == if f in killed' then [] else ListOf(a, f) {
        assert old(ListAt(f)) == if f in killed then [] else ListOf(a, f);
      }
      ReifiedOne(a, |c|, changes, kills, i, killed, gone, fdchanges, killed', gone');
    }

    /** The end of fd_reify. */
    method Finish()
      requires ValidFrom(|fdchanges|)
      modifies this`fdchanges
      ensures ValidFrom(0) && fdchanges == []
      ensures forall fd {:trigger anfds[fd]} :: 0 <= fd < |anfds| ==>
        anfds[fd].reify == {} && anfds[fd].events == Wanted(anfds[fd].list) && Asking(fd)
    {
      NothingWaits();
      fdchanges := [];
    }

    /** A descriptor waits at most once. */
    lemma QueueDistinct()
      requires ValidFrom(0)
      ensures DistinctFds(fdchanges)
      ensures forall n {:trigger fdchanges[n]} :: 0 <= n < |fdchanges| ==> fdchanges[n] < |anfds|
    {
      assert fdchanges[0..] == fdchanges;
      forall i, j | 0 <= i < j < |fdchanges| ensures fdchanges[i] != fdchanges[j] {
        assert CountOk(anfds, fdchanges, fdchanges[i]);
        if fdchanges[i] == fdchanges[j] {
          TwiceCounts(fdchanges, i, j);
        }
      }
    }

    /** Half-way, with the calls. */
    ghost predicate Going(a: seq<Anfd>, wants: seq<Events>, v: View, c: seq<nat>, calls0: seq<Call>, kills: nat -> bool,
                          i: nat, killed: set<nat>, gone: seq<IoWatcher>, rest: seq<Call>)
      reads this, all, backend, queues, queues.all
    {
      && Reified(a, v, c, kills, i, killed, gone) && DistinctFds(c)
      && CalledWith(anfds, calls, a, wants, c, calls0, i, killed, rest)
    }

    method ReifyAndCall(i: nat, kills: nat -> bool, ghost a: seq<Anfd>, ghost wants: seq<Events>, ghost v: View,
                        ghost c: seq<nat>, ghost calls0: seq<Call>, ghost killed: set<nat>, ghost gone: seq<IoWatcher>,
                        ghost rest: seq<Call>)
        returns (ghost killed': set<nat>, ghost gone': seq<IoWatcher>, ghost rest': seq<Call>)
      requires Going(a, wants, v, c, calls0, kills, i, killed, gone, rest) && i < |fdchanges| && WantedBy(a, wants)
      modifies this`anfds, this`fdchanges, this`calls, backend, all`active, queues, queues.all`pending
      ensures Going(a, wants, v, c, calls0, kills, i + 1, killed', gone', rest')
      ensures Active() < old(Active()) || (Active() == old(Active()) && fdchanges == old(fdchanges))
    {
      ghost var anfds0, before, fd := anfds, calls, fdchanges[i];
      assert i >= |c| ==> fd in killed by {
        assert i >= |c| ==> KilledIn(fdchanges, kills, i, fdchanges[i]);
      }
      assert ListAt(fd) == if fd in killed then [] else ListOf(a, fd);
      killed', gone' := ReifyNext(i, kills, a, v, c, killed, gone);
      rest' := CallsOn(a, wants, c, calls0, i, killed, rest, anfds0, before, fd, Wanted(anfds0[fd].list), anfds, calls,
                       killed');
    }

    lemma Begins(wants: seq<Events>, kills: nat -> bool)
      requires ValidFrom(0) && Wired() && WantedBy(anfds, wants)
      ensures Going(anfds, wants, Views(queues.pendings), fdchanges, calls, kills, 0, {}, [], [])
    {
      QueueDistinct();
      assert calls == calls + CallsFor(anfds, wants, fdchanges, 0) + [];
    }

    /** The loop of fd_reify. */
    method ReifyAll(kills: nat -> bool, ghost wants: seq<Events>)
        returns (ghost killed: set<nat>, ghost gone: seq<IoWatcher>, ghost rest: seq<Call>)
      requires ValidFrom(0) && Wired() && WantedBy(anfds, wants)
      modifies this`anfds, this`fdchanges, this`calls, backend, all`active, queues, queues.all`pending
      ensures Going(old(anfds), wants, old(Views(queues.pendings)), old(fdchanges), old(calls), kills, |fdchanges|,
                    killed, gone, rest)
    {
      var i := 0;
      killed, gone, rest := {}, [], [];
      ghost var v, a, c, calls0 := Views(queues.pendings), anfds, fdchanges, calls;
      Begins(wants, kills);
      while i < |fdchanges|
        invariant i <= |fdchanges| && Going(a, wants, v, c, calls0, kills, i, killed, gone, rest) && WantedBy(a, wants)
        decreases Active(), |fdchanges| - i
      {
        killed, gone, rest := ReifyAndCall(i, kills, a, wants, v, c, calls0, killed, gone, rest);
        i := i + 1;
      }
    }

    /** fd_reify: kills(n) tells whether the backend kills the descriptor at its n-th change. All changes seen are those
        queued at the start and those that kills have queued; exactly the descriptors killed at one of them lose their
        watchers, and gone are these, in that order. */
    method FdReify(kills: nat -> bool, ghost wants: seq<Events>)
        returns (ghost killed: set<nat>, ghost gone: seq<IoWatcher>, ghost seen: seq<nat>, ghost rest: seq<Call>)
      requires ValidFrom(0) && Wired() && WantedBy(anfds, wants)
      modifies this`anfds, this`fdchanges, this`calls, backend, all`active, queues, queues.all`pending
      ensures ValidFrom(0) && fdchanges == [] && |anfds| == |old(anfds)| && Wired()
      ensures forall fd {:trigger anfds[fd]} :: 0 <= fd < |anfds| ==>
        anfds[fd].reify == {} && anfds[fd].events == Wanted(anfds[fd].list) && Asking(fd)
      ensures old(fdchanges) <= seen && Requeued(seen, kills, |old(fdchanges)|)
      ensures forall f: nat {:trigger f in killed} :: f in killed <==> KilledIn(seen, kills, |seen|, f)
      ensures forall f: nat {:trigger ListAt(f)} :: ListAt(f) == if f in killed then [] else old(ListAt(f))
      ensures gone == GoneOf(old(anfds), seen, kills, |seen|)
      ensures SaneBases(gone) && Views(queues.pendings) == AfterKill(old(Views(queues.pendings)), gone)
      ensures calls == old(calls) + CallsFor(old(anfds), wants, old(fdchanges), |old(fdchanges)|) + rest
      ensures forall call {:trigger call in rest} :: call in rest ==> call.fd in killed && call.nev == {}
    {
      killed, gone, rest := ReifyAll(kills, wants);
      seen := fdchanges;
      Finish();
    }
  }
}
