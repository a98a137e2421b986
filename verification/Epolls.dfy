/**
  The epoll backend against a kernel that holds at most one registration per descriptor and may lose any of
  them silently, when the program closes a descriptor: the registration is gone, or lives on as an orphan
  because another descriptor still refers to the same file.
 */
module Epolls {
  import opened PendingSpec
  import opened Polls

  const EV_EMASK_EPERM: nat := 7  // bit number of the mask 0x80
  const WORD: nat := 0x1_0000_0000

  /** A registration: the generation it was made with, counted without wrap-around, and the events asked for. The
      bits of EPOLLIN and EPOLLOUT are those of POLLIN and POLLOUT. */
  datatype Reg = Reg(serial: nat, mask: Events)

  datatype Kernel = Kernel(live: map<nat, Reg>, orphans: set<(nat, Reg)>)

  datatype Errno = Ok | ENOENT | EEXIST | EPERM | Other

  datatype CtlOp = ADD | MOD | DEL

  /** What the environment does around one system call: a loss of the descriptor's registration before it, and
      whether the call fails for a reason of its own. */
  datatype Loss = Kept | Gone | Orphaned
  datatype Env = Env(loss: Loss, fault: Errno)

  function Lost(k: Kernel, fd: nat, loss: Loss): Kernel {
    if fd !in k.live || loss == Kept then k
    else Kernel(k.live - {fd}, if loss == Orphaned then k.orphans + {(fd, k.live[fd])} else k.orphans)
  }

  /** epoll_ctl: adding what is there and changing or removing what is not there fails; only a descriptor that is not
      registered can be of a kind epoll refuses. */
  function Ctl(k: Kernel, op: CtlOp, fd: nat, reg: Reg, fault: Errno): (Kernel, Errno) {
    if op == ADD && fd in k.live then (k, EEXIST)
    else if op != ADD && fd !in k.live then (k, ENOENT)
    else if fault != Ok then (k, if fault == EPERM && op == ADD then EPERM else Other)
    else (k.(live := if op == DEL then k.live - {fd} else k.live[fd := reg]), Ok)
  }

  /** What the loop knows of a descriptor; egen counts without wrap-around, the program compares its low 32 bits. */
  datatype Anfd = Anfd(events: Events, emask: Events, egen: nat)

  // ----- the invariant

  /** The registration of a descriptor has its current generation, and every orphan an earlier one. */
  ghost predicate GenOk(anfds: seq<Anfd>, k: Kernel, fd: nat) {
    && (fd in k.live ==> fd < |anfds| && k.live[fd].serial == anfds[fd].egen)
    && (forall r {:trigger (fd, r) in k.orphans} :: (fd, r) in k.orphans ==>
          && fd < |anfds| && r.serial <= anfds[fd].egen
          && (fd in k.live ==> r.serial < anfds[fd].egen))
  }

  ghost predicate GensOk(anfds: seq<Anfd>, k: Kernel) {
    forall fd: nat {:trigger GenOk(anfds, k, fd)} :: GenOk(anfds, k, fd)
  }

  lemma LostOk(anfds: seq<Anfd>, k: Kernel, fd: nat, loss: Loss)
    requires GensOk(anfds, k)
    ensures GensOk(anfds, Lost(k, fd, loss))
  {
    var k' := Lost(k, fd, loss);
    forall f: nat ensures GenOk(anfds, k', f) {
      assert GenOk(anfds, k, f);
    }
  }

  /** A registration made or changed with the next generation. */
  lemma RegisterOk(anfds: seq<Anfd>, k: Kernel, fd: nat, a: Anfd, mask: Events)
    requires GensOk(anfds, k) && fd < |anfds| && a.egen == anfds[fd].egen + 1
    ensures GensOk(anfds[fd := a], k.(live := k.live[fd := Reg(a.egen, mask)]))
  {
    var anfds', k' := anfds[fd := a], k.(live := k.live[fd := Reg(a.egen, mask)]);
    forall f: nat ensures GenOk(anfds', k', f) {
      assert GenOk(anfds, k, f);
    }
  }

  /** The generation may move on where nothing is registered, and stay where something is. */
  lemma UnchangedOk(anfds: seq<Anfd>, k: Kernel, fd: nat, a: Anfd)
    requires GensOk(anfds, k) && fd < |anfds|
    requires a.egen == anfds[fd].egen || (a.egen > anfds[fd].egen && fd !in k.live)
    ensures GensOk(anfds[fd := a], k)
  {
    var anfds' := anfds[fd := a];
    forall f: nat ensures GenOk(anfds', k, f) {
      assert GenOk(anfds, k, f);
    }
  }

  /** Another mask with the current generation, or no registration. */
  lemma RemaskOk(anfds: seq<Anfd>, k: Kernel, fd: nat, a: Anfd, mask: Events)
    requires GensOk(anfds, k) && fd < |anfds| && fd in k.live && a.egen == anfds[fd].egen
    ensures GensOk(anfds[fd := a], k.(live := k.live[fd := Reg(a.egen, mask)]))
    ensures GensOk(anfds[fd := a], k.(live := k.live - {fd}))
  {
    var anfds', k1, k2 := anfds[fd := a], k.(live := k.live[fd := Reg(a.egen, mask)]), k.(live := k.live - {fd});
    forall f: nat ensures GenOk(anfds', k1, f) && GenOk(anfds', k2, f) {
      assert GenOk(anfds, k, f);
    }
  }

  // ----- events

  /** An event: the registration it comes from, by descriptor and generation, and what happened. */
  datatype Event = Event(fd: nat, serial: nat, got: Events)

  /** The event comes from a registration the kernel holds. */
  ghost predicate Genuine(k: Kernel, e: Event) {
    || (e.fd in k.live && k.live[e.fd].serial == e.serial)
    || exists m {:trigger Reg(e.serial, m)} :: (e.fd, Reg(e.serial, m)) in k.orphans
  }

  /** The generations in use are too few for two of them to share their low 32 bits. */
  ghost predicate Young(anfds: seq<Anfd>, e: Event) {
    e.fd < |anfds| && anfds[e.fd].egen < e.serial + WORD
  }

  predicate Fresh(anfds: seq<Anfd>, e: Event) {
    e.fd < |anfds| && anfds[e.fd].egen % WORD == e.serial % WORD
  }

  /** The generation test passes exactly the events of the current generation: those of the registration, if there is
      one, and never those of an orphan then. */
  lemma FreshIsCurrent(anfds: seq<Anfd>, k: Kernel, e: Event)
    requires GensOk(anfds, k) && Genuine(k, e) && Young(anfds, e)
    ensures Fresh(anfds, e) <==> e.serial == anfds[e.fd].egen
    ensures Fresh(anfds, e) && e.fd in k.live ==>
      k.live[e.fd].serial == e.serial && forall m {:trigger Reg(e.serial, m)} :: (e.fd, Reg(e.serial, m)) !in k.orphans
  {
    assert GenOk(anfds, k, e.fd);
    var n, s := anfds[e.fd].egen, e.serial;
    assert s <= n < s + WORD;
    if n % WORD == s % WORD {
      assert (n - s) % WORD == 0;
    }
  }

  const IO: Events := {EV_READ, EV_WRITE}

  /** A descriptor marked as refused is among those for which events are made up; watchers ask for reading and
      writing. */
  ghost predicate EpermsOk(anfds: seq<Anfd>, eperms: seq<nat>) {
    && (forall fd {:trigger anfds[fd]} :: 0 <= fd < |anfds| ==>
          anfds[fd].events <= IO && (EV_EMASK_EPERM in anfds[fd].emask ==> fd in eperms))
    && (forall fd {:trigger fd in eperms} :: fd in eperms ==> fd < |anfds|)
  }

  /** A registration asks for the events that the kernel was last told with success. */
  ghost predicate AcceptedOk(k: Kernel, accepted: map<nat, Events>) {
    forall fd {:trigger fd in k.live} :: fd in k.live ==>
      fd in accepted && accepted[fd] <= IO && k.live[fd].mask == PollMask(accepted[fd])
  }

  /** The mask of a registration is right exactly when the events last accepted are. */
  lemma AcceptedDecides(k: Kernel, accepted: map<nat, Events>, fd: nat, ev: Events)
    requires AcceptedOk(k, accepted) && fd in k.live && ev <= IO
    ensures k.live[fd].mask == PollMask(ev) <==> accepted[fd] == ev
  {
    if k.live[fd].mask == PollMask(ev) {
      PollMaskTells(accepted[fd], ev);
    }
  }

  /** How a call of epoll_modify ended. */
  datatype Outcome = Ignored | Registered | Skipped | Refused | Killed

  /** How it must end: what is registered when the call is made, and what the environment does, decide. */
  function OutcomeOf(k: Kernel, emask: Events, fd: nat, oev: Events, nev: Events, env1: Env, env2: Env): Outcome {
    var there := fd in k.live && env1.loss == Kept;
    var change := oev != {} && emask != nev;
    if nev == {} then Ignored
    else if there && emask == nev then Skipped
    else if there && change then if env1.fault == Ok then Registered else Killed
    else if there then if env2 == Env(Kept, Ok) then Registered else Killed
    else if change then if env2.fault == Ok then Registered else Killed
    else if env1.fault == Ok then Registered
    else if env1.fault == EPERM then Refused
    else Killed
  }

  /** A call does nothing exactly when no events are wanted. It trusts its belief exactly when the descriptor is
      registered and the belief is what is wanted. It finds the descriptor refused exactly when the kernel says so on
      adding it first. It gives up only when the environment interferes: without a loss at the second attempt or a fault
      it registers. */
  lemma OutcomeTells(k: Kernel, emask: Events, fd: nat, oev: Events, nev: Events, env1: Env, env2: Env)
    ensures var outcome, there := OutcomeOf(k, emask, fd, oev, nev, env1, env2), fd in k.live && env1.loss == Kept;
      && (outcome == Ignored <==> nev == {})
      && (outcome == Skipped <==> nev != {} && there && emask == nev)
      && (outcome == Refused <==> nev != {} && !there && (oev == {} || emask == nev) && env1.fault == EPERM)
      && (outcome == Killed ==> nev != {} && (env1.fault != Ok || env2 != Env(Kept, Ok)))
      && (outcome == Registered ==> nev != {} && (env1.fault == Ok || env2.fault == Ok))
      && (nev != {} && !(there && emask == nev) && env1.fault == Ok && env2 == Env(Kept, Ok) ==> outcome == Registered)
  {
  }

  /** The event comes from the registration of its descriptor and not from an orphan. */
  ghost predicate FromLive(k: Kernel, e: Event) {
    && e.fd in k.live && k.live[e.fd].serial == e.serial
    && forall m {:trigger Reg(e.serial, m)} :: (e.fd, Reg(e.serial, m)) !in k.orphans
  }

  /** The event is of the current generation, and of a kind no watcher wants. */
  predicate Unwanted(anfds: seq<Anfd>, e: Event) {
    e.fd < |anfds| && e.serial == anfds[e.fd].egen && !(e.got <= anfds[e.fd].events)
  }

  /** Generations and wishes are the same. */
  ghost predicate SameWishes(a: seq<Anfd>, b: seq<Anfd>) {
    && |a| == |b|
    && forall f {:trigger a[f]} {:trigger b[f]} :: 0 <= f < |a| ==> a[f].egen == b[f].egen && a[f].events == b[f].events
  }

  /** The registration of the descriptor asks for exactly what its watchers want, and the loop knows; with nothing
      wanted there is none. */
  predicate InLine(anfds: seq<Anfd>, k: Kernel, fd: nat) {
    && fd < |anfds| && anfds[fd].emask == anfds[fd].events
    && if anfds[fd].events == {} then fd !in k.live
       else fd in k.live && k.live[fd] == Reg(anfds[fd].egen, PollMask(anfds[fd].events))
  }

  /** Among the first n events there is an unwanted one of the descriptor. */
  ghost predicate Bothers(anfds: seq<Anfd>, batch: seq<Event>, n: nat, fd: nat)
    requires n <= |batch|
  {
    exists i {:trigger batch[i]} :: 0 <= i < n && batch[i].fd == fd && Unwanted(anfds, batch[i])
  }

  /** What the loop believes of the descriptor and what is registered are the same. */
  predicate Alike(a: seq<Anfd>, k: Kernel, a': seq<Anfd>, k': Kernel, fd: nat) {
    && (if fd < |a| then fd < |a'| && a'[fd] == a[fd] else fd >= |a'|)
    && (if fd in k.live then fd in k'.live && k'.live[fd] == k.live[fd] else fd !in k'.live)
  }

  /** The effect of one event: nothing, unless it is unwanted; then on its descriptor only, which is in line if the
      event passes. */
  ghost predicate Answered(a: seq<Anfd>, k: Kernel, e: Event, pass: bool, a': seq<Anfd>, k': Kernel) {
    && SameWishes(a, a')
    && (forall fd: nat {:trigger Alike(a, k, a', k', fd)} :: fd != e.fd || !Unwanted(a, e) ==> Alike(a, k, a', k', fd))
    && (Unwanted(a, e) && pass ==> InLine(a', k', e.fd))
  }

  /** After the first n events of the batch: the descriptors with unwanted ones are in line if all events have passed,
      and the others are as they were. */
  ghost predicate AllAnswered(a: seq<Anfd>, k: Kernel, batch: seq<Event>, n: nat, passed: bool, a': seq<Anfd>,
                              k': Kernel)
    requires n <= |batch|
  {
    && SameWishes(a, a')
    && (forall fd: nat {:trigger InLine(a', k', fd)} :: passed && Bothers(a, batch, n, fd) ==> InLine(a', k', fd))
    && (forall fd: nat {:trigger Alike(a, k, a', k', fd)} :: !Bothers(a, batch, n, fd) ==> Alike(a, k, a', k', fd))
  }

  lemma OneMoreAnswered(a: seq<Anfd>, k: Kernel, batch: seq<Event>, n: nat, passed: bool, a1: seq<Anfd>, k1: Kernel,
                        pass: bool, a2: seq<Anfd>, k2: Kernel)
    requires n < |batch| && AllAnswered(a, k, batch, n, passed, a1, k1)
    requires Answered(a1, k1, batch[n], pass, a2, k2)
    ensures AllAnswered(a, k, batch, n + 1, passed && pass, a2, k2)
  {
    assert Unwanted(a1, batch[n]) <==> Unwanted(a, batch[n]);
    forall fd: nat | passed && pass && Bothers(a, batch, n + 1, fd) ensures InLine(a2, k2, fd) {
      if fd != batch[n].fd || !Unwanted(a, batch[n]) {
        assert Bothers(a, batch, n, fd);
        assert InLine(a1, k1, fd) && Alike(a1, k1, a2, k2, fd);
      }
    }
    forall fd: nat | !Bothers(a, batch, n + 1, fd) ensures Alike(a, k, a2, k2, fd) {
      assert !Bothers(a, batch, n, fd);
      assert fd != batch[n].fd || !Unwanted(a, batch[n]);
      assert Alike(a, k, a1, k1, fd) && Alike(a1, k1, a2, k2, fd);
    }
  }

  /** The events that pass. */
  function Passing(batch: seq<Event>, passed: seq<bool>): seq<Event>
    requires |batch| == |passed|
  {
    if batch == [] then []
    else
      var n := |batch| - 1;
      Passing(batch[..n], passed[..n]) + if passed[n] then [batch[n]] else []
  }

  /** If the event is of the current generation, it comes from the registration of its descriptor, if that has one. */
  ghost predicate Currently(anfds: seq<Anfd>, k: Kernel, e: Event) {
    e.fd < |anfds| && e.serial == anfds[e.fd].egen && e.fd in k.live ==> FromLive(k, e)
  }

  /** Whether an event may pass: never one of an old generation, always a wanted one of the current generation, and an
      unwanted one only if the answer to it succeeds. One that passes comes from the registration, if there is one. */
  ghost predicate Judged(anfds: seq<Anfd>, k: Kernel, e: Event, pass: bool, env: Env) {
    && e.fd < |anfds|
    && (!Unwanted(anfds, e) ==> pass == (e.serial == anfds[e.fd].egen))
    && (Unwanted(anfds, e) && env.fault != Ok ==> !pass)
    && (pass && e.fd in k.live ==> FromLive(k, e))
  }

  lemma OthersAlike(k: Kernel, k': Kernel, fd: nat, f: nat)
    requires k'.live - {fd} == k.live - {fd} && f != fd
    ensures f in k.live <==> f in k'.live
    ensures f in k.live ==> k'.live[f] == k.live[f]
  {
    assert f in k.live <==> f in k.live - {fd};
    assert f in k'.live <==> f in k'.live - {fd};
    if f in k.live {
      assert (k.live - {fd})[f] == (k'.live - {fd})[f];
    }
  }

  /** Exactly the events that pass are kept, and all are when all pass. */
  lemma {:induction false} PassingHas(batch: seq<Event>, passed: seq<bool>, e: Event)
    requires |batch| == |passed|
    ensures e in Passing(batch, passed) <==>
      exists i {:trigger passed[i]} :: 0 <= i < |batch| && passed[i] && batch[i] == e
    ensures false !in passed ==> Passing(batch, passed) == batch
  {
    if batch != [] {
      var n := |batch| - 1;
      PassingHas(batch[..n], passed[..n], e);
      assert batch == batch[..n] + [batch[n]];
      if i :| 0 <= i < n && passed[i] && batch[i] == e {
        assert passed[..n][i] && batch[..n][i] == e;
      }
      assert false in passed[..n] ==> false in passed;
    }
  }

  /** epoll refuses the descriptor, and its watchers want events. */
  predicate Wants(anfds: seq<Anfd>, fd: nat) {
    fd < |anfds| && EV_EMASK_EPERM in anfds[fd].emask && anfds[fd].events != {}
  }

  /** A descriptor and events for its watchers. */
  datatype Ready = Ready(fd: nat, events: Events)

  /** The events made up for these descriptors, from the last one on. */
  function MadeUp(anfds: seq<Anfd>, l: seq<nat>): seq<Ready> {
    if l == [] then []
    else
      var n := |l| - 1;
      (if Wants(anfds, l[n]) then [Ready(l[n], anfds[l[n]].events)] else []) + MadeUp(anfds, l[..n])
  }

  /** Those of them that events are made up for. */
  function Remaining(anfds: seq<Anfd>, l: seq<nat>): seq<nat> {
    if l == [] then []
    else
      var n := |l| - 1;
      Remaining(anfds, l[..n]) + if Wants(anfds, l[n]) then [l[n]] else []
  }

  lemma {:induction false} RemainingHas(anfds: seq<Anfd>, l: seq<nat>, fd: nat)
    ensures fd in Remaining(anfds, l) <==> fd in l && Wants(anfds, fd)
  {
    if l != [] {
      var n := |l| - 1;
      RemainingHas(anfds, l[..n], fd);
      assert l == l[..n] + [l[n]];
    }
  }

  /** Events are made up for exactly the refused descriptors of the list that are wanted, just those wanted. */
  lemma {:induction false} MadeUpHas(anfds: seq<Anfd>, l: seq<nat>, r: Ready)
    ensures r in MadeUp(anfds, l) <==> r.fd in l && Wants(anfds, r.fd) && r.events == anfds[r.fd].events
  {
    if l != [] {
      var n := |l| - 1;
      MadeUpHas(anfds, l[..n], r);
      assert l == l[..n] + [l[n]];
    }
  }

  /** The loop over the list has come down to i: what it has visited is no longer marked as refused, unless wanted. */
  ghost predicate Visited(a: seq<Anfd>, l: seq<nat>, i: nat, a': seq<Anfd>)
    requires i <= |l|
  {
    && |a'| == |a|
    && forall f {:trigger a'[f]} :: 0 <= f < |a| ==>
         a'[f] == if f in l[i..] && !Wants(a, f) then a[f].(emask := {}) else a[f]
  }

  lemma VisitedOne(a: seq<Anfd>, l: seq<nat>, i: nat, a': seq<Anfd>, a'': seq<Anfd>)
    requires i < |l| && l[i] < |a| && Visited(a, l, i + 1, a')
    requires a'' == if Wants(a', l[i]) then a' else a'[l[i] := a'[l[i]].(emask := {})]
    ensures Visited(a, l, i, a'') && (Wants(a', l[i]) <==> Wants(a, l[i]))
    ensures Wants(a, l[i]) ==> a'[l[i]].events == a[l[i]].events
  {
    assert l[i..] == [l[i]] + l[i + 1..];
  }

  /** Half-way: l' is what the list has become, with tail behind the part that is not visited, and fed the events. */
  ghost predicate MakingUp(a: seq<Anfd>, l: seq<nat>, i: nat, tail: seq<nat>, fed: seq<Ready>, a': seq<Anfd>,
                           l': seq<nat>)
  {
    && i <= |l| && l' == l[..i] + tail && Visited(a, l, i, a')
    && fed + MadeUp(a, l[..i]) == MadeUp(a, l)
    && multiset(tail) + multiset(Remaining(a, l[..i])) == multiset(Remaining(a, l))
  }

  lemma Wanted1(a: seq<Anfd>, l: seq<nat>, i: nat, tail: seq<nat>, fed: seq<Ready>, a': seq<Anfd>, l': seq<nat>)
    requires i < |l| && l[i] < |a| && MakingUp(a, l, i + 1, tail, fed, a', l') && Wants(a', l[i])
    ensures l'[i] == l[i] && MakingUp(a, l, i, [l[i]] + tail, fed + [Ready(l[i], a'[l[i]].events)], a', l')
  {
    assert l[..i + 1] == l[..i] + [l[i]] && l[..i + 1][..i] == l[..i];
    VisitedOne(a, l, i, a', a');
    var one := [Ready(l[i], a[l[i]].events)];
    assert fed + (one + MadeUp(a, l[..i])) == (fed + one) + MadeUp(a, l[..i]);
  }

  lemma Unwanted1(a: seq<Anfd>, l: seq<nat>, i: nat, tail: seq<nat>, fed: seq<Ready>, a': seq<Anfd>, l': seq<nat>,
                  tail': seq<nat>)
    requires i < |l| && l[i] < |a| && MakingUp(a, l, i + 1, tail, fed, a', l') && !Wants(a', l[i])
    requires multiset(tail') == multiset(tail)
    ensures MakingUp(a, l, i, tail', fed, a'[l[i] := a'[l[i]].(emask := {})], l[..i] + tail')
  {
    assert l[..i + 1] == l[..i] + [l[i]] && l[..i + 1][..i] == l[..i];
    VisitedOne(a, l, i, a', a'[l[i] := a'[l[i]].(emask := {})]);
    assert [] + MadeUp(a, l[..i]) == MadeUp(a, l[..i]);
  }

  lemma VisitedOk(a: seq<Anfd>, l: seq<nat>, a': seq<Anfd>, l': seq<nat>, k: Kernel)
    requires Visited(a, l, 0, a') && GensOk(a, k) && EpermsOk(a, l)
    requires multiset(l') == multiset(Remaining(a, l))
    ensures GensOk(a', k) && EpermsOk(a', l')
  {
    assert l[0..] == l;
    forall fd: nat ensures GenOk(a', k, fd) {
      assert GenOk(a, k, fd);
    }
    forall fd ensures fd in l' <==> fd in Remaining(a, l) {
      assert fd in multiset(l') <==> fd in multiset(Remaining(a, l));
    }
    forall fd | 0 <= fd < |a'| ensures a'[fd].events <= IO && (EV_EMASK_EPERM in a'[fd].emask ==> fd in l') {
      assert a[fd].events <= IO;
      RemainingHas(a, l, fd);
    }
    forall fd | fd in l' ensures fd < |a'| {
      RemainingHas(a, l, fd);
    }
  }

  class EpollBackend {
    var anfds: seq<Anfd>
    var kernel: Kernel
    var epoll_eperms: seq<nat>
    var postfork: bool                    // the kernel state is to be recreated
    ghost var accepted: map<nat, Events>  // what the last call of epoll_ctl that succeeded asked for

    ghost predicate Valid()
      reads this
    {
      GensOk(anfds, kernel) && EpermsOk(anfds, epoll_eperms) && AcceptedOk(kernel, accepted)
    }

    /** The loop's own calls tell that its belief may be wrong: the events it believes registered are not those that a
        call last had accepted, because a later call failed. */
    ghost predicate Suspect(fd: nat)
      reads this
    {
      fd < |anfds| && fd in accepted && accepted[fd] != anfds[fd].emask
    }

    /** In every reachable state, the registration of a descriptor that is not suspect is exactly what the loop
        believes. */
    lemma ExactUnlessSuspect(fd: nat)
      requires Valid() && fd in kernel.live && !Suspect(fd)
      ensures fd < |anfds| && kernel.live[fd] == Reg(anfds[fd].egen, PollMask(anfds[fd].emask))
    {
      assert GenOk(anfds, kernel, fd);
    }

    /** And that of a suspect one is not, unless its belief is the mark of refusal. */
    lemma WrongIfSuspect(fd: nat)
      requires Valid() && fd in kernel.live && Suspect(fd) && anfds[fd].emask <= IO
      ensures kernel.live[fd].mask != PollMask(anfds[fd].emask)
    {
      AcceptedDecides(kernel, accepted, fd, anfds[fd].emask);
    }

    constructor (n: nat)
      ensures Valid() && |anfds| == n && kernel == Kernel(map[], {}) && !postfork && accepted == map[]
      ensures forall fd {:trigger anfds[fd]} :: 0 <= fd < n ==> anfds[fd] == Anfd({}, {}, 0)
    {
      anfds, kernel := seq(n, _ => Anfd({}, {}, 0)), Kernel(map[], {});
      epoll_eperms, postfork, accepted := [], false, map[];
    }

    /** A call of epoll_ctl, before which the registration may be lost; base is what the loop knew before it moved the
        generation of the descriptor on. */
    method EpollCtl(op: CtlOp, fd: nat, next: Anfd, env: Env, ghost base: seq<Anfd>) returns (err: Errno)
      requires op != DEL && fd < |base| && GensOk(base, kernel) && next.egen == base[fd].egen + 1
      requires AcceptedOk(kernel, accepted) && next.emask <= IO
      modifies this`kernel, this`accepted
      ensures AcceptedOk(kernel, accepted)
      ensures accepted == if err == Ok then old(accepted)[fd := next.emask] else old(accepted)
      ensures err == Ok ==> GensOk(base[fd := next], kernel)
      ensures err == Ok ==> fd in kernel.live && kernel.live[fd] == Reg(next.egen, PollMask(next.emask))
      ensures err != Ok ==> GensOk(base, kernel) && kernel == Lost(old(kernel), fd, env.loss)
      ensures err == EEXIST <==> op == ADD && fd in Lost(old(kernel), fd, env.loss).live
      ensures err == ENOENT <==> op == MOD && fd !in Lost(old(kernel), fd, env.loss).live
      ensures fd in Lost(old(kernel), fd, env.loss).live <==> fd in old(kernel).live && env.loss == Kept
      ensures err == EPERM ==> fd !in kernel.live
      ensures kernel.orphans == Lost(old(kernel), fd, env.loss).orphans
      ensures err == Ok <==> env.fault == Ok && (op == MOD <==> fd in Lost(old(kernel), fd, env.loss).live)
      ensures op == ADD && fd !in Lost(old(kernel), fd, env.loss).live ==> (err == EPERM <==> env.fault == EPERM)
      ensures kernel.live - {fd} == old(kernel).live - {fd}
    {
      LostOk(base, kernel, fd, env.loss);
      RegisterOk(base, Lost(kernel, fd, env.loss), fd, next, PollMask(next.emask));
      var (k, e) := Ctl(Lost(kernel, fd, env.loss), op, fd, Reg(next.egen, PollMask(next.emask)), env.fault);
      kernel, err := k, e;
      if err == Ok {
        accepted := accepted[fd := next.emask];
      }
    }

    /** The descriptor was not registered: its generation is what it was. */
    method DecEgen(fd: nat, ghost base: seq<Anfd>)
      requires fd < |base| && |anfds| == |base| && anfds == base[fd := anfds[fd]] && anfds[fd].egen == base[fd].egen + 1
      requires GensOk(base, kernel) && EpermsOk(anfds, epoll_eperms) && AcceptedOk(kernel, accepted)
      modifies this`anfds
      ensures Valid() && anfds == base[fd := old(anfds)[fd].(egen := base[fd].egen)]
    {
      anfds := anfds[fd := anfds[fd].(egen := anfds[fd].egen - 1)];
      UnchangedOk(base, kernel, fd, anfds[fd]);
      assert anfds == base[fd := anfds[fd]];
    }

    /** The descriptor is of a kind that epoll refuses and that is always ready. */
    method Refuse(fd: nat, oldmask: Events, ghost base: seq<Anfd>)
      requires fd < |base| && |anfds| == |base| && anfds == base[fd := anfds[fd]] && anfds[fd].egen == base[fd].egen + 1
      requires GensOk(base, kernel) && EpermsOk(base, epoll_eperms) && oldmask == base[fd].emask && fd !in kernel.live
      requires anfds[fd].events == base[fd].events && AcceptedOk(kernel, accepted)
      modifies this`anfds, this`epoll_eperms
      ensures Valid() && anfds == base[fd := old(anfds)[fd].(emask := {EV_EMASK_EPERM})] && fd in epoll_eperms
    {
      anfds := anfds[fd := anfds[fd].(emask := {EV_EMASK_EPERM})];
      UnchangedOk(base, kernel, fd, anfds[fd]);
      assert anfds == base[fd := anfds[fd]];
      if EV_EMASK_EPERM !in oldmask {
        epoll_eperms := epoll_eperms + [fd];
      }
    }

    /** The second call of epoll_ctl, after which the descriptor is registered or killed. */
    method Retry(op: CtlOp, fd: nat, next: Anfd, env: Env, ghost base: seq<Anfd>) returns (outcome: Outcome)
      requires op != DEL && fd < |base| && GensOk(base, kernel) && AcceptedOk(kernel, accepted) && next.emask <= IO
      requires anfds == base[fd := next] && next.egen == base[fd].egen + 1 && EpermsOk(anfds, epoll_eperms)
      modifies this`anfds, this`kernel, this`accepted
      ensures Valid() && fd < |anfds| == |base|
      ensures anfds == base[fd := if outcome == Registered then next else next.(egen := base[fd].egen)]
      ensures var there := fd in Lost(old(kernel), fd, env.loss).live;
        outcome == if env.fault == Ok && (op == MOD <==> there) then Registered else Killed
      ensures outcome == Registered ==> fd in kernel.live && kernel.live[fd] == Reg(next.egen, PollMask(next.emask))
      ensures accepted == if outcome == Registered then old(accepted)[fd := next.emask] else old(accepted)
      ensures outcome == Killed && env.loss == Kept ==> kernel == old(kernel)
      ensures kernel.live - {fd} == old(kernel).live - {fd}
      ensures env.loss == Kept ==> kernel.orphans == old(kernel).orphans
    {
      var err := EpollCtl(op, fd, next, env, base);
      if err == Ok {
        return Registered;
      }
      DecEgen(fd, base);
      return Killed;
    }

    /** epoll_modify for a mask that is not empty: at most two calls of epoll_ctl. */
    method Attempt(fd: nat, oev: Events, nev: Events, env1: Env, env2: Env) returns (outcome: Outcome)
      requires Valid() && fd < |anfds| && {} != nev <= IO
      modifies this`anfds, this`kernel, this`epoll_eperms, this`accepted
      ensures Valid() && |anfds| == |old(anfds)| && anfds == old(anfds)[fd := anfds[fd]]
      ensures outcome == OutcomeOf(old(kernel), old(anfds)[fd].emask, fd, oev, nev, env1, env2)
      ensures outcome == Registered ==> fd in kernel.live && kernel.live[fd] == Reg(anfds[fd].egen, PollMask(nev))
      ensures outcome == Skipped ==> anfds == old(anfds) && kernel == old(kernel) && fd in kernel.live
      ensures anfds[fd].egen == old(anfds)[fd].egen + if outcome == Registered || outcome == Refused then 1 else 0
      ensures env1.loss == Kept && env2.loss == Kept ==> kernel.orphans == old(kernel).orphans
      ensures accepted == if outcome == Registered then old(accepted)[fd := nev]
                          else if outcome == Refused then old(accepted) - {fd} else old(accepted)
      ensures outcome == Refused ==> fd !in kernel.live && anfds[fd].emask == {EV_EMASK_EPERM} && fd in epoll_eperms
      ensures outcome == Killed && env1.loss == Kept && env2.loss == Kept ==> kernel == old(kernel)
      ensures outcome != Refused ==> anfds[fd].emask == nev
      ensures kernel.live - {fd} == old(kernel).live - {fd}
    {
      ghost var base := anfds;
      var oldmask, next := anfds[fd].emask, Anfd(anfds[fd].events, nev, anfds[fd].egen + 1);
      anfds := anfds[fd := next];
      var err := EpollCtl(if oev != {} && oldmask != nev then MOD else ADD, fd, next, env1, base);
      if err == Ok {
        return Registered;
      }
      if err == ENOENT {
        outcome := Retry(ADD, fd, next, env2, base);
      } else if err == EEXIST && oldmask != nev {
        outcome := Retry(MOD, fd, next, env2, base);
      } else if err == EEXIST {
        DecEgen(fd, base);
        assert anfds == base;
        outcome := Skipped;
      } else if err == EPERM {
        Refuse(fd, oldmask, base);
        accepted := accepted - {fd};
        outcome := Refused;
      } else {
        DecEgen(fd, base);
        outcome := Killed;
      }
    }

    /** epoll_modify. */
    method Modify(fd: nat, oev: Events, nev: Events, env1: Env, env2: Env) returns (outcome: Outcome)
      requires Valid() && fd < |anfds| && nev <= IO
      modifies this`anfds, this`kernel, this`epoll_eperms, this`accepted
      ensures Valid() && |anfds| == |old(anfds)|
      ensures outcome == OutcomeOf(old(kernel), old(anfds)[fd].emask, fd, oev, nev, env1, env2)
      ensures outcome == Ignored ==> anfds == old(anfds) && kernel == old(kernel)
      ensures anfds[fd].egen == old(anfds)[fd].egen + if outcome == Registered || outcome == Refused then 1 else 0
      ensures env1.loss == Kept && env2.loss == Kept ==> kernel.orphans == old(kernel).orphans
      ensures outcome == Registered ==> fd in kernel.live && kernel.live[fd] == Reg(anfds[fd].egen, PollMask(nev))
      ensures outcome == Skipped ==> anfds == old(anfds) && kernel == old(kernel) && anfds[fd].emask == nev
      ensures outcome == Skipped ==> fd in kernel.live && kernel.live[fd].serial == anfds[fd].egen
      ensures outcome == Registered || outcome == Skipped ==>
        (fd in kernel.live && kernel.live[fd] == Reg(anfds[fd].egen, PollMask(nev))
         <==> outcome == Registered || (fd in old(accepted) && old(accepted)[fd] == nev))
      ensures accepted == if outcome == Registered then old(accepted)[fd := nev]
                          else if outcome == Refused then old(accepted) - {fd} else old(accepted)
      ensures outcome == Registered || outcome == Refused ==> !Suspect(fd)
      ensures outcome == Ignored || outcome == Skipped ==> (Suspect(fd) <==> old(Suspect(fd)))
      ensures outcome == Refused ==> fd !in kernel.live && anfds[fd].emask == {EV_EMASK_EPERM} && fd in epoll_eperms
      ensures outcome == Killed && env1.loss == Kept && env2.loss == Kept ==> kernel == old(kernel)
      ensures outcome != Ignored && outcome != Refused ==> anfds[fd].emask == nev
      ensures forall f {:trigger anfds[f]} :: 0 <= f < |anfds| && f != fd ==> anfds[f] == old(anfds)[f]
      ensures kernel.live - {fd} == old(kernel).live - {fd}
      ensures nev != {} && env1.fault == Ok && env2 == Env(Kept, Ok) ==>
        fd in kernel.live && (outcome == Registered || (outcome == Skipped && old(anfds)[fd].emask == nev))
    {
      if nev == {} {
        return Ignored;
      }
      outcome := Attempt(fd, oev, nev, env1, env2);
      if outcome == Skipped {
        assert GenOk(anfds, kernel, fd);
        AcceptedDecides(kernel, accepted, fd, nev);
      }
    }

    /** fd_reify stores the events its watchers want. */
    method SetEvents(fd: nat, events: Events)
      requires Valid() && fd < |anfds| && events <= IO
      modifies this`anfds
      ensures Valid() && anfds == old(anfds)[fd := old(anfds)[fd].(events := events)]
      ensures forall f: nat {:trigger Suspect(f)} :: Suspect(f) <==> old(Suspect(f))
    {
      UnchangedOk(anfds, kernel, fd, anfds[fd].(events := events));
      anfds := anfds[fd := anfds[fd].(events := events)];
    }

    /** The program closes a descriptor. */
    method Close(fd: nat, loss: Loss)
      requires Valid()
      modifies this`kernel
      ensures Valid() && kernel == Lost(old(kernel), fd, loss)
    {
      LostOk(anfds, kernel, fd, loss);
      kernel := Lost(kernel, fd, loss);
    }

    /** epoll_fork: a new epoll descriptor, and every descriptor in use is to be registered again. */
    method Recreate()
      requires Valid()
      modifies this`kernel, this`anfds, this`accepted
      ensures Valid() && |anfds| == |old(anfds)| && kernel == Kernel(map[], {})
      ensures forall fd {:trigger anfds[fd]} :: 0 <= fd < |anfds| ==>
        anfds[fd] == if old(anfds)[fd].events != {} then Anfd({}, {}, old(anfds)[fd].egen) else old(anfds)[fd]
      ensures forall fd: nat {:trigger Suspect(fd)} :: !Suspect(fd)
    {
      kernel, accepted := Kernel(map[], {}), map[];
      for fd := 0 to |anfds|
        invariant |anfds| == |old(anfds)| && kernel == Kernel(map[], {}) && accepted == map[]
        invariant forall f {:trigger anfds[f]} :: 0 <= f < |anfds| ==>
          anfds[f] == if f < fd && old(anfds)[f].events != {} then Anfd({}, {}, old(anfds)[f].egen) else old(anfds)[f]
      {
        if anfds[fd].events != {} {
          anfds := anfds[fd := Anfd({}, {}, anfds[fd].egen)];
        }
      }
      forall fd: nat ensures GenOk(anfds, kernel, fd) {
      }
    }

    /** The generation test tells the events of the current generation. */
    ghost predicate Telling(e: Event)
      reads this`anfds
    {
      e.fd < |anfds| && (Fresh(anfds, e) <==> e.serial == anfds[e.fd].egen)
    }

    /** The answer to an unwanted event: the registration is changed, or removed. */
    method Withdraw(e: Event, env: Env) returns (err: Errno)
      requires Valid() && Unwanted(anfds, e)
      modifies this`anfds, this`kernel, this`accepted
      ensures Valid() && anfds == old(anfds)[e.fd := old(anfds)[e.fd].(emask := old(anfds)[e.fd].events)]
      ensures err == Ok <==> env.fault == Ok && e.fd in Lost(old(kernel), e.fd, env.loss).live
      ensures err == Ok ==> InLine(anfds, kernel, e.fd) && kernel.orphans == old(kernel).orphans
      ensures err != Ok ==> kernel == Lost(old(kernel), e.fd, env.loss)
      ensures kernel.live - {e.fd} == old(kernel).live - {e.fd}
      ensures forall f: nat {:trigger Suspect(f)} :: Suspect(f) && (f != e.fd || err == Ok) ==> old(Suspect(f))
    {
      var a := anfds[e.fd];
      var next := a.(emask := a.events);
      ghost var base := anfds;
      anfds := anfds[e.fd := next];
      ghost var k1 := Lost(kernel, e.fd, env.loss);
      LostOk(base, kernel, e.fd, env.loss);
      UnchangedOk(base, k1, e.fd, next);
      if e.fd in k1.live {
        RemaskOk(base, k1, e.fd, next, PollMask(a.events));
      }
      var (k, answer) := Ctl(Lost(kernel, e.fd, env.loss), if a.events != {} then MOD else DEL, e.fd,
                             Reg(e.serial, PollMask(a.events)), env.fault);
      kernel, err := k, answer;
      if err == Ok {
        accepted := if a.events != {} then accepted[e.fd := a.events] else accepted - {e.fd};
      }
    }

    /** The loop body of epoll_poll: whether the event reaches fd_event. */
    method PollOne(e: Event, env: Env) returns (pass: bool)
      requires Valid() && Telling(e)
      modifies this`anfds, this`kernel, this`postfork, this`accepted
      ensures Valid() && SameWishes(old(anfds), anfds) && postfork == (old(postfork) || !pass)
      ensures !Unwanted(old(anfds), e) ==> pass == (e.serial == anfds[e.fd].egen)
      ensures !Unwanted(old(anfds), e) ==> anfds == old(anfds) && kernel == old(kernel) && accepted == old(accepted)
      ensures Unwanted(old(anfds), e) ==> pass == (env.fault == Ok && e.fd in Lost(old(kernel), e.fd, env.loss).live)
      ensures Unwanted(old(anfds), e) ==>
        anfds == old(anfds)[e.fd := old(anfds)[e.fd].(emask := old(anfds)[e.fd].events)]
      ensures Unwanted(old(anfds), e) && pass ==> InLine(anfds, kernel, e.fd)
      ensures Unwanted(old(anfds), e) && !pass ==> kernel == Lost(old(kernel), e.fd, env.loss)
      ensures kernel.live - {e.fd} == old(kernel).live - {e.fd}
      ensures pass ==> forall f: nat {:trigger Suspect(f)} :: Suspect(f) ==> old(Suspect(f))
    {
      var a := anfds[e.fd];
      if a.egen % WORD != e.serial % WORD {
        postfork := true;
        return false;
      }
      if !(e.got <= a.events) {
        var err := Withdraw(e, env);
        if err != Ok {
          postfork := true;
          return false;
        }
      }
      return true;
    }

    /** The same, as one of a batch. */
    method PollNext(e: Event, env: Env) returns (pass: bool)
      requires Valid() && Telling(e)
      modifies this`anfds, this`kernel, this`postfork, this`accepted
      ensures Valid() && Answered(old(anfds), old(kernel), e, pass, anfds, kernel)
      ensures postfork == (old(postfork) || !pass)
      ensures !Unwanted(old(anfds), e) ==> pass == (e.serial == anfds[e.fd].egen)
      ensures Unwanted(old(anfds), e) && env.fault != Ok ==> !pass
      ensures pass ==> forall f: nat {:trigger Suspect(f)} :: Suspect(f) ==> old(Suspect(f))
    {
      pass := PollOne(e, env);
      forall fd: nat | fd != e.fd || !Unwanted(old(anfds), e)
        ensures Alike(old(anfds), old(kernel), anfds, kernel, fd)
      {
        if fd != e.fd {
          OthersAlike(old(kernel), kernel, e.fd, fd);
        }
      }
    }

    lemma AllTell(batch: seq<Event>)
      requires Valid() && forall i {:trigger batch[i]} :: 0 <= i < |batch| ==>
        Genuine(kernel, batch[i]) && Young(anfds, batch[i])
      ensures forall i {:trigger batch[i]} :: 0 <= i < |batch| ==>
        Telling(batch[i]) && Currently(anfds, kernel, batch[i])
    {
      forall i | 0 <= i < |batch| ensures Telling(batch[i]) && Currently(anfds, kernel, batch[i]) {
        FreshIsCurrent(anfds, kernel, batch[i]);
      }
    }

    /** The event loop of epoll_poll: the events of the batch that reach fd_event. */
    method Poll(batch: seq<Event>, envs: nat -> Env) returns (fed: seq<Event>, ghost passed: seq<bool>)
      requires Valid() && forall i {:trigger batch[i]} :: 0 <= i < |batch| ==>
        Genuine(kernel, batch[i]) && Young(anfds, batch[i])
      modifies this`anfds, this`kernel, this`postfork, this`accepted
      ensures Valid() && |passed| == |batch| && fed == Passing(batch, passed)
      ensures forall i {:trigger batch[i]} :: 0 <= i < |batch| ==>
        Judged(old(anfds), old(kernel), batch[i], passed[i], envs(i))
      ensures postfork == (old(postfork) || false in passed)
      ensures AllAnswered(old(anfds), old(kernel), batch, |batch|, false !in passed, anfds, kernel)
      ensures false !in passed ==> forall f: nat {:trigger Suspect(f)} :: Suspect(f) ==> old(Suspect(f))
    {
      fed, passed := [], [];
      ghost var a, k := anfds, kernel;
      AllTell(batch);
      for i := 0 to |batch|
        invariant Valid() && |passed| == i && fed == Passing(batch[..i], passed)
        invariant AllAnswered(a, k, batch, i, false !in passed, anfds, kernel)
        invariant forall j {:trigger batch[j]} :: 0 <= j < |batch| ==> Telling(batch[j])
        invariant forall j {:trigger batch[j]} :: 0 <= j < i ==> Judged(a, k, batch[j], passed[j], envs(j))
        invariant postfork == (old(postfork) || false in passed)
        invariant false !in passed ==> forall f: nat {:trigger Suspect(f)} :: Suspect(f) ==> old(Suspect(f))
      {
        ghost var a1, k1 := anfds, kernel;
        var pass := PollNext(batch[i], envs(i));
        OneMoreAnswered(a, k, batch, i, false !in passed, a1, k1, pass, anfds, kernel);
        assert batch[..i + 1][..i] == batch[..i] && (passed + [pass])[..i] == passed;
        passed := passed + [pass];
        if pass {
          fed := fed + [batch[i]];
        }
      }
      assert batch[..|batch|] == batch;
    }

    /** The last descriptor of the list takes the place of the i-th, or the list loses its end. */
    method Unlist(i: nat, ghost tail: seq<nat>) returns (ghost tail': seq<nat>)
      requires i + 1 + |tail| == |epoll_eperms| && epoll_eperms[i + 1..] == tail
      modifies this`epoll_eperms
      ensures epoll_eperms == old(epoll_eperms[..i]) + tail' && multiset(tail') == multiset(tail)
    {
      var n := |epoll_eperms| - 1;
      tail' := if tail == [] then [] else [tail[|tail| - 1]] + tail[..|tail| - 1];
      assert tail != [] ==> tail == tail[..|tail| - 1] + [tail[|tail| - 1]];
      epoll_eperms := epoll_eperms[i := epoll_eperms[n]];
      epoll_eperms := epoll_eperms[..n];
    }

    /** One of them. */
    method MakeUpOne(i: nat, fed: seq<Ready>, ghost a: seq<Anfd>, ghost l: seq<nat>, ghost tail: seq<nat>)
        returns (fed': seq<Ready>, ghost tail': seq<nat>)
      requires i < |l| && l[i] < |a| && MakingUp(a, l, i + 1, tail, fed, anfds, epoll_eperms)
      modifies this`anfds, this`epoll_eperms
      ensures MakingUp(a, l, i, tail', fed', anfds, epoll_eperms)
    {
      var fd := epoll_eperms[i];
      assert fd == l[..i + 1][i] && epoll_eperms[..i] == l[..i];
      if EV_EMASK_EPERM in anfds[fd].emask && anfds[fd].events != {} {
        Wanted1(a, l, i, tail, fed, anfds, epoll_eperms);
        fed', tail' := fed + [Ready(fd, anfds[fd].events)], [fd] + tail;
      } else {
        ghost var a', l' := anfds, epoll_eperms;
        fed' := fed;
        tail' := Unlist(i, tail);
        anfds := anfds[fd := anfds[fd].(emask := {})];
        Unwanted1(a, l, i, tail, fed, a', l', tail');
      }
    }

    /** The end of epoll_poll, where events are made up for the descriptors that epoll refuses: for each in the list,
        from its end on, what its watchers want; one that is no longer refused or wanted leaves the list, the last one
        taking its place. */
    method MakeUp() returns (fed: seq<Ready>)
      requires Valid()
      modifies this`anfds, this`epoll_eperms
      ensures Valid() && fed == MadeUp(old(anfds), old(epoll_eperms))
      ensures multiset(epoll_eperms) == multiset(Remaining(old(anfds), old(epoll_eperms)))
      ensures Visited(old(anfds), old(epoll_eperms), 0, anfds)
    {
      fed := [];
      ghost var a, l, tail := anfds, epoll_eperms, [];
      var i := |epoll_eperms|;
      assert l[..i] == l;
      while i > 0
        invariant i <= |l| && MakingUp(a, l, i, tail, fed, anfds, epoll_eperms)
      {
        i := i - 1;
        assert l[i] in l;
        fed, tail := MakeUpOne(i, fed, a, l, tail);
      }
      VisitedOk(a, l, anfds, epoll_eperms, kernel);
    }
  }

  /** What the generations are for: the program closes a descriptor whose file stays open elsewhere, and the number is
      used again. The old registration lives on as an orphan. Its event is told from those of the new one, and
      dropped. */
  method StaleEventExample() returns (b: EpollBackend, fed: seq<Event>, ghost k: Kernel)
    ensures Genuine(k, Event(0, 1, {EV_READ})) && 0 in k.live && k.live[0].serial == 2
    ensures |b.anfds| == 1 && InLine(b.anfds, b.kernel, 0) == InLine(b.anfds, k, 0) && b.postfork && fed == []
  {
    b := new EpollBackend(1);
    var fine := Env(Kept, Ok);
    var o1 := b.Modify(0, {}, {EV_READ}, fine, fine);
    b.Close(0, Orphaned);
    var o2 := b.Modify(0, {}, {EV_READ}, fine, fine);
    var late := Event(0, 1, {EV_READ});
    assert (0, Reg(1, PollMask({EV_READ}))) in b.kernel.orphans;
    k := b.kernel;
    ghost var a, passed := b.anfds, [];
    fed, passed := b.Poll([late], _ => fine);
    assert Judged(a, k, [late][0], passed[0], fine) && Alike(a, k, b.anfds, b.kernel, 0);
  }

  /** A mask can be stale: a change that fails while the registration stays leaves the loop believing in it, and the
      next call with the same mask trusts that belief. */
  method StaleMaskExample() returns (b: EpollBackend, outcome: Outcome)
    ensures |b.anfds| == 1 && 0 in b.kernel.live && outcome == Skipped && b.Suspect(0)
    ensures b.anfds[0].emask == {EV_WRITE} && b.kernel.live[0].mask == PollMask({EV_READ}) != PollMask({EV_WRITE})
  {
    b := new EpollBackend(1);
    var fine := Env(Kept, Ok);
    var o1 := b.Modify(0, {}, {EV_READ}, fine, fine);
    assert b.anfds[0].emask == {EV_READ};
    var o2 := b.Modify(0, {EV_READ}, {EV_WRITE}, Env(Kept, Other), fine);
    outcome := b.Modify(0, {}, {EV_WRITE}, fine, fine);
    assert POLLIN in PollMask({EV_READ}) && POLLIN !in PollMask({EV_WRITE});
  }
}
