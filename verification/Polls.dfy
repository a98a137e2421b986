/**
  The poll backend: a dense array of poll entries, the index of each descriptor's entry, and removal by
  moving the last entry into the gap.
 */
module Polls {
  import opened PendingSpec

  const EV_READ: nat := 0   // bit numbers of the masks 0x01 and 0x02
  const EV_WRITE: nat := 1
  const POLLIN: nat := 0    // bit numbers of the masks 0x001 and 0x004
  const POLLOUT: nat := 2

  /** What poll is asked to wait for. */
  function PollMask(ev: Events): Events {
    (if EV_READ in ev then {POLLIN} else {}) + (if EV_WRITE in ev then {POLLOUT} else {})
  }

  /** Reading is asked for by the one bit, and writing by the other. */
  lemma PollMaskBits(ev: Events)
    ensures POLLIN in PollMask(ev) <==> EV_READ in ev
    ensures POLLOUT in PollMask(ev) <==> EV_WRITE in ev
    ensures PollMask(ev) <= {POLLIN, POLLOUT}
  {
  }

  /** The poll mask tells the events wanted. */
  lemma PollMaskTells(a: Events, b: Events)
    requires a <= {EV_READ, EV_WRITE} && b <= {EV_READ, EV_WRITE} && PollMask(a) == PollMask(b)
    ensures a == b
  {
    PollMaskBits(a);
    PollMaskBits(b);
  }

  datatype PollFd = PollFd(fd: nat, events: Events)

  /** The descriptor has no entry, or its index leads to its entry. */
  predicate FdOk(polls: seq<PollFd>, idxs: seq<int>, fd: int)
    requires 0 <= fd < |idxs|
  {
    idxs[fd] == -1 || (0 <= idxs[fd] < |polls| && polls[idxs[fd]].fd == fd)
  }

  /** The entry is the one its descriptor's index leads to. */
  predicate EntryOk(polls: seq<PollFd>, idxs: seq<int>, i: int)
    requires 0 <= i < |polls|
  {
    polls[i].fd < |idxs| && idxs[polls[i].fd] == i
  }

  /** Entries and indices are inverse to each other. */
  predicate Inverse(polls: seq<PollFd>, idxs: seq<int>) {
    && (forall fd {:trigger FdOk(polls, idxs, fd)} :: 0 <= fd < |idxs| ==> FdOk(polls, idxs, fd))
    && (forall i {:trigger EntryOk(polls, idxs, i)} :: 0 <= i < |polls| ==> EntryOk(polls, idxs, i))
  }

  /** What the array asks of a descriptor: nothing, or the mask of its entry. */
  datatype Asked = Nothing | Mask(events: Events)

  function AskedOf(polls: seq<PollFd>, idxs: seq<int>, fd: nat): Asked {
    if fd < |idxs| && 0 <= idxs[fd] < |polls| then Mask(polls[idxs[fd]].events) else Nothing
  }

  /** An entry for a descriptor is the only one, and is what is asked of it. */
  lemma OneEntry(polls: seq<PollFd>, idxs: seq<int>, i: nat, j: nat)
    requires Inverse(polls, idxs) && i < |polls| && j < |polls| && polls[i].fd == polls[j].fd
    ensures i == j && AskedOf(polls, idxs, polls[i].fd) == Mask(polls[i].events)
  {
    assert EntryOk(polls, idxs, i) && EntryOk(polls, idxs, j);
  }

  /** A descriptor of which something is asked has an entry. */
  lemma HasEntry(polls: seq<PollFd>, idxs: seq<int>, fd: nat)
    requires Inverse(polls, idxs) && AskedOf(polls, idxs, fd) != Nothing
    ensures exists i {:trigger polls[i]} :: 0 <= i < |polls| && polls[i] == PollFd(fd, AskedOf(polls, idxs, fd).events)
  {
    assert FdOk(polls, idxs, fd);
    assert polls[idxs[fd]].fd == fd;
  }

  ghost predicate SameElsewhere(p0: seq<PollFd>, x0: seq<int>, p: seq<PollFd>, x: seq<int>, fd: nat) {
    forall f: nat {:trigger AskedOf(p, x, f)} :: f != fd ==> AskedOf(p, x, f) == AskedOf(p0, x0, f)
  }

  lemma GrowFacts(polls: seq<PollFd>, x0: seq<int>, x: seq<int>)
    requires Inverse(polls, x0) && |x0| <= |x| && x[..|x0|] == x0
    requires forall f {:trigger x[f]} :: |x0| <= f < |x| ==> x[f] == -1
    ensures Inverse(polls, x)
    ensures forall f: nat {:trigger AskedOf(polls, x, f)} :: AskedOf(polls, x, f) == AskedOf(polls, x0, f)
  {
    forall f | 0 <= f < |x| ensures FdOk(polls, x, f) {
      assert f < |x0| ==> x[f] == x0[f] && FdOk(polls, x0, f);
    }
    forall i | 0 <= i < |polls| ensures EntryOk(polls, x, i) {
      assert EntryOk(polls, x0, i);
    }
  }

  lemma AllocFacts(p0: seq<PollFd>, x0: seq<int>, fd: nat)
    requires Inverse(p0, x0) && fd < |x0| && x0[fd] == -1
    ensures var p, x := p0 + [PollFd(fd, {})], x0[fd := |p0|]; Inverse(p, x) && SameElsewhere(p0, x0, p, x, fd)
  {
    var p, x := p0 + [PollFd(fd, {})], x0[fd := |p0|];
    forall f | 0 <= f < |x| ensures FdOk(p, x, f) {
      assert FdOk(p0, x0, f);
    }
    forall i | 0 <= i < |p| ensures EntryOk(p, x, i) {
      assert i < |p0| ==> EntryOk(p0, x0, i);
    }
    forall f: nat | f != fd ensures AskedOf(p, x, f) == AskedOf(p0, x0, f) {
      assert f < |x0| ==> FdOk(p0, x0, f);
    }
  }

  lemma SetFacts(p0: seq<PollFd>, x: seq<int>, i: nat, events: Events)
    requires Inverse(p0, x) && i < |p0|
    ensures var p := p0[i := PollFd(p0[i].fd, events)];
      Inverse(p, x) && SameElsewhere(p0, x, p, x, p0[i].fd) && AskedOf(p, x, p0[i].fd) == Mask(events)
  {
    var p := p0[i := PollFd(p0[i].fd, events)];
    assert EntryOk(p0, x, i);
    forall f | 0 <= f < |x| ensures FdOk(p, x, f) {
      assert FdOk(p0, x, f);
    }
    forall j | 0 <= j < |p| ensures EntryOk(p, x, j) {
      assert EntryOk(p0, x, j);
    }
    forall f: nat | f != p0[i].fd ensures AskedOf(p, x, f) == AskedOf(p0, x, f) {
      assert f < |x| ==> FdOk(p0, x, f);
    }
  }

  /** The entries without entry i, whose place the last one takes. */
  function CutPolls(p: seq<PollFd>, i: nat): seq<PollFd>
    requires i < |p|
  {
    p[i := p[|p| - 1]][..|p| - 1]
  }

  lemma CutFacts(p0: seq<PollFd>, x0: seq<int>, i: nat)
    requires Inverse(p0, x0) && i < |p0|
    ensures p0[i].fd < |x0| && p0[|p0| - 1].fd < |x0|
    ensures var n, p := |p0| - 1, CutPolls(p0, i);
            var x1 := x0[p0[i].fd := -1];
            var x := if i < n then x1[p0[n].fd := i] else x1;
      Inverse(p, x) && SameElsewhere(p0, x0, p, x, p0[i].fd) && AskedOf(p, x, p0[i].fd) == Nothing
  {
    var n, p := |p0| - 1, CutPolls(p0, i);
    assert EntryOk(p0, x0, i) && EntryOk(p0, x0, n);
    var x1 := x0[p0[i].fd := -1];
    var x := if i < n then x1[p0[n].fd := i] else x1;
    forall j | 0 <= j < |p| ensures EntryOk(p, x, j) {
      assert EntryOk(p0, x0, j);
    }
    forall f | 0 <= f < |x| ensures FdOk(p, x, f) {
      assert FdOk(p0, x0, f);
    }
    forall f: nat | f != p0[i].fd ensures AskedOf(p, x, f) == AskedOf(p0, x0, f) {
      if f < |x0| {
        assert FdOk(p0, x0, f);
      }
    }
  }

  class PollBackend {
    var polls: seq<PollFd>
    var pollidxs: seq<int>

    ghost predicate Valid()
      reads this
    {
      Inverse(polls, pollidxs)
    }

    ghost function Asks(fd: nat): Asked
      reads this
    {
      AskedOf(polls, pollidxs, fd)
    }

    constructor ()
      ensures Valid() && forall fd: nat {:trigger Asks(fd)} :: Asks(fd) == Nothing
    {
      polls, pollidxs := [], [];
    }

    /** The index array reaches the descriptor; new indices are -1. */
    method NeedSize(fd: nat)
      requires Valid()
      modifies this`pollidxs
      ensures Valid() && fd < |pollidxs|
      ensures forall f: nat {:trigger Asks(f)} :: Asks(f) == old(Asks(f))
    {
      if |pollidxs| < fd + 1 {
        ghost var x0 := pollidxs;
        pollidxs := pollidxs + seq(fd + 1 - |pollidxs|, _ => -1);
        GrowFacts(polls, x0, pollidxs);
      }
    }

    /** The index of the descriptor's entry, a new one if it has none. */
    method EntryFor(fd: nat) returns (idx: nat)
      requires Valid() && fd < |pollidxs|
      modifies this
      ensures Valid() && idx < |polls| && polls[idx].fd == fd && fd < |pollidxs|
      ensures forall f: nat {:trigger Asks(f)} :: f != fd ==> Asks(f) == old(Asks(f))
    {
      assert FdOk(polls, pollidxs, fd);
      if pollidxs[fd] < 0 {
        ghost var p0, x0 := polls, pollidxs;
        AllocFacts(p0, x0, fd);
        idx := |polls|;
        pollidxs := pollidxs[fd := idx];
        polls := polls + [PollFd(fd, {})];
      } else {
        idx := pollidxs[fd];
      }
    }

    method SetEvents(idx: nat, events: Events)
      requires Valid() && idx < |polls|
      modifies this`polls
      ensures Valid() && Asks(old(polls[idx].fd)) == Mask(events)
      ensures forall f: nat {:trigger Asks(f)} :: f != old(polls[idx].fd) ==> Asks(f) == old(Asks(f))
    {
      SetFacts(polls, pollidxs, idx, events);
      polls := polls[idx := PollFd(polls[idx].fd, events)];
    }

    method Remove(idx: nat)
      requires Valid() && idx < |polls|
      modifies this
      ensures Valid() && Asks(old(polls[idx].fd)) == Nothing
      ensures forall f: nat {:trigger Asks(f)} :: f != old(polls[idx].fd) ==> Asks(f) == old(Asks(f))
    {
      CutFacts(polls, pollidxs, idx);
      pollidxs := pollidxs[polls[idx].fd := -1];
      var n := |polls| - 1;
      if idx < n {
        polls := polls[idx := polls[n]][..n];
        pollidxs := pollidxs[polls[idx].fd := idx];
      } else {
        polls := polls[..n];
        assert polls == CutPolls(old(polls), idx);
      }
    }

    /** poll_modify. */
    method Modify(fd: nat, oev: Events, nev: Events)
      requires Valid()
      modifies this
      ensures Valid()
      ensures oev == nev ==> Asks(fd) == old(Asks(fd))
      ensures oev != nev ==> Asks(fd) == if nev == {} then Nothing else Mask(PollMask(nev))
      ensures forall f: nat {:trigger Asks(f)} :: f != fd ==> Asks(f) == old(Asks(f))
    {
      if oev == nev {
        return;
      }
      NeedSize(fd);
      var idx := EntryFor(fd);
      if nev != {} {
        SetEvents(idx, PollMask(nev));
      } else {
        Remove(idx);
      }
    }
  }
}
